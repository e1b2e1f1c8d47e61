/**
 * `process_agency` without its store write: measure every CFR reference of
 * an agency in order, add up the word counts and the word-weighted scores,
 * and divide each weighted sum by the total word count.
 */
module Aggregation {
  import opened Wrappers
  import opened Cfr
  import opened ReferenceMetrics

  /** One entry of the title list: a title number and its latest issue date. */
  datatype TitleMeta = TitleMeta(number: int, latestIssueDate: string)

  datatype Agency = Agency(slug: string, name: string, cfrReferences: seq<CfrReference>)

  /** The summary stored for an agency. */
  datatype Summary = Summary(totalWordCount: nat, averageFleschKincaid: Option<real>,
                             averageFleschReadingEase: Option<real>, averageSmog: Option<real>,
                             references: seq<Metrics>)

  /** The issue date of the last entry numbered `number`: the entry the dict comprehension keeps. */
  function LastIssueDate(titles: seq<TitleMeta>, number: int): (r: Option<string>)
    ensures r.None? <==> forall i :: 0 <= i < |titles| ==> titles[i].number != number
    ensures r.Some? ==> exists i :: 0 <= i < |titles| && titles[i].number == number
                                    && r.value == titles[i].latestIssueDate
                                    && forall j :: i < j < |titles| ==> titles[j].number != number
  {
    if titles == [] then None
    else if titles[|titles| - 1].number == number then Some(titles[|titles| - 1].latestIssueDate)
    else
      var init := titles[..|titles| - 1];
      var r := LastIssueDate(init, number);
      assert forall i :: 0 <= i < |init| ==> init[i] == titles[i];
      if r.Some? then
        var i :| 0 <= i < |init| && init[i].number == number && r.value == init[i].latestIssueDate
                 && forall j :: i < j < |init| ==> init[j].number != number;
        assert titles[i].number == number && r.value == titles[i].latestIssueDate
               && forall j :: i < j < |titles| ==> titles[j].number != number;
        r
      else r
  }

  /** `{t["number"]: t["latest_issue_date"] for t in titles_data}[reference["title"]]`. */
  function LatestIssueDate(titles: Option<seq<TitleMeta>>, number: int): (r: Result<string, Abort>)
    ensures titles.None? ==> r == Failure(TitlesUnavailable)
    ensures titles.Some? ==>
              (r.Success? <==> exists i :: 0 <= i < |titles.value| && titles.value[i].number == number)
              && (r.Failure? ==> r.error == UnknownTitle(number))
              && (r.Success? ==> exists i :: 0 <= i < |titles.value| && titles.value[i].number == number
                                             && r.value == titles.value[i].latestIssueDate)
  {
    match titles
    case None => Failure(TitlesUnavailable)
    case Some(ts) =>
      match LastIssueDate(ts, number)
      case None => Failure(UnknownTitle(number))
      case Some(d) => Success(d)
  }

  /** One iteration of the reference loop: look up the date, then process the reference. */
  function MeasureReference(titles: Option<seq<TitleMeta>>, ref: CfrReference, up: Upstream, rd: Readability): Result<Metrics, Abort>
  {
    match LatestIssueDate(titles, ref.title)
    case Failure(e) => Failure(e)
    case Success(date) => ProcessReference(date, ref, up, rd)
  }

  /** `MeasureReference` with the title list, the services and the library fixed. */
  function Measurer(titles: Option<seq<TitleMeta>>, up: Upstream, rd: Readability): CfrReference -> Result<Metrics, Abort>
  {
    ref => MeasureReference(titles, ref, up, rd)
  }

  /** The metrics of the references in order, or the first failure. */
  function MeasureAll(refs: seq<CfrReference>, measure: CfrReference -> Result<Metrics, Abort>): (r: Result<seq<Metrics>, Abort>)
    ensures r.Success? ==> |r.value| == |refs|
  {
    if refs == [] then Success([])
    else
      match MeasureAll(refs[..|refs| - 1], measure)
      case Failure(e) => Failure(e)
      case Success(ms) =>
        match measure(refs[|refs| - 1])
        case Failure(e) => Failure(e)
        case Success(m) => Success(ms + [m])
  }

  datatype Score = FleschKincaid | FleschReadingEase | Smog

  function ScoreOf(m: Metrics, s: Score): Option<real>
  {
    match s
    case FleschKincaid => m.fleschKincaid
    case FleschReadingEase => m.fleschReadingEase
    case Smog => m.smog
  }

  function TotalWords(ms: seq<Metrics>): nat
  {
    if ms == [] then 0 else TotalWords(ms[..|ms| - 1]) + ms[|ms| - 1].wordCount
  }

  /** score * word_count of one record, 0 when it has no such score. */
  function Weighted(m: Metrics, s: Score): real
  {
    match ScoreOf(m, s)
    case Some(x) => x * m.wordCount as real
    case None => 0.0
  }

  function WeightedSum(ms: seq<Metrics>, s: Score): real
  {
    if ms == [] then 0.0 else WeightedSum(ms[..|ms| - 1], s) + Weighted(ms[|ms| - 1], s)
  }

  /** `w / t if t > 0 else None`. */
  function Quotient(w: real, t: nat): Option<real>
  {
    if t > 0 then Some(w / t as real) else None
  }

  /** The weighted sum over the total word count, None when there are no words. */
  function Average(ms: seq<Metrics>, s: Score): Option<real>
  {
    Quotient(WeightedSum(ms, s), TotalWords(ms))
  }

  function Summarize(ms: seq<Metrics>): Summary
  {
    Summary(TotalWords(ms), Average(ms, FleschKincaid), Average(ms, FleschReadingEase), Average(ms, Smog), ms)
  }

  /** The summary of an agency, or the failure of its first failing reference. */
  function AgencySummary(agency: Agency, titles: Option<seq<TitleMeta>>, up: Upstream, rd: Readability): (r: Result<Summary, Abort>)
    ensures r.Success? ==>
              |r.value.references| == |agency.cfrReferences|
              && (r.value.averageFleschKincaid.None? <==> r.value.totalWordCount == 0)
              && (r.value.averageFleschReadingEase.None? <==> r.value.totalWordCount == 0)
              && (r.value.averageSmog.None? <==> r.value.totalWordCount == 0)
  {
    match MeasureAll(agency.cfrReferences, Measurer(titles, up, rd))
    case Failure(e) => Failure(e)
    case Success(ms) => Success(Summarize(ms))
  }

  /** The body of `process_agency` before the store write: the reference loop and the division. */
  method Aggregate(agency: Agency, titles: Option<seq<TitleMeta>>, up: Upstream, rd: Readability)
      returns (r: Result<Summary, Abort>)
    ensures r == AgencySummary(agency, titles, up, rd)
  {
    var refs := agency.cfrReferences;
    ghost var measure := Measurer(titles, up, rd);
    var totalWordCount: nat := 0;
    var weightedFleschKincaid, weightedFleschReadingEase, weightedSmog := 0.0, 0.0, 0.0;
    var references: seq<Metrics> := [];
    var i := 0;
    while i < |refs|
      invariant 0 <= i <= |refs|
      invariant MeasureAll(refs[..i], measure) == Success(references)
      invariant totalWordCount == TotalWords(references)
      invariant weightedFleschKincaid == WeightedSum(references, FleschKincaid)
      invariant weightedFleschReadingEase == WeightedSum(references, FleschReadingEase)
      invariant weightedSmog == WeightedSum(references, Smog)
    {
      var data := MeasureReference(titles, refs[i], up, rd);
      assert data == measure(refs[i]);
      MeasureAllStep(refs, i, measure);
      if data.Failure? {
        FailureIsFinal(refs, i + 1, measure);
        return Failure(data.error);
      }
      var m := data.value;
      AppendRecord(references, m);
      totalWordCount := totalWordCount + m.wordCount;
      if m.fleschKincaid.Some? {
        weightedFleschKincaid := weightedFleschKincaid + m.fleschKincaid.value * m.wordCount as real;
      }
      if m.fleschReadingEase.Some? {
        weightedFleschReadingEase := weightedFleschReadingEase + m.fleschReadingEase.value * m.wordCount as real;
      }
      if m.smog.Some? {
        weightedSmog := weightedSmog + m.smog.value * m.wordCount as real;
      }
      references := references + [m];
      i := i + 1;
    }
    assert refs[..i] == refs;
    var averageFleschKincaid := if totalWordCount > 0 then Some(weightedFleschKincaid / totalWordCount as real) else None;
    var averageFleschReadingEase := if totalWordCount > 0 then Some(weightedFleschReadingEase / totalWordCount as real) else None;
    var averageSmog := if totalWordCount > 0 then Some(weightedSmog / totalWordCount as real) else None;
    r := Success(Summary(totalWordCount, averageFleschKincaid, averageFleschReadingEase, averageSmog, references));
  }

  /** Once a prefix of the references fails, the whole list fails the same way. */
  lemma {:induction false} FailureIsFinal(refs: seq<CfrReference>, k: nat, measure: CfrReference -> Result<Metrics, Abort>)
    requires k <= |refs| && MeasureAll(refs[..k], measure).Failure?
    ensures MeasureAll(refs, measure) == MeasureAll(refs[..k], measure)
    decreases |refs|
  {
    if k < |refs| {
      var init := refs[..|refs| - 1];
      assert init[..k] == refs[..k];
      FailureIsFinal(init, k, measure);
    } else {
      assert refs[..k] == refs;
    }
  }

  /** Measuring one more reference extends the prefix's result by that reference's result. */
  lemma {:induction false} MeasureAllStep(refs: seq<CfrReference>, i: nat, measure: CfrReference -> Result<Metrics, Abort>)
    requires i < |refs|
    ensures MeasureAll(refs[..i + 1], measure) ==
              match MeasureAll(refs[..i], measure)
              case Failure(e) => Failure(e)
              case Success(ms) =>
                match measure(refs[i])
                case Failure(e) => Failure(e)
                case Success(m) => Success(ms + [m])
  {
    assert refs[..i + 1][..i] == refs[..i];
  }

  /** Appending a record adds its words and its weighted scores. */
  lemma {:induction false} AppendRecord(ms: seq<Metrics>, m: Metrics)
    ensures TotalWords(ms + [m]) == TotalWords(ms) + m.wordCount
    ensures WeightedSum(ms + [m], FleschKincaid) ==
              if m.fleschKincaid.Some? then WeightedSum(ms, FleschKincaid) + m.fleschKincaid.value * m.wordCount as real
              else WeightedSum(ms, FleschKincaid)
    ensures WeightedSum(ms + [m], FleschReadingEase) ==
              if m.fleschReadingEase.Some? then WeightedSum(ms, FleschReadingEase) + m.fleschReadingEase.value * m.wordCount as real
              else WeightedSum(ms, FleschReadingEase)
    ensures WeightedSum(ms + [m], Smog) ==
              if m.smog.Some? then WeightedSum(ms, Smog) + m.smog.value * m.wordCount as real
              else WeightedSum(ms, Smog)
  {
    assert (ms + [m])[..|ms|] == ms;
  }

  /**
   * The references succeed together or not at all; on success there is one
   * record per reference, in input order.
   */
  lemma {:induction false} MeasureAllInOrder(refs: seq<CfrReference>, measure: CfrReference -> Result<Metrics, Abort>)
    ensures MeasureAll(refs, measure).Success? <==> forall i :: 0 <= i < |refs| ==> measure(refs[i]).Success?
    ensures MeasureAll(refs, measure).Success? ==>
              var ms := MeasureAll(refs, measure).value;
              |ms| == |refs| && forall i :: 0 <= i < |refs| ==> measure(refs[i]) == Success(ms[i])
    decreases |refs|
  {
    if refs != [] {
      var init := refs[..|refs| - 1];
      MeasureAllInOrder(init, measure);
      assert forall i :: 0 <= i < |init| ==> init[i] == refs[i];
    }
  }

  /** A failing agency fails with the failure of its first failing reference. */
  lemma {:induction false} MeasureAllFirstFailure(refs: seq<CfrReference>, measure: CfrReference -> Result<Metrics, Abort>)
    requires MeasureAll(refs, measure).Failure?
    ensures exists k :: 0 <= k < |refs| && measure(refs[k]) == Failure(MeasureAll(refs, measure).error)
                        && forall j :: 0 <= j < k ==> measure(refs[j]).Success?
    decreases |refs|
  {
    var init := refs[..|refs| - 1];
    assert forall i :: 0 <= i < |init| ==> init[i] == refs[i];
    if MeasureAll(init, measure).Failure? {
      MeasureAllFirstFailure(init, measure);
    } else {
      MeasureAllInOrder(init, measure);
      assert measure(refs[|refs| - 1]) == Failure(MeasureAll(refs, measure).error);
    }
  }

  /** Every record's words are part of the total, and the total is 0 only when every record has none. */
  lemma {:induction false} TotalWordsCoversEveryRecord(ms: seq<Metrics>)
    ensures forall i :: 0 <= i < |ms| ==> ms[i].wordCount <= TotalWords(ms)
    ensures TotalWords(ms) == 0 <==> forall i :: 0 <= i < |ms| ==> ms[i].wordCount == 0
  {
    if ms != [] {
      var init := ms[..|ms| - 1];
      TotalWordsCoversEveryRecord(init);
      assert forall i :: 0 <= i < |init| ==> init[i] == ms[i];
    }
  }

  /** Each average is absent exactly when no reference contributed a word. */
  lemma {:induction false} AverageAbsentIffNoWords(ms: seq<Metrics>, s: Score)
    ensures Average(ms, s).None? <==> forall i :: 0 <= i < |ms| ==> ms[i].wordCount == 0
  {
    TotalWordsCoversEveryRecord(ms);
  }

  /**
   * When every reference with words carries a score between `lo` and `hi`,
   * the average lies between them too.
   */
  lemma {:induction false} AverageWithinScores(ms: seq<Metrics>, s: Score, lo: real, hi: real)
    requires TotalWords(ms) > 0
    requires forall i :: 0 <= i < |ms| ==> ScoreWithin(ms[i], s, lo, hi)
    ensures lo <= Average(ms, s).value <= hi
  {
    WeightedSumAtLeast(ms, s, lo, hi);
    WeightedSumAtMost(ms, s, lo, hi);
    QuotientBounds(lo, hi, WeightedSum(ms, s), TotalWords(ms));
  }

  lemma QuotientBounds(lo: real, hi: real, w: real, t: nat)
    requires t > 0 && lo * t as real <= w <= hi * t as real
    ensures lo <= Quotient(w, t).value <= hi
  {
    var q := w / t as real;
    assert q * t as real == w;
  }

  /** A record with words carries the score, between `lo` and `hi`. */
  predicate ScoreWithin(m: Metrics, s: Score, lo: real, hi: real)
  {
    m.wordCount > 0 ==> ScoreOf(m, s).Some? && lo <= ScoreOf(m, s).value <= hi
  }

  lemma {:induction false} WeightedSumAtLeast(ms: seq<Metrics>, s: Score, lo: real, hi: real)
    requires forall i :: 0 <= i < |ms| ==> ScoreWithin(ms[i], s, lo, hi)
    ensures lo * TotalWords(ms) as real <= WeightedSum(ms, s)
  {
    if ms != [] {
      var init := ms[..|ms| - 1];
      var m := ms[|ms| - 1];
      WeightedSumAtLeast(init, s, lo, hi);
      RecordAtLeast(m, s, lo, hi);
      assert lo * TotalWords(ms) as real == lo * TotalWords(init) as real + lo * m.wordCount as real;
    }
  }

  lemma {:induction false} WeightedSumAtMost(ms: seq<Metrics>, s: Score, lo: real, hi: real)
    requires forall i :: 0 <= i < |ms| ==> ScoreWithin(ms[i], s, lo, hi)
    ensures WeightedSum(ms, s) <= hi * TotalWords(ms) as real
  {
    if ms != [] {
      var init := ms[..|ms| - 1];
      var m := ms[|ms| - 1];
      WeightedSumAtMost(init, s, lo, hi);
      RecordAtMost(m, s, lo, hi);
      assert hi * TotalWords(ms) as real == hi * TotalWords(init) as real + hi * m.wordCount as real;
    }
  }

  lemma RecordAtLeast(m: Metrics, s: Score, lo: real, hi: real)
    requires ScoreWithin(m, s, lo, hi)
    ensures lo * m.wordCount as real <= Weighted(m, s)
  {
    if m.wordCount > 0 {
      var x := ScoreOf(m, s).value;
      assert (x - lo) * m.wordCount as real >= 0.0;
    }
  }

  lemma RecordAtMost(m: Metrics, s: Score, lo: real, hi: real)
    requires ScoreWithin(m, s, lo, hi)
    ensures Weighted(m, s) <= hi * m.wordCount as real
  {
    if m.wordCount > 0 {
      var x := ScoreOf(m, s).value;
      assert (hi - x) * m.wordCount as real >= 0.0;
    }
  }

  /**
   * A reference without a score still counts in the denominator: adding it
   * keeps the weighted sum and grows the total word count.
   */
  lemma {:induction false} MissingScoreDilutes(ms: seq<Metrics>, m: Metrics, s: Score)
    requires ScoreOf(m, s).None? && m.wordCount > 0
    ensures TotalWords(ms + [m]) == TotalWords(ms) + m.wordCount
    ensures Average(ms + [m], s) == Some(WeightedSum(ms, s) / (TotalWords(ms) + m.wordCount) as real)
  {
    AppendRecord(ms, m);
  }

  /** With words but no reference carrying the score, the average is 0 rather than absent. */
  lemma {:induction false} NoScoreAveragesZero(ms: seq<Metrics>, s: Score)
    requires TotalWords(ms) > 0
    requires forall i :: 0 <= i < |ms| ==> ScoreOf(ms[i], s).None?
    ensures Average(ms, s) == Some(0.0)
  {
    NoScoreSumsZero(ms, s);
  }

  lemma {:induction false} NoScoreSumsZero(ms: seq<Metrics>, s: Score)
    requires forall i :: 0 <= i < |ms| ==> ScoreOf(ms[i], s).None?
    ensures WeightedSum(ms, s) == 0.0
  {
    if ms != [] {
      var init := ms[..|ms| - 1];
      assert forall i :: 0 <= i < |init| ==> init[i] == ms[i];
      NoScoreSumsZero(init, s);
    }
  }

  /** 50 words at 8.0 and 150 words at 10.0 average to 9.5, weighted by words. */
  lemma WeightedAverageExample()
    ensures var ms := [Metrics(50, Some(8.0), None, None), Metrics(150, Some(10.0), None, None)];
            Summarize(ms).totalWordCount == 200
            && Summarize(ms).averageFleschKincaid == Some(9.5)
            && Summarize(ms).averageFleschReadingEase == Some(0.0)
  {
    var ms := [Metrics(50, Some(8.0), None, None), Metrics(150, Some(10.0), None, None)];
    var first := [ms[0]];
    assert ms[..1] == first;
    assert first[..0] == [];
    assert TotalWords(first) == 50;
    assert TotalWords(ms) == 200;
    assert Weighted(ms[0], FleschKincaid) == 400.0;
    assert Weighted(ms[1], FleschKincaid) == 1500.0;
    assert WeightedSum(first, FleschKincaid) == 400.0;
    assert WeightedSum(ms, FleschKincaid) == 1900.0;
    assert WeightedSum(first, FleschReadingEase) == 0.0;
    assert WeightedSum(ms, FleschReadingEase) == 0.0;
  }
}
