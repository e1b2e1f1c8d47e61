/**
 * `calculate_word_counts` and the store write of `process_agency`: every
 * agency's key is deleted first, then the agencies are processed one after
 * another, each success writing its summary under its slug; the first
 * failing agency ends the run.  The key-value store is a map with a log of
 * the commands sent to it.
 */
module Batch {
  import opened Wrappers
  import Seqs
  import opened ReferenceMetrics
  import opened Aggregation

  /** A command sent to the store. */
  datatype Command = Delete(key: string) | Set(key: string, value: Summary)

  /** The store contents after the commands, in order. */
  function Apply(m: map<string, Summary>, cmds: seq<Command>): map<string, Summary>
  {
    if cmds == [] then m
    else
      var prev := Apply(m, cmds[..|cmds| - 1]);
      match cmds[|cmds| - 1]
      case Delete(k) => prev - {k}
      case Set(k, v) => prev[k := v]
  }

  /** The key-value store: its entries, and the commands it received since it held `base`. */
  class Store {
    var entries: map<string, Summary>
    ghost var log: seq<Command>
    ghost var base: map<string, Summary>

    ghost predicate Valid()
      reads this
    {
      entries == Apply(base, log)
    }

    constructor(initial: map<string, Summary>)
      ensures Valid() && entries == initial && base == initial && log == []
    {
      entries := initial;
      log := [];
      base := initial;
    }

    /** `r.delete(key)`. */
    method Delete(key: string)
      requires Valid()
      modifies this
      ensures Valid() && base == old(base)
      ensures entries == old(entries) - {key} && log == old(log) + [Command.Delete(key)]
    {
      entries := entries - {key};
      log := log + [Command.Delete(key)];
      assert log[..|log| - 1] == old(log);
    }

    /** `r.set(key, value)`. */
    method Set(key: string, value: Summary)
      requires Valid()
      modifies this
      ensures Valid() && base == old(base)
      ensures entries == old(entries)[key := value] && log == old(log) + [Command.Set(key, value)]
    {
      entries := entries[key := value];
      log := log + [Command.Set(key, value)];
      assert log[..|log| - 1] == old(log);
    }
  }

  /** What every agency is processed against: the title list, the eCFR services, the readability library. */
  datatype Env = Env(titles: Option<seq<TitleMeta>>, up: Upstream, rd: Readability)

  /** The outcome of processing one agency: its summary or its failure. */
  type Processor = Agency -> Result<Summary, Abort>

  /** `process_agency` before its store write, for every agency. */
  function Summarizer(env: Env): Processor
  {
    a => AgencySummary(a, env.titles, env.up, env.rd)
  }

  /**
   * `process` gives every agency the summary `process_agency` computes
   * against `env`.  (The fact is used only where an agency's summary is
   * actually computed, so that the loop over agencies reasons about
   * `process` alone.)
   */
  ghost predicate Summarizes(process: Processor, env: Env)
  {
    forall a {:trigger AgencySummary(a, env.titles, env.up, env.rd)} :: process(a) == AgencySummary(a, env.titles, env.up, env.rd)
  }

  lemma {:induction false} SummarizerSummarizes(env: Env)
    ensures Summarizes(Summarizer(env), env)
  {
  }

  /** `process_agency(agency)`: the summary is written under the slug, and (slug, total) returned. */
  method ProcessAgency(env: Env, ghost process: Processor, agency: Agency, store: Store)
      returns (r: Result<(string, nat), Abort>)
    requires Summarizes(process, env) && store.Valid()
    modifies store
    ensures store.Valid() && store.base == old(store.base)
    ensures r == match process(agency)
                 case Success(s) => Success((agency.slug, s.totalWordCount))
                 case Failure(e) => Failure(e)
    ensures store.log == old(store.log) + match process(agency)
                                          case Success(s) => [Set(agency.slug, s)]
                                          case Failure(_) => []
  {
    var summary := Aggregate(agency, env.titles, env.up, env.rd);
    if summary.Failure? {
      return Failure(summary.error);
    }
    store.Set(agency.slug, summary.value);
    r := Success((agency.slug, summary.value.totalWordCount));
  }

  /** The index of the first agency that fails, or the number of agencies when none does. */
  function FirstFailure(process: Processor, agencies: seq<Agency>): (k: nat)
    ensures k <= |agencies|
    ensures forall i :: 0 <= i < k ==> process(agencies[i]).Success?
    ensures k < |agencies| ==> process(agencies[k]).Failure?
  {
    if agencies == [] then 0
    else if process(agencies[0]).Failure? then 0
    else
      var k := FirstFailure(process, agencies[1..]);
      assert forall i :: 1 <= i < k + 1 ==> agencies[i] == agencies[1..][i - 1];
      1 + k
  }

  /** The deletions of the reset loop, one per agency, in order. */
  function Resets(agencies: seq<Agency>): seq<Command>
  {
    if agencies == [] then []
    else Resets(agencies[..|agencies| - 1]) + [Delete(agencies[|agencies| - 1].slug)]
  }

  /** The writes of the first `k` agencies: one per success. */
  function Writes(process: Processor, agencies: seq<Agency>, k: nat): seq<Command>
    requires k <= |agencies|
  {
    if k == 0 then []
    else
      Writes(process, agencies, k - 1) + match process(agencies[k - 1])
                                     case Success(s) => [Set(agencies[k - 1].slug, s)]
                                     case Failure(_) => []
  }

  /** The (slug, total word count) pairs `executor.map` yields for the first `k` agencies. */
  function Pairs(process: Processor, agencies: seq<Agency>, k: nat): seq<(string, nat)>
    requires k <= |agencies|
  {
    if k == 0 then []
    else
      Pairs(process, agencies, k - 1) + match process(agencies[k - 1])
                                    case Success(s) => [(agencies[k - 1].slug, s.totalWordCount)]
                                    case Failure(_) => []
  }

  /** `dict(pairs)`: a later pair for the same key wins. */
  function Dict(pairs: seq<(string, nat)>): map<string, nat>
  {
    if pairs == [] then map[]
    else Dict(pairs[..|pairs| - 1])[pairs[|pairs| - 1].0 := pairs[|pairs| - 1].1]
  }

  /** How a run ends: no agency list, the map of word counts, or the failure that aborted it. */
  datatype Outcome = NoAgencyData | Completed(wordCounts: map<string, nat>) | Aborted(failure: Abort)

  function RunOutcome(process: Processor, agencies: Option<seq<Agency>>): Outcome
  {
    match agencies
    case None => NoAgencyData
    case Some(list) =>
      var k := FirstFailure(process, list);
      if k == |list| then Completed(Dict(Pairs(process, list, k))) else Aborted(process(list[k]).error)
  }

  /** The commands a run sends to the store. */
  function RunCommands(process: Processor, agencies: Option<seq<Agency>>): seq<Command>
  {
    match agencies
    case None => []
    case Some(list) => Resets(list) + Writes(process, list, FirstFailure(process, list))
  }

  /** The reset loop: `r.delete(slug)` for every agency, in order. */
  method ResetAgencies(agencies: seq<Agency>, store: Store)
    requires store.Valid()
    modifies store
    ensures store.Valid() && store.base == old(store.base)
    ensures store.log == old(store.log) + Resets(agencies)
  {
    for i := 0 to |agencies|
      invariant store.Valid() && store.base == old(store.base)
      invariant store.log == old(store.log) + Resets(agencies[..i])
    {
      assert agencies[..i + 1][..i] == agencies[..i];
      store.Delete(agencies[i].slug);
    }
    assert agencies[..|agencies|] == agencies;
  }

  /**
   * `list(executor.map(process_agency, agencies))` with one worker: the
   * agencies in order, each summary written as it is computed, until the
   * first failure, which propagates.
   */
  method ProcessAgencies(env: Env, ghost process: Processor, list: seq<Agency>, store: Store) returns (outcome: Outcome)
    requires Summarizes(process, env) && store.Valid()
    modifies store
    ensures store.Valid() && store.base == old(store.base)
    ensures outcome == RunOutcome(process, Some(list))
    ensures store.log == old(store.log) + Writes(process, list, FirstFailure(process, list))
  {
    var results: seq<(string, nat)> := [];
    var i := 0;
    while i < |list|
      invariant i <= FirstFailure(process, list)
      invariant store.Valid() && store.base == old(store.base)
      invariant store.log == old(store.log) + Writes(process, list, i)
      invariant results == Pairs(process, list, i)
    {
      var r := ProcessAgency(env, process, list[i], store);
      RunStep(process, list, i);
      if r.Failure? {
        assert FirstFailure(process, list) == i && r.error == process(list[i]).error;
        return Aborted(r.error);
      }
      results := results + [r.value];
      i := i + 1;
    }
    assert FirstFailure(process, list) == |list|;
    outcome := Completed(Dict(results));
  }

  /** `calculate_word_counts()`, given the agency list (None when it could not be fetched). */
  method CalculateWordCounts(env: Env, agencies: Option<seq<Agency>>, store: Store) returns (outcome: Outcome)
    requires store.Valid()
    modifies store
    ensures store.Valid() && store.base == old(store.base)
    ensures outcome == RunOutcome(Summarizer(env), agencies)
    ensures store.log == old(store.log) + RunCommands(Summarizer(env), agencies)
    ensures store.entries == Apply(old(store.entries), RunCommands(Summarizer(env), agencies))
  {
    if agencies.None? {
      return NoAgencyData;
    }
    ghost var log0 := store.log;
    ResetAgencies(agencies.value, store);
    ghost var resets := Resets(agencies.value);
    SummarizerSummarizes(env);
    outcome := ProcessAgencies(env, Summarizer(env), agencies.value, store);
    ghost var writes := Writes(Summarizer(env), agencies.value, FirstFailure(Summarizer(env), agencies.value));
    assert store.log == log0 + resets + writes;
    Seqs.AppendAssociates(log0, resets, writes);
    ApplyAppend(store.base, log0, resets + writes);
  }

  /**
   * One agency more: its success extends the writes and the pairs by its
   * own entry and keeps the run going; its failure is the first one.
   */
  lemma {:induction false} RunStep(process: Processor, agencies: seq<Agency>, i: nat)
    requires i < |agencies| && i <= FirstFailure(process, agencies)
    ensures process(agencies[i]).Failure? ==> FirstFailure(process, agencies) == i
    ensures process(agencies[i]).Success? ==>
              && i + 1 <= FirstFailure(process, agencies)
              && Writes(process, agencies, i + 1) == Writes(process, agencies, i) + [Set(agencies[i].slug, process(agencies[i]).value)]
              && Pairs(process, agencies, i + 1) == Pairs(process, agencies, i) + [(agencies[i].slug, process(agencies[i]).value.totalWordCount)]
  {
  }

  /** The slugs of the agencies. */
  function Slugs(agencies: seq<Agency>): set<string>
  {
    set a | a in agencies :: a.slug
  }

  /** The entries the writes of the first `k` agencies create on their own. */
  function Stored(process: Processor, agencies: seq<Agency>, k: nat): map<string, Summary>
    requires k <= |agencies|
  {
    Apply(map[], Writes(process, agencies, k))
  }

  /** Sending two batches of commands is sending the first, then the second. */
  lemma {:induction false} ApplyAppend(m: map<string, Summary>, a: seq<Command>, b: seq<Command>)
    ensures Apply(m, a + b) == Apply(Apply(m, a), b)
    decreases |b|
  {
    if b == [] {
      assert a + b == a;
    } else {
      assert (a + b)[..|a + b| - 1] == a + b[..|b| - 1];
      assert (a + b)[|a + b| - 1] == b[|b| - 1];
      ApplyAppend(m, a, b[..|b| - 1]);
    }
  }

  /** The reset loop removes exactly the agencies' slugs. */
  lemma {:induction false} ApplyResets(m: map<string, Summary>, agencies: seq<Agency>)
    ensures Apply(m, Resets(agencies)) == m - Slugs(agencies)
    decreases |agencies|
  {
    if agencies != [] {
      var init := agencies[..|agencies| - 1];
      var last := agencies[|agencies| - 1];
      var cmds := Resets(agencies);
      assert cmds[..|cmds| - 1] == Resets(init);
      ApplyResets(m, init);
      assert agencies == init + [last];
      assert Slugs(agencies) == Slugs(init) + {last.slug};
    }
  }

  /**
   * The writes of the first `k` agencies, all of them successes, overlay
   * their own entries on whatever the store held; every key they write is
   * the slug of one of those agencies.
   */
  lemma {:induction false} ApplyWrites(m: map<string, Summary>, process: Processor, agencies: seq<Agency>, k: nat)
    requires k <= FirstFailure(process, agencies)
    ensures Apply(m, Writes(process, agencies, k)) == m + Stored(process, agencies, k)
  {
    if k > 0 {
      ApplyWrites(m, process, agencies, k - 1);
      var a := agencies[k - 1];
      var s := process(a).value;
      var prev := Writes(process, agencies, k - 1);
      var before := Stored(process, agencies, k - 1);
      assert Writes(process, agencies, k) == prev + [Set(a.slug, s)];
      ApplyAppend(m, prev, [Set(a.slug, s)]);
      ApplySet(m + before, a.slug, s);
      StoredStep(process, agencies, k);
      OverlayUpdate(m, before, a.slug, s);
      assert Apply(m, Writes(process, agencies, k)) == (m + before)[a.slug := s];
    }
  }

  /** Updating an overlay is overlaying the updated map. */
  lemma {:induction false} OverlayUpdate<K, V>(m: map<K, V>, n: map<K, V>, key: K, value: V)
    ensures (m + n)[key := value] == m + n[key := value]
  {
  }

  /** The writes of the first `k` agencies only use those agencies' slugs as keys. */
  lemma {:induction false} StoredKeys(process: Processor, agencies: seq<Agency>, k: nat)
    requires k <= FirstFailure(process, agencies)
    ensures forall key :: key in Stored(process, agencies, k) ==> key in Slugs(agencies)
  {
    if k > 0 {
      StoredKeys(process, agencies, k - 1);
      StoredStep(process, agencies, k);
      assert agencies[k - 1] in agencies;
    }
  }

  /** A single write sets its key. */
  lemma {:induction false} ApplySet(m: map<string, Summary>, key: string, value: Summary)
    ensures Apply(m, [Set(key, value)]) == m[key := value]
  {
    assert [Set(key, value)][..0] == [];
  }

  /**
   * A run over an agency list leaves the store holding what it held, minus
   * every listed slug, overlaid with the summaries written before the first
   * failure; nothing but listed slugs is written.
   */
  lemma {:induction false} RunStore(m: map<string, Summary>, process: Processor, agencies: seq<Agency>)
    ensures Apply(m, RunCommands(process, Some(agencies)))
              == (m - Slugs(agencies)) + Stored(process, agencies, FirstFailure(process, agencies))
    ensures Stored(process, agencies, FirstFailure(process, agencies)).Keys <= Slugs(agencies)
  {
    var k := FirstFailure(process, agencies);
    ApplyAppend(m, Resets(agencies), Writes(process, agencies, k));
    ApplyResets(m, agencies);
    ApplyWrites(m - Slugs(agencies), process, agencies, k);
    StoredKeys(process, agencies, k);
  }

  /** A key that is no listed agency's slug is left as it was, present or absent. */
  lemma {:induction false} UnlistedKeysUntouched(m: map<string, Summary>, process: Processor, agencies: seq<Agency>, key: string)
    requires forall i :: 0 <= i < |agencies| ==> agencies[i].slug != key
    ensures var after := Apply(m, RunCommands(process, Some(agencies)));
            (key in after <==> key in m) && (key in m ==> after[key] == m[key])
  {
    RunStore(m, process, agencies);
    assert key !in Slugs(agencies);
  }

  /** Running the same commands twice leaves the store as running them once. */
  lemma {:induction false} RerunIdempotent(m: map<string, Summary>, process: Processor, agencies: Option<seq<Agency>>)
    ensures var cmds := RunCommands(process, agencies);
            Apply(Apply(m, cmds), cmds) == Apply(m, cmds)
  {
    if agencies.Some? {
      var list := agencies.value;
      var w := Stored(process, list, FirstFailure(process, list));
      RunStore(m, process, list);
      RunStore(Apply(m, RunCommands(process, agencies)), process, list);
      assert ((m - Slugs(list)) + w) - Slugs(list) == m - Slugs(list);
    }
  }

  /** The reset loop sends one deletion per agency, in list order. */
  lemma {:induction false} ResetsInOrder(agencies: seq<Agency>)
    ensures |Resets(agencies)| == |agencies|
    ensures forall i :: 0 <= i < |agencies| ==> Resets(agencies)[i] == Delete(agencies[i].slug)
    decreases |agencies|
  {
    if agencies != [] {
      var init := agencies[..|agencies| - 1];
      ResetsInOrder(init);
      assert forall i :: 0 <= i < |init| ==> agencies[i] == init[i];
    }
  }

  /** Before the first failure every agency sends exactly one write: its own summary under its slug. */
  lemma {:induction false} WritesInOrder(process: Processor, agencies: seq<Agency>, k: nat)
    requires k <= FirstFailure(process, agencies)
    ensures |Writes(process, agencies, k)| == k
    ensures forall i :: 0 <= i < k ==>
              Writes(process, agencies, k)[i] == Set(agencies[i].slug, process(agencies[i]).value)
  {
    if k > 0 {
      WritesInOrder(process, agencies, k - 1);
    }
  }

  /**
   * Every deletion precedes every write: the run sends first one deletion
   * per listed agency, in order, then one write per agency before the
   * first failure, in order.
   */
  lemma {:induction false} DeletesBeforeSets(process: Processor, agencies: seq<Agency>)
    ensures var cmds := RunCommands(process, Some(agencies));
            var n := |agencies|;
            && |cmds| == n + FirstFailure(process, agencies)
            && (forall i :: 0 <= i < n ==> cmds[i] == Delete(agencies[i].slug))
            && (forall i :: n <= i < |cmds| ==>
                  cmds[i] == Set(agencies[i - n].slug, process(agencies[i - n]).value))
  {
    var resets := Resets(agencies);
    var writes := Writes(process, agencies, FirstFailure(process, agencies));
    ResetsInOrder(agencies);
    WritesInOrder(process, agencies, FirstFailure(process, agencies));
    assert RunCommands(process, Some(agencies)) == resets + writes;
  }

  /** No two agencies share a slug. */
  predicate DistinctSlugs(agencies: seq<Agency>)
  {
    forall i, j :: 0 <= i < j < |agencies| ==> agencies[i].slug != agencies[j].slug
  }

  /** With distinct slugs, the writes before `k` store each agency's own summary and nothing else. */
  lemma {:induction false} StoredSummaries(process: Processor, agencies: seq<Agency>, k: nat)
    requires k <= FirstFailure(process, agencies) && DistinctSlugs(agencies)
    ensures forall i :: 0 <= i < k ==>
              agencies[i].slug in Stored(process, agencies, k)
              && Stored(process, agencies, k)[agencies[i].slug] == process(agencies[i]).value
    ensures forall key :: key in Stored(process, agencies, k) ==>
              exists i :: 0 <= i < k && agencies[i].slug == key
  {
    if k > 0 {
      StoredSummaries(process, agencies, k - 1);
      StoredStep(process, agencies, k);
      var a := agencies[k - 1];
      var stored := Stored(process, agencies, k);
      forall i | 0 <= i < k
        ensures agencies[i].slug in stored && stored[agencies[i].slug] == process(agencies[i]).value
      {
        if i < k - 1 {
          assert agencies[i].slug != a.slug;
        }
      }
      forall key | key in stored
        ensures exists i :: 0 <= i < k && agencies[i].slug == key
      {
        if key == a.slug {
          assert agencies[k - 1].slug == key;
        } else {
          var i :| 0 <= i < k - 1 && agencies[i].slug == key;
          assert agencies[i].slug == key;
        }
      }
    }
  }

  /**
   * With distinct slugs, after a run each agency before the first failure
   * has its summary stored under its slug, and every agency from the first
   * failure on has no entry at all (its old entry was deleted).
   */
  lemma {:induction false} PersistedSummaries(m: map<string, Summary>, process: Processor, agencies: seq<Agency>)
    requires DistinctSlugs(agencies)
    ensures var after := Apply(m, RunCommands(process, Some(agencies)));
            var k := FirstFailure(process, agencies);
            && (forall i :: 0 <= i < k ==>
                  agencies[i].slug in after && after[agencies[i].slug] == process(agencies[i]).value)
            && (forall i :: k <= i < |agencies| ==> agencies[i].slug !in after)
  {
    var k := FirstFailure(process, agencies);
    RunStore(m, process, agencies);
    StoredSummaries(process, agencies, k);
    forall i | k <= i < |agencies|
      ensures agencies[i].slug !in (m - Slugs(agencies)) + Stored(process, agencies, k)
    {
      assert agencies[i] in agencies;
    }
  }

  /**
   * The pairs of the first `k` agencies, turned into a dictionary, have
   * the keys the writes store, each mapped to the stored summary's total.
   */
  lemma {:induction false} DictMatchesStored(process: Processor, agencies: seq<Agency>, k: nat)
    requires k <= FirstFailure(process, agencies)
    ensures Dict(Pairs(process, agencies, k)).Keys == Stored(process, agencies, k).Keys
    ensures forall key :: key in Dict(Pairs(process, agencies, k)) ==>
              Dict(Pairs(process, agencies, k))[key] == Stored(process, agencies, k)[key].totalWordCount
  {
    if k > 0 {
      DictMatchesStored(process, agencies, k - 1);
      var a := agencies[k - 1];
      var s := process(a).value;
      var prevDict := Dict(Pairs(process, agencies, k - 1));
      var prevStored := Stored(process, agencies, k - 1);
      DictStep(process, agencies, k);
      StoredStep(process, agencies, k);
      assert Dict(Pairs(process, agencies, k)) == prevDict[a.slug := s.totalWordCount];
      assert Stored(process, agencies, k) == prevStored[a.slug := s];
    }
  }

  /** One more success adds its own pair to the dictionary. */
  lemma {:induction false} DictStep(process: Processor, agencies: seq<Agency>, k: nat)
    requires 0 < k <= FirstFailure(process, agencies)
    ensures Dict(Pairs(process, agencies, k))
            == Dict(Pairs(process, agencies, k - 1))[agencies[k - 1].slug := process(agencies[k - 1]).value.totalWordCount]
  {
    var a := agencies[k - 1];
    var prev := Pairs(process, agencies, k - 1);
    var pair := (a.slug, process(a).value.totalWordCount);
    assert Pairs(process, agencies, k) == prev + [pair];
    assert (prev + [pair])[..|prev|] == prev;
    assert Dict(prev + [pair]) == Dict(prev)[pair.0 := pair.1];
  }

  /** One more success stores its own summary. */
  lemma {:induction false} StoredStep(process: Processor, agencies: seq<Agency>, k: nat)
    requires 0 < k <= FirstFailure(process, agencies)
    ensures Stored(process, agencies, k)
            == Stored(process, agencies, k - 1)[agencies[k - 1].slug := process(agencies[k - 1]).value]
  {
    var a := agencies[k - 1];
    var prev := Writes(process, agencies, k - 1);
    assert Writes(process, agencies, k) == prev + [Set(a.slug, process(a).value)];
    ApplyAppend(map[], prev, [Set(a.slug, process(a).value)]);
    ApplySet(Stored(process, agencies, k - 1), a.slug, process(a).value);
  }

  /**
   * A completed run returns, for every slug, the total word count of the
   * summary the store holds under it afterwards, and has a key for every
   * listed agency.
   */
  lemma {:induction false} CompletedCountsMatchStore(m: map<string, Summary>, process: Processor, agencies: seq<Agency>)
    requires RunOutcome(process, Some(agencies)).Completed?
    ensures var counts := RunOutcome(process, Some(agencies)).wordCounts;
            var after := Apply(m, RunCommands(process, Some(agencies)));
            && counts.Keys == Slugs(agencies)
            && forall key :: key in counts ==> key in after && counts[key] == after[key].totalWordCount
  {
    var n := |agencies|;
    RunStore(m, process, agencies);
    DictMatchesStored(process, agencies, n);
    forall key | key in Slugs(agencies)
      ensures key in Stored(process, agencies, n)
    {
      var i :| 0 <= i < n && agencies[i].slug == key;
      StoredHasEveryWrite(process, agencies, n, i);
    }
  }

  /** Every agency before `k` has a key among the stored entries. */
  lemma {:induction false} StoredHasEveryWrite(process: Processor, agencies: seq<Agency>, k: nat, i: nat)
    requires k <= FirstFailure(process, agencies) && i < k
    ensures agencies[i].slug in Stored(process, agencies, k)
  {
    StoredStep(process, agencies, k);
    if i < k - 1 {
      StoredHasEveryWrite(process, agencies, k - 1, i);
    }
  }
}
