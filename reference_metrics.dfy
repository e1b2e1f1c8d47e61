/**
 * `process_reference`: fetch the XML of one CFR reference, narrow it to the
 * referenced element unless a part was requested, count the words of its
 * `<P>` paragraphs, and score its readability when its text is long enough.
 * The eCFR services and the readability library are parameters.
 */
module ReferenceMetrics {
  import opened Wrappers
  import opened Text
  import opened Xml
  import opened Resolver
  import opened Cfr
  import AgencyMetrics

  /** The record kept for one reference. */
  datatype Metrics = Metrics(wordCount: nat, fleschKincaid: Option<real>,
                             fleschReadingEase: Option<real>, smog: Option<real>)

  /** The readability library on a text: each score, or None where the call raises. */
  datatype Readability = Readability(fleschKincaid: string -> Option<real>,
                                     flesch: string -> Option<real>,
                                     smog: string -> Option<real>)

  /** Why a reference or an agency could not be measured; in the script each is an exception. */
  datatype Abort =
    | TitlesUnavailable      // the title list could not be fetched
    | UnknownTitle(title: int)  // no title entry has the reference's number
    | XmlFetchFailed         // no XML document for the title
    | AncestryFetchFailed    // no ancestry response
    | NotResolved            // `extract_from_xml` found nothing
    | ScoreFailed            // Flesch-Kincaid or Flesch raised

  /** A request to one of the eCFR versioner services: issue date, title and query parameters. */
  datatype Request = Request(date: string, title: int, params: map<string, string>)

  /** The two eCFR services: the parsed XML document, the ancestors of the reference; None on failure. */
  datatype Upstream = Upstream(fetchXml: Request -> Option<Node>,
                               fetchAncestry: Request -> Option<seq<AncestryEntry>>)

  /** The query parameters of a fetch: one per truthy locator, under the locator's name. */
  function Params(subtitle: Option<string>, chapter: Option<string>, subchapter: Option<string>,
                  part: Option<string>, section: Option<string>): (ps: map<string, string>)
    ensures forall k :: k in ps ==> k in {"subtitle", "chapter", "subchapter", "part", "section"}
    ensures Truthy(subtitle) <==> "subtitle" in ps
    ensures Truthy(chapter) <==> "chapter" in ps
    ensures Truthy(subchapter) <==> "subchapter" in ps
    ensures Truthy(part) <==> "part" in ps
    ensures Truthy(section) <==> "section" in ps
    ensures "subtitle" in ps ==> ps["subtitle"] == subtitle.value
    ensures "chapter" in ps ==> ps["chapter"] == chapter.value
    ensures "subchapter" in ps ==> ps["subchapter"] == subchapter.value
    ensures "part" in ps ==> ps["part"] == part.value
    ensures "section" in ps ==> ps["section"] == section.value
  {
    var ps := map[];
    var ps := if Truthy(subtitle) then ps["subtitle" := subtitle.value] else ps;
    var ps := if Truthy(chapter) then ps["chapter" := chapter.value] else ps;
    var ps := if Truthy(subchapter) then ps["subchapter" := subchapter.value] else ps;
    var ps := if Truthy(part) then ps["part" := part.value] else ps;
    if Truthy(section) then ps["section" := section.value] else ps
  }

  /** `fetch_xml_for_title(date, title, subtitle, chapter, subchapter, part)`. */
  function XmlRequest(date: string, ref: CfrReference): Request
  {
    Request(date, ref.title, Params(ref.subtitle, ref.chapter, ref.subchapter, ref.part, None))
  }

  /** `fetch_ancestry_for_title(date, title, subtitle, chapter, subchapter, part, None)`, with part None. */
  function AncestryRequest(date: string, ref: CfrReference): Request
  {
    Request(date, ref.title, Params(ref.subtitle, ref.chapter, ref.subchapter, None, None))
  }

  /** Scores are computed only for a text of more than this many whitespace tokens. */
  const ScoreThreshold := 100

  /** The metrics of a resolved element: word count, then scores for a long enough text. */
  function Measure(node: Node, rd: Readability): Result<Metrics, Abort>
  {
    var content := ElementText(node);
    var words := WordCount(node);
    if TokenCount(content) > ScoreThreshold then
      match (rd.fleschKincaid(content), rd.flesch(content))
      case (Some(fk), Some(fe)) => Success(Metrics(words, Some(fk), Some(fe), rd.smog(content)))
      case _ => Failure(ScoreFailed)
    else Success(Metrics(words, None, None, None))
  }

  /** `process_reference(date, reference)`. */
  function ProcessReference(date: string, ref: CfrReference, up: Upstream, rd: Readability): Result<Metrics, Abort>
  {
    var doc := up.fetchXml(XmlRequest(date, ref));
    if ref.part.Some? then
      match doc
      case None => Failure(XmlFetchFailed)
      case Some(d) => Measure(d, rd)
    else
      var ancestors := up.fetchAncestry(AncestryRequest(date, ref));
      if doc.None? then Failure(XmlFetchFailed)
      else if ancestors.None? then Failure(AncestryFetchFailed)
      else match ExtractFromXml(doc.value, ancestors.value)
        case None => Failure(NotResolved)
        case Some(n) => Measure(n, rd)
  }

  /**
   * The word count is that of the measured element, and Flesch-Kincaid and
   * Flesch are present exactly when its text has more than 100 tokens; SMOG
   * is present only then.
   */
  lemma MeasureScoresOnlyLongTexts(node: Node, rd: Readability)
    ensures TokenCount(ElementText(node)) <= ScoreThreshold ==>
              Measure(node, rd) == Success(Metrics(WordCount(node), None, None, None))
    ensures Measure(node, rd).Success? ==>
              var m := Measure(node, rd).value;
              m.wordCount == WordCount(node)
              && (m.fleschKincaid.Some? <==> TokenCount(ElementText(node)) > ScoreThreshold)
              && (m.fleschReadingEase.Some? <==> TokenCount(ElementText(node)) > ScoreThreshold)
              && (m.smog.Some? ==> TokenCount(ElementText(node)) > ScoreThreshold)
  {
  }

  /**
   * Only Flesch-Kincaid or Flesch can make a measurement fail; a SMOG failure
   * leaves the other two scores in place.
   */
  lemma SmogFailureIsolated(node: Node, rd: Readability)
    ensures var content := ElementText(node);
            Measure(node, rd).Failure? <==>
              TokenCount(content) > ScoreThreshold && (rd.fleschKincaid(content).None? || rd.flesch(content).None?)
    ensures var content := ElementText(node);
            TokenCount(content) > ScoreThreshold && rd.fleschKincaid(content).Some? && rd.flesch(content).Some?
            && rd.smog(content).None? ==>
              Measure(node, rd) == Success(Metrics(WordCount(node), rd.fleschKincaid(content), rd.flesch(content), None))
  {
  }

  /**
   * With a part, the fetched document is measured whole: the ancestry service
   * is not consulted and no resolution happens.
   */
  lemma PartSkipsResolution(date: string, ref: CfrReference, up1: Upstream, up2: Upstream, rd: Readability)
    requires ref.part.Some?
    requires up1.fetchXml(XmlRequest(date, ref)) == up2.fetchXml(XmlRequest(date, ref))
    ensures ProcessReference(date, ref, up1, rd) == ProcessReference(date, ref, up2, rd)
    ensures ProcessReference(date, ref, up1, rd).Success? ==>
              ProcessReference(date, ref, up1, rd).value.wordCount == WordCount(up1.fetchXml(XmlRequest(date, ref)).value)
  {
  }

  /**
   * An empty part is a part: the XML request leaves it out, so the whole
   * title is fetched, and the whole title is then measured unresolved.
   */
  lemma EmptyPartMeasuresWholeTitle(date: string, ref: CfrReference, up: Upstream, rd: Readability)
    requires ref.part == Some("")
    ensures XmlRequest(date, ref) == XmlRequest(date, ref.(part := None))
    ensures "part" !in XmlRequest(date, ref).params
    ensures up.fetchXml(XmlRequest(date, ref)).Some? ==>
              ProcessReference(date, ref, up, rd) == Measure(up.fetchXml(XmlRequest(date, ref)).value, rd)
  {
  }

  /**
   * Without a part, a measured reference is the element `extract_from_xml`
   * resolves in the fetched document from the fetched ancestors.
   */
  lemma WithoutPartMeasuresResolvedElement(date: string, ref: CfrReference, up: Upstream, rd: Readability)
    requires ref.part.None?
    requires ProcessReference(date, ref, up, rd).Success?
    ensures var doc := up.fetchXml(XmlRequest(date, ref));
            var ancestors := up.fetchAncestry(AncestryRequest(date, ref));
            doc.Some? && ancestors.Some? && ExtractFromXml(doc.value, ancestors.value).Some?
            && var n := ExtractFromXml(doc.value, ancestors.value).value;
               (n in Descendants(doc.value))
               && Measure(n, rd) == ProcessReference(date, ref, up, rd)
  {
  }

  /**
   * For a reference without a part, the dashboard shows the same word count
   * the batch stores, whenever both resolve the same document and ancestors.
   */
  lemma DashboardCountMatchesBatch(date: string, ref: CfrReference, up: Upstream, rd: Readability, raw: string)
    requires ref.part.None?
    requires up.fetchXml(XmlRequest(date, ref)).Some? && up.fetchAncestry(AncestryRequest(date, ref)).Some?
    requires ProcessReference(date, ref, up, rd).Success?
    ensures var content := AgencyMetrics.GetCfrSection(up.fetchAncestry(AncestryRequest(date, ref)),
                                                       Some(AgencyMetrics.FetchedXml(raw, up.fetchXml(XmlRequest(date, ref)).value)));
            content.Success? ==>
              AgencyMetrics.ShowReference(content) == AgencyMetrics.WordCountShown(ProcessReference(date, ref, up, rd).value.wordCount)
  {
    var ancestors := up.fetchAncestry(AncestryRequest(date, ref));
    var cfrText := Some(AgencyMetrics.FetchedXml(raw, up.fetchXml(XmlRequest(date, ref)).value));
    if AgencyMetrics.GetCfrSection(ancestors, cfrText).Success? {
      AgencyMetrics.GetCfrSectionOutcomes(ancestors, cfrText);
    }
  }
}
