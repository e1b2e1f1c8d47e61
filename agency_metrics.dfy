/**
 * The dashboard's view of one CFR reference: the resolver variant that
 * reports failures as messages and treats a childless element as missing
 * (`extract_section_from_xml`), the fetch-then-extract wrapper
 * (`get_cfr_section`), the display label of a reference
 * (`format_cfr_reference`), and what the page shows for a resolved reference.
 */
module AgencyMetrics {
  import opened Wrappers
  import opened Text
  import opened Xml
  import opened Resolver
  import opened Cfr
  import opened Seqs

  /** The capitalised level name used in the page's messages. */
  function Label(l: Level): string
  {
    match l
    case Title => "Title"
    case Subtitle => "Subtitle"
    case Chapter => "Chapter"
    case Subchapter => "Subchapter"
    case Part => "Part"
    case Section => "Section"
  }

  function NotFoundMessage(miss: Miss): string
  {
    Label(miss.level) + " " + miss.identifier + " not found."
  }

  /**
   * `extract_section_from_xml(xml_content, ancestry_data)` on the parsed
   * document: the element, or the message naming the level that failed.
   */
  function ExtractSectionFromXml(root: Node, ancestry: seq<AncestryEntry>): (r: Result<Node, string>)
    ensures r.Success? ==>
              r.value in Descendants(root) && |r.value.children| > 0 && ExtractFromXml(root, ancestry) == Some(r.value)
  {
    match Resolve(root, Hierarchy(ancestry), true)
    case Success(n) => CheckedResolution(root, Hierarchy(ancestry)); Success(n)
    case Failure(miss) => Failure(NotFoundMessage(miss))
  }

  /**
   * An element the children check lets through lies inside the document,
   * has children, and is what the resolution without the check returns.
   */
  lemma CheckedResolution(root: Node, h: map<string, string>)
    requires Resolve(root, h, true).Success?
    ensures var r := Resolve(root, h, true).value;
            r in Descendants(root) && |r.children| > 0 && Resolve(root, h, false) == Success(r)
  {
    ChildrenCheckOnlyNarrows(root, h, Levels);
    ResolvedBelowRoot(root, h, true);
    var t := Lookup(root, Title, IdOf(h, Title), true).value;
    DescendWithChildren(t, h, Levels[1..]);
  }

  /** With the children check, a resolved element is the scope itself or has children. */
  lemma {:induction false} DescendWithChildren(scope: Node, h: map<string, string>, levels: seq<Level>)
    requires Descend(scope, h, levels, true).Success?
    ensures var r := Descend(scope, h, levels, true).value; r == scope || |r.children| > 0
    decreases |levels|
  {
    if levels != [] {
      var l := levels[0];
      if Requested(h, l) {
        var m := Lookup(scope, l, IdOf(h, l), true).value;
        DescendWithChildren(m, h, levels[1..]);
      } else {
        DescendWithChildren(scope, h, levels[1..]);
      }
    }
  }

  /** Where the batch resolver finds nothing, the dashboard reports a level as not found. */
  lemma BatchMissIsSectionMiss(root: Node, ancestry: seq<AncestryEntry>)
    requires ExtractFromXml(root, ancestry).None?
    ensures ExtractSectionFromXml(root, ancestry).Failure?
  {
    if Resolve(root, Hierarchy(ancestry), true).Success? {
      ChildrenCheckOnlyNarrows(root, Hierarchy(ancestry), Levels);
    }
  }

  /**
   * The failure message is "<Level> <id> not found." for the first requested
   * level whose lookup, from the scope the levels above it reached, finds no
   * element with children.
   */
  lemma SectionMissNamesFirstFailedLevel(root: Node, ancestry: seq<AncestryEntry>)
    requires ExtractSectionFromXml(root, ancestry).Failure?
    ensures var h := Hierarchy(ancestry);
            exists k :: 0 <= k < 6 && Requested(h, Levels[k])
                        && Descend(root, h, Levels[..k], true).Success?
                        && Lookup(Descend(root, h, Levels[..k], true).value, Levels[k], IdOf(h, Levels[k]), true).None?
                        && ExtractSectionFromXml(root, ancestry).error
                           == Label(Levels[k]) + " " + IdOf(h, Levels[k]) + " not found."
  {
    MissIsFirstFailedLevel(root, Hierarchy(ancestry), Levels, true);
  }

  /**
   * A title element without children is found by the batch resolver but
   * reported missing by the dashboard, exactly like an absent one.
   */
  lemma ChildlessTitleReportedMissing()
    ensures var title := Node("DIV1", Some("TITLE"), Some("1"), "General Provisions", [], "");
            var root := Node("ECFR", None, None, "", [title], "");
            var ancestry := [AncestryEntry("title", "1")];
            ExtractFromXml(root, ancestry) == Some(title)
            && ExtractSectionFromXml(root, ancestry) == Failure("Title 1 not found.")
  {
    var title := Node("DIV1", Some("TITLE"), Some("1"), "General Provisions", [], "");
    var root := Node("ECFR", None, None, "", [title], "");
    var ancestry := [AncestryEntry("title", "1")];
    TitleOnlyGivesTitle(root, "1");
    var h := Hierarchy(ancestry);
    assert ancestry[..0] == [];
    assert h == map["title" := "1"];
    assert Find(root, QueryFor(Title, "1")) == Some(title);
    assert Lookup(root, Title, IdOf(h, Title), true) == None;
    assert Levels[0] == Title;
    assert Resolve(root, h, true) == Failure(Miss(Title, "1"));
    assert ExtractFromXml(root, ancestry) == Some(title);
    assert NotFoundMessage(Miss(Title, "1")) == "Title 1 not found.";
    assert ExtractSectionFromXml(root, ancestry) == Failure("Title 1 not found.");
  }

  /** An ancestry without a title entry searches for a title numbered "None". */
  lemma MissingTitleSearchedAsNone(root: Node)
    requires Find(root, QueryFor(Title, "None")).None?
    ensures ExtractSectionFromXml(root, []) == Failure("Title None not found.")
  {
    var h := Hierarchy([]);
    assert h == map[];
    assert Lookup(root, Title, IdOf(h, Title), true) == None;
    assert Levels[0] == Title;
    assert Resolve(root, h, true) == Failure(Miss(Title, "None"));
    assert NotFoundMessage(Miss(Title, "None")) == "Title None not found.";
  }

  /** What `fetch_cfr_text` returned, together with the tree `ET.fromstring` parses from it. */
  datatype FetchedXml = FetchedXml(raw: string, root: Node)

  const AncestryFetchFailed := "Failed to fetch ancestry data."
  const TextFetchFailed := "Failed to fetch CFR text."

  /**
   * `get_cfr_section`, given the ancestors list of the ancestry response (or
   * None when that fetch failed) and the fetched title XML (or None).
   */
  function GetCfrSection(ancestors: Option<seq<AncestryEntry>>, cfrText: Option<FetchedXml>): Result<Node, string>
  {
    if ancestors.None? then Failure(AncestryFetchFailed)
    else if cfrText.None? || cfrText.value.raw == "" then Failure(TextFetchFailed)
    else ExtractSectionFromXml(cfrText.value.root, ancestors.value)
  }

  /**
   * The ancestry is checked first; then the text, where an empty text counts
   * as missing; only with both in hand is the document resolved.
   */
  lemma GetCfrSectionOutcomes(ancestors: Option<seq<AncestryEntry>>, cfrText: Option<FetchedXml>)
    ensures ancestors.None? ==> GetCfrSection(ancestors, cfrText) == Failure(AncestryFetchFailed)
    ensures ancestors.Some? && (cfrText.None? || cfrText.value.raw == "") ==>
              GetCfrSection(ancestors, cfrText) == Failure(TextFetchFailed)
    ensures GetCfrSection(ancestors, cfrText).Success? ==>
              ancestors.Some? && cfrText.Some? && cfrText.value.raw != ""
              && var r := GetCfrSection(ancestors, cfrText).value;
                 r in Descendants(cfrText.value.root) && |r.children| > 0
                 && ExtractFromXml(cfrText.value.root, ancestors.value) == Some(r)
  {
    if GetCfrSection(ancestors, cfrText).Success? {
    }
  }

  /** ", <Label> <value>" for a truthy field, nothing otherwise. */
  function Segment(name: string, o: Option<string>): string
  {
    if Truthy(o) then ", " + name + " " + o.value else ""
  }

  /** `format_cfr_reference(ref)`. */
  function FormatCfrReference(ref: CfrReference): string
  {
    "Title " + IntToString(ref.title)
    + Segment("Subtitle", ref.subtitle) + Segment("Chapter", ref.chapter)
    + Segment("Subchapter", ref.subchapter) + Segment("Part", ref.part)
  }

  /** The part of the label after the title: the locator segments. */
  function Locators(ref: CfrReference): string
  {
    Segment("Subtitle", ref.subtitle) + Segment("Chapter", ref.chapter)
    + Segment("Subchapter", ref.subchapter) + Segment("Part", ref.part)
  }

  /** Every segment is empty or starts with a comma. */
  lemma SegmentStartsWithComma(name: string, o: Option<string>)
    ensures Segment(name, o) == [] || Segment(name, o)[0] == ','
  {
  }

  /** The label is "Title <title>" followed by segments that are empty or start with a comma. */
  lemma FormatSplitsAfterTitle(ref: CfrReference)
    ensures FormatCfrReference(ref) == "Title " + IntToString(ref.title) + Locators(ref)
    ensures Locators(ref) == [] || Locators(ref)[0] == ','
  {
    var p := "Title " + IntToString(ref.title);
    var s1, s2 := Segment("Subtitle", ref.subtitle), Segment("Chapter", ref.chapter);
    var s3, s4 := Segment("Subchapter", ref.subchapter), Segment("Part", ref.part);
    AppendAssociates(p, s1, s2);
    AppendAssociates(p, s1 + s2, s3);
    AppendAssociates(p, s1 + s2 + s3, s4);
    SegmentStartsWithComma("Subtitle", ref.subtitle);
    SegmentStartsWithComma("Chapter", ref.chapter);
    SegmentStartsWithComma("Subchapter", ref.subchapter);
    SegmentStartsWithComma("Part", ref.part);
  }

  /** The label always starts with "Title <title>". */
  lemma FormatStartsWithTitle(ref: CfrReference)
    ensures var prefix := "Title " + IntToString(ref.title);
            |prefix| <= |FormatCfrReference(ref)| && FormatCfrReference(ref)[..|prefix|] == prefix
  {
    FormatSplitsAfterTitle(ref);
  }

  /** References with different titles never share a label. */
  lemma FormatDistinguishesTitles(r1: CfrReference, r2: CfrReference)
    requires FormatCfrReference(r1) == FormatCfrReference(r2)
    ensures r1.title == r2.title
  {
    var f := FormatCfrReference(r1);
    var p1, p2 := "Title " + IntToString(r1.title), "Title " + IntToString(r2.title);
    TitleEndsAtFirstComma(r1);
    TitleEndsAtFirstComma(r2);
    FormatStartsWithTitle(r1);
    FormatStartsWithTitle(r2);
    assert p1 == f[..FirstComma(f)] == p2;
    assert IntToString(r1.title) == p1[6..] == p2[6..] == IntToString(r2.title);
    IntToStringInjective(r1.title, r2.title);
  }

  /** The index of the first comma of `s`, or its length when it has none. */
  function FirstComma(s: string): (k: nat)
    ensures k <= |s|
  {
    if s == [] || s[0] == ',' then 0 else 1 + FirstComma(s[1..])
  }

  /** The title part of a label holds no comma; the first comma, if any, opens the first segment. */
  lemma TitleEndsAtFirstComma(ref: CfrReference)
    ensures FirstComma(FormatCfrReference(ref)) == |"Title " + IntToString(ref.title)|
  {
    FormatSplitsAfterTitle(ref);
    IntToStringChars(ref.title);
    FirstCommaAfter("Title " + IntToString(ref.title), Locators(ref));
  }

  lemma {:induction false} FirstCommaAfter(a: string, b: string)
    requires forall i :: 0 <= i < |a| ==> a[i] != ','
    requires b == [] || b[0] == ','
    ensures FirstComma(a + b) == |a|
  {
    if a == [] {
      assert a + b == b;
    } else {
      assert (a + b)[1..] == a[1..] + b;
      FirstCommaAfter(a[1..], b);
    }
  }

  /** A reference with no truthy subtitle, chapter, subchapter or part is labelled by its title alone. */
  lemma FormatTitleOnly(ref: CfrReference)
    requires !Truthy(ref.subtitle) && !Truthy(ref.chapter) && !Truthy(ref.subchapter) && !Truthy(ref.part)
    ensures FormatCfrReference(ref) == "Title " + IntToString(ref.title)
  {
  }

  /** The section never appears, and an empty field reads like a missing one. */
  lemma FormatIgnoresSectionAndEmptyFields(ref: CfrReference, s: Option<string>)
    ensures FormatCfrReference(ref.(section := s)) == FormatCfrReference(ref)
    ensures ref.subtitle == Some("") ==> FormatCfrReference(ref.(subtitle := None)) == FormatCfrReference(ref)
    ensures ref.chapter == Some("") ==> FormatCfrReference(ref.(chapter := None)) == FormatCfrReference(ref)
    ensures ref.subchapter == Some("") ==> FormatCfrReference(ref.(subchapter := None)) == FormatCfrReference(ref)
    ensures ref.part == Some("") ==> FormatCfrReference(ref.(part := None)) == FormatCfrReference(ref)
  {
  }

  /** A truthy part is the last thing in the label. */
  lemma FormatEndsWithPart(ref: CfrReference)
    requires Truthy(ref.part)
    ensures var suffix := ", Part " + ref.part.value;
            |suffix| <= |FormatCfrReference(ref)|
            && FormatCfrReference(ref)[|FormatCfrReference(ref)| - |suffix|..] == suffix
  {
    var suffix := ", Part " + ref.part.value;
    var front := "Title " + IntToString(ref.title)
                 + Segment("Subtitle", ref.subtitle) + Segment("Chapter", ref.chapter)
                 + Segment("Subchapter", ref.subchapter);
    assert FormatCfrReference(ref) == front + suffix;
  }

  /** The label of a full reference lists its four locators in hierarchy order. */
  lemma FormatFullReference(t: int, st: string, c: string, sc: string, p: string, s: Option<string>)
    requires st != "" && c != "" && sc != "" && p != ""
    ensures FormatCfrReference(CfrReference(t, Some(st), Some(c), Some(sc), Some(p), s))
            == "Title " + IntToString(t) + (", Subtitle " + st) + (", Chapter " + c)
               + (", Subchapter " + sc) + (", Part " + p)
  {
    var ref := CfrReference(t, Some(st), Some(c), Some(sc), Some(p), s);
    SegmentOf("Subtitle", st, ", Subtitle ");
    SegmentOf("Chapter", c, ", Chapter ");
    SegmentOf("Subchapter", sc, ", Subchapter ");
    SegmentOf("Part", p, ", Part ");
  }

  lemma SegmentOf(name: string, v: string, lead: string)
    requires v != "" && lead == ", " + name + " "
    ensures Segment(name, Some(v)) == lead + v
  {
  }

  /** What the page shows for a selected reference once the title's issue date is known. */
  datatype Display = WordCountShown(count: nat) | FetchWarning | PageError

  /**
   * The page as written: `if reference_content:` treats an element as true
   * when it has children and a message as true when it is non-empty, and a
   * true message then reaches `ET.tostring`, which raises on a string.
   */
  function ShowReferenceAsWritten(content: Result<Node, string>): Display
  {
    match content
    case Success(n) => if |n.children| > 0 then WordCountShown(WordCount(n)) else FetchWarning
    case Failure(msg) => if msg != "" then PageError else FetchWarning
  }

  /**
   * As written, every failure of `get_cfr_section` ends the page with an
   * error and the fetch warning can never be shown.
   */
  lemma {:induction false} FailureNeverWarns(ancestors: Option<seq<AncestryEntry>>, cfrText: Option<FetchedXml>)
    ensures GetCfrSection(ancestors, cfrText).Failure? ==>
              ShowReferenceAsWritten(GetCfrSection(ancestors, cfrText)) == PageError
    ensures ShowReferenceAsWritten(GetCfrSection(ancestors, cfrText)) != FetchWarning
  {
    var content := GetCfrSection(ancestors, cfrText);
    if content.Success? {
      GetCfrSectionOutcomes(ancestors, cfrText);
    } else if ancestors.Some? && cfrText.Some? && cfrText.value.raw != "" {
      var miss := Resolve(cfrText.value.root, Hierarchy(ancestors.value), true).error;
      assert content.error == NotFoundMessage(miss);
      NotFoundMessageNonEmpty(miss);
    }
  }

  lemma NotFoundMessageNonEmpty(miss: Miss)
    ensures NotFoundMessage(miss) != ""
  {
    assert |NotFoundMessage(miss)| >= |" not found."|;
  }

  /** The page as evidently intended: the word count for an element, the warning for a failure. */
  function ShowReference(content: Result<Node, string>): Display
  {
    match content
    case Success(n) => WordCountShown(WordCount(n))
    case Failure(_) => FetchWarning
  }

  /**
   * Intended behaviour: a failure shows the fetch warning; a resolved element
   * shows its word count, as the page as written already does for it.
   */
  lemma ShowReferenceWarnsOnFailure(ancestors: Option<seq<AncestryEntry>>, cfrText: Option<FetchedXml>)
    ensures var content := GetCfrSection(ancestors, cfrText);
            (content.Failure? <==> ShowReference(content) == FetchWarning)
            && (content.Success? ==>
                  ShowReference(content) == WordCountShown(SumTokenCounts(ParagraphTexts(content.value)))
                  && ShowReference(content) == ShowReferenceAsWritten(content))
  {
    GetCfrSectionOutcomes(ancestors, cfrText);
  }
}
