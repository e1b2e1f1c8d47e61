/**
 * The CFR hierarchy resolver shared by `extract_from_xml` (batch script) and
 * `extract_section_from_xml` (dashboard): collapse the ancestry list into a
 * type -> identifier map, then descend TITLE, SUBTITLE, CHAPTER, SUBCHAPTER,
 * PART, SECTION, each requested level searched among the descendants of the
 * scope found so far, each absent level carrying the scope forward.
 */
module Resolver {
  import opened Wrappers
  import opened Xml

  datatype Level = Title | Subtitle | Chapter | Subchapter | Part | Section

  /** The order of descent. */
  const Levels: seq<Level> := [Title, Subtitle, Chapter, Subchapter, Part, Section]

  /** The ancestry `type` naming the level. */
  function Key(l: Level): string
  {
    match l
    case Title => "title"
    case Subtitle => "subtitle"
    case Chapter => "chapter"
    case Subchapter => "subchapter"
    case Part => "part"
    case Section => "section"
  }

  /** The element tag of the level in eCFR XML. */
  function Tag(l: Level): string
  {
    match l
    case Title => "DIV1"
    case Subtitle => "DIV2"
    case Chapter => "DIV3"
    case Subchapter => "DIV4"
    case Part => "DIV5"
    case Section => "DIV8"
  }

  /** The `TYPE` attribute of the level in eCFR XML. */
  function TypeName(l: Level): string
  {
    match l
    case Title => "TITLE"
    case Subtitle => "SUBTITLE"
    case Chapter => "CHAPTER"
    case Subchapter => "SUBCHAP"
    case Part => "PART"
    case Section => "SECTION"
  }

  /** One `{type, identifier}` entry of an ancestry list. */
  datatype AncestryEntry = AncestryEntry(levelType: string, identifier: string)

  /** `{item["type"]: item["identifier"] for item in ancestry_data}`: later entries overwrite earlier ones. */
  function Hierarchy(ancestry: seq<AncestryEntry>): map<string, string>
  {
    if ancestry == [] then map[]
    else
      var e := ancestry[|ancestry| - 1];
      Hierarchy(ancestry[..|ancestry| - 1])[e.levelType := e.identifier]
  }

  /** The map has a key exactly for the types the list mentions. */
  lemma {:induction false} HierarchyKeys(ancestry: seq<AncestryEntry>, k: string)
    ensures k in Hierarchy(ancestry) <==> exists i :: 0 <= i < |ancestry| && ancestry[i].levelType == k
  {
    if ancestry != [] {
      var init := ancestry[..|ancestry| - 1];
      HierarchyKeys(init, k);
      assert forall i :: 0 <= i < |init| ==> init[i] == ancestry[i];
    }
  }

  /** A repeated type keeps the identifier of its last entry. */
  lemma {:induction false} HierarchyKeepsLast(ancestry: seq<AncestryEntry>, i: nat)
    requires i < |ancestry| && IsLastOfType(ancestry, i)
    ensures ancestry[i].levelType in Hierarchy(ancestry)
    ensures Hierarchy(ancestry)[ancestry[i].levelType] == ancestry[i].identifier
  {
    var init := ancestry[..|ancestry| - 1];
    if i < |init| {
      assert init[i] == ancestry[i];
      assert IsLastOfType(init, i) by {
        forall j | i < j < |init| ensures init[j].levelType != init[i].levelType {
          assert init[j] == ancestry[j];
        }
      }
      HierarchyKeepsLast(init, i);
    }
  }

  /** No later entry of the list has the same type as entry `i`. */
  predicate IsLastOfType(ancestry: seq<AncestryEntry>, i: nat)
    requires i < |ancestry|
  {
    forall j :: i < j < |ancestry| ==> ancestry[j].levelType != ancestry[i].levelType
  }

  /** The title level is always searched; any other level only when the ancestry names it. */
  predicate Requested(h: map<string, string>, l: Level)
  {
    l == Title || Key(l) in h
  }

  /**
   * The identifier searched for: `hierarchy.get('title')` formats a missing
   * title as the text "None".
   */
  function IdOf(h: map<string, string>, l: Level): string
  {
    if Key(l) in h then h[Key(l)] else "None"
  }

  function QueryFor(l: Level, id: string): Query
  {
    Query(Tag(l), TypeName(l), id)
  }

  /** The level and identifier at which resolution stopped. */
  datatype Miss = Miss(level: Level, identifier: string)

  /**
   * The lookup of one level.  With `requireChildren`, a found element counts
   * only when it has children, as an ElementTree element's truth value does.
   */
  function Lookup(scope: Node, l: Level, id: string, requireChildren: bool): Option<Node>
  {
    match Find(scope, QueryFor(l, id))
    case Some(m) => if !requireChildren || |m.children| > 0 then Some(m) else None
    case None => None
  }

  /** The descent through `levels` from `scope`. */
  function Descend(scope: Node, h: map<string, string>, levels: seq<Level>, requireChildren: bool): Result<Node, Miss>
    decreases |levels|
  {
    if levels == [] then Success(scope)
    else
      var l := levels[0];
      if Requested(h, l) then
        match Lookup(scope, l, IdOf(h, l), requireChildren)
        case None => Failure(Miss(l, IdOf(h, l)))
        case Some(m) => Descend(m, h, levels[1..], requireChildren)
      else Descend(scope, h, levels[1..], requireChildren)
  }

  function Resolve(root: Node, h: map<string, string>, requireChildren: bool): Result<Node, Miss>
  {
    Descend(root, h, Levels, requireChildren)
  }

  /** `extract_from_xml(root, ancestry_data)`: an element strictly inside the document, or None. */
  function ExtractFromXml(root: Node, ancestry: seq<AncestryEntry>): (r: Option<Node>)
    ensures r.Some? ==> r.value in Descendants(root)
  {
    match Resolve(root, Hierarchy(ancestry), false)
    case Success(n) => ResolvedBelowRoot(root, Hierarchy(ancestry), false); Some(n)
    case Failure(_) => None
  }

  /**
   * The title is always searched among the root's descendants, so whatever
   * a resolution returns lies strictly inside the root.
   */
  lemma ResolvedBelowRoot(root: Node, h: map<string, string>, rc: bool)
    requires Resolve(root, h, rc).Success?
    ensures Resolve(root, h, rc).value in Descendants(root)
  {
    var t := Lookup(root, Title, IdOf(h, Title), rc).value;
    LookupInside(root, Title, IdOf(h, Title), rc);
    DescendStaysInside(t, h, Levels[1..], rc);
    var n := Descend(t, h, Levels[1..], rc).value;
    if n != t {
      DescendantTransitive(root, t, n);
    }
  }

  /** Descending through `a + b` is descending through `a` and then, from where that ends, through `b`. */
  lemma {:induction false} DescendAppend(scope: Node, h: map<string, string>, a: seq<Level>, b: seq<Level>, rc: bool)
    ensures Descend(scope, h, a + b, rc) ==
      match Descend(scope, h, a, rc)
      case Success(m) => Descend(m, h, b, rc)
      case Failure(e) => Failure(e)
    decreases |a|
  {
    if a == [] {
      assert a + b == b;
    } else {
      assert (a + b)[0] == a[0];
      assert (a + b)[1..] == a[1..] + b;
      var l := a[0];
      if Requested(h, l) {
        match Lookup(scope, l, IdOf(h, l), rc)
        case None =>
        case Some(m) => DescendAppend(m, h, a[1..], b, rc);
      } else {
        DescendAppend(scope, h, a[1..], b, rc);
      }
    }
  }

  /** A resolved element is the scope itself or lies below it. */
  lemma {:induction false} DescendStaysInside(scope: Node, h: map<string, string>, levels: seq<Level>, rc: bool)
    requires Descend(scope, h, levels, rc).Success?
    ensures var r := Descend(scope, h, levels, rc).value; r == scope || r in Descendants(scope)
    decreases |levels|
  {
    if levels != [] {
      var l := levels[0];
      if Requested(h, l) {
        var m := Lookup(scope, l, IdOf(h, l), rc).value;
        FindIsFirstDescendant(scope, QueryFor(l, IdOf(h, l)));
        DescendStaysInside(m, h, levels[1..], rc);
        var r := Descend(m, h, levels[1..], rc).value;
        if r != m {
          DescendantTransitive(scope, m, r);
        }
      } else {
        DescendStaysInside(scope, h, levels[1..], rc);
      }
    }
  }

  /**
   * Each requested level is resolved by the first element, in document
   * order, among the proper descendants of the scope reached by the levels
   * above it that has the level's tag, TYPE and N.
   */
  lemma StepIsFirstMatch(root: Node, h: map<string, string>, k: nat, rc: bool)
    requires 1 <= k <= 6 && Requested(h, Levels[k - 1])
    requires Descend(root, h, Levels[..k], rc).Success?
    ensures Descend(root, h, Levels[..k - 1], rc).Success?
    ensures var prev := Descend(root, h, Levels[..k - 1], rc).value;
            var q := QueryFor(Levels[k - 1], IdOf(h, Levels[k - 1]));
            Some(Descend(root, h, Levels[..k], rc).value) == FirstMatching(Descendants(prev), q)
  {
    var l := Levels[k - 1];
    assert Levels[..k] == Levels[..k - 1] + [l];
    DescendAppend(root, h, Levels[..k - 1], [l], rc);
    var prev := Descend(root, h, Levels[..k - 1], rc).value;
    FindIsFirstDescendant(prev, QueryFor(l, IdOf(h, l)));
  }

  /**
   * A node returned by `extract_from_xml` lies inside the element matched at
   * every requested level: a chapter under another subtitle is never returned.
   */
  lemma ExtractedInsideEveryRequestedLevel(root: Node, ancestry: seq<AncestryEntry>, k: nat)
    requires ExtractFromXml(root, ancestry).Some?
    requires 1 <= k <= 6 && Requested(Hierarchy(ancestry), Levels[k - 1])
    ensures var h := Hierarchy(ancestry);
            var r := ExtractFromXml(root, ancestry).value;
            Descend(root, h, Levels[..k], false).Success?
            && var m := Descend(root, h, Levels[..k], false).value;
            Matches(m, QueryFor(Levels[k - 1], IdOf(h, Levels[k - 1])))
            && (r == m || r in Descendants(m))
  {
    var h := Hierarchy(ancestry);
    assert Levels == Levels[..k] + Levels[k..];
    DescendAppend(root, h, Levels[..k], Levels[k..], false);
    var m := Descend(root, h, Levels[..k], false).value;
    StepIsFirstMatch(root, h, k, false);
    DescendStaysInside(m, h, Levels[k..], false);
  }

  /** An ancestry holding only a title yields the first DIV1 TITLE element with that N. */
  lemma TitleOnlyGivesTitle(root: Node, t: string)
    ensures ExtractFromXml(root, [AncestryEntry("title", t)]) == Find(root, QueryFor(Title, t))
  {
    var ancestry := [AncestryEntry("title", t)];
    assert ancestry[..|ancestry| - 1] == [];
    assert Hierarchy([]) == map[];
    var h := Hierarchy(ancestry);
    assert h == map[]["title" := t];
    OnlyTitleRequested(root, h);
  }

  /** Levels the map does not request are transparent: only the title lookup remains. */
  lemma OnlyTitleRequested(root: Node, h: map<string, string>)
    requires "subtitle" !in h && "chapter" !in h && "subchapter" !in h && "part" !in h && "section" !in h
    ensures Find(root, QueryFor(Title, IdOf(h, Title))).None? ==> Resolve(root, h, false).Failure?
    ensures Find(root, QueryFor(Title, IdOf(h, Title))).Some? ==>
              Resolve(root, h, false) == Success(Find(root, QueryFor(Title, IdOf(h, Title))).value)
  {
    assert Levels == [Title] + [Subtitle, Chapter, Subchapter, Part, Section];
    match Find(root, QueryFor(Title, IdOf(h, Title)))
    case None =>
    case Some(t) =>
      assert Descend(t, h, [Subtitle, Chapter, Subchapter, Part, Section], false) == Success(t);
  }

  /** A resolution that fails within the first `k` levels fails with that same miss, whatever follows. */
  lemma FailureIsFinal(root: Node, h: map<string, string>, k: nat, rc: bool)
    requires k <= 6
    requires Descend(root, h, Levels[..k], rc).Failure?
    ensures Resolve(root, h, rc) == Descend(root, h, Levels[..k], rc)
  {
    assert Levels == Levels[..k] + Levels[k..];
    DescendAppend(root, h, Levels[..k], Levels[k..], rc);
  }

  /** Two maps that request the same levels with the same identifiers. */
  predicate SameLevels(h1: map<string, string>, h2: map<string, string>, levels: seq<Level>)
  {
    forall i :: 0 <= i < |levels| ==>
      (Key(levels[i]) in h1 <==> Key(levels[i]) in h2) && IdOf(h1, levels[i]) == IdOf(h2, levels[i])
  }

  /** The descent reads only the entries of the levels it passes through. */
  lemma {:induction false} DescendReadsOnlyItsLevels(scope: Node, h1: map<string, string>, h2: map<string, string>,
                                                     levels: seq<Level>, rc: bool)
    requires SameLevels(h1, h2, levels)
    ensures Descend(scope, h1, levels, rc) == Descend(scope, h2, levels, rc)
    decreases |levels|
  {
    if levels != [] {
      assert SameLevels(h1, h2, levels[1..]) by {
        forall i | 0 <= i < |levels[1..]| ensures Key(levels[1..][i]) in h1 <==> Key(levels[1..][i]) in h2 {
          assert levels[1..][i] == levels[i + 1];
        }
        forall i | 0 <= i < |levels[1..]| ensures IdOf(h1, levels[1..][i]) == IdOf(h2, levels[1..][i]) {
          assert levels[1..][i] == levels[i + 1];
        }
      }
      assert (Key(levels[0]) in h1 <==> Key(levels[0]) in h2) && IdOf(h1, levels[0]) == IdOf(h2, levels[0]);
      var l := levels[0];
      if Requested(h1, l) {
        match Lookup(scope, l, IdOf(h1, l), rc)
        case None =>
        case Some(m) => DescendReadsOnlyItsLevels(m, h1, h2, levels[1..], rc);
      } else {
        DescendReadsOnlyItsLevels(scope, h1, h2, levels[1..], rc);
      }
    }
  }

  /**
   * If some requested level among the first `k` cannot be found, the result
   * is None for every ancestry that agrees on those levels, whatever deeper
   * levels it also requests.
   */
  lemma NotFoundWhateverDeeper(root: Node, a1: seq<AncestryEntry>, a2: seq<AncestryEntry>, k: nat)
    requires k <= 6
    requires SameLevels(Hierarchy(a1), Hierarchy(a2), Levels[..k])
    requires Descend(root, Hierarchy(a1), Levels[..k], false).Failure?
    ensures ExtractFromXml(root, a2) == None
  {
    DescendReadsOnlyItsLevels(root, Hierarchy(a1), Hierarchy(a2), Levels[..k], false);
    FailureIsFinal(root, Hierarchy(a2), k, false);
  }

  /**
   * Entries whose type is none of the six levels are ignored, wherever they
   * stand in the ancestry.
   */
  lemma UnknownTypesIgnored(root: Node, a: seq<AncestryEntry>, e: AncestryEntry, b: seq<AncestryEntry>)
    requires forall l: Level :: e.levelType != Key(l)
    ensures ExtractFromXml(root, a + [e] + b) == ExtractFromXml(root, a + b)
  {
    var h1, h2 := Hierarchy(a + [e] + b), Hierarchy(a + b);
    forall l: Level
      ensures (Key(l) in h1 <==> Key(l) in h2) && IdOf(h1, l) == IdOf(h2, l)
    {
      HierarchySkipsEntry(a, e, b, Key(l));
    }
    DescendReadsOnlyItsLevels(root, h1, h2, Levels, false);
  }

  /** Removing an entry from the ancestry changes the map at most at that entry's type. */
  lemma {:induction false} HierarchySkipsEntry(a: seq<AncestryEntry>, e: AncestryEntry, b: seq<AncestryEntry>, k: string)
    requires k != e.levelType
    ensures k in Hierarchy(a + [e] + b) <==> k in Hierarchy(a + b)
    ensures k in Hierarchy(a + b) ==> Hierarchy(a + [e] + b)[k] == Hierarchy(a + b)[k]
    decreases |b|
  {
    if b == [] {
      assert a + [e] + b == a + [e] && a + b == a;
      assert (a + [e])[..|a|] == a;
    } else {
      var init, last := b[..|b| - 1], b[|b| - 1];
      HierarchySkipsEntry(a, e, init, k);
      assert (a + [e] + b)[..|a + [e] + b| - 1] == a + [e] + init;
      assert (a + b)[..|a + b| - 1] == a + init;
      assert (a + [e] + b)[|a + [e] + b| - 1] == last == (a + b)[|a + b| - 1];
    }
  }

  /**
   * A resolution that insists on elements with children succeeds only where
   * the plain one does, and on the same element.
   */
  lemma {:induction false} ChildrenCheckOnlyNarrows(scope: Node, h: map<string, string>, levels: seq<Level>)
    requires Descend(scope, h, levels, true).Success?
    ensures Descend(scope, h, levels, false) == Descend(scope, h, levels, true)
    decreases |levels|
  {
    if levels != [] {
      var l := levels[0];
      if Requested(h, l) {
        var m := Lookup(scope, l, IdOf(h, l), true).value;
        assert Lookup(scope, l, IdOf(h, l), false) == Some(m);
        ChildrenCheckOnlyNarrows(m, h, levels[1..]);
      } else {
        ChildrenCheckOnlyNarrows(scope, h, levels[1..]);
      }
    }
  }

  /**
   * Where the children check makes a level fail that the plain resolution
   * gets past, the element found there is a childless one with the level's
   * tag, TYPE and N.
   */
  lemma {:induction false} ChildrenCheckMiss(scope: Node, h: map<string, string>, levels: seq<Level>, l: Level, id: string)
    requires Descend(scope, h, levels, true) == Failure(Miss(l, id))
    ensures Descend(scope, h, levels, false) == Failure(Miss(l, id))
            || exists m :: m in Descendants(scope) && Matches(m, QueryFor(l, id)) && m.children == []
    decreases |levels|
  {
    if levels != [] {
      var l0 := levels[0];
      if !Requested(h, l0) {
        ChildrenCheckMiss(scope, h, levels[1..], l, id);
      } else if Lookup(scope, l0, IdOf(h, l0), true).None? {
        LookupMiss(scope, l0, IdOf(h, l0));
      } else {
        var m := Lookup(scope, l0, IdOf(h, l0), true).value;
        assert Lookup(scope, l0, IdOf(h, l0), false) == Some(m);
        LookupInside(scope, l0, IdOf(h, l0), true);
        ChildrenCheckMiss(m, h, levels[1..], l, id);
        if Descend(m, h, levels[1..], false) != Failure(Miss(l, id)) {
          var d :| d in Descendants(m) && Matches(d, QueryFor(l, id)) && d.children == [];
          DescendantTransitive(scope, m, d);
        }
      }
    }
  }

  /** A found element lies below the scope. */
  lemma LookupInside(scope: Node, l: Level, id: string, rc: bool)
    requires Lookup(scope, l, id, rc).Some?
    ensures Lookup(scope, l, id, rc).value in Descendants(scope)
  {
    FindIsFirstDescendant(scope, QueryFor(l, id));
  }

  /** A lookup that fails only for the children check has found a childless element. */
  lemma LookupMiss(scope: Node, l: Level, id: string)
    requires Lookup(scope, l, id, true).None?
    ensures Lookup(scope, l, id, false).None?
            || exists m :: m in Descendants(scope) && Matches(m, QueryFor(l, id)) && m.children == []
  {
    FindIsFirstDescendant(scope, QueryFor(l, id));
  }

  /**
   * A failed descent names the first level it could not get past: every
   * level before it was resolved, and the lookup at it came back empty.
   */
  lemma {:induction false} MissIsFirstFailedLevel(scope: Node, h: map<string, string>, levels: seq<Level>, rc: bool)
    requires Descend(scope, h, levels, rc).Failure?
    ensures var miss := Descend(scope, h, levels, rc).error;
            exists k :: 0 <= k < |levels| && levels[k] == miss.level && Requested(h, miss.level)
                        && miss.identifier == IdOf(h, miss.level)
                        && Descend(scope, h, levels[..k], rc).Success?
                        && Lookup(Descend(scope, h, levels[..k], rc).value, miss.level, miss.identifier, rc).None?
    decreases |levels|
  {
    var miss := Descend(scope, h, levels, rc).error;
    var l := levels[0];
    assert levels[..0] == [];
    if Requested(h, l) && Lookup(scope, l, IdOf(h, l), rc).Some? {
      var m := Lookup(scope, l, IdOf(h, l), rc).value;
      MissIsFirstFailedLevel(m, h, levels[1..], rc);
      var k :| 0 <= k < |levels[1..]| && levels[1..][k] == miss.level && Requested(h, miss.level)
               && miss.identifier == IdOf(h, miss.level)
               && Descend(m, h, levels[1..][..k], rc).Success?
               && Lookup(Descend(m, h, levels[1..][..k], rc).value, miss.level, miss.identifier, rc).None?;
      DescendPrefixStep(scope, h, levels, k, rc);
      assert levels[k + 1] == miss.level;
    } else if !Requested(h, l) {
      MissIsFirstFailedLevel(scope, h, levels[1..], rc);
      var k :| 0 <= k < |levels[1..]| && levels[1..][k] == miss.level && Requested(h, miss.level)
               && miss.identifier == IdOf(h, miss.level)
               && Descend(scope, h, levels[1..][..k], rc).Success?
               && Lookup(Descend(scope, h, levels[1..][..k], rc).value, miss.level, miss.identifier, rc).None?;
      DescendPrefixStep(scope, h, levels, k, rc);
      assert levels[k + 1] == miss.level;
    }
  }

  /** Descending through the first `k + 1` levels is taking the first level, then the next `k`. */
  lemma DescendPrefixStep(scope: Node, h: map<string, string>, levels: seq<Level>, k: nat, rc: bool)
    requires k < |levels| - 1
    ensures var l := levels[0];
            Descend(scope, h, levels[..k + 1], rc) ==
              if Requested(h, l) then
                match Lookup(scope, l, IdOf(h, l), rc)
                case None => Failure(Miss(l, IdOf(h, l)))
                case Some(m) => Descend(m, h, levels[1..][..k], rc)
              else Descend(scope, h, levels[1..][..k], rc)
  {
    assert levels[..k + 1][1..] == levels[1..][..k];
  }
}
