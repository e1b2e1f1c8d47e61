/**
 * An already-parsed XML document, as Python's ElementTree holds it, and the
 * three things the core reads from it: `find(".//TAG[@TYPE='..'][@N='..']")`,
 * the text of an element, and the `<P>` paragraphs with their text as
 * BeautifulSoup's `get_text(strip=True)` gives it.
 */
module Xml {
  import opened Wrappers
  import opened Text

  /**
   * An element: its tag, its `TYPE` and `N` attributes (absent or present),
   * the text before its first child, its children, and the text that follows
   * its end tag inside its parent (ElementTree's `tail`).
   */
  datatype Node = Node(tag: string, typeAttr: Option<string>, n: Option<string>,
                       text: string, children: seq<Node>, tail: string)

  /** The path `.//TAG[@TYPE='TYPE'][@N='ID']`. */
  datatype Query = Query(tag: string, typeName: string, id: string)

  predicate Matches(d: Node, q: Query)
  {
    d.tag == q.tag && d.typeAttr == Some(q.typeName) && d.n == Some(q.id)
  }

  /** The proper descendants of `node`, in document order (pre-order). */
  function Descendants(node: Node): seq<Node>
    decreases node
  {
    DescendantsOf(node.children)
  }

  /** The elements of the forest `cs`, in document order. */
  function DescendantsOf(cs: seq<Node>): seq<Node>
    decreases cs
  {
    if cs == [] then [] else [cs[0]] + Descendants(cs[0]) + DescendantsOf(cs[1..])
  }

  /** The first element of `ds` that matches `q`: the reference meaning of a path search. */
  function FirstMatching(ds: seq<Node>, q: Query): (r: Option<Node>)
    ensures r.None? <==> forall i :: 0 <= i < |ds| ==> !Matches(ds[i], q)
    ensures r.Some? ==> exists i :: 0 <= i < |ds| && ds[i] == r.value && Matches(ds[i], q)
                                   && forall j :: 0 <= j < i ==> !Matches(ds[j], q)
  {
    if ds == [] then None
    else if Matches(ds[0], q) then Some(ds[0])
    else
      var r := FirstMatching(ds[1..], q);
      assert r.Some? ==> exists i :: 0 <= i < |ds[1..]| && ds[1..][i] == r.value && Matches(ds[1..][i], q)
                                   && forall j :: 0 <= j < i ==> !Matches(ds[1..][j], q);
      assert r.Some? ==> exists i :: 1 <= i < |ds| && ds[i] == r.value && Matches(ds[i], q)
                                   && forall j :: 0 <= j < i ==> !Matches(ds[j], q);
      r
  }

  /** ElementTree's search: children in order, each one tried before its own subtree. */
  function FindIn(cs: seq<Node>, q: Query): Option<Node>
    decreases cs
  {
    if cs == [] then None
    else if Matches(cs[0], q) then Some(cs[0])
    else match FindIn(cs[0].children, q)
      case Some(d) => Some(d)
      case None => FindIn(cs[1..], q)
  }

  /** `scope.find(".//TAG[@TYPE='TYPE'][@N='ID']")`. */
  function Find(scope: Node, q: Query): Option<Node>
  {
    FindIn(scope.children, q)
  }

  lemma {:induction false} FirstMatchingAppend(a: seq<Node>, b: seq<Node>, q: Query)
    ensures FirstMatching(a + b, q) == if FirstMatching(a, q).Some? then FirstMatching(a, q) else FirstMatching(b, q)
  {
    if a != [] {
      assert (a + b)[1..] == a[1..] + b;
      FirstMatchingAppend(a[1..], b, q);
    } else {
      assert a + b == b;
    }
  }

  lemma {:induction false} FindInIsFirstMatching(cs: seq<Node>, q: Query)
    ensures FindIn(cs, q) == FirstMatching(DescendantsOf(cs), q)
    decreases cs
  {
    if cs != [] {
      var c := cs[0];
      var ds := DescendantsOf(cs);
      assert ds == [c] + (Descendants(c) + DescendantsOf(cs[1..]));
      if !Matches(c, q) {
        assert ds[1..] == Descendants(c) + DescendantsOf(cs[1..]);
        FirstMatchingAppend(Descendants(c), DescendantsOf(cs[1..]), q);
        FindInIsFirstMatching(c.children, q);
        FindInIsFirstMatching(cs[1..], q);
      }
    }
  }

  /**
   * `find` returns the first proper descendant of the scope, in document
   * order, that matches the path, and None exactly when no descendant does.
   */
  lemma FindIsFirstDescendant(scope: Node, q: Query)
    ensures Find(scope, q) == FirstMatching(Descendants(scope), q)
    ensures Find(scope, q).None? <==> forall d :: d in Descendants(scope) ==> !Matches(d, q)
    ensures Find(scope, q).Some? ==> Find(scope, q).value in Descendants(scope) && Matches(Find(scope, q).value, q)
  {
    FindInIsFirstMatching(scope.children, q);
  }

  /** An element of the forest `cs` is one of its roots or lies below one. */
  lemma {:induction false} InDescendantsOf(cs: seq<Node>, d: Node)
    ensures d in DescendantsOf(cs) <==> exists i :: 0 <= i < |cs| && (d == cs[i] || d in Descendants(cs[i]))
    decreases cs
  {
    if cs != [] {
      InDescendantsOf(cs[1..], d);
      assert forall i :: 1 <= i < |cs| ==> cs[i] == cs[1..][i - 1];
    }
  }

  /** Everything below a child lies below its parent. */
  lemma ChildDescendants(node: Node, i: nat, d: Node)
    requires i < |node.children|
    requires d == node.children[i] || d in Descendants(node.children[i])
    ensures d in Descendants(node)
  {
    InDescendantsOf(node.children, d);
  }

  /** Lying below is transitive: a descendant of a descendant is a descendant. */
  lemma {:induction false} DescendantTransitive(a: Node, b: Node, c: Node)
    requires b in Descendants(a) && c in Descendants(b)
    ensures c in Descendants(a)
    decreases a
  {
    InDescendantsOf(a.children, b);
    var i :| 0 <= i < |a.children| && (b == a.children[i] || b in Descendants(a.children[i]));
    if b == a.children[i] {
      ChildDescendants(a, i, c);
    } else {
      DescendantTransitive(a.children[i], b, c);
      ChildDescendants(a, i, c);
    }
  }

  /** The text pieces inside an element, in document order: its text, then each child's pieces and tail. */
  function Strings(node: Node): seq<string>
    decreases node
  {
    [node.text] + StringsOf(node.children)
  }

  function StringsOf(cs: seq<Node>): seq<string>
    decreases cs
  {
    if cs == [] then [] else Strings(cs[0]) + [cs[0].tail] + StringsOf(cs[1..])
  }

  function Concat(ss: seq<string>): string
  {
    if ss == [] then [] else ss[0] + Concat(ss[1..])
  }

  function ConcatStripped(ss: seq<string>): string
  {
    if ss == [] then [] else Strip(ss[0]) + ConcatStripped(ss[1..])
  }

  /** `ET.tostring(elem, method="text")` of an element parsed on its own (no tail). */
  function ElementText(node: Node): string
  {
    Concat(Strings(node))
  }

  /** BeautifulSoup's `get_text(strip=True)`: every piece stripped, joined with no separator. */
  function StrippedText(node: Node): string
  {
    ConcatStripped(Strings(node))
  }

  /**
   * Stripping each piece and gluing them together can only merge tokens:
   * the tokens of the stripped text never outnumber those of the pieces.
   */
  lemma {:induction false} StrippedTextMergesTokens(ss: seq<string>)
    ensures TokenCount(ConcatStripped(ss)) <= SumTokenCounts(ss)
  {
    if ss != [] {
      StrippedTextMergesTokens(ss[1..]);
      TokenCountConcat(Strip(ss[0]), ConcatStripped(ss[1..]));
    }
  }

  function WithTag(ds: seq<Node>, tag: string): (r: seq<Node>)
  {
    if ds == [] then []
    else if ds[0].tag == tag then [ds[0]] + WithTag(ds[1..], tag)
    else WithTag(ds[1..], tag)
  }

  /** `find_all("P")` on a document whose root is `node`: the root included, document order. */
  function Paragraphs(node: Node): seq<Node>
  {
    WithTag([node] + Descendants(node), "P")
  }

  /** `[p.get_text(strip=True) for p in ps]`. */
  function StrippedTexts(ps: seq<Node>): seq<string>
  {
    seq(|ps|, i requires 0 <= i < |ps| => StrippedText(ps[i]))
  }

  /** `[p.get_text(strip=True) for p in soup.find_all("P")]`. */
  function ParagraphTexts(node: Node): seq<string>
  {
    StrippedTexts(Paragraphs(node))
  }

  /** `sum(len(text.split()) for text in p_texts)`. */
  function WordCount(node: Node): nat
  {
    SumTokenCounts(ParagraphTexts(node))
  }

  /** `WithTag` keeps exactly the elements with that tag, in order. */
  lemma {:induction false} WithTagEmpty(ds: seq<Node>, tag: string)
    ensures WithTag(ds, tag) == [] <==> forall i :: 0 <= i < |ds| ==> ds[i].tag != tag
  {
    if ds != [] {
      WithTagEmpty(ds[1..], tag);
      assert forall i :: 1 <= i < |ds| ==> ds[i] == ds[1..][i - 1];
    }
  }

  /** A subtree without any `<P>` element has word count 0, however much text it holds. */
  lemma WordCountWithoutParagraphs(node: Node)
    requires node.tag != "P"
    requires forall d :: d in Descendants(node) ==> d.tag != "P"
    ensures WordCount(node) == 0
  {
    WithTagEmpty([node] + Descendants(node), "P");
  }

  lemma {:induction false} WithTagAppend(a: seq<Node>, b: seq<Node>, tag: string)
    ensures WithTag(a + b, tag) == WithTag(a, tag) + WithTag(b, tag)
  {
    if a == [] {
      assert a + b == b;
    } else {
      assert (a + b)[0] == a[0];
      assert (a + b)[1..] == a[1..] + b;
      WithTagAppend(a[1..], b, tag);
    }
  }

  lemma StrippedTextsAppend(a: seq<Node>, b: seq<Node>)
    ensures StrippedTexts(a + b) == StrippedTexts(a) + StrippedTexts(b)
  {
  }

  /** The word counts of the elements of a forest, each counted as a document of its own, added up. */
  function ForestWordCount(cs: seq<Node>): nat
  {
    if cs == [] then 0 else WordCount(cs[0]) + ForestWordCount(cs[1..])
  }

  /**
   * The paragraphs below the roots of a forest contribute exactly the word
   * counts of its elements.
   */
  lemma {:induction false} ForestParagraphs(cs: seq<Node>)
    ensures SumTokenCounts(StrippedTexts(WithTag(DescendantsOf(cs), "P"))) == ForestWordCount(cs)
    decreases cs
  {
    if cs != [] {
      var c := cs[0];
      var head := [c] + Descendants(c);
      var rest := DescendantsOf(cs[1..]);
      assert DescendantsOf(cs) == head + rest;
      WithTagAppend(head, rest, "P");
      StrippedTextsAppend(WithTag(head, "P"), WithTag(rest, "P"));
      SumTokenCountsAppend(StrippedTexts(WithTag(head, "P")), StrippedTexts(WithTag(rest, "P")));
      ForestParagraphs(cs[1..]);
    }
  }

  /**
   * The word count of an element is the token count of its own stripped
   * text when it is a `<P>`, plus the word counts of its children: a
   * paragraph nested in a paragraph is counted once on its own and once
   * inside its parent's text.
   */
  lemma WordCountUnfolds(node: Node)
    ensures WordCount(node) ==
              (if node.tag == "P" then TokenCount(StrippedText(node)) else 0) + ForestWordCount(node.children)
  {
    var rest := DescendantsOf(node.children);
    WithTagAppend([node], rest, "P");
    assert WithTag([node], "P") == if node.tag == "P" then [node] else [];
    StrippedTextsAppend(WithTag([node], "P"), WithTag(rest, "P"));
    SumTokenCountsAppend(StrippedTexts(WithTag([node], "P")), StrippedTexts(WithTag(rest, "P")));
    ForestParagraphs(node.children);
  }
}
