/**
 * The two Python string operations the word counts rest on: `str.split()`
 * with no separator (split on runs of whitespace, drop empty pieces) and
 * `str.strip()` with no argument.  Both use the same notion of whitespace.
 */
module Text {

  /** The characters Python's argument-less `split()` and `strip()` treat as whitespace. */
  predicate IsSpace(c: char)
  {
    ('\U{9}' <= c <= '\U{D}') || ('\U{1C}' <= c <= '\U{20}') || c == '\U{85}' || c == '\U{A0}'
    || c == '\U{1680}' || ('\U{2000}' <= c <= '\U{200A}') || c == '\U{2028}' || c == '\U{2029}'
    || c == '\U{202F}' || c == '\U{205F}' || c == '\U{3000}'
  }

  /** A token of `split()`: non-empty and free of whitespace. */
  predicate IsWord(w: string)
  {
    |w| > 0 && forall i :: 0 <= i < |w| ==> !IsSpace(w[i])
  }

  /** The end of the run of non-whitespace characters that starts at `i`. */
  function RunEnd(s: string, i: nat): (k: nat)
    requires i <= |s|
    ensures i <= k <= |s|
    ensures forall j :: i <= j < k ==> !IsSpace(s[j])
    ensures k == |s| || IsSpace(s[k])
    decreases |s| - i
  {
    if i == |s| || IsSpace(s[i]) then i else RunEnd(s, i + 1)
  }

  /** Python's `s.split()`: the maximal whitespace-free runs of `s`, in order. */
  function Split(s: string): (ws: seq<string>)
    ensures forall i :: 0 <= i < |ws| ==> IsWord(ws[i])
    decreases |s|
  {
    if s == [] then []
    else if IsSpace(s[0]) then Split(s[1..])
    else
      var k := RunEnd(s, 0);
      [s[..k]] + Split(s[k..])
  }

  /** `len(s.split())`. */
  function TokenCount(s: string): nat
  {
    |Split(s)|
  }

  /** Python's `s.lstrip()`. */
  function LStrip(s: string): (r: string)
    ensures r == [] || !IsSpace(r[0])
    ensures exists i :: 0 <= i <= |s| && r == s[i..] && forall j :: 0 <= j < i ==> IsSpace(s[j])
  {
    if s != [] && IsSpace(s[0]) then
      var r := LStrip(s[1..]);
      ghost var i :| 0 <= i <= |s[1..]| && r == s[1..][i..] && forall j :: 0 <= j < i ==> IsSpace(s[1..][j]);
      assert r == s[i + 1..];
      r
    else
      assert s == s[0..];
      s
  }

  /** Python's `s.rstrip()`. */
  function RStrip(s: string): (r: string)
    ensures r == [] || !IsSpace(r[|r| - 1])
    ensures exists i :: 0 <= i <= |s| && r == s[..i] && forall j :: i <= j < |s| ==> IsSpace(s[j])
  {
    if s != [] && IsSpace(s[|s| - 1]) then
      var t := s[..|s| - 1];
      var r := RStrip(t);
      ghost var i :| 0 <= i <= |t| && r == t[..i] && forall j :: i <= j < |t| ==> IsSpace(t[j]);
      assert r == s[..i];
      r
    else
      assert s == s[..|s|];
      s
  }

  /** Python's `s.strip()`: neither end is whitespace, and the tokens are those of `s`. */
  function Strip(s: string): (r: string)
    ensures r == [] || (!IsSpace(r[0]) && !IsSpace(r[|r| - 1]))
    ensures Split(r) == Split(s)
  {
    SplitRStrip(LStrip(s));
    SplitLStrip(s);
    RStrip(LStrip(s))
  }

  /** Words joined by single spaces: the inverse of `Split` on lists of words. */
  function Join(ws: seq<string>): string
  {
    if ws == [] then []
    else if |ws| == 1 then ws[0]
    else ws[0] + " " + Join(ws[1..])
  }

  /** A whitespace character separates: the tokens on either side never merge. */
  lemma {:induction false} SplitAroundSpace(a: string, c: char, b: string)
    requires IsSpace(c)
    ensures Split(a + [c] + b) == Split(a) + Split(b)
    decreases |a|
  {
    var s := a + [c] + b;
    if a == [] {
      assert s[1..] == b;
    } else if IsSpace(a[0]) {
      assert s[1..] == a[1..] + [c] + b;
      SplitAroundSpace(a[1..], c, b);
    } else {
      var k := RunEnd(a, 0);
      RunEndOfPrefix(a, [c] + b, 0);
      assert s == a + ([c] + b);
      assert s[..k] == a[..k];
      assert s[k..] == a[k..] + [c] + b;
      assert Split(s) == [a[..k]] + Split(s[k..]);
      assert Split(a) == [a[..k]] + Split(a[k..]);
      SplitAroundSpace(a[k..], c, b);
    }
  }

  /** A run that ends inside `a` ends at the same place once more text follows a whitespace. */
  lemma {:induction false} RunEndOfPrefix(a: string, rest: string, i: nat)
    requires i <= |a|
    requires rest != [] && IsSpace(rest[0])
    ensures RunEnd(a + rest, i) == RunEnd(a, i)
    decreases |a| - i
  {
    if i < |a| && !IsSpace(a[i]) {
      RunEndOfPrefix(a, rest, i + 1);
    }
  }

  /** Leading whitespace does not change the tokens. */
  lemma {:induction false} SplitLStrip(s: string)
    ensures Split(LStrip(s)) == Split(s)
    decreases |s|
  {
    if s != [] && IsSpace(s[0]) {
      SplitLStrip(s[1..]);
    }
  }

  /** Trailing whitespace does not change the tokens. */
  lemma {:induction false} SplitRStrip(s: string)
    ensures Split(RStrip(s)) == Split(s)
    decreases |s|
  {
    if s != [] && IsSpace(s[|s| - 1]) {
      var t := s[..|s| - 1];
      SplitRStrip(t);
      SplitAroundSpace(t, s[|s| - 1], []);
      assert t + [s[|s| - 1]] + [] == s;
    }
  }

  /** Splitting undoes joining by spaces, for any list of words. */
  lemma {:induction false} SplitJoin(ws: seq<string>)
    requires forall i :: 0 <= i < |ws| ==> IsWord(ws[i])
    ensures Split(Join(ws)) == ws
  {
    if ws == [] {
    } else if |ws| == 1 {
      SplitWord(ws[0]);
    } else {
      SplitJoin(ws[1..]);
      SplitWord(ws[0]);
      SplitAroundSpace(ws[0], ' ', Join(ws[1..]));
      assert ws[0] + " " + Join(ws[1..]) == ws[0] + [' '] + Join(ws[1..]);
      assert ws == [ws[0]] + ws[1..];
    }
  }

  /** A single word splits into itself. */
  lemma SplitWord(w: string)
    requires IsWord(w)
    ensures Split(w) == [w]
  {
    RunEndOfWord(w, 0);
    assert !IsSpace(w[0]);
    assert w[..|w|] == w;
    assert w[|w|..] == [];
  }

  lemma {:induction false} RunEndOfWord(w: string, i: nat)
    requires i <= |w|
    requires forall j :: 0 <= j < |w| ==> !IsSpace(w[j])
    ensures RunEnd(w, i) == |w|
    decreases |w| - i
  {
    if i < |w| {
      RunEndOfWord(w, i + 1);
    }
  }

  /**
   * Gluing two strings merges the last token of the first with the first
   * token of the second exactly when neither side has whitespace at the seam.
   */
  lemma {:induction false} TokenCountConcat(a: string, b: string)
    ensures TokenCount(a + b) ==
      TokenCount(a) + TokenCount(b) - (if a != [] && b != [] && !IsSpace(a[|a| - 1]) && !IsSpace(b[0]) then 1 else 0)
    decreases |a|, 1
  {
    var s := a + b;
    if a == [] {
      assert s == b;
    } else if IsSpace(a[0]) {
      assert s[1..] == a[1..] + b;
      TokenCountConcat(a[1..], b);
    } else if RunEnd(a, 0) < |a| {
      TokenCountConcatAfterSpace(a, b, RunEnd(a, 0));
    } else if b == [] {
      assert s == a;
    } else if IsSpace(b[0]) {
      SplitAroundSpace(a, b[0], b[1..]);
      assert s == a + [b[0]] + b[1..];
    } else {
      var k := RunEnd(a, 0);
      assert Split(a) == [a] by { assert a[..k] == a; assert a[k..] == []; }
      TokenCountWordThenWord(a, b);
    }
  }

  /** The case of `TokenCountConcat` where `a` holds whitespace at `k`: the seam lies in what follows. */
  lemma {:induction false} TokenCountConcatAfterSpace(a: string, b: string, k: nat)
    requires k < |a| && IsSpace(a[k])
    ensures TokenCount(a + b) ==
      TokenCount(a) + TokenCount(b) - (if a != [] && b != [] && !IsSpace(a[|a| - 1]) && !IsSpace(b[0]) then 1 else 0)
    decreases |a|, 0
  {
    var a1, a2 := a[..k], a[k + 1..];
    assert a == a1 + [a[k]] + a2;
    assert a + b == a1 + [a[k]] + (a2 + b);
    SplitAroundSpace(a1, a[k], a2);
    SplitAroundSpace(a1, a[k], a2 + b);
    TokenCountConcat(a2, b);
    assert a2 != [] ==> a[|a| - 1] == a2[|a2| - 1];
  }

  /** A whitespace-free `a` glued onto a `b` that starts with a token: the two first tokens merge. */
  lemma {:induction false} TokenCountWordThenWord(a: string, b: string)
    requires a != [] && b != [] && !IsSpace(b[0])
    requires RunEnd(a, 0) == |a|
    ensures TokenCount(a + b) == TokenCount(b)
  {
    var s := a + b;
    var kb := RunEnd(b, 0);
    RunEndShift(a, b, 0);
    assert s[0] == a[0] && !IsSpace(a[0]);
    assert RunEnd(s, 0) == |a| + kb;
    assert s[|a| + kb..] == b[kb..];
    assert Split(s) == [s[..|a| + kb]] + Split(s[|a| + kb..]);
    assert Split(b) == [b[..kb]] + Split(b[kb..]);
  }

  /** The non-whitespace run of `a + b` from `i` in `a` runs through a whitespace-free `a` into `b`. */
  lemma {:induction false} RunEndShift(a: string, b: string, i: nat)
    requires i <= |a|
    requires forall j :: i <= j < |a| ==> !IsSpace(a[j])
    ensures RunEnd(a + b, i) == |a| + RunEnd(b, 0)
    decreases |a| - i
  {
    if i < |a| {
      RunEndShift(a, b, i + 1);
    } else {
      RunEndOffset(a, b, 0);
    }
  }

  lemma {:induction false} RunEndOffset(a: string, b: string, j: nat)
    requires j <= |b|
    ensures RunEnd(a + b, |a| + j) == |a| + RunEnd(b, j)
    decreases |b| - j
  {
    if j < |b| && !IsSpace(b[j]) {
      RunEndOffset(a, b, j + 1);
    }
  }

  /** `sum(len(t.split()) for t in texts)`. */
  function SumTokenCounts(texts: seq<string>): nat
  {
    if texts == [] then 0 else TokenCount(texts[0]) + SumTokenCounts(texts[1..])
  }

  /** Summing over two lists of texts one after the other adds the sums. */
  lemma {:induction false} SumTokenCountsAppend(a: seq<string>, b: seq<string>)
    ensures SumTokenCounts(a + b) == SumTokenCounts(a) + SumTokenCounts(b)
  {
    if a == [] {
      assert a + b == b;
    } else {
      assert (a + b)[1..] == a[1..] + b;
      SumTokenCountsAppend(a[1..], b);
    }
  }

  /** The sum does not depend on the order of the texts. */
  lemma {:induction false} SumTokenCountsPermutation(a: seq<string>, b: seq<string>)
    requires multiset(a) == multiset(b)
    ensures SumTokenCounts(a) == SumTokenCounts(b)
    decreases |a|
  {
    if a == [] {
      assert |b| == |multiset(b)| == 0;
    } else {
      assert a[0] in multiset(b);
      var k :| 0 <= k < |b| && b[k] == a[0];
      RemoveFirst(a, b, k);
      SumTokenCountsPermutation(a[1..], b[..k] + b[k + 1..]);
      SumTokenCountsAt(b, k);
    }
  }

  lemma RemoveFirst(a: seq<string>, b: seq<string>, k: nat)
    requires a != [] && k < |b| && b[k] == a[0]
    requires multiset(a) == multiset(b)
    ensures multiset(a[1..]) == multiset(b[..k] + b[k + 1..])
  {
    var x := a[0];
    assert a == [x] + a[1..];
    assert b == b[..k] + [x] + b[k + 1..];
    assert multiset(b) == multiset(b[..k]) + multiset{x} + multiset(b[k + 1..]);
    assert multiset(b[..k] + b[k + 1..]) == multiset(b[..k]) + multiset(b[k + 1..]);
    assert multiset(a) == multiset{x} + multiset(a[1..]);
    assert multiset(a[1..]) == multiset(a) - multiset{x};
  }

  lemma SumTokenCountsAt(b: seq<string>, k: nat)
    requires k < |b|
    ensures SumTokenCounts(b) == TokenCount(b[k]) + SumTokenCounts(b[..k] + b[k + 1..])
  {
    assert b == b[..k] + ([b[k]] + b[k + 1..]);
    SumTokenCountsAppend(b[..k], [b[k]] + b[k + 1..]);
    SumTokenCountsAppend(b[..k], b[k + 1..]);
    assert ([b[k]] + b[k + 1..])[1..] == b[k + 1..];
  }
}
