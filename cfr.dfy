/** A CFR reference as the agency directory lists it, and Python's `str()` of its integer title. */
module Cfr {
  import opened Wrappers

  /** `title` is an integer; every finer locator may be missing. */
  datatype CfrReference = CfrReference(title: int, subtitle: Option<string>, chapter: Option<string>,
                                       subchapter: Option<string>, part: Option<string>,
                                       section: Option<string>)

  /** Python truthiness of an optional string: present and non-empty. */
  predicate Truthy(o: Option<string>)
  {
    o.Some? && o.value != ""
  }

  function Digit(d: nat): char
    requires d < 10
  {
    "0123456789"[d]
  }

  /** Decimal digits of `n`, most significant first, no leading zero. */
  function NatToString(n: nat): (s: string)
    ensures |s| > 0
    ensures forall i :: 0 <= i < |s| ==> '0' <= s[i] <= '9'
    ensures s[0] == '0' ==> n == 0
  {
    if n < 10 then [Digit(n)] else NatToString(n / 10) + [Digit(n % 10)]
  }

  /** Python's `str(n)` for an integer. */
  function IntToString(n: int): string
  {
    if n < 0 then "-" + NatToString(-n) else NatToString(n)
  }

  /** The value of a string of decimal digits: the inverse of `NatToString`. */
  function ParseDecimal(s: string): nat
    requires forall i :: 0 <= i < |s| ==> '0' <= s[i] <= '9'
  {
    if s == [] then 0 else 10 * ParseDecimal(s[..|s| - 1]) + (s[|s| - 1] as int - '0' as int)
  }

  /** Reading the digits back gives the number: `str` on integers loses nothing. */
  lemma {:induction false} ParseNatToString(n: nat)
    ensures ParseDecimal(NatToString(n)) == n
  {
    var s := NatToString(n);
    if n >= 10 {
      ParseNatToString(n / 10);
      assert s[..|s| - 1] == NatToString(n / 10);
    }
  }

  /** Different integers print differently. */
  lemma IntToStringInjective(a: int, b: int)
    requires IntToString(a) == IntToString(b)
    ensures a == b
  {
    SignShows(a);
    SignShows(b);
    var na := if a < 0 then -a else a;
    var nb := if b < 0 then -b else b;
    assert (a < 0) == (b < 0);
    assert NatToString(na) == NatToString(nb) by {
      if a < 0 {
        assert NatToString(na) == IntToString(a)[1..];
        assert NatToString(nb) == IntToString(b)[1..];
      }
    }
    ParseNatToString(na);
    ParseNatToString(nb);
  }

  /** The first character tells the sign. */
  lemma SignShows(n: int)
    ensures |IntToString(n)| > 0
    ensures IntToString(n)[0] == '-' <==> n < 0
    ensures n < 0 ==> IntToString(n)[1..] == NatToString(-n)
  {
    if n >= 0 {
      var s := NatToString(n);
      assert '0' <= s[0] <= '9';
    }
  }

  /** `str` of an integer holds only a minus sign and decimal digits. */
  lemma IntToStringChars(n: int)
    ensures forall i :: 0 <= i < |IntToString(n)| ==> IntToString(n)[i] == '-' || '0' <= IntToString(n)[i] <= '9'
  {
    if n < 0 {
      var s := NatToString(-n);
      assert forall i :: 1 <= i < |IntToString(n)| ==> IntToString(n)[i] == s[i - 1];
    }
  }
}
