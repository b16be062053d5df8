/**
 * The pieces of JavaScript's string handling that the platform relies on: the white-space class
 * `\s` (which is also what `parseInt` skips), removing it with `replaceAll(/\s/g, '')`, and
 * `parseInt(text, 10)`.
 */
module JsText {
  import opened Wrappers

  /** JavaScript's `\s`: the WhiteSpace and LineTerminator characters of ECMAScript. */
  predicate IsSpace(c: char)
  {
    c == '\t' || c == '\n' || c == '\U{B}' || c == '\U{C}' || c == '\r' || c == ' '
    || c == '\U{A0}' || c == '\U{1680}' || ('\U{2000}' <= c <= '\U{200A}')
    || c == '\U{2028}' || c == '\U{2029}' || c == '\U{202F}' || c == '\U{205F}'
    || c == '\U{3000}' || c == '\U{FEFF}'
  }

  /** `s.replaceAll(/\s/g, '')`: `s` with every white-space character removed, in order. */
  function StripSpaces(s: string): (r: string)
    ensures forall c :: c in r <==> c in s && !IsSpace(c)
    ensures |r| <= |s|
  {
    if s == [] then []
    else if IsSpace(s[0]) then StripSpaces(s[1..])
    else [s[0]] + StripSpaces(s[1..])
  }

  /** Removing white space keeps everything else: text without white space is left as it is. */
  lemma {:induction false} StripSpacesKeeps(s: string)
    requires forall c :: c in s ==> !IsSpace(c)
    ensures StripSpaces(s) == s
  {
    if s != [] {
      assert s[0] in s;
      assert forall c :: c in s[1..] ==> c in s;
      StripSpacesKeeps(s[1..]);
    }
  }

  /** Removing white space from two pieces is removing it from each. */
  lemma {:induction false} StripSpacesAppend(a: string, b: string)
    ensures StripSpaces(a + b) == StripSpaces(a) + StripSpaces(b)
  {
    if a != [] {
      assert (a + b)[0] == a[0];
      assert (a + b)[1..] == a[1..] + b;
      StripSpacesAppend(a[1..], b);
    } else {
      assert a + b == b;
    }
  }

  /** The first index at or after `i` that is not white space (or the end). */
  function SkipSpaces(s: string, i: nat): (j: nat)
    requires i <= |s|
    ensures i <= j <= |s|
    ensures forall k :: i <= k < j ==> IsSpace(s[k])
    ensures j < |s| ==> !IsSpace(s[j])
    decreases |s| - i
  {
    if i == |s| || !IsSpace(s[i]) then i else SkipSpaces(s, i + 1)
  }

  predicate IsDigit(c: char)
  {
    '0' <= c <= '9'
  }

  function DigitValue(c: char): (d: nat)
    requires IsDigit(c)
    ensures d < 10
  {
    c as int - '0' as int
  }

  function DigitChar(d: nat): (c: char)
    requires d < 10
    ensures IsDigit(c) && DigitValue(c) == d
  {
    ('0' as int + d) as char
  }

  /** The end of the run of decimal digits that starts at `i`. */
  function DigitRun(s: string, i: nat): (j: nat)
    requires i <= |s|
    ensures i <= j <= |s|
    ensures forall k :: i <= k < j ==> IsDigit(s[k])
    ensures j < |s| ==> !IsDigit(s[j])
    decreases |s| - i
  {
    if i == |s| || !IsDigit(s[i]) then i else DigitRun(s, i + 1)
  }

  /** The number a run of decimal digits denotes, most significant digit first. */
  function DigitsValue(d: string): (n: nat)
    requires forall k :: 0 <= k < |d| ==> IsDigit(d[k])
  {
    if d == [] then 0 else DigitsValue(d[..|d| - 1]) * 10 + DigitValue(d[|d| - 1])
  }

  /**
   * `parseInt(s, 10)`: leading white space is skipped, one optional sign is read, then the
   * longest run of decimal digits; without any digit the result is NaN, written None here.
   */
  function ParseInt(s: string): (r: Option<int>)
    ensures r.None? <==> (var i := SkipSpaces(s, 0);
                          var j := if i < |s| && (s[i] == '+' || s[i] == '-') then i + 1 else i;
                          j == |s| || !IsDigit(s[j]))
  {
    var i := SkipSpaces(s, 0);
    var negative := i < |s| && s[i] == '-';
    var j := if i < |s| && (s[i] == '+' || s[i] == '-') then i + 1 else i;
    var e := DigitRun(s, j);
    if e == j then None
    else
      var n: int := DigitsValue(s[j..e]);
      Some(if negative then -n else n)
  }

  /** The decimal text of a natural number, without leading zeros. */
  function NatText(n: nat): (s: string)
    ensures |s| > 0 && forall k :: 0 <= k < |s| ==> IsDigit(s[k])
  {
    if n < 10 then [DigitChar(n)] else NatText(n / 10) + [DigitChar(n % 10)]
  }

  /** The decimal text of an integer, as JavaScript prints it. */
  function IntText(n: int): string
  {
    if n < 0 then "-" + NatText(-n) else NatText(n)
  }

  lemma {:induction false} NatTextValue(n: nat)
    ensures DigitsValue(NatText(n)) == n
  {
    var s := NatText(n);
    if n >= 10 {
      assert s[..|s| - 1] == NatText(n / 10);
      NatTextValue(n / 10);
    }
  }

  lemma DigitRunOfText(n: nat, rest: string, i: nat)
    requires rest == [] || !IsDigit(rest[0])
    requires i <= |NatText(n)|
    ensures DigitRun(NatText(n) + rest, i) == |NatText(n)|
    decreases |NatText(n)| - i
  {
    var t := NatText(n) + rest;
    if i < |NatText(n)| {
      assert t[i] == NatText(n)[i];
      DigitRunOfText(n, rest, i + 1);
    } else if rest != [] {
      assert t[i] == rest[0];
    }
  }

  /** `parseInt` reads back what `IntText` prints, whatever text that does not start with a digit follows. */
  lemma ParseIntText(n: int, rest: string)
    requires rest == [] || !IsDigit(rest[0])
    ensures ParseInt(IntText(n) + rest) == Some(n)
  {
    if n < 0 {
      assert IntText(n) + rest == "-" + NatText(-n) + rest;
      ParseIntNegative(-n, rest);
    } else {
      ParseIntNatural(n, rest);
    }
  }

  lemma ParseIntNatural(m: nat, rest: string)
    requires rest == [] || !IsDigit(rest[0])
    ensures ParseInt(NatText(m) + rest) == Some(m)
  {
    var d := NatText(m);
    var t := d + rest;
    NatTextValue(m);
    DigitRunOfText(m, rest, 0);
    assert t[0] == d[0];
    assert !IsSpace(t[0]) && t[0] != '+' && t[0] != '-';
    assert t[0..|d|] == d;
  }

  lemma ParseIntNegative(m: nat, rest: string)
    requires m > 0
    requires rest == [] || !IsDigit(rest[0])
    ensures ParseInt("-" + NatText(m) + rest) == Some(-(m as int))
  {
    var d := NatText(m);
    var t := "-" + NatText(m) + rest;
    NatTextValue(m);
    DigitRunOfText(m, rest, 0);
    assert t == "-" + (d + rest);
    DigitRunShift(d + rest, 0);
    assert SkipSpaces(t, 0) == 0;
    assert t[1..1 + |d|] == d;
  }

  /** A sign in front of the digits does not change where their run ends. */
  lemma {:induction false} DigitRunShift(u: string, i: nat)
    requires i <= |u|
    ensures DigitRun("-" + u, i + 1) == DigitRun(u, i) + 1
    decreases |u| - i
  {
    if i < |u| {
      assert ("-" + u)[i + 1] == u[i];
      DigitRunShift(u, i + 1);
    }
  }
}
