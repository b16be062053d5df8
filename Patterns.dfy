/**
 * The JavaScript regular expressions that src/platform.ts runs over each inbound line, for the
 * one shape they all have: literal text with greedy `(.*)` groups between the literals,
 * unanchored at both ends. `Exec(line, [l0, l1, ..., ln])` is `/l0(.*)l1(.*)...(.*)ln/.exec(line)`:
 * the match starts at the leftmost position where one exists, each group takes the longest text
 * that still lets the rest of the pattern match, and `.` matches any character but a line
 * terminator.
 */
module Patterns {
  import opened Wrappers

  /** The characters that JavaScript's `.` does not match. */
  predicate IsLineTerminator(c: char)
  {
    c == '\n' || c == '\r' || c == '\U{2028}' || c == '\U{2029}'
  }

  /** `s` can be consumed by `.*`: it holds no line terminator. */
  predicate AnyChars(s: string)
  {
    '\n' !in s && '\r' !in s && '\U{2028}' !in s && '\U{2029}' !in s
  }

  /** Some prefix of `t` matches `(.*)ls[0](.*)ls[1]...(.*)ls[n-1]`. */
  predicate Fits(t: string, ls: seq<string>)
    decreases |ls|, 2
  {
    ls == [] || LastFit(t, ls, |t|).Some?
  }

  /** A match of `(.*)ls[0](.*)...` on `t` exists whose first group is `t[..j]`. */
  predicate FitsAt(t: string, ls: seq<string>, j: nat)
    requires |ls| > 0
    decreases |ls|, 0
  {
    j <= |t| && AnyChars(t[..j]) && ls[0] <= t[j..] && Fits(t[j + |ls[0]|..], ls[1..])
  }

  /** The longest first group, no longer than `hi`, with which the rest still matches. */
  function LastFit(t: string, ls: seq<string>, hi: nat): (r: Option<nat>)
    requires |ls| > 0 && hi <= |t|
    ensures r.Some? ==> r.value <= hi && FitsAt(t, ls, r.value)
    ensures r.Some? ==> forall j :: r.value < j <= hi ==> !FitsAt(t, ls, j)
    ensures r.None? ==> forall j :: 0 <= j <= hi ==> !FitsAt(t, ls, j)
    decreases |ls|, 1, hi
  {
    if FitsAt(t, ls, hi) then Some(hi)
    else if hi == 0 then None
    else LastFit(t, ls, hi - 1)
  }

  /** The groups captured, each greedy, on a text `t` that fits. */
  function Groups(t: string, ls: seq<string>): (g: seq<string>)
    requires Fits(t, ls)
    ensures |g| == |ls|
    decreases |ls|
  {
    if ls == [] then []
    else
      var j := LastFit(t, ls, |t|).value;
      [t[..j]] + Groups(t[j + |ls[0]|..], ls[1..])
  }

  /** The whole pattern `pat` matches `line` starting at position `k`. */
  predicate MatchesAt(line: string, pat: seq<string>, k: nat)
    requires |pat| > 0
  {
    k <= |line| && pat[0] <= line[k..] && Fits(line[k + |pat[0]|..], pat[1..])
  }

  /** The leftmost position at or after `i` where the whole pattern `pat` matches. */
  function FirstMatch(line: string, pat: seq<string>, i: nat): (r: Option<nat>)
    requires |pat| > 0
    ensures r.Some? ==> i <= r.value <= |line| && MatchesAt(line, pat, r.value)
    ensures r.Some? ==> forall k :: i <= k < r.value ==> !MatchesAt(line, pat, k)
    ensures r.None? ==> forall k :: i <= k <= |line| ==> !MatchesAt(line, pat, k)
    decreases |line| + 1 - i
  {
    if i > |line| then None
    else if MatchesAt(line, pat, i) then Some(i)
    else FirstMatch(line, pat, i + 1)
  }

  /** `pattern.exec(line)`: the captured groups, or None when the line does not match. */
  function Exec(line: string, pat: seq<string>): (r: Option<seq<string>>)
    requires |pat| > 0
    ensures r.Some? ==> |r.value| == |pat| - 1
  {
    match FirstMatch(line, pat, 0)
    case None => None
    case Some(i) => Some(Groups(line[i + |pat[0]|..], pat[1..]))
  }

  /** `exec` fails exactly when the pattern matches at no position of the line. */
  lemma ExecNoneIff(line: string, pat: seq<string>)
    requires |pat| > 0
    ensures Exec(line, pat).None? <==> forall k :: 0 <= k <= |line| ==> !MatchesAt(line, pat, k)
  {
  }

  /** The first group is `t[..j]` when a match with that group exists and no longer one does. */
  lemma {:induction false} LastFitIs(t: string, ls: seq<string>, hi: nat, j: nat)
    requires |ls| > 0 && j <= hi <= |t|
    requires FitsAt(t, ls, j)
    requires forall k :: j < k <= hi ==> !(ls[0] <= t[k..])
    ensures LastFit(t, ls, hi) == Some(j)
    decreases hi
  {
    if hi > j {
      LastFitIs(t, ls, hi - 1, j);
    }
  }

  /** The last group of a pattern ending in `lit`, on a text that ends in `lit`. */
  lemma LastGroup(g: string, lit: string)
    requires AnyChars(g) && |lit| > 0
    requires forall k :: |g| < k <= |g + lit| ==> !(lit <= (g + lit)[k..])
    ensures Fits(g + lit, [lit]) && Groups(g + lit, [lit]) == [g]
  {
    var t := g + lit;
    assert t[..|g|] == g;
    assert t[|g|..] == lit;
    assert t[|g| + |lit|..] == [];
    assert FitsAt(t, [lit], |g|);
    LastFitIs(t, [lit], |t|, |g|);
  }

  /**
   * A group followed by `lit`: when `lit` does not occur after the group and the rest of the
   * text fits the rest of the pattern, the group is `g`.
   */
  lemma MidGroup(g: string, lit: string, rest: string, ls: seq<string>)
    requires AnyChars(g) && |lit| > 0 && Fits(rest, ls)
    requires forall k :: |g| < k <= |g + lit + rest| ==> !(lit <= (g + lit + rest)[k..])
    ensures Fits(g + lit + rest, [lit] + ls)
    ensures Groups(g + lit + rest, [lit] + ls) == [g] + Groups(rest, ls)
  {
    var t := g + lit + rest;
    var pat := [lit] + ls;
    MidFits(g, lit, rest, ls);
    LastFitIs(t, pat, |t|, |g|);
    assert pat[0] == lit && pat[1..] == ls;
  }

  /** The group `g` followed by `lit` starts a match of `(.*)lit` and then `ls`. */
  lemma MidFits(g: string, lit: string, rest: string, ls: seq<string>)
    requires AnyChars(g) && |lit| > 0 && Fits(rest, ls)
    ensures var t := g + lit + rest;
      t[..|g|] == g && t[|g| + |lit|..] == rest && FitsAt(t, [lit] + ls, |g|)
  {
    var t := g + lit + rest;
    var pat := [lit] + ls;
    assert t[..|g|] == g;
    assert t[|g|..] == lit + rest;
    assert lit <= t[|g|..] by {
      assert (lit + rest)[..|lit|] == lit;
    }
    assert t[|g| + |lit|..] == rest;
    assert pat[0] == lit && pat[1..] == ls;
    assert FitsAt(t, pat, |g|);
  }

  /** The only place `lit` could start at or after `from` is `p`, and it does not start there. */
  lemma OnlyCandidate(t: string, lit: string, from: nat, p: nat)
    requires |lit| > 0 && from <= p < |t|
    requires lit[0] !in t[from..p] && lit[0] !in t[p + 1..]
    requires !(lit <= t[p..])
    ensures forall j :: from <= j <= |t| ==> !(lit <= t[j..])
  {
    forall j | from <= j <= |t| ensures !(lit <= t[j..]) {
      if j < p {
        assert t[j] == t[from..p][j - from];
      } else if p < j < |t| {
        assert t[j] == t[p + 1..][j - p - 1];
      }
    }
  }

  /** `lit` cannot start at or after `from` when its first character does not occur there. */
  lemma NoCandidate(t: string, lit: string, from: nat)
    requires |lit| > 0 && from <= |t|
    requires lit[0] !in t[from..]
    ensures forall j :: from <= j <= |t| ==> !(lit <= t[j..])
  {
    forall j | from <= j <= |t| ensures !(lit <= t[j..]) {
      if j < |t| {
        assert t[j] == t[from..][j - from];
      }
    }
  }

  /** A line that starts with the first literal and whose rest fits is matched at its start. */
  lemma ExecAtStart(line: string, pat: seq<string>, rest: string)
    requires |pat| > 0 && line == pat[0] + rest && Fits(rest, pat[1..])
    ensures Exec(line, pat) == Some(Groups(rest, pat[1..]))
  {
    assert line[|pat[0]|..] == rest;
    assert FirstMatch(line, pat, 0) == Some(0);
  }

  /** A line in which the first literal never occurs does not match. */
  lemma {:induction false} HeadAbsent(line: string, pat: seq<string>, i: nat)
    requires |pat| > 0
    requires forall k :: i <= k <= |line| ==> !(pat[0] <= line[k..])
    ensures FirstMatch(line, pat, i) == None
    decreases |line| + 1 - i
  {
    if i <= |line| {
      HeadAbsent(line, pat, i + 1);
    }
  }

  /**
   * The first literal never occurs in a line when one of its characters `c`, at index `m`,
   * occurs in the line only at places `p` where the literal starting at `p - m` mismatches.
   */
  lemma HeadAbsentByChar(line: string, pat: seq<string>, m: nat, places: set<nat>)
    requires |pat| > 0 && m < |pat[0]|
    requires forall j :: 0 <= j < |line| && line[j] == pat[0][m] ==> j in places
    requires forall p :: p in places ==> p < |line|
    requires forall p :: p in places && m <= p ==> !(pat[0] <= line[p - m..])
    ensures Exec(line, pat) == None
  {
    forall k | 0 <= k <= |line| ensures !(pat[0] <= line[k..]) {
      if k + m < |line| && line[k + m] == pat[0][m] {
        assert k + m in places && (k + m) - m == k;
      }
    }
    HeadAbsent(line, pat, 0);
  }
}
