/**
 * The measurement key a SimpleThermostat's configured address carries, as discovery derives it
 * with `/.*;\s*measurement\s*=\s*([^;]+).*\/` followed by removing all white space from the
 * captured text. An address such as `"4; measurement = 0+3"` yields the key `"0+3"`, the
 * `Device+Channel` text of the measurement lines that report that thermostat's temperature.
 *
 * The regular expression is unanchored and its leading `.*` is greedy, so the key comes from the
 * last suitable `;` of the first line-terminator-free stretch of the address that has one.
 */
module MeasurementKey {
  import opened Wrappers
  import opened JsText
  import opened Patterns

  const MeasurementWord := "measurement"

  /** The first `;` at or after `i`, or the end of the text. */
  function NextSemicolon(t: string, i: nat): (j: nat)
    requires i <= |t|
    ensures i <= j <= |t| && ';' !in t[i..j]
    ensures j < |t| ==> t[j] == ';'
    decreases |t| - i
  {
    if i == |t| || t[i] == ';' then i
    else
      var j := NextSemicolon(t, i + 1);
      assert t[i..j] == [t[i]] + t[i + 1..j];
      j
  }

  /** The first line terminator at or after `i`, or the end of the text. */
  function NextTerminator(t: string, i: nat): (j: nat)
    requires i <= |t|
    ensures i <= j <= |t|
    ensures forall k :: i <= k < j ==> !IsLineTerminator(t[k])
    ensures j < |t| ==> IsLineTerminator(t[j])
    decreases |t| - i
  {
    if i == |t| || IsLineTerminator(t[i]) then i else NextTerminator(t, i + 1)
  }

  /** Where the `=` after the word "measurement" would be when the `;` is at `s`. */
  function EqualsAt(t: string, s: nat): (q: nat)
    requires s < |t|
    ensures q <= |t|
  {
    var p := SkipSpaces(t, s + 1);
    if MeasurementWord <= t[p..] then SkipSpaces(t, p + |MeasurementWord|) else |t|
  }

  /**
   * The `;` at `s` can end the leading `.*`: white space, "measurement", white space, `=`, and
   * then at least one character that is not `;` for `([^;]+)` to take.
   */
  predicate Qualifies(t: string, s: nat)
    requires s < |t|
  {
    var q := EqualsAt(t, s);
    t[s] == ';' && q + 1 < |t| && t[q] == '=' && t[q + 1] != ';'
  }

  /** The key taken at a qualifying `;`: the text after `=` up to the next `;`, without white space. */
  function KeyAt(t: string, s: nat): (k: string)
    requires s < |t| && Qualifies(t, s)
    ensures ';' !in k && forall c :: c in k ==> !IsSpace(c)
  {
    var q := EqualsAt(t, s);
    StripSpaces(t[q + 1..NextSemicolon(t, q + 1)])
  }

  /** For each of the first `n` positions of `t`, whether a qualifying `;` sits there. */
  function Marks(t: string, n: nat): (m: seq<bool>)
    requires n <= |t|
    ensures |m| == n
  {
    if n == 0 then [] else Marks(t, n - 1) + [Qualifies(t, n - 1)]
  }

  lemma {:induction false} MarkAt(t: string, n: nat, s: nat)
    requires s < n <= |t|
    ensures Marks(t, n)[s] == Qualifies(t, s)
    decreases n
  {
    if s < n - 1 {
      MarkAt(t, n - 1, s);
      SnocAt(Marks(t, n - 1), Qualifies(t, n - 1), s);
    }
  }

  lemma SnocAt<T>(m: seq<T>, x: T, s: nat)
    requires s < |m|
    ensures (m + [x])[s] == m[s]
  {
  }

  /** The last marked position in `m[lo..hi]`. */
  function LastMarked(m: seq<bool>, lo: nat, hi: nat): (r: Option<nat>)
    requires lo <= hi <= |m|
    ensures r.Some? ==> lo <= r.value < hi && m[r.value]
    ensures r.Some? ==> forall s :: r.value < s < hi ==> !m[s]
    ensures r.None? ==> forall s :: lo <= s < hi ==> !m[s]
    decreases hi
  {
    if hi == lo then None
    else if m[hi - 1] then Some(hi - 1)
    else LastMarked(m, lo, hi - 1)
  }

  /**
   * The `;` at which the expression's leading `.*` stops, with `m` marking the qualifying ones:
   * the last marked position of the first terminator-free stretch, starting at `lo`, that has one.
   */
  function KeySemicolon(t: string, m: seq<bool>, lo: nat): (r: Option<nat>)
    requires |m| == |t| && lo <= |t|
    ensures r.Some? ==> lo <= r.value < |t| && m[r.value]
    decreases |t| - lo
  {
    var e := NextTerminator(t, lo);
    match LastMarked(m, lo, e)
    case Some(s) => Some(s)
    case None => if e == |t| then None else KeySemicolon(t, m, e + 1)
  }

  /** The key discovery records for a thermostat address, or None when the expression does not match. */
  function Key(address: string): (r: Option<string>)
    ensures r.Some? ==> ';' !in r.value && forall c :: c in r.value ==> !IsSpace(c)
  {
    match KeySemicolon(address, Marks(address, |address|), 0)
    case Some(s) => MarkAt(address, |address|, s); Some(KeyAt(address, s))
    case None => None
  }

  /** An address yields a key exactly when it has a qualifying `;` somewhere. */
  lemma KeyExists(t: string)
    ensures Key(t).Some? <==> exists s :: 0 <= s < |t| && Qualifies(t, s)
  {
    if exists s :: 0 <= s < |t| && Qualifies(t, s) {
      var s :| 0 <= s < |t| && Qualifies(t, s);
      MarkAt(t, |t|, s);
      MarkFindsSemicolon(t, Marks(t, |t|), 0, s);
    }
    if Key(t).Some? {
      MarkAt(t, |t|, KeySemicolon(t, Marks(t, |t|), 0).value);
    }
  }

  /** A marked `;` at or after `lo` means a `;` is found. */
  lemma {:induction false} MarkFindsSemicolon(t: string, m: seq<bool>, lo: nat, s: nat)
    requires |m| == |t| && lo <= s < |t| && m[s] && t[s] == ';'
    ensures KeySemicolon(t, m, lo).Some?
    decreases |t| - lo
  {
    var e := NextTerminator(t, lo);
    if LastMarked(m, lo, e).None? {
      assert e < s;
      MarkFindsSemicolon(t, m, e + 1, s);
    }
  }

  /** An address without any `;` yields no key. */
  lemma NoSemicolonNoKey(address: string)
    requires ';' !in address
    ensures Key(address) == None
  {
    KeyExists(address);
    forall s | 0 <= s < |address| ensures !Qualifies(address, s) {
      assert address[s] in address;
    }
  }

  const KeyTag := "; measurement = "

  /**
   * The address format the configuration uses: any line of text, then "; measurement = ", then
   * the key. The key is read back with its white space removed.
   */
  lemma KeyOfTaggedAddress(a: string, k: string)
    requires AnyChars(a) && ';' !in k
    ensures Key(a + KeyTag + k) == Some(StripSpaces(k))
  {
    var t := a + KeyTag + k;
    var s := |a|;
    TagQualifies(a, k);
    TerminatorAfterTag(a, k);
    var e := NextTerminator(t, 0);
    SemicolonOnlyAtTag(a, k);
    MarkAt(t, |t|, s);
    forall j | s < j < e ensures !Marks(t, |t|)[j] {
      MarkAt(t, |t|, j);
      assert t[j] != ';';
    }
    LastMarkedIs(Marks(t, |t|), 0, e, s);
    assert KeySemicolon(t, Marks(t, |t|), 0) == Some(s);
  }

  /** The first line of a tagged address runs past the tag's `;`. */
  lemma TerminatorAfterTag(a: string, k: string)
    requires AnyChars(a)
    ensures NextTerminator(a + KeyTag + k, 0) > |a|
  {
    var t := a + KeyTag + k;
    forall j | 0 <= j < |a| ensures !IsLineTerminator(t[j]) {
      assert t[j] == a[j];
    }
    assert t[|a|] == ';';
  }

  /** After the tag's `;` a tagged address holds no other `;`. */
  lemma SemicolonOnlyAtTag(a: string, k: string)
    requires ';' !in k
    ensures forall j :: |a| < j < |a + KeyTag + k| ==> (a + KeyTag + k)[j] != ';'
  {
    var t := a + KeyTag + k;
    var s := |a|;
    forall j | s < j < |t| ensures t[j] != ';' {
      assert t[j] == (KeyTag + k)[j - s];
      assert ';' !in KeyTag[1..];
      if j - s < |KeyTag| {
        assert (KeyTag + k)[j - s] == KeyTag[1..][j - s - 1];
      } else {
        assert (KeyTag + k)[j - s] == k[j - s - |KeyTag|];
      }
    }
  }

  lemma {:induction false} LastMarkedIs(m: seq<bool>, lo: nat, hi: nat, s: nat)
    requires lo <= s < hi <= |m| && m[s]
    requires forall j :: s < j < hi ==> !m[j]
    ensures LastMarked(m, lo, hi) == Some(s)
    decreases hi
  {
    if hi - 1 != s {
      LastMarkedIs(m, lo, hi - 1, s);
    }
  }

  /** The `;` of the tag qualifies, and the key taken there is the stripped `k`. */
  lemma TagQualifies(a: string, k: string)
    requires ';' !in k
    ensures |a| < |a + KeyTag + k| && Qualifies(a + KeyTag + k, |a|)
    ensures KeyAt(a + KeyTag + k, |a|) == StripSpaces(k)
  {
    var t := a + KeyTag + k;
    var s := |a|;
    TagEquals(a, k);
    TagTail(a, k);
    assert t[s] == ';' && t[s + 14] == '=' && t[s + 15] == ' ';
    assert t[s + 15..|t|] == " " + k;
    StripSpacesAppend(" ", k);
  }

  /** In a tagged address the `=` sits 14 characters after the tag's `;`. */
  lemma TagEquals(a: string, k: string)
    ensures |a| < |a + KeyTag + k| && EqualsAt(a + KeyTag + k, |a|) == |a| + 14
  {
    var t := a + KeyTag + k;
    var s := |a|;
    var tag := t[s..s + |KeyTag|];
    assert tag == KeyTag;
    assert SkipSpaces(t, s + 1) == s + 2 by {
      assert t[s + 1] == ' ' && t[s + 2] == 'm';
    }
    assert KeyTag[2..13] == MeasurementWord;
    assert t[s + 2..s + 13] == tag[2..13];
    assert MeasurementWord <= t[s + 2..] by {
      assert t[s + 2..][..|MeasurementWord|] == t[s + 2..s + 13];
    }
    assert SkipSpaces(t, s + 13) == s + 14 by {
      assert t[s + 13] == ' ' && t[s + 14] == '=';
    }
  }

  /** What follows the `=` of a tagged address: a space and the key, with no `;`. */
  lemma TagTail(a: string, k: string)
    requires ';' !in k
    ensures var t := a + KeyTag + k;
      && |a| + 15 < |t| && t[|a| + 15..] == " " + k
      && NextSemicolon(t, |a| + 15) == |t|
  {
    var t := a + KeyTag + k;
    var q := |a| + 14;
    assert t[q + 1..] == " " + k;
    NextSemicolonOf(" " + k);
    NextSemicolonShift(t, q + 1);
  }

  lemma NextSemicolonOf(u: string)
    requires ';' !in u
    ensures NextSemicolon(u, 0) == |u|
  {
  }

  lemma NextSemicolonShift(t: string, i: nat)
    requires i <= |t| && ';' !in t[i..]
    ensures NextSemicolon(t, i) == |t|
  {
  }
}
