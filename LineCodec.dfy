/**
 * The inbound half of the session's text handling in src/platform.ts: `on_data` appends each
 * received chunk to `socket_buffer`, cuts the buffer at every '\n', hands the text before it to
 * the dispatcher as one line and keeps the unterminated tail for the next chunk.
 */
module LineCodec {

  /**
   * `s.indexOf(c, from)`: the first index at or after `from` holding `c`, or -1 when there is
   * none.
   */
  function IndexOf(s: string, c: char, from: nat): (r: int)
    requires from <= |s|
    ensures r == -1 || from <= r < |s|
    ensures r == -1 ==> forall k :: from <= k < |s| ==> s[k] != c
    ensures r >= 0 ==> s[r] == c && forall k :: from <= k < r ==> s[k] != c
    decreases |s| - from
  {
    if from == |s| then -1 else if s[from] == c then from else IndexOf(s, c, from + 1)
  }

  /** The text that a sequence of lines occupies on the wire: each line followed by '\n'. */
  function Joined(lines: seq<string>): string
  {
    if lines == [] then "" else lines[0] + "\n" + Joined(lines[1..])
  }

  /** No line of `lines` contains a '\n'. */
  predicate LinesClean(lines: seq<string>)
  {
    forall i :: 0 <= i < |lines| ==> '\n' !in lines[i]
  }

  /** The outcome of cutting a buffer: the complete lines, in order, and the unterminated tail. */
  datatype Split = Split(lines: seq<string>, rest: string)

  /**
   * The lines `on_data` handles out of the buffer `s`, and what it leaves in `socket_buffer`:
   * the complete lines followed by their '\n' and then the tail give back `s`, and neither the
   * lines nor the tail contain a '\n'.
   */
  function SplitLines(s: string): (r: Split)
    ensures Joined(r.lines) + r.rest == s
    ensures '\n' !in r.rest
    ensures LinesClean(r.lines)
    decreases |s|
  {
    var i := IndexOf(s, '\n', 0);
    if i == -1 then Split([], s)
    else
      var tail := SplitLines(s[i + 1..]);
      JoinLine(s, i, tail.lines, tail.rest);
      Split([s[..i]] + tail.lines, tail.rest)
  }

  /**
   * Cutting the first line off a buffer: the lines cut so far, then that line, each followed by
   * its '\n', and then what remains, still spell out the same text, and the lines stay clean.
   */
  lemma CutFirst(done: seq<string>, s: string, i: nat)
    requires i < |s| && IndexOf(s, '\n', 0) == i && LinesClean(done)
    ensures Joined(done + [s[..i]]) + s[i + 1..] == Joined(done) + s
    ensures LinesClean(done + [s[..i]])
  {
    JoinedAppend(done, [s[..i]]);
    assert Joined([s[..i]]) == s[..i] + "\n" + Joined([]);
    assert s == s[..i] + [s[i]] + s[i + 1..];
    assert '\n' !in s[..i];
    forall k | 0 <= k < |done + [s[..i]]| ensures '\n' !in (done + [s[..i]])[k] {
      if k < |done| {
        assert (done + [s[..i]])[k] == done[k];
      }
    }
  }

  /** One more line in front: the line, its '\n', and the wire text of the lines behind it. */
  lemma JoinLine(s: string, i: nat, lines: seq<string>, rest: string)
    requires i < |s| && s[i] == '\n' && forall k :: 0 <= k < i ==> s[k] != '\n'
    requires Joined(lines) + rest == s[i + 1..] && LinesClean(lines)
    ensures Joined([s[..i]] + lines) + rest == s
    ensures LinesClean([s[..i]] + lines)
  {
    assert ([s[..i]] + lines)[1..] == lines;
    assert s == s[..i] + [s[i]] + s[i + 1..];
    assert '\n' !in s[..i];
  }

  /** The wire text of two runs of lines is the concatenation of their wire texts. */
  lemma {:induction false} JoinedAppend(a: seq<string>, b: seq<string>)
    ensures Joined(a + b) == Joined(a) + Joined(b)
    decreases |a|
  {
    if a != [] {
      assert (a + b)[1..] == a[1..] + b;
      JoinedAppend(a[1..], b);
    } else {
      assert a + b == b;
    }
  }

  /**
   * SplitLines is the only way to read `s` as clean lines followed by a clean tail: any such
   * reading is the one SplitLines gives.
   */
  lemma {:induction false} SplitUnique(s: string, lines: seq<string>, rest: string)
    requires Joined(lines) + rest == s && '\n' !in rest && LinesClean(lines)
    ensures SplitLines(s) == Split(lines, rest)
    decreases |lines|
  {
    if lines != [] {
      var l := lines[0];
      FirstLine(s, l, Joined(lines[1..]) + rest);
      SplitUnique(s[|l| + 1..], lines[1..], rest);
      assert lines == [l] + lines[1..];
    }
  }

  /** When `s` is a clean line `l`, a '\n' and `more`, the first '\n' of `s` ends `l`. */
  lemma FirstLine(s: string, l: string, more: string)
    requires s == l + "\n" + more && '\n' !in l
    ensures IndexOf(s, '\n', 0) == |l| && s[..|l|] == l && s[|l| + 1..] == more
  {
    assert forall j :: 0 <= j < |l| ==> s[j] == l[j];
    IndexOfFirst(s, '\n', 0, |l|);
  }

  /** `IndexOf` finds the first occurrence at or after `from`. */
  lemma {:induction false} IndexOfFirst(s: string, c: char, from: nat, i: nat)
    requires from <= i < |s| && s[i] == c && forall k :: from <= k < i ==> s[k] != c
    ensures IndexOf(s, c, from) == i
    decreases i - from
  {
    if from < i {
      IndexOfFirst(s, c, from + 1, i);
    }
  }

  /**
   * Cutting `a + b` is cutting `a` and then cutting its tail followed by `b`: the second chunk
   * only ever adds to the unterminated tail the first one left.
   */
  lemma SplitAppend(a: string, b: string)
    ensures SplitLines(a + b).lines
         == SplitLines(a).lines + SplitLines(SplitLines(a).rest + b).lines
    ensures SplitLines(a + b).rest == SplitLines(SplitLines(a).rest + b).rest
  {
    var first := SplitLines(a);
    var second := SplitLines(first.rest + b);
    JoinTwo(first.lines, first.rest, second.lines, second.rest, a, b);
    SplitUnique(a + b, first.lines + second.lines, second.rest);
  }

  /** Two clean readings laid end to end read the concatenated text. */
  lemma JoinTwo(l1: seq<string>, r1: string, l2: seq<string>, r2: string, a: string, b: string)
    requires Joined(l1) + r1 == a && Joined(l2) + r2 == r1 + b
    requires LinesClean(l1) && LinesClean(l2)
    ensures Joined(l1 + l2) + r2 == a + b
    ensures LinesClean(l1 + l2)
  {
    JoinedAppend(l1, l2);
    calc {
      Joined(l1 + l2) + r2;
      Joined(l1) + (Joined(l2) + r2);
      Joined(l1) + (r1 + b);
      (Joined(l1) + r1) + b;
    }
    forall i | 0 <= i < |l1 + l2| ensures '\n' !in (l1 + l2)[i] {
      if i >= |l1| {
        assert (l1 + l2)[i] == l2[i - |l1|];
      }
    }
  }

  /**
   * Successive calls of `on_data` with the chunks `chunks`, starting from the buffer `buffer`:
   * the lines handled, in order, and the buffer left at the end.
   */
  function Feed(buffer: string, chunks: seq<string>): (r: Split)
    ensures LinesClean(r.lines)
    ensures ('\n' !in buffer || chunks != []) ==> '\n' !in r.rest
    decreases |chunks|
  {
    if chunks == [] then Split([], buffer)
    else
      var now := SplitLines(buffer + chunks[0]);
      var later := Feed(now.rest, chunks[1..]);
      Split(now.lines + later.lines, later.rest)
  }

  /** All chunks laid end to end. */
  function Concat(chunks: seq<string>): string
    decreases |chunks|
  {
    if chunks == [] then "" else chunks[0] + Concat(chunks[1..])
  }

  /**
   * However a stream is cut into chunks, feeding (from a buffer that holds no '\n', as between
   * two calls of `on_data`) the chunks one by one handles exactly the lines
   * that feeding the whole stream at once handles, in the same order, and leaves the same buffer.
   */
  lemma {:induction false} FeedMatchesWhole(buffer: string, chunks: seq<string>)
    requires '\n' !in buffer
    ensures Feed(buffer, chunks) == SplitLines(buffer + Concat(chunks))
    decreases |chunks|
  {
    if chunks == [] {
      assert buffer + Concat(chunks) == buffer;
      SplitUnique(buffer, [], buffer);
    } else {
      var now := SplitLines(buffer + chunks[0]);
      FeedMatchesWhole(now.rest, chunks[1..]);
      SplitAppend(buffer + chunks[0], Concat(chunks[1..]));
      ConcatFront(buffer, chunks);
    }
  }

  lemma ConcatFront(buffer: string, chunks: seq<string>)
    requires chunks != []
    ensures buffer + Concat(chunks) == buffer + chunks[0] + Concat(chunks[1..])
  {
  }
}
