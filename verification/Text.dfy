/** Strings as the repository's string class searches and cuts them.
    A char stands for one byte. `npos`, which is the unsigned value of -1, is
    written -1, so that `npos + 1` is 0 here as it is in unsigned arithmetic. */
module Text {

  const NPOS := -1

  /** For proofs that hide the constant. */
  lemma Npos()
    ensures NPOS == -1
  {
  }

  predicate MatchAt(s: string, pat: string, k: nat) {
    k + |pat| <= |s| && s[k..k + |pat|] == pat
  }

  /** `TrkString::find`: the least match at or after `start`. A start at or past
      the end finds nothing, not even the empty pattern. */
  function Find(s: string, pat: string, start: nat := 0): (r: int)
    ensures r == NPOS || start <= r < |s|
    ensures r != NPOS ==> MatchAt(s, pat, r)
    ensures forall k: nat :: start <= k < (if r == NPOS then |s| else r) ==> !MatchAt(s, pat, k)
    decreases |s| - start
  {
    if start >= |s| then NPOS
    else if MatchAt(s, pat, start) then start
    else Find(s, pat, start + 1)
  }

  /** `c` does not occur at positions `lo..hi`. */
  predicate Absent(s: string, c: char, lo: int, hi: int)
    requires 0 <= lo && hi <= |s|
  {
    forall k :: lo <= k < hi ==> s[k] != c
  }

  /** `find` with a pattern of one character. */
  function IndexOf(s: string, c: char, start: nat := 0): (r: int)
    ensures r == NPOS || start <= r < |s|
    ensures r == NPOS ==> Absent(s, c, start, |s|)
    ensures r != NPOS ==> s[r] == c && Absent(s, c, start, r)
  {
    var r := Find(s, [c], start);
    assert forall k: nat {:trigger s[k]} :: start <= k < |s| && s[k] == c ==> MatchAt(s, [c], k);
    r
  }

  /** `TrkString::substr`. */
  function Substr(s: string, pos: nat, count: int := NPOS): string
    requires count >= NPOS
  {
    if pos >= |s| then ""
    else if count == NPOS || pos + count > |s| then s[pos..]
    else s[pos..pos + count]
  }

  /** `TrkString::erase`. */
  function Erase(s: string, start: nat, count: int := NPOS): string
    requires count >= NPOS
  {
    if start >= |s| then s
    else if count == NPOS || start + count > |s| then s[..start]
    else s[..start] + s[start + count..]
  }

  /** What a C string operation sees of a buffer: everything before the first NUL. */
  function CStr(s: string): string {
    var p := IndexOf(s, '\0');
    if p == NPOS then s else s[..p]
  }

  predicate Free(s: string, c: char) {
    forall k :: 0 <= k < |s| ==> s[k] != c
  }

  /** `operator<<` between two strings: both go through C strings. */
  function Append(a: string, b: string): string {
    CStr(a) + CStr(b)
  }

  /** The part of a reply before its first newline, or all of it. */
  function FirstLine(m: string): string {
    var p := IndexOf(m, '\n');
    if p == NPOS then m else Substr(m, 0, p)
  }

  /** The part after the first newline; `npos + 1` wraps to 0, so a reply without
      a newline yields itself. */
  function AfterFirstLine(m: string): string {
    Substr(m, IndexOf(m, '\n') + 1)
  }

  lemma IndexOfSplit(a: string, c: char, b: string)
    requires Free(a, c)
    ensures IndexOf(a + [c] + b, c) == |a|
  {
    var s := a + [c] + b;
    assert s[|a|] == c;
    assert forall k :: 0 <= k < |a| ==> s[k] == a[k];
  }

  lemma AppendNulFree(a: string, b: string)
    requires Free(a, '\0') && Free(b, '\0')
    ensures Append(a, b) == a + b
  {
  }

  lemma FreeConcat(a: string, b: string, c: char)
    ensures Free(a + b, c) <==> Free(a, c) && Free(b, c)
  {
    var s := a + b;
    assert forall k :: 0 <= k < |a| ==> s[k] == a[k];
    assert forall k :: 0 <= k < |b| ==> s[|a| + k] == b[k];
  }

  lemma SuffixFree(s: string, k: nat, c: char)
    requires Free(s, c)
    ensures Free(Substr(s, k), c)
  {
  }

  /** A reply built as a first line, a newline and a rest is read back as the two. */
  lemma ReplyParts(head: string, rest: string)
    requires Free(head, '\n')
    ensures FirstLine(head + "\n" + rest) == head
    ensures AfterFirstLine(head + "\n" + rest) == rest
  {
    IndexOfSplit(head, '\n', rest);
    assert head + "\n" + rest == head + ['\n'] + rest;
  }

  /** A reply without a newline is both. */
  lemma ReplyWithoutNewline(m: string)
    requires Free(m, '\n')
    ensures FirstLine(m) == m && AfterFirstLine(m) == m
  {
    hide IndexOf;
    assert Substr(m, 0) == m[0..] == m || m == "";
  }

  // ----- Cutting at a separator

  /** The pieces of `s` between the occurrences of `c`; always at least one. */
  function Split(s: string, c: char): (pieces: seq<string>)
    ensures |pieces| >= 1
    ensures forall k :: 0 <= k < |pieces| ==> Free(pieces[k], c)
    decreases |s|
  {
    var p := IndexOf(s, c);
    if p == NPOS then [s] else [s[..p]] + Split(s[p + 1..], c)
  }

  lemma {:induction false} SplitFirst(a: string, c: char, b: string)
    requires Free(a, c)
    ensures Split(a + [c] + b, c) == [a] + Split(b, c)
    ensures Split(a, c) == [a]
  {
    IndexOfSplit(a, c, b);
    assert (a + [c] + b)[..|a|] == a && (a + [c] + b)[|a| + 1..] == b;
  }

  lemma {:induction false} SplitConcat(a: string, c: char, b: string)
    ensures Split(a + [c] + b, c) == Split(a, c) + Split(b, c)
    decreases |a|
  {
    hide Split;
    var p := IndexOf(a, c);
    if p == NPOS {
      SplitFirst(a, c, b);
    } else {
      var front, back := a[..p], a[p + 1..];
      var whole := back + [c] + b;
      assert a == front + [c] + back;
      assert a + [c] + b == front + [c] + whole;
      SplitFirst(front, c, whole);
      SplitFirst(front, c, back);
      SplitConcat(back, c, b);
      assert [front] + (Split(back, c) + Split(b, c)) == [front] + Split(back, c) + Split(b, c);
    }
  }
}
