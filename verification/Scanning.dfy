/**
 The line scanner of the pumps and of the content search: `bufio.Scanner` with the buffer sizes that
 internal/procapi/procapi.go and internal/fsapi/ops.go both set.
 */
module Scanning {
  import opened Sequences
  import opened Substrings

  const NEWLINE: Byte := 10
  const RETURN: Byte := 13

  /** The largest buffer: a line that fills it, its newline not counted, is too long. */
  const MAX_BUFFER := 1024 * 1024

  /** The lines of a text as they stand in it. A newline ends a line; the last one may do without. */
  function RawLines(c: Bytes): seq<Bytes>
    decreases |c|
  {
    if c == [] then []
    else match First(c, [NEWLINE])
      case None => [c]
      case Some(i) => [c[..i]] + RawLines(c[i + 1..])
  }

  function DropReturn(line: Bytes): Bytes {
    if line != [] && line[|line| - 1] == RETURN then line[..|line| - 1] else line
  }

  /** The lines a scanner hands out: it gives up at the first that is too long. */
  function Readable(raw: seq<Bytes>): seq<Bytes> {
    if raw == [] || |raw[0]| >= MAX_BUFFER then [] else [DropReturn(raw[0])] + Readable(raw[1..])
  }

  function Lines(c: Bytes): seq<Bytes> {
    Readable(RawLines(c))
  }

  /** The length of the first line: up to its newline, or all there is. */
  function Cut(c: Bytes): (n: nat)
    requires c != []
    ensures n <= |c| && NEWLINE !in c[..n] && (n < |c| ==> c[n] == NEWLINE)
  {
    CutIsFirst(c);
    match First(c, [NEWLINE]) case Some(i) => i case None => |c|
  }

  lemma CutIsFirst(c: Bytes)
    requires c != []
    ensures var n := match First(c, [NEWLINE]) case Some(i) => i case None => |c|;
            n <= |c| && NEWLINE !in c[..n] && (n < |c| ==> c[n] == NEWLINE)
  {
    var n := match First(c, [NEWLINE]) case Some(i) => i case None => |c|;
    if n < |c| {
      assert At(c, [NEWLINE], n) && c[n..n + 1][0] == c[n];
    }
    forall j | 0 <= j < n
      ensures c[j] != NEWLINE
    {
      assert !At(c, [NEWLINE], j) && c[j..j + 1] == [c[j]];
    }
  }

  lemma FirstRaw(c: Bytes)
    requires c != []
    ensures RawLines(c) == [c[..Cut(c)]] + if Cut(c) < |c| then RawLines(c[Cut(c) + 1..]) else []
  {
    assert Cut(c) == |c| ==> c[..Cut(c)] == c;
  }

  lemma FirstRead(c: Bytes)
    requires c != []
    ensures Lines(c) ==
            if Cut(c) >= MAX_BUFFER then []
            else [DropReturn(c[..Cut(c)])] + if Cut(c) < |c| then Lines(c[Cut(c) + 1..]) else []
  {
    FirstRaw(c);
    var raw, later := RawLines(c), if Cut(c) < |c| then RawLines(c[Cut(c) + 1..]) else [];
    assert raw[0] == c[..Cut(c)] && raw[1..] == later;
    assert Readable(later) == if Cut(c) < |c| then Lines(c[Cut(c) + 1..]) else [];
  }

  class Scanner {
    var rest: Bytes
    var text: Bytes

    constructor (content: Bytes)
      ensures rest == content
    {
      rest, text := content, [];
    }

    /** Moves on to the next line, if there is one to be had; after a line that is too long there is none. */
    method Scan() returns (ok: bool)
      modifies this
      ensures ok <==> old(Lines(rest)) != []
      ensures ok ==> text == old(Lines(rest))[0] && Lines(rest) == old(Lines(rest))[1..]
      ensures !ok ==> Lines(rest) == []
    {
      if rest == [] {
        return false;
      }
      FirstRead(rest);
      var i := IndexOf(rest, [NEWLINE]);
      var line := if i < 0 then rest else rest[..i];
      rest := if i < 0 then [] else rest[i + 1..];
      if |line| >= MAX_BUFFER {
        rest := [];
        return false;
      }
      text := DropReturn(line);
      ok := true;
    }
  }

  // What scanning finds

  /** No line fills the buffer. */
  ghost predicate AllShort(c: Bytes) {
    forall line :: line in RawLines(c) ==> |line| < MAX_BUFFER
  }

  /** Some line handed out contains the needle. */
  ghost predicate Found(lines: seq<Bytes>, needle: Bytes) {
    exists line :: line in lines && Occurs(line, needle)
  }

  /** What occurs in a stretch of a text occurs in the text. */
  lemma OccursWider(s: Bytes, p: Bytes, lo: nat, hi: nat)
    requires lo <= hi <= |s| && Occurs(s[lo..hi], p)
    ensures Occurs(s, p)
  {
    var i :| 0 <= i <= hi - lo && At(s[lo..hi], p, i);
    SliceOfSlice(s, lo, hi, i, i + |p|);
    assert At(s, p, lo + i);
  }

  lemma OccursNarrower(s: Bytes, p: Bytes, lo: nat, hi: nat, i: nat)
    requires At(s, p, i) && lo <= i && i + |p| <= hi <= |s|
    ensures Occurs(s[lo..hi], p)
  {
    SliceOfSlice(s, lo, hi, i - lo, i - lo + |p|);
    assert At(s[lo..hi], p, i - lo);
  }

  lemma SliceOfSlice(s: Bytes, lo: nat, hi: nat, i: nat, j: nat)
    requires lo <= hi <= |s| && i <= j <= hi - lo
    ensures s[lo..hi][i..j] == s[lo + i..lo + j]
  {
    assert forall k :: 0 <= k < j - i ==> s[lo..hi][i..j][k] == s[lo + i..lo + j][k];
  }

  /** Reading only shortens: a needle found in a line handed out is in a line of the text, and so in the text. */
  lemma {:induction false} FoundIsThere(c: Bytes, needle: Bytes)
    requires Found(Lines(c), needle)
    ensures Occurs(c, needle)
    decreases |c|
  {
    var n := Cut(c);
    FirstRead(c);
    var first := DropReturn(c[..n]);
    if Occurs(first, needle) {
      assert first == c[0..|first|];
      OccursWider(c, needle, 0, |first|);
    } else {
      var line :| line in Lines(c) && Occurs(line, needle);
      assert line in Lines(c[n + 1..]);
      FoundIsThere(c[n + 1..], needle);
      assert c[n + 1..] == c[n + 1..|c|];
      OccursWider(c, needle, n + 1, |c|);
    }
  }

  /** A needle a line can hold - no newline in it and no return at its end - is found wherever it occurs. */
  lemma {:induction false} ThereIsFound(c: Bytes, needle: Bytes)
    requires needle != [] && NEWLINE !in needle && needle[|needle| - 1] != RETURN
    requires AllShort(c) && Occurs(c, needle)
    ensures Found(Lines(c), needle)
    decreases |c|
  {
    var k :| 0 <= k <= |c| && At(c, needle, k);
    var n := Cut(c);
    FirstRaw(c);
    FirstRead(c);
    assert c[..n] in RawLines(c);
    if k + |needle| <= n {
      InFirstLine(c, needle, k, n);
      assert DropReturn(c[..n]) in Lines(c);
    } else {
      BehindFirstLine(c, needle, k, n);
      LaterLines(c, needle);
      ThereIsFound(c[n + 1..], needle);
    }
  }

  lemma LaterLines(c: Bytes, needle: Bytes)
    requires c != [] && Cut(c) < |c| && AllShort(c)
    ensures AllShort(c[Cut(c) + 1..])
    ensures Found(Lines(c[Cut(c) + 1..]), needle) ==> Found(Lines(c), needle)
  {
    hide RawLines, Lines;
    var rest := c[Cut(c) + 1..];
    FirstRaw(c);
    FirstRead(c);
    assert RawLines(c)[0] == c[..Cut(c)];
    assert forall line :: line in RawLines(rest) ==> line in RawLines(c);
    assert forall line :: line in Lines(rest) ==> line in Lines(c);
  }

  lemma InFirstLine(c: Bytes, needle: Bytes, k: nat, n: nat)
    requires At(c, needle, k) && k + |needle| <= n <= |c| && needle != [] && needle[|needle| - 1] != RETURN
    ensures Occurs(DropReturn(c[..n]), needle)
  {
    var kept := |DropReturn(c[..n])|;
    assert needle[|needle| - 1] == c[k..k + |needle|][|needle| - 1] == c[k + |needle| - 1];
    OccursNarrower(c, needle, 0, kept, k);
    assert c[0..kept] == DropReturn(c[..n]);
  }

  lemma BehindFirstLine(c: Bytes, needle: Bytes, k: nat, n: nat)
    requires At(c, needle, k) && n < k + |needle| && NEWLINE !in needle && n <= |c| && (n < |c| ==> c[n] == NEWLINE)
    ensures n < |c| && Occurs(c[n + 1..], needle)
  {
    assert forall j :: k <= j < k + |needle| ==> c[j] == needle[j - k];
    OccursNarrower(c, needle, n + 1, |c|, k);
    assert c[n + 1..|c|] == c[n + 1..];
  }

  lemma {:induction false} NoNewlineInLines(c: Bytes, line: Bytes)
    requires line in Lines(c)
    ensures NEWLINE !in line && |line| <= |c| && (line == c ==> DropReturn(c) == c)
    decreases |c|
  {
    var n := Cut(c);
    FirstRead(c);
    if line != DropReturn(c[..n]) {
      NoNewlineInLines(c[n + 1..], line);
    } else if line == c {
      assert c[..n] == c;
    }
  }

  lemma OccursInShorter(line: Bytes, needle: Bytes)
    requires Occurs(line, needle) && |line| <= |needle|
    ensures line == needle
  {
    var k :| 0 <= k <= |line| && At(line, needle, k);
    assert line[k..k + |needle|] == line;
  }

  /** A text that is the needle itself is missed if the needle has a newline in it, or a return at its end. */
  lemma NeedleMissed(needle: Bytes)
    requires needle != [] && (NEWLINE in needle || needle[|needle| - 1] == RETURN)
    ensures Occurs(needle, needle) && !Found(Lines(needle), needle)
  {
    assert At(needle, needle, 0) by { assert needle[0..|needle|] == needle; }
    forall line | line in Lines(needle)
      ensures !Occurs(line, needle)
    {
      NoNewlineInLines(needle, line);
      if Occurs(line, needle) {
        OccursInShorter(line, needle);
      }
    }
  }

  // Needles too long for any line

  /** A stretch that would fill the buffer, without a newline. */
  ghost predicate Fills(c: Bytes, lo: nat) {
    lo + MAX_BUFFER <= |c| && forall j :: lo <= j < lo + MAX_BUFFER ==> c[j] != NEWLINE
  }

  lemma {:induction false} LongLineFills(c: Bytes) returns (lo: nat)
    requires !AllShort(c)
    ensures Fills(c, lo)
    decreases |c|
  {
    var n := Cut(c);
    FirstRaw(c);
    if n >= MAX_BUFFER {
      lo := 0;
      assert forall j :: 0 <= j < n ==> c[..n][j] == c[j];
    } else {
      var rest := LongLineFills(c[n + 1..]);
      lo := n + 1 + rest;
      assert forall j :: lo <= j < lo + MAX_BUFFER ==> c[j] == c[n + 1..][j - n - 1];
    }
  }

  lemma {:induction false} FillsIsLong(c: Bytes, lo: nat)
    requires Fills(c, lo)
    ensures !AllShort(c)
    decreases |c|
  {
    var n := Cut(c);
    FirstRaw(c);
    assert c[..n] in RawLines(c);
    if n < MAX_BUFFER {
      assert n < |c| && c[n] == NEWLINE;
      var rest := c[n + 1..];
      assert forall j :: 0 <= j < |rest| ==> rest[j] == c[j + n + 1];
      FillsIsLong(c[n + 1..], lo - n - 1);
      var line :| line in RawLines(c[n + 1..]) && |line| >= MAX_BUFFER;
      assert line in RawLines(c);
    }
  }

  lemma ShortInShort(c: Bytes, needle: Bytes)
    requires AllShort(c) && Occurs(c, needle)
    ensures AllShort(needle)
  {
    if !AllShort(needle) {
      var lo := LongLineFills(needle);
      var k :| 0 <= k <= |c| && At(c, needle, k);
      assert forall j :: k <= j < k + |needle| ==> c[j] == needle[j - k];
      assert Fills(c, k + lo);
      FillsIsLong(c, k + lo);
    }
  }

  /**
   Scanning a text of lines the buffer can hold finds the needle if and only if the text contains it - for every such
   text, exactly when the needle has no newline and no return at its end (or is too long to occur in any).
   */
  lemma FindsExactly(needle: Bytes)
    requires needle != []
    ensures (NEWLINE !in needle && needle[|needle| - 1] != RETURN) || !AllShort(needle) <==>
              forall c :: AllShort(c) ==> (Found(Lines(c), needle) <==> Occurs(c, needle))
  {
    forall c | AllShort(c) && Found(Lines(c), needle)
      ensures Occurs(c, needle)
    {
      FoundIsThere(c, needle);
    }
    if NEWLINE !in needle && needle[|needle| - 1] != RETURN {
      forall c | AllShort(c) && Occurs(c, needle)
        ensures Found(Lines(c), needle)
      {
        ThereIsFound(c, needle);
      }
    } else if AllShort(needle) {
      NeedleMissed(needle);
    } else {
      forall c | AllShort(c)
        ensures !Occurs(c, needle)
      {
        if Occurs(c, needle) { ShortInShort(c, needle); }
      }
    }
  }
}
