/** Bounded search over a walk of the tree (`Search` and `appendContentMatches` in internal/fsapi/ops.go). */
module Search {
  import opened Sequences
  import opened Substrings
  import opened Paths
  import opened Jail
  import opened Tree
  import opened FileService
  import opened Scanning

  /** What the walk hands to its visitor: a node, or the failure to read one; and whether a file there opens. */
  datatype Visit = Visit(node: Path, failed: bool, opens: bool)

  /** `line` is 0 where no content was asked for. */
  datatype Hit = Hit(path: string, line: nat, text: Bytes)

  /** `matches` is `filepath.Match`, which the model leaves open; a malformed pattern matches nothing. */
  datatype Query = Query(glob: string, matches: (string, string) -> bool, content: Bytes)

  predicate Named(q: Query, name: string) {
    q.glob == "" || q.matches(q.glob, name)
  }

  /** The limit in force. */
  function Cap(limit: int): nat {
    if limit <= 0 then 200 else limit
  }

  function Take<T>(s: seq<T>, n: nat): (r: seq<T>)
    ensures r <= s && |r| == if |s| <= n then |s| else n
  {
    if |s| <= n then s else s[..n]
  }

  // The search without a limit

  /** One hit per line with the needle in it. */
  function FileHits(path: string, lines: seq<Bytes>, needle: Bytes): seq<Hit> {
    if lines == [] then []
    else
      var n, line := |lines|, lines[|lines| - 1];
      FileHits(path, lines[..n - 1], needle) + if Occurs(line, needle) then [Hit(path, n, line)] else []
  }

  /** The node is a file that can be visited and whose name fits. */
  predicate Candidate(t: Nodes, v: Visit, q: Query) {
    !v.failed && v.node in t && t[v.node].File? && Named(q, BaseName(v.node))
  }

  function VisitHits(root: string, t: Nodes, v: Visit, q: Query): seq<Hit> {
    if !Candidate(t, v, q) then []
    else
      var path := Reported(root, Abs(v.node));
      if q.content == [] then [Hit(path, 0, [])]
      else if !v.opens then []
      else FileHits(path, Lines(t[v.node].content), q.content)
  }

  function AllHits(root: string, t: Nodes, walk: seq<Visit>, q: Query): seq<Hit> {
    if walk == [] then []
    else AllHits(root, t, walk[..|walk| - 1], q) + VisitHits(root, t, walk[|walk| - 1], q)
  }

  lemma FileHitsNext(path: string, lines: seq<Bytes>, needle: Bytes, n: nat)
    requires n < |lines|
    ensures FileHits(path, lines[..n + 1], needle) ==
            FileHits(path, lines[..n], needle) + if Occurs(lines[n], needle) then [Hit(path, n + 1, lines[n])] else []
  {
    assert lines[..n + 1][..n] == lines[..n];
  }

  lemma {:induction false} FileHitsPrefix(path: string, lines: seq<Bytes>, needle: Bytes, n: nat)
    requires n <= |lines|
    ensures FileHits(path, lines[..n], needle) <= FileHits(path, lines, needle)
  {
    if n == |lines| {
      assert lines[..n] == lines;
    } else {
      var front := lines[..|lines| - 1];
      assert front[..n] == lines[..n];
      FileHitsPrefix(path, front, needle, n);
    }
  }

  lemma AllHitsNext(root: string, t: Nodes, walk: seq<Visit>, q: Query, n: nat)
    requires n < |walk|
    ensures AllHits(root, t, walk[..n + 1], q) == AllHits(root, t, walk[..n], q) + VisitHits(root, t, walk[n], q)
  {
    assert walk[..n + 1][..n] == walk[..n];
  }

  lemma {:induction false} AllHitsPrefix(root: string, t: Nodes, walk: seq<Visit>, q: Query, n: nat)
    requires n <= |walk|
    ensures AllHits(root, t, walk[..n], q) <= AllHits(root, t, walk, q)
  {
    if n == |walk| {
      assert walk[..n] == walk;
    } else {
      var front := walk[..|walk| - 1];
      assert front[..n] == walk[..n];
      AllHitsPrefix(root, t, front, q, n);
    }
  }

  lemma TakeAppend<T>(a: seq<T>, b: seq<T>, n: nat)
    ensures Take(Take(a, n) + b, n) == Take(a + b, n)
  {
  }

  lemma TakeReached<T>(a: seq<T>, b: seq<T>, longer: seq<T>, n: nat)
    requires b <= longer && |a + b| == n
    ensures a + b == Take(a + longer, n)
  {
  }

  // The search

  /** Stops reading as soon as the limit is reached. */
  method AppendContentMatches(hits: seq<Hit>, content: Bytes, path: string, needle: Bytes, limit: nat)
      returns (out: seq<Hit>)
    requires |hits| < limit
    ensures out == Take(hits + FileHits(path, Lines(content), needle), limit)
  {
    out := hits;
    var sc := new Scanner(content);
    var ln := 0;
    ghost var lines := Lines(content);
    while true
      invariant ln <= |lines| && Lines(sc.rest) == lines[ln..]
      invariant out == hits + FileHits(path, lines[..ln], needle) && |out| < limit
      decreases |lines| - ln
    {
      var more := sc.Scan();
      if !more {
        assert lines[..ln] == lines;
        break;
      }
      FileHitsNext(path, lines, needle, ln);
      ln := ln + 1;
      if Occurs(sc.text, needle) {
        out := out + [Hit(path, ln, sc.text)];
        if |out| >= limit {
          FileHitsPrefix(path, lines, needle, ln);
          TakeReached(hits, FileHits(path, lines[..ln], needle), FileHits(path, lines, needle), limit);
          break;
        }
      }
    }
  }

  /** The visitor: the hits after one more visit, and whether the walk ends here. */
  method VisitNode(root: string, t: Nodes, v: Visit, q: Query, limit: nat, hits: seq<Hit>)
      returns (out: seq<Hit>, skipAll: bool)
    requires |hits| <= limit && 0 < limit && (v.failed || v.node in t)
    ensures out == Take(hits + VisitHits(root, t, v, q), limit)
    ensures skipAll ==> |hits| == limit
  {
    out, skipAll := hits, false;
    if v.failed || t[v.node] == Dir {
      return;
    }
    if |hits| >= limit {
      return hits, true;
    }
    if q.glob != "" && !q.matches(q.glob, BaseName(v.node)) {
      return;
    }
    var path := Reported(root, Abs(v.node));
    if q.content == [] {
      out := out + [Hit(path, 0, [])];
      return;
    }
    if !v.opens {
      return;
    }
    out := AppendContentMatches(hits, t[v.node].content, path, q.content, limit);
  }

  /** Every visit is of a node at or below the start, or failed. */
  predicate Visits(t: Nodes, p: Path, walk: seq<Visit>) {
    forall v :: v in walk ==> p <= v.node && (v.failed || v.node in t)
  }

  method WalkAndCollect(root: string, t: Nodes, walk: seq<Visit>, q: Query, limit: nat) returns (hits: seq<Hit>)
    requires 0 < limit && forall v :: v in walk ==> v.failed || v.node in t
    ensures hits == Take(AllHits(root, t, walk, q), limit)
  {
    hits := [];
    var i := 0;
    while i < |walk|
      invariant i <= |walk| && hits == Take(AllHits(root, t, walk[..i], q), limit)
    {
      AllHitsNext(root, t, walk, q, i);
      TakeAppend(AllHits(root, t, walk[..i], q), VisitHits(root, t, walk[i], q), limit);
      var skipAll;
      hits, skipAll := VisitNode(root, t, walk[i], q, limit, hits);
      i := i + 1;
      if skipAll {
        AllHitsPrefix(root, t, walk, q, i);
        return;
      }
    }
    assert walk[..|walk|] == walk;
  }

  /** Whatever the limit, the hits are the first of those the unlimited search gives, in the order of the walk. */
  method Search(root: string, t: Nodes, rel: string, walk: seq<Visit>, q: Query, limit: int)
      returns (hits: Option<seq<Hit>>)
    requires CleanRoot(root) && Jailed(Clamp(root), t)
    requires Locate(root, rel).Some? ==> Visits(t, NodeOf(root, rel), walk)
    ensures hits == None <==> Locate(root, rel) == None
    ensures hits.Some? ==> hits.value == Take(AllHits(root, t, walk, q), if limit <= 0 then 200 else limit)
  {
    if Resolve(root, rel) == Escape {
      return None;
    }
    var found := WalkAndCollect(root, t, walk, q, Cap(limit));
    hits := Some(found);
  }

  // What is found

  /** The hits of a file are its lines with the needle in them, numbered from 1. */
  lemma {:induction false} FileHitsAre(path: string, lines: seq<Bytes>, needle: Bytes, h: Hit)
    ensures h in FileHits(path, lines, needle) <==>
              h.path == path && 1 <= h.line <= |lines| && h.text == lines[h.line - 1] && Occurs(h.text, needle)
  {
    if lines != [] {
      FileHitsAre(path, lines[..|lines| - 1], needle, h);
    }
  }

  lemma {:induction false} FileLinesRise(path: string, lines: seq<Bytes>, needle: Bytes, i: nat, j: nat)
    requires i < j < |FileHits(path, lines, needle)|
    ensures FileHits(path, lines, needle)[i].line < FileHits(path, lines, needle)[j].line
  {
    var front := FileHits(path, lines[..|lines| - 1], needle);
    if j < |front| {
      FileLinesRise(path, lines[..|lines| - 1], needle, i, j);
    } else {
      FileHitsAre(path, lines[..|lines| - 1], needle, front[i]);
    }
  }

  /** A hit is what the query asks for, at this visit. */
  predicate Answers(root: string, t: Nodes, v: Visit, q: Query, h: Hit) {
    && !v.failed && v.node in t && t[v.node].File? && h.path == Reported(root, Abs(v.node))
    && (q.glob == "" || q.matches(q.glob, if v.node == [] then "/" else v.node[|v.node| - 1]))
    && if q.content == [] then h.line == 0 && h.text == []
       else
         var lines := Lines(t[v.node].content);
         v.opens && 1 <= h.line <= |lines| && h.text == lines[h.line - 1] && Occurs(h.text, q.content)
  }

  lemma VisitHitsAre(root: string, t: Nodes, v: Visit, q: Query, h: Hit)
    ensures h in VisitHits(root, t, v, q) <==> Answers(root, t, v, q, h)
  {
    if Candidate(t, v, q) {
      FileHitsAre(Reported(root, Abs(v.node)), Lines(t[v.node].content), q.content, h);
    }
  }

  /** The unlimited search finds exactly what the query asks for, over all that was visited. */
  lemma {:induction false} HitsAre(root: string, t: Nodes, walk: seq<Visit>, q: Query, h: Hit)
    ensures h in AllHits(root, t, walk, q) <==> exists v :: v in walk && Answers(root, t, v, q, h)
  {
    if walk != [] {
      var front, last := walk[..|walk| - 1], walk[|walk| - 1];
      assert walk == front + [last];
      HitsAre(root, t, front, q, h);
      VisitHitsAre(root, t, last, q, h);
    }
  }

  /** Fewer hits than the limit mean that nothing was missed: every answer at every visited file is among them. */
  lemma NothingMissed(root: string, t: Nodes, walk: seq<Visit>, q: Query, limit: int, v: Visit, h: Hit)
    requires |Take(AllHits(root, t, walk, q), Cap(limit))| < Cap(limit)
    requires v in walk && Answers(root, t, v, q, h)
    ensures h in Take(AllHits(root, t, walk, q), Cap(limit))
  {
    HitsAre(root, t, walk, q, h);
  }

  /** A walk that came to everything at or below the start, where every file opened. */
  ghost predicate Full(t: Nodes, start: Path, walk: seq<Visit>) {
    forall n :: n in t && start <= n ==> Visit(n, false, true) in walk
  }

  /**
   After a full walk with fewer hits than the limit, the hits are exactly the answers in the tree below the start,
   however the walk was ordered.
   */
  lemma SearchIsExact(root: string, t: Nodes, start: Path, walk: seq<Visit>, q: Query, limit: int, h: Hit)
    requires Visits(t, start, walk) && Full(t, start, walk)
    requires |Take(AllHits(root, t, walk, q), Cap(limit))| < Cap(limit)
    ensures h in Take(AllHits(root, t, walk, q), Cap(limit)) <==>
              exists n :: n in t && start <= n && Answers(root, t, Visit(n, false, true), q, h)
  {
    HitsAre(root, t, walk, q, h);
    if v :| v in walk && Answers(root, t, v, q, h) {
      assert Answers(root, t, Visit(v.node, false, true), q, h);
    }
  }

  /** Node `n` is a file that the query is about, and the hit's line stands in it under the hit's number. */
  ghost predicate Contains(t: Nodes, n: Path, q: Query, h: Hit) {
    && ReadFile(t, n).Some? && Named(q, BaseName(n))
    && (q.content != [] ==>
          var text := ReadFile(t, n).value;
          && 1 <= h.line <= |Lines(text)| && h.text == Lines(text)[h.line - 1]
          && Occurs(h.text, q.content) && Occurs(text, q.content))
  }

  /**
   The path of a hit resolves to a file below the start of the search that contains the hit - unless the root is "/",
   where nothing but the root itself resolves.
   */
  lemma HitReadsBack(root: string, t: Nodes, start: Path, walk: seq<Visit>, q: Query, h: Hit)
    requires CleanRoot(root) && root != "/" && Jailed(Clamp(root), t)
    requires Clamp(root) <= start && Visits(t, start, walk) && h in AllHits(root, t, walk, q)
    ensures Locate(root, h.path).Some?
    ensures start <= Locate(root, h.path).value.node && Contains(t, Locate(root, h.path).value.node, q, h)
  {
    HitsAre(root, t, walk, q, h);
    var v :| v in walk && Answers(root, t, v, q, h);
    AnswerIsContained(root, t, v, q, h);
    ReportedLocates(root, t, v.node);
  }

  lemma AnswerIsContained(root: string, t: Nodes, v: Visit, q: Query, h: Hit)
    requires Answers(root, t, v, q, h)
    ensures Contains(t, v.node, q, h)
  {
    if q.content != [] {
      assert h.text in Lines(t[v.node].content);
      FoundIsThere(t[v.node].content, q.content);
    }
  }

  lemma ReportedLocates(root: string, t: Nodes, n: Path)
    requires CleanRoot(root) && root != "/" && WellFormed(t) && n in t && Clamp(root) <= n
    ensures Locate(root, Reported(root, Abs(n))).Some?
    ensures Locate(root, Reported(root, Abs(n))).value.node == n
  {
    NodeOfReported(root, t, n);
    Located(root, Reported(root, Abs(n)));
  }

  lemma NodeOfReported(root: string, t: Nodes, n: Path)
    requires CleanRoot(root) && WellFormed(t) && n in t && Clamp(root) <= n
    ensures NodeOf(root, Reported(root, Abs(n))) == n
  {
    assert Hangs(t, n);
    var segs := n[|Clamp(root)|..];
    assert n == Clamp(root) + segs;
    ReportedSegments(root, segs);
  }

  /** A walk comes to each file once. */
  ghost predicate OnceEach(walk: seq<Visit>) {
    forall i, j :: 0 <= i < j < |walk| && !walk[i].failed && !walk[j].failed ==> walk[i].node != walk[j].node
  }

  /** Of two hits in one file, the later has the greater line number. */
  ghost predicate Rising(hits: seq<Hit>) {
    forall i, j :: 0 <= i < j < |hits| && hits[i].path == hits[j].path ==> hits[i].line < hits[j].line
  }

  /** Line numbers rise within each file - so without content there is one hit a file. */
  lemma {:induction false} LinesRise(root: string, t: Nodes, walk: seq<Visit>, q: Query)
    requires CleanRoot(root) && Jailed(Clamp(root), t) && Visits(t, Clamp(root), walk) && OnceEach(walk)
    ensures Rising(AllHits(root, t, walk, q))
  {
    if walk != [] {
      var front, last := walk[..|walk| - 1], walk[|walk| - 1];
      LinesRise(root, t, front, q);
      VisitLinesRise(root, t, last, q);
      forall a, b | a in AllHits(root, t, front, q) && b in VisitHits(root, t, last, q)
        ensures a.path != b.path
      {
        ApartFromLast(root, t, walk, q, a, b);
      }
    }
  }

  lemma VisitLinesRise(root: string, t: Nodes, v: Visit, q: Query)
    ensures Rising(VisitHits(root, t, v, q))
  {
    if Candidate(t, v, q) && q.content != [] && v.opens {
      var path, lines := Reported(root, Abs(v.node)), Lines(t[v.node].content);
      forall i, j | 0 <= i < j < |FileHits(path, lines, q.content)|
        ensures FileHits(path, lines, q.content)[i].line < FileHits(path, lines, q.content)[j].line
      {
        FileLinesRise(path, lines, q.content, i, j);
      }
    }
  }

  lemma ApartFromLast(root: string, t: Nodes, walk: seq<Visit>, q: Query, a: Hit, b: Hit)
    requires CleanRoot(root) && Jailed(Clamp(root), t) && Visits(t, Clamp(root), walk) && OnceEach(walk) && walk != []
    requires a in AllHits(root, t, walk[..|walk| - 1], q) && b in VisitHits(root, t, walk[|walk| - 1], q)
    ensures a.path != b.path
  {
    var front, last := walk[..|walk| - 1], walk[|walk| - 1];
    HitsAre(root, t, front, q, a);
    VisitHitsAre(root, t, last, q, b);
    var v :| v in front && Answers(root, t, v, q, a);
    NodeOfReported(root, t, v.node);
    NodeOfReported(root, t, last.node);
  }
}
