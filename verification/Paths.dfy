/**
 Slash-separated lexical paths as Go's `path/filepath` documents them, in two forms: a stack of segments, and the byte
 loop that rewrites a path in one pass.
 */
module Paths {

  /** A path's pieces after one more byte. */
  function Extend(pieces: seq<string>, c: char): (r: seq<string>)
    requires pieces != []
    ensures r != []
  {
    if c == '/' then pieces + [""]
    else pieces[..|pieces| - 1] + [pieces[|pieces| - 1] + [c]]
  }

  /** Pieces between slashes: n slashes give n + 1 pieces, some perhaps empty. */
  function Split(s: string): (r: seq<string>)
    ensures r != []
  {
    if s == "" then [""] else Extend(Split(s[..|s| - 1]), s[|s| - 1])
  }

  ghost predicate NoSlashes(pieces: seq<string>) {
    forall i :: 0 <= i < |pieces| ==> '/' !in pieces[i]
  }

  function Join(segs: seq<string>): string {
    if segs == [] then ""
    else if |segs| == 1 then segs[0]
    else Join(segs[..|segs| - 1]) + "/" + segs[|segs| - 1]
  }

  /** A segment that names something: not empty, not "." and not "..". */
  predicate Plain(e: string) {
    e != "" && e != "." && e != ".." && '/' !in e
  }

  ghost predicate AllPlain(segs: seq<string>) {
    forall i :: 0 <= i < |segs| ==> Plain(segs[i])
  }

  /** One piece after another, on a stack: "" and "." do nothing, ".." goes back if it can. */
  function Push(rooted: bool, stack: seq<string>, e: string): seq<string> {
    if e == "" || e == "." then stack
    else if e != ".." then stack + [e]
    else if stack != [] && stack[|stack| - 1] != ".." then stack[..|stack| - 1]
    else if rooted then stack
    else stack + [".."]
  }

  function Fold(rooted: bool, stack: seq<string>, pieces: seq<string>): seq<string> {
    if pieces == [] then stack
    else Push(rooted, Fold(rooted, stack, pieces[..|pieces| - 1]), pieces[|pieces| - 1])
  }

  function Norm(rooted: bool, pieces: seq<string>): seq<string> {
    Fold(rooted, [], pieces)
  }

  function Rooted(path: string): bool {
    path != "" && path[0] == '/'
  }

  /** What the rewriting loop has written for a stack. */
  function Written(rooted: bool, stack: seq<string>): string {
    (if rooted then "/" else "") + Join(stack)
  }

  /** `filepath.Clean`: the shortest path that is lexically equal. */
  function Clean(path: string): string {
    var out := Written(Rooted(path), Norm(Rooted(path), Split(path)));
    if out == "" then "." else out
  }

  /** `filepath.Join` of two elements: empty ones are ignored. */
  function Join2(a: string, b: string): string {
    if a != "" then Clean(a + "/" + b)
    else if b != "" then Clean(b)
    else ""
  }

  /** `filepath.Dir`: all up to the last slash, cleaned. */
  function DirName(path: string): string {
    Clean(path[..AfterLastSlash(path)])
  }

  function AfterLastSlash(path: string): (n: nat)
    ensures n <= |path|
  {
    if path == "" || path[|path| - 1] == '/' then |path| else AfterLastSlash(path[..|path| - 1])
  }

  // Lemmas on the two forms

  lemma {:induction false} SplitNoSlashes(s: string)
    ensures NoSlashes(Split(s))
  {
    if s != "" {
      SplitNoSlashes(s[..|s| - 1]);
    }
  }

  lemma ExtendConcat(a: seq<string>, b: seq<string>, c: char)
    requires b != []
    ensures Extend(a + b, c) == a + Extend(b, c)
  {
    assert (a + b)[..|a + b| - 1] == a + b[..|b| - 1];
  }

  lemma {:induction false} SplitConcat(a: string, b: string)
    ensures Split(a + "/" + b) == Split(a) + Split(b)
  {
    var s := a + "/" + b;
    if b == "" {
      assert s[..|s| - 1] == a;
    } else {
      hide Extend;
      var front := b[..|b| - 1];
      assert s[..|s| - 1] == a + "/" + front;
      assert s[|s| - 1] == b[|b| - 1];
      SplitConcat(a, front);
      ExtendConcat(Split(a), Split(front), b[|b| - 1]);
    }
  }

  lemma ExtendPiece(front: string, c: char)
    requires c != '/'
    ensures Extend([front], c) == [front + [c]]
  {
    var one: seq<string> := [front];
    assert one[..0] == [];
  }

  lemma {:induction false} SplitPiece(e: string)
    requires '/' !in e
    ensures Split(e) == [e]
  {
    if e != "" {
      var front, c := e[..|e| - 1], e[|e| - 1];
      assert c in e && front + [c] == e;
      assert '/' !in front;
      SplitPiece(front);
      ExtendPiece(front, c);
      assert Split(e) == Extend(Split(front), c);
    }
  }

  lemma {:induction false} SplitJoin(segs: seq<string>)
    requires segs != [] && NoSlashes(segs)
    ensures Split(Join(segs)) == segs
  {
    var front, last := segs[..|segs| - 1], segs[|segs| - 1];
    assert segs == front + [last];
    SplitPiece(last);
    JoinSnoc(front, last);
    if front != [] {
      SplitJoin(front);
      SplitConcat(Join(front), last);
    }
  }

  lemma {:induction false} FoldConcat(rooted: bool, stack: seq<string>, a: seq<string>, b: seq<string>)
    ensures Fold(rooted, stack, a + b) == Fold(rooted, Fold(rooted, stack, a), b)
  {
    if b == [] {
      assert a + b == a;
    } else {
      var front := b[..|b| - 1];
      assert (a + b)[..|a + b| - 1] == a + front;
      FoldConcat(rooted, stack, a, front);
    }
  }

  lemma {:induction false} FoldPlain(rooted: bool, stack: seq<string>, segs: seq<string>)
    requires AllPlain(segs)
    ensures Fold(rooted, stack, segs) == stack + segs
  {
    if segs != [] {
      var front := segs[..|segs| - 1];
      FoldPlain(rooted, stack, front);
      assert stack + front + [segs[|segs| - 1]] == stack + segs;
    }
  }

  /** With a root to clamp at, folding leaves plain segments only. */
  lemma {:induction false} RootedIsPlain(stack: seq<string>, pieces: seq<string>)
    requires AllPlain(stack) && NoSlashes(pieces)
    ensures AllPlain(Fold(true, stack, pieces))
  {
    if pieces != [] {
      RootedIsPlain(stack, pieces[..|pieces| - 1]);
      assert '/' !in pieces[|pieces| - 1];
    }
  }

  /** Some ".."s, then plain segments: the shape of every stack without a root. */
  ghost predicate Climbs(stack: seq<string>, k: nat) {
    k <= |stack| && (forall i :: 0 <= i < k ==> stack[i] == "..") && AllPlain(stack[k..])
  }

  /** The stack keeps its shape, and the length of its climbing part is known. */
  lemma PushShape(rooted: bool, stack: seq<string>, k: nat, e: string)
    requires Climbs(stack, k) && (rooted ==> k == 0) && '/' !in e
    ensures Climbs(Push(rooted, stack, e), if e == ".." && !rooted && |stack| == k then k + 1 else k)
  {
    var next := Push(rooted, stack, e);
    if Plain(e) {
      assert next[k..] == stack[k..] + [e];
    } else if e == ".." {
      if |stack| > k {
        var last := |stack| - 1;
        assert Plain(stack[k..][last - k]);
        assert next[k..] == stack[k..][..last - k];
      } else if !rooted {
        assert next[k + 1..] == [];
      }
    }
  }

  lemma JoinSnoc(segs: seq<string>, e: string)
    ensures Join(segs + [e]) == if segs == [] then e else Join(segs) + "/" + e
  {
    assert (segs + [e])[..|segs|] == segs;
  }

  lemma {:induction false} JoinConcat(a: seq<string>, b: seq<string>)
    requires a != [] && b != []
    ensures Join(a + b) == Join(a) + "/" + Join(b)
  {
    var front, last := b[..|b| - 1], b[|b| - 1];
    assert (a + b)[..|a + b| - 1] == a + front;
    if front == [] {
      assert a + front == a;
    } else {
      JoinConcat(a, front);
      assert Join(a) + "/" + Join(front) + "/" + last == Join(a) + "/" + (Join(front) + "/" + last);
    }
  }

  lemma {:induction false} JoinNonEmpty(segs: seq<string>)
    requires forall i :: 0 <= i < |segs| ==> segs[i] != ""
    ensures Join(segs) == "" <==> segs == []
  {
    if |segs| > 1 {
      JoinNonEmpty(segs[..|segs| - 1]);
    }
  }

  // The byte loop

  /** Pieces of the part already read: complete, or just begun. */
  ghost predicate AtBoundary(path: string, r: nat) {
    r <= |path| && (r == 0 || r == |path| || path[r] == '/' || path[r - 1] == '/')
  }

  lemma ReadPiece(path: string, r: nat, next: nat)
    requires AtBoundary(path, r) && r < next <= |path| && path[r] != '/' && '/' !in path[r..next]
    ensures Split(path[..next]) == Split(path[..r])[..|Split(path[..r])| - 1] + [path[r..next]]
    ensures Split(path[..r])[|Split(path[..r])| - 1] == ""
  {
    if r == 0 {
      assert path[..next] == path[r..next];
      SplitPiece(path[r..next]);
    } else {
      var before := path[..r - 1];
      assert path[..r] == before + "/" + "" && path[..next] == before + "/" + path[r..next];
      SplitConcat(before, "");
      SplitConcat(before, path[r..next]);
      SplitPiece(path[r..next]);
      assert Split(before) + [""] == Split(path[..r]);
    }
  }

  /** Reading one piece pushes it; an empty last piece had pushed nothing. */
  lemma ReadPieceNorm(path: string, r: nat, next: nat, rooted: bool)
    requires AtBoundary(path, r) && r < next <= |path| && path[r] != '/' && '/' !in path[r..next]
    ensures Norm(rooted, Split(path[..next])) == Push(rooted, Norm(rooted, Split(path[..r])), path[r..next])
  {
    ReadPiece(path, r, next);
    var was, now := Split(path[..r]), Split(path[..next]);
    assert now[..|now| - 1] == was[..|was| - 1];
  }

  lemma ReadSlashNorm(path: string, r: nat, rooted: bool)
    requires r < |path| && path[r] == '/'
    ensures Norm(rooted, Split(path[..r + 1])) == Norm(rooted, Split(path[..r]))
  {
    assert path[..r + 1][..r] == path[..r];
    var was := Split(path[..r]);
    assert (was + [""])[..|was|] == was;
  }

  /** What one more segment adds to the output: a slash, unless the output is empty or just the root. */
  lemma WrittenSnoc(rooted: bool, stack: seq<string>, e: string)
    requires forall i :: 0 <= i < |stack| ==> stack[i] != ""
    ensures |Written(rooted, stack)| == (if rooted then 1 else 0) <==> stack == []
    ensures Written(rooted, stack + [e]) == Written(rooted, stack) + (if stack == [] then "" else "/") + e
  {
    JoinSnoc(stack, e);
    JoinNonEmpty(stack);
  }

  /** Cutting the output back to the slash before the last segment, or to the floor, takes that segment off. */
  method CutLast(out: string, floor: nat, rooted: bool, ghost stack: seq<string>) returns (cut: string)
    requires stack != [] && (forall i :: 0 <= i < |stack| ==> stack[i] != "")
    requires '/' !in stack[|stack| - 1]
    requires out == Written(rooted, stack)
    requires floor <= |Written(rooted, stack[..|stack| - 1])|
    requires |stack| == 1 ==> floor == |Written(rooted, [])|
    ensures cut == Written(rooted, stack[..|stack| - 1])
  {
    ghost var rest, last := stack[..|stack| - 1], stack[|stack| - 1];
    assert stack == rest + [last];
    WrittenSnoc(rooted, rest, last);
    ghost var base := |Written(rooted, rest)|;
    assert forall x :: |out| - |last| <= x < |out| ==> out[x] in last;
    var w := |out| - 1;
    while w > floor && out[w] != '/'
      invariant base <= w < |out|
      decreases w
    {
      w := w - 1;
    }
    cut := out[..w];
  }

  /** Copies bytes up to the next slash. */
  method CopyPiece(path: string, from: nat, out: string) returns (r: nat, longer: string)
    requires from < |path| && path[from] != '/'
    ensures from < r <= |path| && (r == |path| || path[r] == '/')
    ensures '/' !in path[from..r] && longer == out + path[from..r]
  {
    r, longer := from, out;
    while r < |path| && path[r] != '/'
      invariant from <= r <= |path| && '/' !in path[from..r] && longer == out + path[from..r]
    {
      assert path[from..r + 1] == path[from..r] + [path[r]];
      longer := longer + [path[r]];
      r := r + 1;
    }
  }

  /** The state of the loop: `out` is what the stack so far is written as, `floor` how much of it may not be cut. */
  ghost predicate Cleaning(path: string, r: nat, rooted: bool, out: string, floor: nat, stack: seq<string>,
                           climb: nat) {
    && AtBoundary(path, r)
    && stack == Norm(rooted, Split(path[..r]))
    && out == Written(rooted, stack)
    && Climbs(stack, climb) && (rooted ==> climb == 0)
    && floor == |Written(rooted, stack[..climb])|
  }

  lemma ClimbsNonEmpty(stack: seq<string>, k: nat)
    requires Climbs(stack, k)
    ensures forall i :: 0 <= i < |stack| ==> stack[i] != "" && '/' !in stack[i]
  {
    forall i | 0 <= i < |stack|
      ensures stack[i] != "" && '/' !in stack[i]
    {
      if i >= k {
        assert Plain(stack[k..][i - k]);
      }
    }
  }

  /** Output grows with the stack, so there is something above the floor exactly when the stack is above its climb. */
  lemma {:induction false} WrittenGrows(rooted: bool, stack: seq<string>, n: nat)
    requires n <= |stack| && forall i :: 0 <= i < |stack| ==> stack[i] != ""
    ensures |Written(rooted, stack[..n])| <= |Written(rooted, stack)|
    ensures |Written(rooted, stack[..n])| == |Written(rooted, stack)| <==> n == |stack|
    decreases |stack|
  {
    if n == |stack| {
      assert stack[..n] == stack;
    } else {
      var front := stack[..|stack| - 1];
      assert stack == front + [stack[|stack| - 1]];
      WrittenSnoc(rooted, front, stack[|stack| - 1]);
      WrittenGrows(rooted, front, n);
      assert front[..n] == stack[..n];
    }
  }

  /** How much of the stack is climbing after one more "..". */
  ghost function ClimbAfter(rooted: bool, stack: seq<string>, climb: nat): nat {
    if !rooted && |stack| == climb then climb + 1 else climb
  }

  lemma SlashKeeps(path: string, r: nat, rooted: bool, out: string, floor: nat, stack: seq<string>, climb: nat)
    requires Cleaning(path, r, rooted, out, floor, stack, climb) && r < |path| && path[r] == '/'
    ensures Cleaning(path, r + 1, rooted, out, floor, stack, climb)
  {
    ReadSlashNorm(path, r, rooted);
  }

  lemma DotKeeps(path: string, r: nat, rooted: bool, out: string, floor: nat, stack: seq<string>, climb: nat)
    requires Cleaning(path, r, rooted, out, floor, stack, climb) && r < |path| && path[r] == '.'
    requires r + 1 == |path| || path[r + 1] == '/'
    ensures Cleaning(path, r + 1, rooted, out, floor, stack, climb)
  {
    assert path[r..r + 1] == ".";
    ReadPieceNorm(path, r, r + 1, rooted);
  }

  lemma DotDotKeeps(path: string, r: nat, rooted: bool, out: string, floor: nat, stack: seq<string>, climb: nat,
                    out': string, floor': nat)
    requires Cleaning(path, r, rooted, out, floor, stack, climb)
    requires r + 1 < |path| && path[r] == '.' && path[r + 1] == '.' && (r + 2 == |path| || path[r + 2] == '/')
    requires out' == Written(rooted, Push(rooted, stack, ".."))
    requires ClimbAfter(rooted, stack, climb) <= |Push(rooted, stack, "..")|
    requires floor' == |Written(rooted, Push(rooted, stack, "..")[..ClimbAfter(rooted, stack, climb)])|
    ensures Cleaning(path, r + 2, rooted, out', floor', Push(rooted, stack, ".."), ClimbAfter(rooted, stack, climb))
  {
    assert path[r..r + 2] == "..";
    ReadPieceNorm(path, r, r + 2, rooted);
    PushShape(rooted, stack, climb, "..");
  }

  lemma NormOfEmpty(rooted: bool)
    ensures Norm(rooted, Split("")) == []
  {
    var pieces: seq<string> := [""];
    var none: seq<string> := pieces[..|pieces| - 1];
    assert none == [] && Split("") == pieces;
    assert Fold(rooted, [], none) == [];
    assert Push(rooted, [], pieces[0]) == [];
  }

  /**
   `Clean` as one pass over the bytes: read a piece, skip it, copy it, or cut the output back to an earlier slash.
   */
  method CleanLoop(path: string) returns (cleaned: string)
    ensures cleaned == Clean(path)
  {
    var rooted := Rooted(path);
    var out := if rooted then "/" else "";
    var r: nat, floor: nat := if rooted then 1 else 0, |out|;
    ghost var stack: seq<string>, climb := [], 0;
    assert path[..0] == "";
    NormOfEmpty(rooted);
    if rooted {
      ReadSlashNorm(path, 0, rooted);
    }
    while r < |path|
      invariant r <= |path| && Cleaning(path, r, rooted, out, floor, stack, climb)
      decreases |path| - r
    {
      if path[r] == '/' {
        SlashKeeps(path, r, rooted, out, floor, stack, climb);
        r := r + 1;
      } else if path[r] == '.' && (r + 1 == |path| || path[r + 1] == '/') {
        DotKeeps(path, r, rooted, out, floor, stack, climb);
        r := r + 1;
      } else if path[r] == '.' && path[r + 1] == '.' && (r + 2 == |path| || path[r + 2] == '/') {
        ghost var wasOut, wasFloor := out, floor;
        out, floor := GoBack(out, floor, rooted, stack, climb);
        DotDotKeeps(path, r, rooted, wasOut, wasFloor, stack, climb, out, floor);
        climb := ClimbAfter(rooted, stack, climb);
        stack := Push(rooted, stack, "..");
        r := r + 2;
      } else {
        var sep := if (rooted && |out| != 1) || (!rooted && |out| != 0) then out + "/" else out;
        ghost var from := r;
        r, out := CopyPiece(path, r, sep);
        PieceIsPlain(path, from, r);
        AppendPiece(path, from, r, rooted, sep, stack, climb);
        stack := stack + [path[from..r]];
      }
    }
    assert path[..|path|] == path;
    cleaned := if out == "" then "." else out;
  }

  /** Reading "..": back one segment, or stay at the root, or climb. */
  method GoBack(out: string, floor: nat, rooted: bool, ghost stack: seq<string>, ghost climb: nat)
    returns (out': string, floor': nat)
    requires out == Written(rooted, stack) && Climbs(stack, climb) && (rooted ==> climb == 0)
    requires floor == |Written(rooted, stack[..climb])|
    ensures out' == Written(rooted, Push(rooted, stack, ".."))
    ensures ClimbAfter(rooted, stack, climb) <= |Push(rooted, stack, "..")|
    ensures floor' == |Written(rooted, Push(rooted, stack, "..")[..ClimbAfter(rooted, stack, climb)])|
  {
    out', floor' := out, floor;
    ClimbsNonEmpty(stack, climb);
    WrittenGrows(rooted, stack, climb);
    if |out| > floor {
      ghost var front := stack[..|stack| - 1];
      assert stack[|stack| - 1] == stack[climb..][|stack| - 1 - climb];
      assert front[..climb] == stack[..climb];
      WrittenGrows(rooted, front, climb);
      assert |stack| == 1 ==> climb == 0 && stack[..climb] == [];
      out' := CutLast(out, floor, rooted, stack);
    } else if !rooted {
      assert stack[..climb] == stack;
      assert stack != [] ==> stack[|stack| - 1] == "..";
      WrittenSnoc(rooted, stack, "..");
      if |out| > 0 {
        out' := out' + "/";
      }
      out' := out' + "..";
      floor' := |out'|;
      assert (stack + [".."])[..climb + 1] == stack + [".."];
    }
  }

  /** A piece that is neither skipped nor a step back is plain. */
  lemma PieceIsPlain(path: string, from: nat, r: nat)
    requires from < r <= |path| && '/' !in path[from..r] && (r == |path| || path[r] == '/')
    requires !(path[from] == '.' && (from + 1 == |path| || path[from + 1] == '/'))
    requires from + 1 < |path| ==>
               !(path[from] == '.' && path[from + 1] == '.' && (from + 2 == |path| || path[from + 2] == '/'))
    ensures Plain(path[from..r])
  {
    var e := path[from..r];
    assert |e| == r - from && e[0] == path[from];
    assert |e| >= 2 ==> e[1] == path[from + 1];
  }

  /** Reading a plain piece: a slash if one is due, and the piece. */
  lemma AppendPiece(path: string, from: nat, r: nat, rooted: bool, sep: string, stack: seq<string>, climb: nat)
    requires AtBoundary(path, from) && from < r <= |path| && path[from] != '/' && '/' !in path[from..r]
    requires r == |path| || path[r] == '/'
    requires stack == Norm(rooted, Split(path[..from])) && Climbs(stack, climb) && (rooted ==> climb == 0)
    requires Plain(path[from..r])
    requires var out := Written(rooted, stack);
             sep == if (rooted && |out| != 1) || (!rooted && |out| != 0) then out + "/" else out
    ensures Cleaning(path, r, rooted, sep + path[from..r], |Written(rooted, stack[..climb])|,
                     stack + [path[from..r]], climb)
  {
    var e := path[from..r];
    ReadPieceNorm(path, from, r, rooted);
    PushShape(rooted, stack, climb, e);
    ClimbsNonEmpty(stack, climb);
    WrittenSnoc(rooted, stack, e);
    assert (stack + [e])[..climb] == stack[..climb];
  }
}
