/** The path jail: `resolve`, and the paths the service reports (internal/fsapi/fsapi.go, internal/fsapi/ops.go). */
module Jail {
  import opened Paths

  datatype Resolved = Inside(abs: string) | Escape

  function TrimSlash(rel: string): string {
    if Rooted(rel) then rel[1..] else rel
  }

  /** `resolve`: clean with a slash in front, join onto the root, then compare the prefix. */
  function Resolve(root: string, rel: string): Resolved {
    var clean := Clean("/" + TrimSlash(rel));
    var abs := Join2(root, clean);
    if abs != root && !(root + "/" <= abs) then Escape else Inside(abs)
  }

  /** What `filepath.Abs` makes of the configured root. */
  predicate CleanRoot(root: string) {
    Rooted(root) && Clean(root) == root
  }

  /** The segments a relative path names, with ".." clamped at the jail's root. */
  function Clamp(rel: string): seq<string> {
    Norm(true, Split(rel))
  }

  /** The absolute path made of these segments. */
  function Abs(segs: seq<string>): string {
    "/" + Join(segs)
  }

  lemma ClampIsPlain(rel: string)
    ensures AllPlain(Clamp(rel))
  {
    SplitNoSlashes(rel);
    RootedIsPlain([], Split(rel));
  }

  lemma ClampConcat(a: string, b: string)
    ensures Clamp(a + "/" + b) == Fold(true, Clamp(a), Split(b))
  {
    SplitConcat(a, b);
    FoldConcat(true, [], Split(a), Split(b));
  }

  /** A slash in front, or one more of them, changes nothing. */
  lemma ClampSlash(x: string)
    ensures Clamp("/" + x) == Clamp(x)
  {
    NormOfEmpty(true);
    assert "" + "/" + x == "/" + x;
    ClampConcat("", x);
  }

  lemma CleanRooted(x: string)
    ensures Clean("/" + x) == Abs(Clamp(x))
  {
    ClampSlash(x);
  }

  lemma PlainNoSlashes(segs: seq<string>)
    requires AllPlain(segs)
    ensures NoSlashes(segs) && forall i :: 0 <= i < |segs| ==> segs[i] != ""
  {
  }

  /** Writing plain segments out and reading them in again gives them back, onto any stack. */
  lemma FoldJoin(rooted: bool, stack: seq<string>, segs: seq<string>)
    requires AllPlain(segs)
    ensures Fold(rooted, stack, Split(Join(segs))) == stack + segs
  {
    PlainNoSlashes(segs);
    if segs == [] {
      var pieces: seq<string> := [""];
      assert pieces[..|pieces| - 1] == [] && Split(Join(segs)) == pieces;
      assert Fold(rooted, stack, pieces[..0]) == stack;
      assert Push(rooted, stack, pieces[0]) == stack;
      assert stack + segs == stack;
    } else {
      SplitJoin(segs);
      FoldPlain(rooted, stack, segs);
    }
  }

  lemma ClampAbs(segs: seq<string>)
    requires AllPlain(segs)
    ensures Clamp(Abs(segs)) == segs
  {
    ClampSlash(Join(segs));
    FoldJoin(true, [], segs);
    assert [] + segs == segs;
  }

  /** A clean root is the path of its own segments. */
  lemma RootSegments(root: string)
    requires CleanRoot(root)
    ensures AllPlain(Clamp(root)) && root == Abs(Clamp(root))
    ensures root == "/" <==> Clamp(root) == []
  {
    ClampIsPlain(root);
    PlainNoSlashes(Clamp(root));
    JoinNonEmpty(Clamp(root));
    assert root == "/" + root[1..];
    CleanRooted(root[1..]);
    ClampSlash(root[1..]);
  }

  lemma AbsConcat(a: seq<string>, b: seq<string>)
    requires a != []
    ensures Abs(a + b) == if b == [] then Abs(a) else Abs(a) + "/" + Join(b)
  {
    if b == [] {
      assert a + b == a;
    } else {
      JoinConcat(a, b);
      assert "/" + (Join(a) + "/" + Join(b)) == "/" + Join(a) + "/" + Join(b);
    }
  }

  /** Joining a clean rooted path onto the root puts its segments behind the root's. */
  lemma JoinOntoRoot(root: string, segs: seq<string>)
    requires CleanRoot(root) && AllPlain(segs)
    ensures Join2(root, Abs(segs)) == Abs(Clamp(root) + segs)
  {
    var x := root[1..] + "/" + Abs(segs);
    assert root + "/" + Abs(segs) == "/" + x;
    CleanRooted(x);
    ClampSlash(x);
    assert "/" + x == (root + "/") + "/" + Join(segs);
    ClampOntoRoot(root, segs);
  }

  lemma ClampOntoRoot(root: string, segs: seq<string>)
    requires AllPlain(segs)
    ensures Clamp((root + "/") + "/" + Join(segs)) == Clamp(root) + segs
  {
    ClampIsPlain(root);
    ClampConcat(root + "/", Join(segs));
    ClampConcat(root, "");
    assert root + "/" + "" == root + "/";
    FoldJoin(true, Clamp(root), []);
    assert Clamp(root) + [] == Clamp(root);
    FoldJoin(true, Clamp(root), segs);
  }

  /** `resolve`, segment by segment. */
  lemma ResolveSegments(root: string, rel: string)
    requires CleanRoot(root)
    ensures Join2(root, Clean("/" + TrimSlash(rel))) == Abs(Clamp(root) + Clamp(rel))
  {
    CleanRooted(TrimSlash(rel));
    ClampIsPlain(rel);
    if Rooted(rel) {
      ClampSlash(rel[1..]);
      assert rel == "/" + rel[1..];
    }
    JoinOntoRoot(root, Clamp(rel));
  }

  /**
   Confinement: with any clean root but "/", every string resolves, to the root itself or to a path below it made of
   non-empty segments none of which is "." or "..": those of the clamping stack fold.
   */
  lemma ResolveConfines(root: string, rel: string)
    requires CleanRoot(root) && root != "/"
    ensures Resolve(root, rel) == Inside(Abs(Clamp(root) + Clamp(rel)))
    ensures AllPlain(Clamp(rel))
    ensures Resolve(root, rel).abs == if Clamp(rel) == [] then root else root + "/" + Join(Clamp(rel))
  {
    ResolveSegments(root, rel);
    RootSegments(root);
    ClampIsPlain(rel);
    AbsConcat(Clamp(root), Clamp(rel));
  }

  /** With root "/" the prefix compared with is "//", so only the root itself resolves. */
  lemma RootSlashRefusesAll(rel: string)
    ensures CleanRoot("/")
    ensures Resolve("/", rel) == if Clamp(rel) == [] then Inside("/") else Escape
  {
    NormOfEmpty(true);
    ClampSlash("");
    assert "/" + "" == "/";
    CleanRooted("");
    ResolveSegments("/", rel);
    ClampIsPlain(rel);
    assert [] + Clamp(rel) == Clamp(rel);
    var segs := Clamp(rel);
    if segs != [] {
      JoinStart(segs);
      assert Abs(segs)[1] == Join(segs)[0];
      assert "/" + "/" == "//";
    }
  }

  lemma {:induction false} JoinStart(segs: seq<string>)
    requires AllPlain(segs) && segs != []
    ensures Join(segs) != "" && Join(segs)[0] != '/'
  {
    if |segs| > 1 {
      JoinStart(segs[..|segs| - 1]);
    }
  }

  // Reported paths

  /** An absolute path in the jail: the root's segments and then some. */
  ghost predicate InJail(root: string, abs: string) {
    exists segs :: AllPlain(segs) && abs == Abs(Clamp(root) + segs)
  }

  /** `filepath.Rel` of a path at or below the base. */
  function Rel(root: string, abs: string): string {
    if abs == root then "." else Drop(abs, if root == "/" then 1 else |root| + 1)
  }

  function Drop(s: string, n: nat): string {
    if n <= |s| then s[n..] else ""
  }

  /** The path of an `Entry` or a `SearchHit`. */
  function Reported(root: string, abs: string): string {
    "/" + Rel(root, abs)
  }

  /**
   Round trip: the path reported for anything in the jail, the root's "/." included, resolves back to it - except that
   with root "/" nothing below the root does.
   */
  lemma ReportedResolvesBack(root: string, abs: string)
    requires CleanRoot(root) && InJail(root, abs)
    ensures Resolve(root, Reported(root, abs)) == if root != "/" || abs == root then Inside(abs) else Escape
  {
    var segs :| AllPlain(segs) && abs == Abs(Clamp(root) + segs);
    RootSegments(root);
    ReportedSegments(root, segs);
    if root == "/" {
      RootSlashRefusesAll(Reported(root, abs));
      PlainNoSlashes(segs);
      JoinNonEmpty(segs);
      assert [] + segs == segs;
    } else {
      ResolveConfines(root, Reported(root, abs));
    }
  }

  lemma ReportedSegments(root: string, segs: seq<string>)
    requires CleanRoot(root) && AllPlain(segs)
    ensures Clamp(Reported(root, Abs(Clamp(root) + segs))) == segs
  {
    var abs := Abs(Clamp(root) + segs);
    RootSegments(root);
    PlainNoSlashes(segs);
    JoinNonEmpty(segs);
    if segs == [] {
      assert Clamp(root) + segs == Clamp(root);
      ClampSlash(".");
      ClampDot();
    } else {
      if root == "/" {
        assert [] + segs == segs;
      } else {
        AbsConcat(Clamp(root), segs);
      }
      assert Rel(root, abs) == Join(segs);
      ClampAbs(segs);
    }
  }

  // Cleaning twice

  /** The shape `Norm` leaves without a root, and what clamping it again gives. */
  lemma {:induction false} NormShape(pieces: seq<string>) returns (k: nat)
    requires NoSlashes(pieces)
    ensures Climbs(Norm(false, pieces), k)
    ensures Norm(false, pieces)[k..] == Norm(true, pieces)
  {
    if pieces == [] {
      k := 0;
    } else {
      var front, e := pieces[..|pieces| - 1], pieces[|pieces| - 1];
      k := NormShape(front);
      var stack := Norm(false, front);
      PushShape(false, stack, k, e);
      if e == ".." {
        if |stack| > k {
          var last := |stack| - 1;
          assert stack[k..][last - k] == stack[last] && Plain(stack[last]);
          assert stack[..last][k..] == stack[k..][..last - k];
        } else {
          assert (stack + [".."])[k + 1..] == [] && stack[k..] == [];
          k := k + 1;
        }
      } else if Plain(e) {
        assert (stack + [e])[k..] == stack[k..] + [e];
      }
    }
  }

  /** Clamping a stack of that shape leaves its plain part. */
  lemma {:induction false} ClampClimbs(stack: seq<string>, k: nat)
    requires Climbs(stack, k)
    ensures Norm(true, stack) == stack[k..]
    decreases |stack|
  {
    if stack != [] {
      var front, e := stack[..|stack| - 1], stack[|stack| - 1];
      if |stack| > k {
        PlainOnTop(stack, k);
        ClampClimbs(front, k);
        assert Push(true, front[k..], e) == front[k..] + [e];
      } else {
        assert front[k - 1..] == [] && stack[k..] == [];
        ClampClimbs(front, k - 1);
      }
    }
  }

  lemma PlainOnTop(stack: seq<string>, k: nat)
    requires Climbs(stack, k) && |stack| > k
    ensures Climbs(stack[..|stack| - 1], k) && Plain(stack[|stack| - 1])
    ensures stack[k..] == stack[..|stack| - 1][k..] + [stack[|stack| - 1]]
  {
    var front := stack[..|stack| - 1];
    assert stack[k..][|stack| - 1 - k] == stack[|stack| - 1];
    assert forall i :: 0 <= i < |front| - k ==> front[k..][i] == stack[k..][i];
  }

  lemma ClampDot()
    ensures Clamp(".") == []
  {
    var dot := ".";
    SplitPiece(dot);
    var pieces: seq<string> := [dot];
    var none: seq<string> := pieces[..|pieces| - 1];
    assert none == [] && Fold(true, [], none) == [];
    assert Push(true, [], pieces[0]) == [];
  }

  lemma CleanUnrooted(x: string)
    requires !Rooted(x)
    ensures Clamp(Clean(x)) == Clamp(x)
  {
    SplitNoSlashes(x);
    var k := NormShape(Split(x));
    var stack := Norm(false, Split(x));
    ClimbsNonEmpty(stack, k);
    JoinNonEmpty(stack);
    ClampClimbs(stack, k);
    if stack == [] {
      ClampDot();
    } else {
      assert "" + Join(stack) == Join(stack);
      SplitJoin(stack);
    }
  }

  /** Cleaning before clamping changes nothing: Clean("/" + Clean(x)) = Clean("/" + x). */
  lemma CleanThenClamp(x: string)
    ensures Clamp(Clean(x)) == Clamp(x)
    ensures Clean("/" + Clean(x)) == Clean("/" + x)
  {
    if Rooted(x) {
      ClampIsPlain(x);
      assert Clean(x) == Abs(Clamp(x));
      ClampAbs(Clamp(x));
    } else {
      CleanUnrooted(x);
    }
    CleanRooted(Clean(x));
    CleanRooted(x);
  }

  lemma SameClampSameFile(root: string, a: string, b: string)
    requires CleanRoot(root) && Clamp(a) == Clamp(b)
    ensures Resolve(root, a) == Resolve(root, b)
  {
    ResolveSegments(root, a);
    ResolveSegments(root, b);
  }

  lemma Join2Clamp(a: string, b: string)
    ensures Clamp(Join2(a, b)) == Clamp(a + "/" + b)
  {
    if a != "" {
      CleanThenClamp(a + "/" + b);
    } else {
      assert a + "/" + b == "/" + b;
      ClampSlash(b);
      if b != "" {
        CleanThenClamp(b);
      }
    }
  }

  /**
   Upload: the reported "/" + dst resolves to the file that was written, which is the one the form's directory and file
   name, put together unclean, would resolve to.
   */
  lemma UploadResolvesBack(root: string, dir: string, name: string)
    requires CleanRoot(root)
    ensures var dst := Join2(dir, name);
            Resolve(root, "/" + dst) == Resolve(root, dst) == Resolve(root, dir + "/" + name)
  {
    var dst := Join2(dir, name);
    ClampSlash(dst);
    Join2Clamp(dir, name);
    SameClampSameFile(root, "/" + dst, dst);
    SameClampSameFile(root, dst, dir + "/" + name);
  }

  /** `filepath.Dir` of an absolute path drops its last segment, and stays at "/". */
  lemma DirSegments(segs: seq<string>)
    requires AllPlain(segs)
    ensures DirName(Abs(segs)) == Abs(if segs == [] then [] else segs[..|segs| - 1])
  {
    var x := if |segs| <= 1 then "" else Join(segs[..|segs| - 1]) + "/";
    BeforeLast(segs);
    CleanRooted(x);
    if |segs| <= 1 {
      NormOfEmpty(true);
    } else {
      ClampJoinSlash(segs[..|segs| - 1]);
    }
  }

  lemma BeforeLast(segs: seq<string>)
    requires AllPlain(segs)
    ensures Abs(segs)[..AfterLastSlash(Abs(segs))] ==
            "/" + if |segs| <= 1 then "" else Join(segs[..|segs| - 1]) + "/"
  {
    if segs == [] {
      assert "/"[..1] == "/" == "/" + "";
    } else {
      var front, last := segs[..|segs| - 1], segs[|segs| - 1];
      assert segs == front + [last];
      JoinSnoc(front, last);
      var head := "/" + if front == [] then "" else Join(front) + "/";
      assert Abs(segs) == head + last;
      LastSlash(head, last);
    }
  }

  lemma ClampJoinSlash(segs: seq<string>)
    requires AllPlain(segs)
    ensures Clamp(Join(segs) + "/") == segs
  {
    assert Join(segs) + "/" == Join(segs) + "/" + "";
    ClampConcat(Join(segs), "");
    FoldJoin(true, [], segs);
    FoldJoin(true, segs, []);
    assert [] + segs == segs && segs + [] == segs;
  }

  lemma {:induction false} LastSlash(head: string, last: string)
    requires head != "" && head[|head| - 1] == '/' && '/' !in last
    ensures AfterLastSlash(head + last) == |head| && (head + last)[..|head|] == head
  {
    if last == "" {
      assert head + last == head;
    } else {
      assert last[|last| - 1] in last;
      var front := last[..|last| - 1];
      assert (head + last)[..|head + last| - 1] == head + front;
      LastSlash(head, front);
    }
  }
}
