/**
 The rules by which `filepath.Clean` is documented, applied to the pieces of a path one at a time, and that the stack of
 `Paths` computes what they lead to. (`resolve` cleans with it: internal/fsapi/fsapi.go.)
 */
module PathRules {
  import opened Sequences
  import opened Paths
  import opened Jail

  /** A piece that names something, in which a ".." can turn back. */
  predicate Named(e: string) {
    e != "" && e != "." && e != ".."
  }

  /**
   One application of a rule at position `i`: an empty piece or "." goes; a name and the ".." after it go; a ".." at the
   front goes if the path is rooted.
   */
  predicate Applies(rooted: bool, pieces: seq<string>, i: nat, width: nat) {
    && i + width <= |pieces|
    && match width
       case 1 => pieces[i] == "" || pieces[i] == "." || (rooted && i == 0 && pieces[i] == "..")
       case 2 => Named(pieces[i]) && pieces[i + 1] == ".."
       case _ => false
  }

  function Without(pieces: seq<string>, i: nat, width: nat): seq<string>
    requires i + width <= |pieces|
  {
    pieces[..i] + pieces[i + width..]
  }

  ghost predicate Done(rooted: bool, pieces: seq<string>) {
    forall i: nat, width: nat :: !Applies(rooted, pieces, i, width)
  }

  /** Applying rules one after the other, until none applies. */
  ghost predicate Rewriting(rooted: bool, chain: seq<seq<string>>) {
    && chain != [] && Done(rooted, chain[|chain| - 1])
    && forall n :: 0 <= n < |chain| - 1 ==> OneRule(rooted, chain[n], chain[n + 1])
  }

  ghost predicate OneRule(rooted: bool, a: seq<string>, b: seq<string>) {
    exists i: nat, width: nat :: Applies(rooted, a, i, width) && b == Without(a, i, width)
  }

  // No rule changes the outcome

  /** A name, once pushed, is taken off again by "..". */
  lemma TurnBack(rooted: bool, stack: seq<string>, e: string)
    requires Named(e)
    ensures Fold(rooted, stack, [e, ".."]) == stack
  {
    FoldConcat(rooted, stack, [e], [".."]);
    assert [e, ".."] == [e] + [".."];
    FoldOne(rooted, stack, e);
    FoldOne(rooted, stack + [e], "..");
  }

  lemma FoldOne(rooted: bool, stack: seq<string>, e: string)
    ensures Fold(rooted, stack, [e]) == Push(rooted, stack, e)
  {
    var one := [e];
    assert one[..0] == [];
  }

  lemma FoldThree(rooted: bool, a: seq<string>, b: seq<string>, c: seq<string>)
    ensures Norm(rooted, a + b + c) == Fold(rooted, Fold(rooted, Norm(rooted, a), b), c)
    ensures Norm(rooted, a + c) == Fold(rooted, Norm(rooted, a), c)
  {
    FoldConcat(rooted, [], a + b, c);
    FoldConcat(rooted, [], a, b);
    FoldConcat(rooted, [], a, c);
  }

  lemma RuleKeeps(rooted: bool, pieces: seq<string>, i: nat, width: nat)
    requires Applies(rooted, pieces, i, width)
    ensures Norm(rooted, Without(pieces, i, width)) == Norm(rooted, pieces)
  {
    var a, b, c := pieces[..i], pieces[i..i + width], pieces[i + width..];
    assert pieces == a + b + c;
    FoldThree(rooted, a, b, c);
    if width == 2 {
      assert b == [pieces[i], ".."];
      TurnBack(rooted, Norm(rooted, a), pieces[i]);
    } else {
      assert b == [pieces[i]];
      FoldOne(rooted, Norm(rooted, a), pieces[i]);
    }
  }

  // Where no rule applies

  /** No empty piece and no ".", every ".." after another, and none at all in a rooted path. */
  ghost predicate Clear(rooted: bool, pieces: seq<string>) {
    && (forall i :: 0 <= i < |pieces| ==> pieces[i] != "" && pieces[i] != ".")
    && (forall i :: 0 <= i < |pieces| - 1 && pieces[i + 1] == ".." ==> pieces[i] == "..")
    && (rooted ==> forall i :: 0 <= i < |pieces| ==> pieces[i] != "..")
  }

  lemma {:induction false} DoneIsClear(rooted: bool, pieces: seq<string>)
    ensures Done(rooted, pieces) <==> Clear(rooted, pieces)
  {
    if Done(rooted, pieces) {
      forall i | 0 <= i < |pieces|
        ensures pieces[i] != "" && pieces[i] != "."
      {
        assert !Applies(rooted, pieces, i, 1);
      }
      forall i | 0 <= i < |pieces| - 1 && pieces[i + 1] == ".."
        ensures pieces[i] == ".."
      {
        assert !Applies(rooted, pieces, i, 2);
      }
      if rooted {
        NoBack(pieces, |pieces|);
      }
    }
  }

  lemma {:induction false} NoBack(pieces: seq<string>, n: nat)
    requires n <= |pieces| && Done(true, pieces)
    requires forall i :: 0 <= i < |pieces| ==> pieces[i] != "" && pieces[i] != "."
    ensures forall i :: 0 <= i < n ==> pieces[i] != ".."
  {
    if n > 0 {
      NoBack(pieces, n - 1);
      assert !Applies(true, pieces, n - 1, 1);
      assert n > 1 ==> !Applies(true, pieces, n - 2, 2);
    }
  }

  lemma {:induction false} NormIsClear(rooted: bool, pieces: seq<string>)
    ensures Clear(rooted, Norm(rooted, pieces))
  {
    if pieces != [] {
      NormIsClear(rooted, pieces[..|pieces| - 1]);
      PushIsClear(rooted, Norm(rooted, pieces[..|pieces| - 1]), pieces[|pieces| - 1]);
    }
  }

  lemma PushIsClear(rooted: bool, stack: seq<string>, e: string)
    requires Clear(rooted, stack)
    ensures Clear(rooted, Push(rooted, stack, e))
  {
  }

  lemma {:induction false} ClearStays(rooted: bool, pieces: seq<string>)
    requires Clear(rooted, pieces)
    ensures Norm(rooted, pieces) == pieces
  {
    if pieces != [] {
      var front, e := pieces[..|pieces| - 1], pieces[|pieces| - 1];
      assert pieces == front + [e];
      PushStays(rooted, front, e);
      ClearStays(rooted, front);
    }
  }

  lemma PushStays(rooted: bool, front: seq<string>, e: string)
    requires Clear(rooted, front + [e])
    ensures Clear(rooted, front) && Push(rooted, front, e) == front + [e]
  {
    var pieces := front + [e];
    assert forall i :: 0 <= i < |front| ==> pieces[i] == front[i];
    assert pieces[|front|] == e;
    if front != [] {
      assert pieces[|front| - 1] == front[|front| - 1];
    }
  }

  // So the stack does what the rules say

  lemma {:induction false} ChainKeeps(rooted: bool, chain: seq<seq<string>>, n: nat)
    requires Rewriting(rooted, chain) && n < |chain|
    ensures Norm(rooted, chain[n]) == Norm(rooted, chain[0])
  {
    if n > 0 {
      ChainKeeps(rooted, chain, n - 1);
      assert OneRule(rooted, chain[n - 1], chain[n - 1 + 1]);
      var i: nat, width: nat :| Applies(rooted, chain[n - 1], i, width) && chain[n] == Without(chain[n - 1], i, width);
      RuleKeeps(rooted, chain[n - 1], i, width);
    }
  }

  /** Whatever the order in which the rules are applied, they end in the same list, the one the stack gives. */
  lemma RulesAgree(rooted: bool, chain: seq<seq<string>>)
    requires Rewriting(rooted, chain)
    ensures chain[|chain| - 1] == Norm(rooted, chain[0])
  {
    ChainKeeps(rooted, chain, |chain| - 1);
    DoneIsClear(rooted, chain[|chain| - 1]);
    ClearStays(rooted, chain[|chain| - 1]);
  }

  /** And they do end. */
  lemma {:induction false} RulesEnd(rooted: bool, pieces: seq<string>) returns (chain: seq<seq<string>>)
    ensures Rewriting(rooted, chain) && chain[0] == pieces
    decreases |pieces|
  {
    if i: nat, width: nat :| Applies(rooted, pieces, i, width) {
      var rest := RulesEnd(rooted, Without(pieces, i, width));
      chain := [pieces] + rest;
      assert OneRule(rooted, pieces, rest[0]);
      forall n | 0 <= n < |chain| - 1
        ensures OneRule(rooted, chain[n], chain[n + 1])
      {
        if n > 0 {
          assert OneRule(rooted, rest[n - 1], rest[n - 1 + 1]);
        }
      }
    } else {
      chain := [pieces];
    }
  }

  // What this means for the paths of the service

  /** One more piece at the end of a path. */
  lemma ClampEnd(a: string, e: string)
    requires '/' !in e
    ensures Clamp(a + "/" + e) == Push(true, Clamp(a), e)
  {
    ClampConcat(a, e);
    SplitPiece(e);
    FoldOne(true, Clamp(a), e);
  }

  /** A path that goes on the same way from the same place leads to the same place. */
  lemma ClampOn(a: string, a': string, b: string)
    requires Clamp(a) == Clamp(a')
    ensures Clamp(a + "/" + b) == Clamp(a' + "/" + b)
  {
    ClampConcat(a, b);
    ClampConcat(a', b);
  }

  /** Going into a directory and back again is staying where one is; going on by a name is going there. */
  lemma IntoAndBack(a: string, e: string, b: string)
    requires Plain(e)
    ensures Clamp(a + "/" + e) == Clamp(a) + [e]
    ensures Clamp(a + "/" + e + "/..") == Clamp(a)
    ensures Clamp(a + "/" + e + "/.." + "/" + b) == Clamp(a + "/" + b)
  {
    var into := a + "/" + e;
    ClampEnd(a, e);
    ClampEnd(into, "..");
    assert into + "/" + ".." == into + "/..";
    ClampOn(into + "/..", a, b);
  }

  /** At the root there is no way back, and "." and doubled slashes are nothing. */
  lemma NothingAbove(a: string, b: string)
    ensures Clamp(".." + "/" + b) == Clamp(b)
    ensures Clamp(a + "/." + "/" + b) == Clamp(a + "/" + "" + "/" + b) == Clamp(a + "/" + b)
  {
    SplitPiece("..");
    FoldOne(true, [], "..");
    ClampSlash(b);
    NormOfEmpty(true);
    assert "" + "/" + b == "/" + b;
    ClampOn("..", "", b);
    ClampEnd(a, ".");
    ClampEnd(a, "");
    assert a + "/" + "." == a + "/.";
    ClampOn(a + "/.", a, b);
    ClampOn(a + "/" + "", a, b);
  }
}
