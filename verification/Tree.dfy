/**
 A file tree without links, and the system calls the service makes on it. A node's key is its absolute path as a list of
 segments, the root of the tree being the empty list.
 */
module Tree {
  import opened Sequences
  import opened Paths

  datatype Node = Dir | File(content: Bytes)

  type Path = seq<string>

  type Nodes = map<Path, Node>

  datatype Errno = NotExist | NotDir | IsDir | Exist | Invalid | Busy

  /** A tree after a call, and the call's error if it failed. */
  datatype Called = Called(nodes: Nodes, error: Option<Errno>)

  function Parent(p: Path): Path {
    if p == [] then [] else p[..|p| - 1]
  }

  /** `filepath.Base` of the node's path. */
  function BaseName(p: Path): string {
    if p == [] then "/" else p[|p| - 1]
  }

  predicate IsDirAt(t: Nodes, p: Path) {
    p in t && t[p] == Dir
  }

  /** A node's names are plain and it hangs in a directory. */
  ghost predicate Hangs(t: Nodes, p: Path) {
    p in t ==> AllPlain(p) && IsDirAt(t, Parent(p))
  }

  ghost predicate WellFormed(t: Nodes) {
    IsDirAt(t, []) && forall p :: Hangs(t, p)
  }

  /** `os.MkdirAll`: makes the path and all that is missing above it. */
  function MkdirAll(t: Nodes, p: Path): Called {
    if p in t then Called(t, if t[p] == Dir then None else Some(NotDir))
    else if p == [] then Called(t, Some(NotExist))
    else
      var above := MkdirAll(t, Parent(p));
      if above.error.Some? then above else Called(above.nodes[p := Dir], None)
  }

  /** `os.WriteFile`, and `os.Create` when there is nothing to write: the parent must be there. */
  function WriteFile(t: Nodes, p: Path, content: Bytes): Called {
    if IsDirAt(t, p) then Called(t, Some(IsDir))
    else if p !in t && !IsDirAt(t, Parent(p)) then Called(t, Some(NotExist))
    else Called(t[p := File(content)], None)
  }

  function ReadFile(t: Nodes, p: Path): Option<Bytes> {
    if p in t && t[p].File? then Some(t[p].content) else None
  }

  /** `os.RemoveAll`: the node and everything below it; nothing there is no error. */
  function RemoveAll(t: Nodes, p: Path): Called {
    if p == [] then Called(t, Some(Busy))
    else if FileAbove(t, p) then Called(t, Some(NotDir))
    else Called(map q | q in t && !(p <= q) :: t[q], None)
  }

  predicate FileAbove(t: Nodes, p: Path) {
    exists n :: 0 <= n < |p| && p[..n] in t && t[p[..n]].File?
  }

  /**
   `os.Rename`: an existing directory as the destination is refused, even the source itself; otherwise it is rename() of
   the System Interfaces volume of POSIX.1-2017.
   */
  function Rename(t: Nodes, src: Path, dst: Path): Called {
    if src !in t then Called(t, Some(NotExist))
    else if IsDirAt(t, dst) then Called(t, Some(Exist))
    else if !IsDirAt(t, Parent(dst)) then Called(t, Some(NotDir))
    else if src == dst then Called(t, None)
    else if src <= dst then Called(t, Some(Invalid))
    else if t[src] == Dir && dst in t then Called(t, Some(NotDir))
    else Called(Moved(t, src, dst), None)
  }

  /** Everything under `src` now hangs under `dst`, in place of what was at `dst`. */
  function Moved(t: Nodes, src: Path, dst: Path): Nodes {
    (map q | q in t && !(src <= q) && q != dst :: t[q]) + Hung(t, src, dst)
  }

  /** The nodes at or under `src`, renamed to hang under `dst`. */
  function Hung(t: Nodes, src: Path, dst: Path): Nodes {
    var moved := set r | r in t && src <= r :: dst + r[|src|..];
    map q | q in moved && dst <= q && Back(src, dst, q) in t :: t[Back(src, dst, q)]
  }

  /** Where a node at or under `dst` was before the move. */
  function Back(src: Path, dst: Path, q: Path): Path
    requires dst <= q
  {
    src + q[|dst|..]
  }

  // What the calls keep

  lemma {:induction false} AncestorsExist(t: Nodes, p: Path, q: Path)
    requires WellFormed(t) && p in t && q <= p
    ensures q in t && (q != p ==> t[q] == Dir)
    decreases |p|
  {
    if q != p {
      assert Hangs(t, p) && q <= Parent(p);
      AncestorsExist(t, Parent(p), q);
    }
  }

  /** `t'` is `t` with some nodes added, all directories on the way to `p`. */
  ghost predicate OnlyDirsAbove(t: Nodes, t': Nodes, p: Path) {
    && (forall q :: q in t ==> q in t' && t'[q] == t[q])
    && (forall q :: q in t' && q !in t ==> q <= p && t'[q] == Dir)
  }

  lemma FileAboveParent(t: Nodes, p: Path)
    requires p != []
    ensures FileAbove(t, p) <==> FileAbove(t, Parent(p)) || (Parent(p) in t && t[Parent(p)].File?)
  {
    var up := Parent(p);
    if FileAbove(t, p) {
      var n :| 0 <= n < |p| && p[..n] in t && t[p[..n]].File?;
      if n < |up| { assert up[..n] == p[..n]; }
    }
    if FileAbove(t, up) {
      var n :| 0 <= n < |up| && up[..n] in t && t[up[..n]].File?;
      assert p[..n] == up[..n];
    }
    if up in t && t[up].File? {
      assert p[..|up|] == up;
    }
  }

  lemma NoFileAbove(t: Nodes, p: Path)
    requires WellFormed(t) && p in t
    ensures !FileAbove(t, p)
  {
    if FileAbove(t, p) {
      var n :| 0 <= n < |p| && p[..n] in t && t[p[..n]].File?;
      AncestorsExist(t, p, p[..n]);
    }
  }

  /** Adding a directory or file where nothing is, in a directory, keeps the tree a tree. */
  lemma PutKeeps(t: Nodes, p: Path, node: Node)
    requires WellFormed(t) && AllPlain(p) && IsDirAt(t, Parent(p)) && p != []
    requires node == Dir || !IsDirAt(t, p)
    ensures WellFormed(t[p := node])
  {
    var t' := t[p := node];
    forall q
      ensures Hangs(t', q)
    {
      assert Hangs(t, q);
    }
  }

  /** `MkdirAll` fails just when a file is in the way, and otherwise adds the missing directories and nothing else. */
  lemma {:induction false} MkdirAllKeeps(t: Nodes, p: Path)
    requires WellFormed(t) && AllPlain(p)
    ensures var c := MkdirAll(t, p);
            && WellFormed(c.nodes) && OnlyDirsAbove(t, c.nodes, p)
            && (c.error == None ==> IsDirAt(c.nodes, p))
            && (c.error.Some? ==> c.nodes == t)
    ensures MkdirAll(t, p).error.Some? <==> (p in t && t[p].File?) || FileAbove(t, p)
    decreases |p|
  {
    if p in t {
      NoFileAbove(t, p);
    } else {
      MkdirAllKeeps(t, Parent(p));
      FileAboveParent(t, p);
      var above := MkdirAll(t, Parent(p));
      if above.error == None {
        PutKeeps(above.nodes, p, Dir);
      }
    }
  }

  lemma WriteFileKeeps(t: Nodes, p: Path, content: Bytes)
    requires WellFormed(t) && AllPlain(p)
    ensures WellFormed(WriteFile(t, p, content).nodes)
  {
    if WriteFile(t, p, content).error == None {
      assert Hangs(t, p);
      PutKeeps(t, p, File(content));
    }
  }

  lemma RemoveAllKeeps(t: Nodes, p: Path)
    requires WellFormed(t)
    ensures WellFormed(RemoveAll(t, p).nodes)
  {
    var c := RemoveAll(t, p);
    if c.error == None {
      forall q
        ensures Hangs(c.nodes, q)
      {
        assert Hangs(t, q);
        assert p <= Parent(q) ==> p <= q;
      }
    }
  }

  lemma HungAt(t: Nodes, src: Path, dst: Path, q: Path)
    ensures q in Hung(t, src, dst) <==> dst <= q && Back(src, dst, q) in t
    ensures q in Hung(t, src, dst) ==> Hung(t, src, dst)[q] == t[Back(src, dst, q)]
  {
    if dst <= q && Back(src, dst, q) in t {
      var r := Back(src, dst, q);
      assert r[|src|..] == q[|dst|..] && dst + r[|src|..] == q;
    }
  }

  /** Node by node, what a rename that goes through leaves. */
  lemma MovedAt(t: Nodes, src: Path, dst: Path, q: Path)
    requires WellFormed(t) && Rename(t, src, dst).error == None && src != dst
    ensures var t' := Rename(t, src, dst).nodes;
            if dst <= q then
              && (q in t' <==> Back(src, dst, q) in t)
              && (q in t' ==> t'[q] == t[Back(src, dst, q)])
            else if src <= q then q !in t'
            else (q in t' <==> q in t) && (q in t ==> t'[q] == t[q])
  {
    HungAt(t, src, dst, q);
    if dst < q && q in t && !(src <= q) {
      AncestorsExist(t, q, dst);
    }
  }

  lemma RenameEnds(t: Nodes, src: Path, dst: Path)
    requires WellFormed(t) && Rename(t, src, dst).error == None && src != dst
    ensures src != [] && dst != [] && IsDirAt(t, Parent(dst)) && !(src <= Parent(dst))
    ensures IsDirAt(Rename(t, src, dst).nodes, [])
  {
    assert src <= Parent(dst) ==> src <= dst;
    MovedAt(t, src, dst, []);
  }

  lemma RenameKeeps(t: Nodes, src: Path, dst: Path)
    requires WellFormed(t) && AllPlain(dst)
    ensures WellFormed(Rename(t, src, dst).nodes)
  {
    var c := Rename(t, src, dst);
    if c.error == None && src != dst {
      RenameEnds(t, src, dst);
      forall q
        ensures Hangs(c.nodes, q)
      {
        if q in c.nodes && q != [] {
          if dst <= q { HangsMoved(t, src, dst, q); } else { HangsStill(t, src, dst, q); }
        }
      }
    }
  }

  lemma HangsMoved(t: Nodes, src: Path, dst: Path, q: Path)
    requires WellFormed(t) && AllPlain(dst) && Rename(t, src, dst).error == None && src != dst
    requires dst <= q && q in Rename(t, src, dst).nodes
    ensures Hangs(Rename(t, src, dst).nodes, q)
  {
    var r := Back(src, dst, q);
    MovedAt(t, src, dst, q);
    MovedAt(t, src, dst, Parent(q));
    RenameEnds(t, src, dst);
    assert Hangs(t, r);
    assert forall i :: |dst| <= i < |q| ==> q[i] == r[|src| + i - |dst|];
    if q != dst {
      assert dst <= Parent(q) && Back(src, dst, Parent(q)) == Parent(r);
    }
  }

  lemma HangsStill(t: Nodes, src: Path, dst: Path, q: Path)
    requires WellFormed(t) && Rename(t, src, dst).error == None && src != dst
    requires !(dst <= q) && q in Rename(t, src, dst).nodes
    ensures Hangs(Rename(t, src, dst).nodes, q)
  {
    MovedAt(t, src, dst, q);
    MovedAt(t, src, dst, Parent(q));
    assert Hangs(t, q);
    assert (dst <= Parent(q) ==> dst <= q) && (src <= Parent(q) ==> src <= q);
  }
}
