/** The jailed file service over a tree (internal/fsapi/fsapi.go, internal/fsapi/ops.go, internal/fsapi/patch.go). */
module FileService {
  import opened Sequences
  import opened Paths
  import opened Jail
  import opened Tree
  import opened Substrings
  import Patch

  datatype Error = ErrEscape | ErrRoot | ErrPatchNoMatch | ErrPatchAmbiguous | Os(errno: Errno)

  datatype Op =
    | Write(rel: string, data: Bytes)
    | Mkdir(rel: string)
    | Delete(rel: string)
    | Move(src: string, dst: string)
    | Copy(src: string, dst: string)
    | Edit(rel: string, oldText: Bytes, newText: Bytes)

  /** The tree after an operation, and the error it returned, if any. */
  datatype Applied = Applied(nodes: Nodes, error: Option<Error>)

  function FromCall(c: Called): Applied {
    Applied(c.nodes, match c.error case Some(e) => Some(Os(e)) case None => None)
  }

  /** What a resolved path names: its node, the node of its directory, and whether it is the root. */
  datatype Place = Place(node: Path, up: Path, atRoot: bool)

  /** The node of an absolute path is found by its segments. */
  function Locate(root: string, rel: string): Option<Place> {
    match Resolve(root, rel)
    case Escape => None
    case Inside(abs) => Some(Place(Clamp(abs), Clamp(DirName(abs)), abs == root))
  }

  // The operations on nodes: `up` is the node of the path's directory

  function WriteNode(t: Nodes, up: Path, p: Path, data: Bytes): Applied {
    var made := MkdirAll(t, up);
    if made.error.Some? then FromCall(made) else FromCall(WriteFile(made.nodes, p, data))
  }

  function MoveNode(t: Nodes, src: Path, up: Path, dst: Path): Applied {
    var made := MkdirAll(t, up);
    if made.error.Some? then FromCall(made) else FromCall(Rename(made.nodes, src, dst))
  }

  /** The destination is created empty before anything is read; a directory opens, but does not read. */
  function CopyNode(t: Nodes, src: Path, up: Path, dst: Path): Applied {
    if src !in t then Applied(t, Some(Os(NotExist)))
    else
      var made := MkdirAll(t, up);
      if made.error.Some? then FromCall(made)
      else
        var created := WriteFile(made.nodes, dst, []);
        if created.error.Some? then FromCall(created)
        else match ReadFile(created.nodes, src)
          case None => Applied(created.nodes, Some(Os(IsDir)))
          case Some(content) => FromCall(WriteFile(created.nodes, dst, content))
  }

  function EditNode(t: Nodes, p: Path, oldText: Bytes, newText: Bytes): Applied {
    if p !in t then Applied(t, Some(Os(NotExist)))
    else match ReadFile(t, p)
      case None => Applied(t, Some(Os(IsDir)))
      case Some(content) =>
        match Patch.Edit(content, oldText, newText)
        case NoMatch => Applied(t, Some(ErrPatchNoMatch))
        case Ambiguous => Applied(t, Some(ErrPatchAmbiguous))
        case Edited(updated) => FromCall(WriteFile(t, p, updated))
  }

  /** An operation whose paths have been resolved, or have not. */
  datatype NodeOp =
    | WriteTo(at: Place, data: Bytes)
    | MkdirTo(at: Place)
    | DeleteAt(at: Place)
    | MoveTo(from: Place, to: Place)
    | CopyTo(from: Place, to: Place)
    | EditTo(at: Place, oldText: Bytes, newText: Bytes)
    | Escaped

  function OnTwo(from: Option<Place>, to: Option<Place>, op: (Place, Place) -> NodeOp): NodeOp {
    if from == None || to == None then Escaped else op(from.value, to.value)
  }

  function OnOne(at: Option<Place>, op: Place -> NodeOp): NodeOp {
    if at == None then Escaped else op(at.value)
  }

  function Prepare(root: string, op: Op): NodeOp {
    match op
    case Write(rel, data) => OnOne(Locate(root, rel), at => WriteTo(at, data))
    case Mkdir(rel) => OnOne(Locate(root, rel), at => MkdirTo(at))
    case Delete(rel) => OnOne(Locate(root, rel), at => DeleteAt(at))
    case Move(src, dst) => OnTwo(Locate(root, src), Locate(root, dst), (from, to) => MoveTo(from, to))
    case Copy(src, dst) => OnTwo(Locate(root, src), Locate(root, dst), (from, to) => CopyTo(from, to))
    case Edit(rel, oldText, newText) => OnOne(Locate(root, rel), at => EditTo(at, oldText, newText))
  }

  /** The operation itself. An edit without old text is a write, which resolves the same path once more. */
  function Perform(t: Nodes, op: NodeOp): Applied {
    match op
    case WriteTo(at, data) => WriteNode(t, at.up, at.node, data)
    case MkdirTo(at) => FromCall(MkdirAll(t, at.node))
    case DeleteAt(at) => if at.atRoot then Applied(t, Some(ErrRoot)) else FromCall(RemoveAll(t, at.node))
    case MoveTo(from, to) => MoveNode(t, from.node, to.up, to.node)
    case CopyTo(from, to) => CopyNode(t, from.node, to.up, to.node)
    case EditTo(at, oldText, newText) =>
      if oldText == [] then WriteNode(t, at.up, at.node, newText) else EditNode(t, at.node, oldText, newText)
    case Escaped => Applied(t, Some(ErrEscape))
  }

  function Apply(root: string, t: Nodes, op: Op): Applied {
    Perform(t, Prepare(root, op))
  }

  // Safety over runs

  /** The jail at node `jail` is in order: a tree, and a directory in it. */
  ghost predicate Jailed(jail: Path, t: Nodes) {
    WellFormed(t) && IsDirAt(t, jail)
  }

  ghost predicate SameAt(t: Nodes, t': Nodes, p: Path) {
    (p in t' <==> p in t) && (p in t ==> t'[p] == t[p])
  }

  /** From `t` to `t'`: the jail stays in order and no node outside it appears, disappears or changes. */
  ghost predicate Safe(jail: Path, t: Nodes, t': Nodes) {
    Jailed(jail, t') && forall p :: !(jail <= p) ==> SameAt(t, t', p)
  }

  lemma SafeThenSafe(jail: Path, a: Nodes, b: Nodes, c: Nodes)
    requires Safe(jail, a, b) && Safe(jail, b, c)
    ensures Safe(jail, a, c)
  {
    forall p | !(jail <= p)
      ensures SameAt(a, c, p)
    {
      assert SameAt(a, b, p) && SameAt(b, c, p);
    }
  }

  /** A node the operations may name: at or below the jail's, with plain names. */
  ghost predicate Allowed(jail: Path, p: Path) {
    AllPlain(p) && jail <= p
  }

  /** The place of a node: its directory is its parent. */
  ghost predicate Proper(jail: Path, at: Place) {
    Allowed(jail, at.node) && at.up == Parent(at.node) && (at.atRoot <==> at.node == jail)
  }

  /** The node a relative path stands for. */
  function NodeOf(root: string, rel: string): Path {
    Clamp(root) + Clamp(rel)
  }

  /**
   What a path resolves to: a node at or below the root's, whose directory is its parent. Every path resolves, unless
   the root is "/" and the path is not.
   */
  lemma Located(root: string, rel: string)
    requires CleanRoot(root)
    ensures Locate(root, rel) == None <==> root == "/" && Clamp(rel) != []
    ensures Locate(root, rel).Some? ==>
              Proper(Clamp(root), Locate(root, rel).value) && Locate(root, rel).value.node == NodeOf(root, rel)
  {
    RootSegments(root);
    ClampIsPlain(rel);
    if root == "/" {
      RootSlashRefusesAll(rel);
      if Clamp(rel) == [] {
        assert NodeOf(root, rel) == [] && Abs([]) == "/";
        PlaceOf(root, rel, []);
      }
    } else {
      ResolveConfines(root, rel);
      PlaceOf(root, rel, NodeOf(root, rel));
    }
  }

  lemma PlaceOf(root: string, rel: string, segs: Path)
    requires CleanRoot(root) && AllPlain(segs) && Clamp(root) <= segs && Resolve(root, rel) == Inside(Abs(segs))
    ensures Locate(root, rel).Some?
    ensures Proper(Clamp(root), Locate(root, rel).value) && Locate(root, rel).value.node == segs
  {
    RootSegments(root);
    ClampAbs(segs);
    DirSegments(segs);
    ClampAbs(Parent(segs));
  }

  ghost predicate ProperOp(jail: Path, op: NodeOp) {
    match op
    case MoveTo(from, to) => Proper(jail, from) && Proper(jail, to)
    case CopyTo(from, to) => Proper(jail, from) && Proper(jail, to)
    case Escaped => true
    case _ => Proper(jail, op.at)
  }

  lemma Prepared(root: string, op: Op)
    requires CleanRoot(root)
    ensures ProperOp(Clamp(root), Prepare(root, op))
  {
    match op
    case Move(src, dst) => Located(root, src); Located(root, dst);
    case Copy(src, dst) => Located(root, src); Located(root, dst);
    case _ => Located(root, op.rel);
  }

  lemma MkdirSafe(jail: Path, t: Nodes, p: Path)
    requires Jailed(jail, t) && AllPlain(p) && (jail <= p || p == Parent(jail))
    ensures Safe(jail, t, MkdirAll(t, p).nodes)
  {
    MkdirAllKeeps(t, p);
    var t' := MkdirAll(t, p).nodes;
    forall q | !(jail <= q)
      ensures SameAt(t, t', q)
    {
      if q in t' && q !in t {
        assert q <= p;
        assert q <= jail;
        AncestorsExist(t, jail, q);
      }
    }
  }

  /** The directory of an allowed node is one that `MkdirSafe` covers: even the parent of the root, which exists. */
  lemma MkdirParentSafe(jail: Path, t: Nodes, p: Path)
    requires Jailed(jail, t) && Allowed(jail, p)
    ensures Safe(jail, t, MkdirAll(t, Parent(p)).nodes)
  {
    MkdirSafe(jail, t, Parent(p));
  }

  lemma WriteFileSafe(jail: Path, t: Nodes, p: Path, content: Bytes)
    requires Jailed(jail, t) && Allowed(jail, p)
    ensures Safe(jail, t, WriteFile(t, p, content).nodes)
  {
    WriteFileKeeps(t, p, content);
    var t' := WriteFile(t, p, content).nodes;
    assert forall q :: !(jail <= q) ==> SameAt(t, t', q);
  }

  lemma RemoveAllSafe(jail: Path, t: Nodes, p: Path)
    requires Jailed(jail, t) && Allowed(jail, p) && p != jail
    ensures Safe(jail, t, RemoveAll(t, p).nodes)
  {
    RemoveAllKeeps(t, p);
    var t' := RemoveAll(t, p).nodes;
    forall q | !(jail <= q)
      ensures SameAt(t, t', q)
    {
      assert p <= q ==> jail <= q;
    }
  }

  /** A rename inside the jail: the root itself can be neither moved nor replaced, for it is an ancestor of the rest. */
  lemma RenameSafe(jail: Path, t: Nodes, src: Path, dst: Path)
    requires Jailed(jail, t) && Allowed(jail, src) && Allowed(jail, dst)
    ensures Safe(jail, t, Rename(t, src, dst).nodes)
  {
    RenameKeeps(t, src, dst);
    var t' := Rename(t, src, dst).nodes;
    if Rename(t, src, dst).error == None && src != dst {
      assert dst <= jail ==> dst == jail;
      assert src <= jail ==> src == jail <= dst;
      assert !(dst <= jail) && !(src <= jail);
      forall q | !(jail <= q)
        ensures SameAt(t, t', q)
      {
        MovedAt(t, src, dst, q);
        assert (src <= q ==> jail <= q) && (dst <= q ==> jail <= q);
      }
      MovedAt(t, src, dst, jail);
    } else {
      assert forall q :: SameAt(t, t', q);
    }
  }

  lemma WriteNodeSafe(jail: Path, t: Nodes, p: Path, data: Bytes)
    requires Jailed(jail, t) && Allowed(jail, p)
    ensures Safe(jail, t, WriteNode(t, Parent(p), p, data).nodes)
  {
    MkdirParentSafe(jail, t, p);
    var made := MkdirAll(t, Parent(p));
    WriteFileSafe(jail, made.nodes, p, data);
    SafeThenSafe(jail, t, made.nodes, WriteFile(made.nodes, p, data).nodes);
  }

  lemma MoveNodeSafe(jail: Path, t: Nodes, src: Path, dst: Path)
    requires Jailed(jail, t) && Allowed(jail, src) && Allowed(jail, dst)
    ensures Safe(jail, t, MoveNode(t, src, Parent(dst), dst).nodes)
  {
    MkdirParentSafe(jail, t, dst);
    var made := MkdirAll(t, Parent(dst));
    RenameSafe(jail, made.nodes, src, dst);
    SafeThenSafe(jail, t, made.nodes, Rename(made.nodes, src, dst).nodes);
  }

  lemma SafeHere(jail: Path, t: Nodes)
    requires Jailed(jail, t)
    ensures Safe(jail, t, t)
  {
    assert forall q :: SameAt(t, t, q);
  }

  lemma CopyNodeSafe(jail: Path, t: Nodes, src: Path, dst: Path)
    requires Jailed(jail, t) && Allowed(jail, dst)
    ensures Safe(jail, t, CopyNode(t, src, Parent(dst), dst).nodes)
  {
    SafeHere(jail, t);
    MkdirParentSafe(jail, t, dst);
    var made := MkdirAll(t, Parent(dst));
    var created := WriteFile(made.nodes, dst, []);
    WriteFileSafe(jail, made.nodes, dst, []);
    SafeThenSafe(jail, t, made.nodes, created.nodes);
    if ReadFile(created.nodes, src).Some? && created.error == None {
      var content := ReadFile(created.nodes, src).value;
      WriteFileSafe(jail, created.nodes, dst, content);
      SafeThenSafe(jail, t, created.nodes, WriteFile(created.nodes, dst, content).nodes);
    }
  }

  lemma EditNodeSafe(jail: Path, t: Nodes, p: Path, oldText: Bytes, newText: Bytes)
    requires Jailed(jail, t) && Allowed(jail, p)
    ensures Safe(jail, t, EditNode(t, p, oldText, newText).nodes)
  {
    SafeHere(jail, t);
    if ReadFile(t, p).Some? && Patch.Edit(ReadFile(t, p).value, oldText, newText).Edited? {
      WriteFileSafe(jail, t, p, Patch.Edit(ReadFile(t, p).value, oldText, newText).text);
    }
  }

  /** One operation, whatever its paths resolved to. */
  lemma PerformSafe(jail: Path, t: Nodes, op: NodeOp)
    requires Jailed(jail, t) && ProperOp(jail, op)
    ensures Safe(jail, t, Perform(t, op).nodes)
  {
    SafeHere(jail, t);
    match op
    case WriteTo(at, data) => WriteNodeSafe(jail, t, at.node, data);
    case MkdirTo(at) => MkdirSafe(jail, t, at.node);
    case DeleteAt(at) => if !at.atRoot { RemoveAllSafe(jail, t, at.node); }
    case MoveTo(from, to) => MoveNodeSafe(jail, t, from.node, to.node);
    case CopyTo(from, to) => CopyNodeSafe(jail, t, from.node, to.node);
    case EditTo(at, oldText, newText) =>
      WriteNodeSafe(jail, t, at.node, newText);
      EditNodeSafe(jail, t, at.node, oldText, newText);
    case Escaped =>
  }

  function ApplyAll(root: string, t: Nodes, ops: seq<Op>): Nodes {
    if ops == [] then t else Apply(root, ApplyAll(root, t, ops[..|ops| - 1]), ops[|ops| - 1]).nodes
  }

  /**
   The jail holds over every sequence of operations with any arguments, failing ones included: every node outside the
   root is as it was, and the root is still a directory.
   */
  lemma {:induction false} JailHolds(root: string, t: Nodes, ops: seq<Op>)
    requires CleanRoot(root) && Jailed(Clamp(root), t)
    ensures Safe(Clamp(root), t, ApplyAll(root, t, ops))
  {
    if ops == [] {
      SafeHere(Clamp(root), t);
    } else {
      var before := ops[..|ops| - 1];
      JailHolds(root, t, before);
      Prepared(root, ops[|ops| - 1]);
      PerformSafe(Clamp(root), ApplyAll(root, t, before), Prepare(root, ops[|ops| - 1]));
      SafeThenSafe(Clamp(root), t, ApplyAll(root, t, before), ApplyAll(root, t, ops));
    }
  }

  // What each operation does

  /** `t'` has the same nodes as `t`, and the same at each, except at `p` and for new directories above it. */
  ghost predicate OnlyChangedAt(t: Nodes, t': Nodes, p: Path) {
    && (forall q :: q in t && q != p ==> q in t' && t'[q] == t[q])
    && (forall q :: q in t' && q !in t && q != p ==> q < p && t'[q] == Dir)
  }

  /**
   Write succeeds exactly when no file is in the way and no directory is there - so never on the root itself, where it
   changes nothing - and then reading gives the data back and no other node has changed.
   */
  lemma WriteOutcome(jail: Path, t: Nodes, at: Place, data: Bytes)
    requires Jailed(jail, t) && Proper(jail, at)
    ensures var p, done := at.node, Perform(t, WriteTo(at, data));
            && (done.error == None <==> !FileAbove(t, p) && !IsDirAt(t, p))
            && (done.error == None ==> ReadFile(done.nodes, p) == Some(data) && OnlyChangedAt(t, done.nodes, p))
            && (at.atRoot ==> done == Applied(t, Some(Os(Errno.IsDir))))
  {
    WriteNodeOutcome(t, at.node, data);
    if at.atRoot && jail != [] {
      AncestorsExist(t, jail, Parent(jail));
    }
  }

  lemma WriteNodeOutcome(t: Nodes, p: Path, data: Bytes)
    requires WellFormed(t) && AllPlain(p)
    ensures var done := WriteNode(t, Parent(p), p, data);
            && (done.error == None <==> !FileAbove(t, p) && !IsDirAt(t, p))
            && (done.error == None ==> ReadFile(done.nodes, p) == Some(data) && OnlyChangedAt(t, done.nodes, p))
  {
    MkdirAllKeeps(t, Parent(p));
    if p != [] {
      FileAboveParent(t, p);
      var made := MkdirAll(t, Parent(p));
      assert IsDirAt(made.nodes, p) <==> IsDirAt(t, p) by {
        assert !(p <= Parent(p));
      }
    }
  }

  /** A write that fails has changed nothing. */
  lemma WriteFailure(jail: Path, t: Nodes, at: Place, data: Bytes)
    requires Jailed(jail, t) && Proper(jail, at) && Perform(t, WriteTo(at, data)).error.Some?
    ensures Perform(t, WriteTo(at, data)).nodes == t
  {
    MkdirAllKeeps(t, Parent(at.node));
    if at.node != [] {
      FileAboveParent(t, at.node);
      assert !(at.node <= Parent(at.node));
      if IsDirAt(t, at.node) { AncestorsExist(t, at.node, Parent(at.node)); }
    }
  }

  /** Mkdir succeeds exactly if no file is there or in the way, and then the directory is there, and all above it. */
  lemma MkdirOutcome(jail: Path, t: Nodes, at: Place)
    requires Jailed(jail, t) && Proper(jail, at)
    ensures var p, done := at.node, Perform(t, MkdirTo(at));
            && (done.error == None <==> !FileAbove(t, p) && !(p in t && t[p].File?))
            && (done.error == None ==> IsDirAt(done.nodes, p) && OnlyDirsAbove(t, done.nodes, p))
            && (done.error.Some? ==> done.nodes == t)
  {
    MkdirAllKeeps(t, at.node);
  }

  /** What a write stored is read back under every path that clamps to the same segments. */
  lemma WriteReadsBack(root: string, t: Nodes, rel: string, again: string, at: Place, data: Bytes)
    requires CleanRoot(root) && Jailed(Clamp(root), t) && Clamp(again) == Clamp(rel)
    requires Locate(root, rel) == Some(at) && Perform(t, WriteTo(at, data)).error == None
    ensures Locate(root, again) == Some(at)
    ensures ReadFile(Perform(t, WriteTo(at, data)).nodes, at.node) == Some(data)
  {
    SamePlace(root, rel, again);
    PlaceIsProper(root, rel, at);
    WriteOutcome(Clamp(root), t, at, data);
  }

  lemma SamePlace(root: string, a: string, b: string)
    requires CleanRoot(root) && Clamp(a) == Clamp(b)
    ensures Locate(root, a) == Locate(root, b)
  {
    SameClampSameFile(root, a, b);
  }

  lemma PlaceIsProper(root: string, rel: string, at: Place)
    requires CleanRoot(root) && Locate(root, rel) == Some(at)
    ensures Proper(Clamp(root), at)
  {
    Located(root, rel);
  }

  /** Delete refuses the root; otherwise, unless a file is in the way, all at or below the node goes, and no more. */
  lemma DeleteOutcome(jail: Path, t: Nodes, at: Place)
    requires Jailed(jail, t) && Proper(jail, at)
    ensures var p, done := at.node, Perform(t, DeleteAt(at));
            && (done.error == None <==> !at.atRoot && !FileAbove(t, p))
            && (done.error.Some? ==> done.nodes == t)
            && (done.error == None ==> forall q :: if p <= q then q !in done.nodes else SameAt(t, done.nodes, q))
  {
  }

  /** A move that succeeds takes the whole subtree along, and touches nothing else but missing directories. */
  lemma MoveOutcome(jail: Path, t: Nodes, from: Place, to: Place, t': Nodes, s: Path)
    requires Jailed(jail, t) && Proper(jail, from) && Proper(jail, to) && from.node != to.node
    requires Perform(t, MoveTo(from, to)) == Applied(t', None)
    ensures from.node in t
    ensures (to.node + s in t' <==> from.node + s in t) && (from.node + s in t ==> t'[to.node + s] == t[from.node + s])
    ensures !(to.node <= from.node + s) ==> from.node + s !in t'
    ensures !(from.node <= s) && !(to.node <= s) ==>
              SameAt(t, t', s) || (s !in t && s in t' && s < to.node && t'[s] == Dir)
  {
    MoveNodeOutcome(t, from.node, to.node, s);
  }

  /**
   When a move succeeds: the source exists, the destination is not below it, no file is in the way, and the destination
   is free, or both are files. So a directory never replaces anything, and cannot be moved onto itself.
   */
  lemma MoveSucceeds(jail: Path, t: Nodes, from: Place, to: Place)
    requires Jailed(jail, t) && Proper(jail, from) && Proper(jail, to)
    ensures Perform(t, MoveTo(from, to)).error == None <==>
              && from.node in t && !FileAbove(t, to.node) && !(from.node < to.node)
              && (to.node !in t || (t[from.node].File? && t[to.node].File?))
  {
    MoveNodeSucceeds(t, from.node, to.node);
  }

  lemma MoveNodeSucceeds(t: Nodes, src: Path, dst: Path)
    requires WellFormed(t) && AllPlain(dst)
    ensures MoveNode(t, src, Parent(dst), dst).error == None <==>
              && src in t && !FileAbove(t, dst) && !(src < dst)
              && (dst !in t || (t[src].File? && t[dst].File?))
  {
    MkdirAllKeeps(t, Parent(dst));
    var made := MkdirAll(t, Parent(dst));
    if dst != [] {
      FileAboveParent(t, dst);
      assert !(dst <= Parent(dst));
    }
    if made.error == None {
      assert SameAt(t, made.nodes, dst);
      assert src <= Parent(dst) ==> src <= dst;
      assert src in t ==> made.nodes[src] == t[src];
      assert src in made.nodes && src !in t ==> src <= Parent(dst);
    }
  }

  /** Moving a file onto itself succeeds and changes nothing. */
  lemma MoveToItself(jail: Path, t: Nodes, from: Place, to: Place)
    requires Jailed(jail, t) && Proper(jail, from) && Proper(jail, to) && from.node == to.node
    ensures Perform(t, MoveTo(from, to)).error == None <==> ReadFile(t, from.node).Some?
    ensures Perform(t, MoveTo(from, to)).error == None ==> Perform(t, MoveTo(from, to)).nodes == t
  {
    MoveSucceeds(jail, t, from, to);
    if from.node in t {
      NoFileAbove(t, from.node);
      AncestorsExist(t, from.node, Parent(from.node));
    }
  }

  /** A move that fails moves nothing: at most the directories above the destination have been made. */
  lemma MoveFailure(jail: Path, t: Nodes, from: Place, to: Place)
    requires Jailed(jail, t) && Proper(jail, from) && Proper(jail, to)
    requires Perform(t, MoveTo(from, to)).error.Some?
    ensures var t' := Perform(t, MoveTo(from, to)).nodes;
            if FileAbove(t, to.node) then t' == t
            else OnlyDirsAbove(t, t', Parent(to.node)) && IsDirAt(t', Parent(to.node))
  {
    MkdirAllKeeps(t, Parent(to.node));
    if to.node != [] {
      FileAboveParent(t, to.node);
    }
  }

  lemma MoveNodeOutcome(t: Nodes, src: Path, dst: Path, s: Path)
    requires WellFormed(t) && AllPlain(dst) && src != dst
    requires MoveNode(t, src, Parent(dst), dst).error == None
    ensures var t' := MoveNode(t, src, Parent(dst), dst).nodes;
            && src in t
            && (dst + s in t' <==> src + s in t) && (src + s in t ==> t'[dst + s] == t[src + s])
            && (!(dst <= src + s) ==> src + s !in t')
            && (!(src <= s) && !(dst <= s) ==>
                  SameAt(t, t', s) || (s !in t && s in t' && s < dst && t'[s] == Dir))
  {
    MkdirAllKeeps(t, Parent(dst));
    var made := MkdirAll(t, Parent(dst)).nodes;
    assert src <= Parent(dst) ==> src <= dst;
    NotAbove(src, s, Parent(dst));
    MovedAt(made, src, dst, dst + s);
    assert (dst + s)[|dst|..] == s;
    MovedAt(made, src, dst, src + s);
    MovedAt(made, src, dst, s);
  }

  lemma NotAbove(src: Path, s: Path, p: Path)
    requires !(src <= p)
    ensures src <= src + s && !(src + s <= p)
  {
    assert src + s <= p ==> src <= p;
  }

  /**
   A copy that succeeds was of a file, to which the destination is now equal - unless they are the same file, which
   creating the destination has emptied.
   */
  lemma CopyOutcome(jail: Path, t: Nodes, from: Place, to: Place, t': Nodes)
    requires Jailed(jail, t) && Proper(jail, from) && Proper(jail, to)
    requires Perform(t, CopyTo(from, to)) == Applied(t', None)
    ensures ReadFile(t, from.node).Some?
    ensures ReadFile(t', to.node) == Some(if from.node == to.node then [] else ReadFile(t, from.node).value)
    ensures OnlyChangedAt(t, t', to.node)
  {
    CopyNodeOutcome(t, from.node, to.node);
  }

  /** A copy succeeds exactly if its source is a file, and a file could be written at its destination. */
  lemma CopySucceeds(jail: Path, t: Nodes, from: Place, to: Place)
    requires Jailed(jail, t) && Proper(jail, from) && Proper(jail, to)
    ensures Perform(t, CopyTo(from, to)).error == None <==>
              ReadFile(t, from.node).Some? && !FileAbove(t, to.node) && !IsDirAt(t, to.node)
  {
    CopyNodeSucceeds(t, from.node, to.node);
  }

  /**
   What a copy that fails leaves: everything as it was - unless the source is a directory and a file could be written at
   the destination, where it now is, empty, with the directories above it.
   */
  lemma CopyFailure(jail: Path, t: Nodes, from: Place, to: Place)
    requires Jailed(jail, t) && Proper(jail, from) && Proper(jail, to)
    requires Perform(t, CopyTo(from, to)).error.Some?
    ensures var t' := Perform(t, CopyTo(from, to)).nodes;
            if IsDirAt(t, from.node) && !FileAbove(t, to.node) && !IsDirAt(t, to.node)
            then ReadFile(t', to.node) == Some([]) && OnlyChangedAt(t, t', to.node)
            else t' == t
  {
    MkdirAllKeeps(t, Parent(to.node));
    if to.node != [] {
      FileAboveParent(t, to.node);
      assert !(to.node <= Parent(to.node));
      if IsDirAt(t, to.node) { AncestorsExist(t, to.node, Parent(to.node)); }
    }
  }

  lemma CopyNodeSucceeds(t: Nodes, src: Path, dst: Path)
    requires WellFormed(t) && AllPlain(dst)
    ensures CopyNode(t, src, Parent(dst), dst).error == None <==>
              ReadFile(t, src).Some? && !FileAbove(t, dst) && !IsDirAt(t, dst)
  {
    MkdirAllKeeps(t, Parent(dst));
    if dst != [] {
      FileAboveParent(t, dst);
      assert !(dst <= Parent(dst));
    }
  }

  lemma CopyNodeOutcome(t: Nodes, src: Path, dst: Path)
    requires WellFormed(t) && AllPlain(dst)
    requires CopyNode(t, src, Parent(dst), dst).error == None
    ensures var t' := CopyNode(t, src, Parent(dst), dst).nodes;
            && ReadFile(t, src).Some?
            && ReadFile(t', dst) == Some(if src == dst then [] else ReadFile(t, src).value)
            && OnlyChangedAt(t, t', dst)
  {
    MkdirAllKeeps(t, Parent(dst));
    if dst != [] {
      assert !(dst <= Parent(dst));
    }
  }

  /** An edit changes the text of its one file as `Patch.Edit` says, or nothing at all. */
  lemma EditOutcome(t: Nodes, at: Place, oldText: Bytes, newText: Bytes)
    requires oldText != []
    ensures var p, done := at.node, Perform(t, EditTo(at, oldText, newText));
            && (done.error == None <==>
                  ReadFile(t, p).Some? && Patch.Edit(ReadFile(t, p).value, oldText, newText).Edited?)
            && (done.error == None ==> done.nodes == t[p := File(Patch.Edit(t[p].content, oldText, newText).text)])
            && (done.error.Some? ==> done.nodes == t)
  {
  }

  /** Why an edit is refused: the block is not there, or is there twice without overlap; or there is no file to edit. */
  lemma EditRefusals(t: Nodes, at: Place, oldText: Bytes, newText: Bytes)
    requires oldText != []
    ensures var error := Perform(t, EditTo(at, oldText, newText)).error;
            if ReadFile(t, at.node) == None then
              error == Some(Os(if at.node in t then Errno.IsDir else NotExist))
            else
              var text := ReadFile(t, at.node).value;
              && (error == Some(ErrPatchNoMatch) <==> forall i :: !At(text, oldText, i))
              && (error == Some(ErrPatchAmbiguous) <==> exists i: nat, j: nat :: Apart(text, oldText, i, j))
              && (error.Some? ==> error.value == ErrPatchNoMatch || error.value == ErrPatchAmbiguous)
  {
    if ReadFile(t, at.node).Some? {
      Patch.EditOutcome(ReadFile(t, at.node).value, oldText, newText);
    }
  }

  /** An edit without an old block creates the file or overwrites it, with the new text. */
  lemma EditCreates(jail: Path, t: Nodes, at: Place, newText: Bytes)
    requires Jailed(jail, t) && Proper(jail, at)
    ensures var p, done := at.node, Perform(t, EditTo(at, [], newText));
            && (done.error == None <==> !FileAbove(t, p) && !IsDirAt(t, p))
            && (done.error == None ==> ReadFile(done.nodes, p) == Some(newText) && OnlyChangedAt(t, done.nodes, p))
            && (done.error.Some? ==> done.nodes == t)
  {
    WriteNodeOutcome(t, at.node, newText);
    if Perform(t, EditTo(at, [], newText)).error.Some? {
      WriteFailure(jail, t, at, newText);
    }
  }

  // From paths to nodes

  // Each operation is carried out on the places its own paths resolved to, in their roles, or refused.

  lemma WritePath(root: string, a: string, data: Bytes)
    ensures Prepare(root, Op.Write(a, data)) ==
            match Locate(root, a) case Some(at) => WriteTo(at, data) case None => Escaped
  {
    hide Locate;
  }

  lemma MkdirPath(root: string, a: string)
    ensures Prepare(root, Op.Mkdir(a)) ==
            match Locate(root, a) case Some(at) => MkdirTo(at) case None => Escaped
  {
    hide Locate;
  }

  lemma DeletePath(root: string, a: string)
    ensures Prepare(root, Op.Delete(a)) ==
            match Locate(root, a) case Some(at) => DeleteAt(at) case None => Escaped
  {
    hide Locate;
  }

  lemma EditPath(root: string, a: string, x: Bytes, y: Bytes)
    ensures Prepare(root, Op.Edit(a, x, y)) ==
            match Locate(root, a) case Some(at) => EditTo(at, x, y) case None => Escaped
  {
    hide Locate;
  }

  lemma MovePaths(root: string, a: string, b: string, from: Option<Place>, to: Option<Place>)
    requires from == Locate(root, a) && to == Locate(root, b)
    ensures Prepare(root, Op.Move(a, b)) == if from == None || to == None then Escaped else MoveTo(from.value, to.value)
  {
    hide Locate;
  }

  lemma CopyPaths(root: string, a: string, b: string, from: Option<Place>, to: Option<Place>)
    requires from == Locate(root, a) && to == Locate(root, b)
    ensures Prepare(root, Op.Copy(a, b)) == if from == None || to == None then Escaped else CopyTo(from.value, to.value)
  {
    hide Locate;
  }

  /** The refusals that are the service's own: a path that escapes, and the deletion of the root. */
  lemma Refusals(jail: Path, t: Nodes, at: Place)
    requires Jailed(jail, t) && Proper(jail, at)
    ensures Perform(t, Escaped) == Applied(t, Some(ErrEscape))
    ensures Perform(t, DeleteAt(at)).error == Some(ErrRoot) <==> at.node == jail
    ensures at.node == jail ==> Perform(t, DeleteAt(at)).nodes == t
  {
  }

  /** Undoing an edit through the service restores the whole tree, when the new block stands at one position only. */
  lemma EditUndone(t: Nodes, place: Place, oldText: Bytes, newText: Bytes, t1: Nodes, i: nat)
    requires oldText != [] && newText != []
    requires Perform(t, EditTo(place, oldText, newText)) == Applied(t1, None)
    requires ReadFile(t1, place.node).Some? && Patch.OnlyAt(ReadFile(t1, place.node).value, newText, i)
    ensures Perform(t1, EditTo(place, newText, oldText)) == Applied(t, None)
  {
    var p, back := place.node, Perform(t1, EditTo(place, newText, oldText));
    EditOutcome(t, place, oldText, newText);
    EditOutcome(t1, place, newText, oldText);
    Patch.UndoRestores(t[p].content, oldText, newText, i);
    assert back.nodes == t1[p := t[p]] == t;
  }
}
