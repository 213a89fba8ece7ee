/** The jailed service as an object that changes a tree, call by call (internal/fsapi, internal/handler/fs_ops.go). */
module ServiceObject {
  import opened Sequences
  import opened Paths
  import opened Jail
  import opened Tree
  import opened FileService
  import Patch

  /** Mode bits and modification time, of which the tree knows nothing: they are as the file system tells. */
  datatype Meta = Meta(mode: string, modTime: int)

  datatype Entry = Entry(name: string, path: string, isDir: bool, size: nat, meta: Meta)

  function EntryOf(root: string, abs: string, name: string, node: Node, meta: Meta): Entry {
    Entry(name, Reported(root, abs), node == Dir, SizeOf(node), meta)
  }

  function SizeOf(node: Node): nat {
    if node.File? then |node.content| else 0
  }

  /** The names in a directory. */
  ghost predicate Names(t: Nodes, p: Path, names: seq<string>) {
    && (forall n :: n in names <==> p + [n] in t)
    && (forall i, j :: 0 <= i < j < |names| ==> names[i] != names[j])
  }

  /** An entry that tells the truth about a child of directory `p`, and whose path resolves to that child. */
  ghost predicate Describes(root: string, t: Nodes, p: Path, e: Entry, metas: Path -> Meta) {
    && p + [e.name] in t && e.meta == metas(p + [e.name])
    && (e.isDir <==> t[p + [e.name]] == Dir)
    && e.size == (match t[p + [e.name]] case File(content) => |content| case Dir => 0)
    && (root != "/" ==> Resolve(root, e.path) == Inside(Abs(p + [e.name])))
  }

  function NamesOf(entries: seq<Entry>): seq<string> {
    seq(|entries|, i requires 0 <= i < |entries| => entries[i].name)
  }

  /** The names that are not gone, in order. */
  function Kept(names: seq<string>, gone: set<string>): seq<string> {
    if names == [] then []
    else
      var last := names[|names| - 1];
      Kept(names[..|names| - 1], gone) + if last in gone then [] else [last]
  }

  /** A file of the form: its name, and its content unless that cannot be read. */
  datatype Part = Part(name: string, data: Option<Bytes>)

  /** The answer to an upload. Nothing is reported unless all files were written. */
  datatype Upload = Uploaded(written: seq<string>) | NoFile | BadPart | Refused(error: Error)

  /** The tree as an upload leaves it, and what stopped it, if anything. */
  datatype Uploading = Uploading(nodes: Nodes, failed: Option<Upload>)

  /** Writing files below `dir` one after the other, up to the first that cannot be read or written. */
  function UploadAll(root: string, t: Nodes, dir: string, files: seq<Part>): Uploading {
    if files == [] then Uploading(t, None)
    else
      var before, last := UploadAll(root, t, dir, files[..|files| - 1]), files[|files| - 1];
      if before.failed.Some? then before else UploadOne(root, before.nodes, dir, last)
  }

  function UploadOne(root: string, t: Nodes, dir: string, part: Part): Uploading {
    if part.data == None then Uploading(t, Some(BadPart))
    else
      var done := Apply(root, t, Op.Write(Join2(dir, part.name), part.data.value));
      Uploading(done.nodes, match done.error case Some(e) => Some(Refused(e)) case None => None)
  }

  /** The paths reported for uploaded files. */
  function Reports(dir: string, files: seq<Part>): (r: seq<string>)
    ensures |r| == |files|
  {
    if files == [] then []
    else Reports(dir, files[..|files| - 1]) + ["/" + Join2(dir, files[|files| - 1].name)]
  }

  lemma ReportsNext(dir: string, files: seq<Part>, n: nat)
    requires n < |files|
    ensures Reports(dir, files[..n + 1]) == Reports(dir, files[..n]) + ["/" + Join2(dir, files[n].name)]
  {
    assert files[..n + 1][..n] == files[..n];
  }

  lemma UploadNext(root: string, t: Nodes, dir: string, files: seq<Part>, n: nat, a: Nodes, b: Uploading)
    requires n < |files| && UploadAll(root, t, dir, files[..n]) == Uploading(a, None)
    requires b == UploadOne(root, a, dir, files[n])
    ensures UploadAll(root, t, dir, files[..n + 1]) == b
    ensures b.failed.Some? ==> UploadAll(root, t, dir, files) == b
  {
    hide UploadOne;
    assert files[..n + 1][..n] == files[..n];
    if b.failed.Some? {
      UploadStops(root, t, dir, files, n + 1);
    }
  }

  lemma {:induction false} UploadStops(root: string, t: Nodes, dir: string, files: seq<Part>, n: nat)
    requires n <= |files| && UploadAll(root, t, dir, files[..n]).failed.Some?
    ensures UploadAll(root, t, dir, files) == UploadAll(root, t, dir, files[..n])
  {
    if n < |files| {
      var front := files[..|files| - 1];
      assert front[..n] == files[..n];
      UploadStops(root, t, dir, front, n);
    } else {
      assert files[..n] == files;
    }
  }

  /** The entry tells the truth about node `n`: its last name ("/" for the very root), its kind, size, mode and time. */
  ghost predicate Tells(t: Nodes, n: Path, e: Entry, metas: Path -> Meta) {
    && n in t && e.meta == metas(n)
    && (if n == [] then e.name == "/" else n == Parent(n) + [e.name])
    && (match t[n] case File(content) => !e.isDir && e.size == |content| case Dir => e.isDir && e.size == 0)
  }

  lemma EntryTells(root: string, abs: string, t: Nodes, n: Path, metas: Path -> Meta)
    requires n in t
    ensures Tells(t, n, EntryOf(root, abs, BaseName(n), t[n], metas(n)), metas)
  {
  }

  /** The path reported for what a path resolved to resolves to the same. */
  lemma PathBack(root: string, rel: string, abs: string)
    requires CleanRoot(root) && Resolve(root, rel) == Inside(abs)
    ensures Resolve(root, Reported(root, abs)) == Inside(abs)
  {
    ResolveSegments(root, rel);
    ClampIsPlain(rel);
    assert InJail(root, abs);
    ReportedResolvesBack(root, abs);
    if root == "/" { RootSlashRefusesAll(rel); }
  }

  class Service {
    const root: string
    var nodes: Nodes

    ghost predicate Valid()
      reads this
    {
      CleanRoot(root) && Jailed(Clamp(root), nodes)
    }

    constructor (root: string, nodes: Nodes)
      requires CleanRoot(root) && Jailed(Clamp(root), nodes)
      ensures Valid() && this.root == root && this.nodes == nodes
    {
      this.root, this.nodes := root, nodes;
    }

    /** Takes over what a system call left, and its error. */
    method Take(c: Called) returns (err: Option<Error>)
      modifies this
      ensures Applied(nodes, err) == FromCall(c)
    {
      nodes := c.nodes;
      err := if c.error.Some? then Some(Os(c.error.value)) else None;
    }

    method Write(rel: string, data: Bytes) returns (err: Option<Error>)
      requires Valid()
      modifies this
      ensures Valid() && Applied(nodes, err) == Apply(root, old(nodes), Op.Write(rel, data))
      ensures Safe(Clamp(root), old(nodes), nodes)
    {
      hide Locate, CleanRoot;
      Prepared(root, Op.Write(rel, data));
      PerformSafe(Clamp(root), nodes, Prepare(root, Op.Write(rel, data)));
      var at := Locate(root, rel);
      if at == None {
        return Some(ErrEscape);
      }
      err := Take(MkdirAll(nodes, at.value.up));
      if err.Some? {
        return;
      }
      err := Take(WriteFile(nodes, at.value.node, data));
    }

    method Mkdir(rel: string) returns (err: Option<Error>)
      requires Valid()
      modifies this
      ensures Valid() && Applied(nodes, err) == Apply(root, old(nodes), Op.Mkdir(rel))
      ensures Safe(Clamp(root), old(nodes), nodes)
    {
      hide Locate, CleanRoot;
      Prepared(root, Op.Mkdir(rel));
      PerformSafe(Clamp(root), nodes, Prepare(root, Op.Mkdir(rel)));
      var at := Locate(root, rel);
      if at == None {
        return Some(ErrEscape);
      }
      err := Take(MkdirAll(nodes, at.value.node));
    }

    method Delete(rel: string) returns (err: Option<Error>)
      requires Valid()
      modifies this
      ensures Valid() && Applied(nodes, err) == Apply(root, old(nodes), Op.Delete(rel))
      ensures Safe(Clamp(root), old(nodes), nodes)
    {
      hide Locate, CleanRoot;
      Prepared(root, Op.Delete(rel));
      PerformSafe(Clamp(root), nodes, Prepare(root, Op.Delete(rel)));
      var at := Locate(root, rel);
      if at == None {
        return Some(ErrEscape);
      }
      if at.value.atRoot {
        return Some(ErrRoot);
      }
      err := Take(RemoveAll(nodes, at.value.node));
    }

    method Move(srcRel: string, dstRel: string) returns (err: Option<Error>)
      requires Valid()
      modifies this
      ensures Valid() && Applied(nodes, err) == Apply(root, old(nodes), Op.Move(srcRel, dstRel))
      ensures Safe(Clamp(root), old(nodes), nodes)
    {
      hide Locate, CleanRoot;
      Prepared(root, Op.Move(srcRel, dstRel));
      PerformSafe(Clamp(root), nodes, Prepare(root, Op.Move(srcRel, dstRel)));
      var src := Locate(root, srcRel);
      if src == None {
        return Some(ErrEscape);
      }
      var dst := Locate(root, dstRel);
      if dst == None {
        return Some(ErrEscape);
      }
      err := MovePlace(src.value, dst.value);
    }

    method MovePlace(from: Place, to: Place) returns (err: Option<Error>)
      modifies this
      ensures Applied(nodes, err) == MoveNode(old(nodes), from.node, to.up, to.node)
    {
      err := Take(MkdirAll(nodes, to.up));
      if err.Some? {
        return;
      }
      err := Take(Rename(nodes, from.node, to.node));
    }

    method Copy(srcRel: string, dstRel: string) returns (err: Option<Error>)
      requires Valid()
      modifies this
      ensures Valid() && Applied(nodes, err) == Apply(root, old(nodes), Op.Copy(srcRel, dstRel))
      ensures Safe(Clamp(root), old(nodes), nodes)
    {
      hide Locate, CleanRoot;
      Prepared(root, Op.Copy(srcRel, dstRel));
      PerformSafe(Clamp(root), nodes, Prepare(root, Op.Copy(srcRel, dstRel)));
      var src := Locate(root, srcRel);
      if src == None {
        return Some(ErrEscape);
      }
      var dst := Locate(root, dstRel);
      if dst == None {
        return Some(ErrEscape);
      }
      err := CopyPlace(src.value, dst.value);
    }

    method CopyPlace(from: Place, to: Place) returns (err: Option<Error>)
      modifies this
      ensures Applied(nodes, err) == CopyNode(old(nodes), from.node, to.up, to.node)
    {
      if from.node !in nodes {
        return Some(Os(NotExist));
      }
      err := Take(MkdirAll(nodes, to.up));
      if err.Some? {
        return;
      }
      err := Take(WriteFile(nodes, to.node, []));
      if err.Some? {
        return;
      }
      var content := ReadFile(nodes, from.node);
      if content == None {
        return Some(Os(Errno.IsDir));
      }
      err := Take(WriteFile(nodes, to.node, content.value));
    }

    method Edit(rel: string, oldText: Bytes, newText: Bytes) returns (err: Option<Error>)
      requires Valid()
      modifies this
      ensures Valid() && Applied(nodes, err) == Apply(root, old(nodes), Op.Edit(rel, oldText, newText))
      ensures Safe(Clamp(root), old(nodes), nodes)
    {
      hide Locate, CleanRoot;
      Prepared(root, Op.Edit(rel, oldText, newText));
      PerformSafe(Clamp(root), nodes, Prepare(root, Op.Edit(rel, oldText, newText)));
      var at := Locate(root, rel);
      if at == None {
        return Some(ErrEscape);
      }
      if oldText == [] {
        err := Write(rel, newText);
        return;
      }
      err := EditPlace(at.value, oldText, newText);
    }

    method EditPlace(at: Place, oldText: Bytes, newText: Bytes) returns (err: Option<Error>)
      requires oldText != []
      modifies this
      ensures Applied(nodes, err) == EditNode(old(nodes), at.node, oldText, newText)
    {
      if at.node !in nodes {
        return Some(Os(NotExist));
      }
      var content := ReadFile(nodes, at.node);
      if content == None {
        return Some(Os(Errno.IsDir));
      }
      var edit := Patch.Apply(content.value, oldText, newText);
      match edit {
        case NoMatch => return Some(ErrPatchNoMatch);
        case Ambiguous => return Some(ErrPatchAmbiguous);
        case Edited(updated) => err := Take(WriteFile(nodes, at.node, updated));
      }
    }

    method Read(rel: string) returns (content: Option<Bytes>)
      requires Valid()
      ensures content.Some? <==>
                Locate(root, rel).Some? && NodeOf(root, rel) in nodes && nodes[NodeOf(root, rel)].File?
      ensures content.Some? ==> nodes[NodeOf(root, rel)] == File(content.value)
    {
      Located(root, rel);
      var at := Locate(root, rel);
      if at == None {
        return None;
      }
      content := ReadFile(nodes, at.value.node);
    }

    /** Metadata of one node; the path in it resolves back to the node. */
    method Stat(rel: string, metas: Path -> Meta) returns (e: Option<Entry>)
      requires Valid()
      ensures e.Some? <==> Locate(root, rel).Some? && NodeOf(root, rel) in nodes
      ensures e.Some? ==> Resolve(root, e.value.path) == Resolve(root, rel)
      ensures e.Some? ==> Tells(nodes, NodeOf(root, rel), e.value, metas)
    {
      Located(root, rel);
      match Resolve(root, rel) {
        case Escape => return None;
        case Inside(abs) =>
          var p := Locate(root, rel).value.node;
          if p !in nodes {
            return None;
          }
          PathBack(root, rel, abs);
          EntryTells(root, abs, nodes, p, metas);
          e := Some(EntryOf(root, abs, BaseName(p), nodes[p], metas(p)));
      }
    }

    method EntryAt(p: Path, name: string, metas: Path -> Meta) returns (e: Entry)
      requires Valid() && Clamp(root) <= p && p + [name] in nodes
      ensures e.name == name && Describes(root, nodes, p, e, metas)
    {
      ChildResolvesBack(root, nodes, p, name);
      e := EntryOf(root, Join2(Abs(p), name), name, nodes[p + [name]], metas(p + [name]));
    }

    /** One entry per name whose metadata can still be had, in the order the directory was read in. */
    method ListDir(p: Path, names: seq<string>, gone: set<string>, metas: Path -> Meta) returns (entries: seq<Entry>)
      requires Valid() && Clamp(root) <= p && Names(nodes, p, names)
      ensures NamesOf(entries) == Kept(names, gone)
      ensures forall i :: 0 <= i < |entries| ==> Describes(root, nodes, p, entries[i], metas)
    {
      entries := [];
      var i := 0;
      while i < |names|
        invariant 0 <= i <= |names|
        invariant NamesOf(entries) == Kept(names[..i], gone)
        invariant forall j :: 0 <= j < |entries| ==> Describes(root, nodes, p, entries[j], metas)
      {
        if names[i] !in gone {
          var e := EntryAt(p, names[i], metas);
          NamesSnoc(entries, e);
          entries := entries + [e];
        }
        KeptSnoc(names, i, gone);
        i := i + 1;
      }
      assert names[..|names|] == names;
    }

    /**
     The entries of a directory whose names were read as `names`; `gone` are those whose metadata could not be had any
     more. Every reported path resolves to the entry's own node, unless the root is "/".
     */
    method List(rel: string, names: seq<string>, gone: set<string>, metas: Path -> Meta)
        returns (out: Option<seq<Entry>>)
      requires Valid()
      requires Locate(root, rel).Some? && IsDirAt(nodes, NodeOf(root, rel)) ==> Names(nodes, NodeOf(root, rel), names)
      ensures out.Some? <==> Locate(root, rel).Some? && IsDirAt(nodes, NodeOf(root, rel))
      ensures out.Some? ==>
                && NamesOf(out.value) == Kept(names, gone)
                && forall i :: 0 <= i < |out.value| ==> Describes(root, nodes, NodeOf(root, rel), out.value[i], metas)
    {
      Located(root, rel);
      var at := Locate(root, rel);
      if at == None || !IsDirAt(nodes, at.value.node) {
        return None;
      }
      var entries := ListDir(at.value.node, names, gone, metas);
      out := Some(entries);
    }

    method UploadPart(dir: string, part: Part) returns (failed: Option<Upload>, report: string)
      requires Valid()
      modifies this
      ensures Valid() && Uploading(nodes, failed) == UploadOne(root, old(nodes), dir, part)
      ensures report == "/" + Join2(dir, part.name)
    {
      hide Locate, CleanRoot, Join2;
      var dst := Join2(dir, part.name);
      report := "/" + dst;
      if part.data == None {
        return Some(BadPart), report;
      }
      var err := Write(dst, part.data.value);
      failed := if err.Some? then Some(Refused(err.value)) else None;
    }

    /** One more file of the form, the ones before having been written. */
    method UploadTurn(ghost start: Nodes, dir: string, files: seq<Part>, written: seq<string>)
        returns (failed: Option<Upload>, written': seq<string>)
      requires Valid() && |written| < |files| && written == Reports(dir, files[..|written|])
      requires Uploading(nodes, None) == UploadAll(root, start, dir, files[..|written|])
      modifies this
      ensures Valid()
      ensures failed.Some? ==> Uploading(nodes, failed) == UploadAll(root, start, dir, files)
      ensures failed == None ==>
                && |written'| == |written| + 1 && written' == Reports(dir, files[..|written'|])
                && Uploading(nodes, None) == UploadAll(root, start, dir, files[..|written'|])
    {
      hide UploadOne, CleanRoot, Join2;
      ghost var before := nodes;
      var report;
      failed, report := UploadPart(dir, files[|written|]);
      UploadNext(root, start, dir, files, |written|, before, Uploading(nodes, failed));
      ReportsNext(dir, files, |written|);
      written' := written + [report];
    }

    /**
     Writes the uploaded files below `dir` one by one, up to the first that fails, and reports where if none does. That
     the reported paths read back what was written is UploadReadsBack.
     */
    method Upload(dir: string, files: seq<Part>) returns (r: Upload)
      requires Valid()
      modifies this
      ensures Valid()
      ensures nodes == UploadAll(root, old(nodes), dir, files).nodes
      ensures r == if files == [] then NoFile
                   else match UploadAll(root, old(nodes), dir, files).failed
                     case Some(why) => why
                     case None => Uploaded(Reports(dir, files))
    {
      hide UploadOne, CleanRoot, Join2;
      if files == [] {
        return NoFile;
      }
      var written := [];
      ghost var start := nodes;
      assert files[..0] == [];
      while |written| < |files|
        invariant Valid() && |written| <= |files|
        invariant Uploading(nodes, None) == UploadAll(root, start, dir, files[..|written|])
        invariant written == Reports(dir, files[..|written|])
      {
        var failed;
        failed, written := UploadTurn(start, dir, files, written);
        if failed.Some? {
          return failed.value;
        }
      }
      assert files[..|files|] == files;
      r := Uploaded(written);
    }
  }

  /** An upload succeeds exactly if every file can be read and, when its turn comes, written. */
  lemma {:induction false} UploadSucceeds(root: string, t: Nodes, dir: string, files: seq<Part>)
    ensures UploadAll(root, t, dir, files).failed == None <==> AllWork(root, t, dir, files)
  {
    if files != [] {
      var front := files[..|files| - 1];
      UploadSucceeds(root, t, dir, front);
      OneWorks(root, UploadAll(root, t, dir, front).nodes, dir, files[|files| - 1]);
    }
  }

  ghost predicate AllWork(root: string, t: Nodes, dir: string, files: seq<Part>) {
    files != [] ==>
      var front, last := files[..|files| - 1], files[|files| - 1];
      AllWork(root, t, dir, front) && PartWorks(root, UploadAll(root, t, dir, front).nodes, dir, last)
  }

  /** The file can be read, its path does not escape, and no file is above it and no directory there. */
  ghost predicate PartWorks(root: string, t: Nodes, dir: string, part: Part) {
    && part.data.Some?
    && var at := Locate(root, Join2(dir, part.name));
    at.Some? && WriteNode(t, at.value.up, at.value.node, part.data.value).error == None
  }

  lemma OneWorks(root: string, t: Nodes, dir: string, part: Part)
    ensures UploadOne(root, t, dir, part).failed == None <==> PartWorks(root, t, dir, part)
  {
    hide Locate, Join2;
    if part.data.Some? {
      WriteIsPerform(root, t, Join2(dir, part.name), part.data.value);
    }
  }

  /** Two files of the form that name the same node. */
  predicate SameTarget(dir: string, a: Part, b: Part) {
    Clamp(Join2(dir, a.name)) == Clamp(Join2(dir, b.name))
  }

  /**
   After an upload that succeeds, every reported path reads back the file of the form it stands for, unless a later file
   of the same form was written to the same place.
   */
  lemma {:induction false} UploadReadsBack(root: string, t: Nodes, dir: string, files: seq<Part>, i: nat)
    requires CleanRoot(root) && Jailed(Clamp(root), t) && UploadAll(root, t, dir, files).failed == None
    requires i < |files| && forall j :: i < j < |files| ==> !SameTarget(dir, files[i], files[j])
    ensures Jailed(Clamp(root), UploadAll(root, t, dir, files).nodes)
    ensures files[i].data.Some?
    ensures ReadsAt(root, UploadAll(root, t, dir, files).nodes, "/" + Join2(dir, files[i].name), files[i].data.value)
  {
    var front, last := files[..|files| - 1], files[|files| - 1];
    var before := UploadAll(root, t, dir, front).nodes;
    UploadKeepsJail(root, t, dir, front);
    PartReadsBack(root, before, dir, last);
    if i < |front| {
      UploadReadsBack(root, t, dir, front, i);
      ClampSlash(Join2(dir, files[i].name));
      ClampSlash(Join2(dir, last.name));
      OtherFileStays(root, before, Join2(dir, last.name), last.data.value, "/" + Join2(dir, files[i].name),
                     files[i].data.value);
    }
  }

  /** Reading `rel` gives `data`. */
  ghost predicate ReadsAt(root: string, t: Nodes, rel: string, data: Bytes) {
    Locate(root, rel).Some? && ReadFile(t, Locate(root, rel).value.node) == Some(data)
  }

  lemma WriteIsPerform(root: string, t: Nodes, rel: string, data: Bytes)
    ensures match Locate(root, rel)
            case Some(at) => Apply(root, t, Op.Write(rel, data)) == Perform(t, WriteTo(at, data))
            case None => Apply(root, t, Op.Write(rel, data)).error.Some?
  {
    hide Locate;
    WritePath(root, rel, data);
  }

  /** One file of the form, written and read back under the path reported for it. */
  lemma PartReadsBack(root: string, t: Nodes, dir: string, part: Part)
    requires CleanRoot(root) && Jailed(Clamp(root), t) && UploadOne(root, t, dir, part).failed == None
    ensures part.data.Some?
    ensures Jailed(Clamp(root), UploadOne(root, t, dir, part).nodes)
    ensures ReadsAt(root, UploadOne(root, t, dir, part).nodes, "/" + Join2(dir, part.name), part.data.value)
  {
    hide Locate, Join2;
    var rel, data := Join2(dir, part.name), part.data.value;
    WriteIsPerform(root, t, rel, data);
    var at := Locate(root, rel).value;
    ClampSlash(rel);
    WriteReadsBack(root, t, rel, "/" + rel, at, data);
    PlaceIsProper(root, rel, at);
    PerformSafe(Clamp(root), t, WriteTo(at, data));
  }

  lemma {:induction false} UploadKeepsJail(root: string, t: Nodes, dir: string, files: seq<Part>)
    requires CleanRoot(root) && Jailed(Clamp(root), t) && UploadAll(root, t, dir, files).failed == None
    ensures Jailed(Clamp(root), UploadAll(root, t, dir, files).nodes)
  {
    if files != [] {
      var front := files[..|files| - 1];
      UploadKeepsJail(root, t, dir, front);
      PartReadsBack(root, UploadAll(root, t, dir, front).nodes, dir, files[|files| - 1]);
    }
  }

  /** A write leaves what other paths read. */
  lemma OtherFileStays(root: string, t: Nodes, rel: string, data: Bytes, other: string, content: Bytes)
    requires CleanRoot(root) && Jailed(Clamp(root), t) && Apply(root, t, Op.Write(rel, data)).error == None
    requires Clamp(other) != Clamp(rel) && ReadsAt(root, t, other, content)
    ensures ReadsAt(root, Apply(root, t, Op.Write(rel, data)).nodes, other, content)
  {
    hide Locate;
    WriteIsPerform(root, t, rel, data);
    var at, place := Locate(root, rel).value, Locate(root, other).value;
    PlacesDiffer(root, rel, at, other, place);
    OtherNodeStays(Clamp(root), t, at, data, place.node, content);
  }

  lemma OtherNodeStays(jail: Path, t: Nodes, at: Place, data: Bytes, p: Path, content: Bytes)
    requires Jailed(jail, t) && Proper(jail, at) && Perform(t, WriteTo(at, data)).error == None
    requires p != at.node && ReadFile(t, p) == Some(content)
    ensures ReadFile(Perform(t, WriteTo(at, data)).nodes, p) == Some(content)
  {
    WriteOutcome(jail, t, at, data);
  }

  lemma PlacesDiffer(root: string, rel: string, at: Place, other: string, place: Place)
    requires CleanRoot(root) && Clamp(other) != Clamp(rel)
    requires Locate(root, rel) == Some(at) && Locate(root, other) == Some(place)
    ensures Proper(Clamp(root), at) && at.node != place.node
  {
    Located(root, rel);
    Located(root, other);
    assert NodeOf(root, rel)[|Clamp(root)|..] == Clamp(rel) && NodeOf(root, other)[|Clamp(root)|..] == Clamp(other);
  }

  /** After a deletion nothing at or below the path is found any more, and every other path finds what it did. */
  lemma DeleteForgets(root: string, t: Nodes, rel: string, at: Place, other: string, place: Place)
    requires CleanRoot(root) && Jailed(Clamp(root), t)
    requires Locate(root, rel) == Some(at) && Perform(t, DeleteAt(at)).error == None
    requires Locate(root, other) == Some(place)
    ensures var t' := Perform(t, DeleteAt(at)).nodes;
            if Clamp(rel) <= Clamp(other) then place.node !in t' else SameAt(t, t', place.node)
  {
    Located(root, rel);
    Located(root, other);
    DeleteOutcome(Clamp(root), t, at);
    BelowSame(Clamp(root), Clamp(rel), Clamp(other));
  }

  lemma BelowSame(jail: Path, a: Path, b: Path)
    ensures jail + a <= jail + b <==> a <= b
  {
    assert (jail + b)[|jail|..] == b && (jail + a)[|jail|..] == a;
    if jail + a <= jail + b {
      assert forall i :: 0 <= i < |a| ==> a[i] == (jail + a)[|jail| + i] == (jail + b)[|jail| + i] == b[i];
    }
  }

  lemma NamesSnoc(entries: seq<Entry>, e: Entry)
    ensures NamesOf(entries + [e]) == NamesOf(entries) + [e.name]
  {
  }

  lemma KeptSnoc(names: seq<string>, i: nat, gone: set<string>)
    requires i < |names|
    ensures Kept(names[..i + 1], gone) == Kept(names[..i], gone) + if names[i] in gone then [] else [names[i]]
  {
    assert names[..i + 1][..i] == names[..i];
  }

  /** The path reported for a child of a jailed directory resolves to it. */
  lemma ChildResolvesBack(root: string, t: Nodes, p: Path, name: string)
    requires CleanRoot(root) && Jailed(Clamp(root), t) && Clamp(root) <= p && p + [name] in t
    ensures Join2(Abs(p), name) == Abs(p + [name])
    ensures root != "/" ==> Resolve(root, Reported(root, Abs(p + [name]))) == Inside(Abs(p + [name]))
  {
    ChildIsPlain(t, p, name);
    JoinChild(p, name);
    assert Clamp(root) <= p + [name];
    BelowIsInJail(root, p + [name]);
    ReportedResolvesBack(root, Abs(p + [name]));
  }

  lemma BelowIsInJail(root: string, p: Path)
    requires Clamp(root) <= p && AllPlain(p)
    ensures InJail(root, Abs(p))
  {
    var segs := p[|Clamp(root)|..];
    assert p == Clamp(root) + segs;
  }

  lemma ChildIsPlain(t: Nodes, p: Path, name: string)
    requires WellFormed(t) && p + [name] in t
    ensures AllPlain(p + [name]) && AllPlain(p) && Plain(name)
  {
    var child := p + [name];
    assert Hangs(t, child);
    assert child[|p|] == name && forall i :: 0 <= i < |p| ==> p[i] == child[i];
  }

  lemma JoinChild(p: Path, name: string)
    requires AllPlain(p) && Plain(name)
    ensures Join2(Abs(p), name) == Abs(p + [name])
  {
    var x := Join(p) + "/" + name;
    assert Abs(p) + "/" + name == "/" + x;
    CleanRooted(x);
    ClampChild(p, name);
  }

  lemma ClampChild(p: Path, name: string)
    requires AllPlain(p) && Plain(name)
    ensures Clamp(Join(p) + "/" + name) == p + [name]
  {
    ClampConcat(Join(p), name);
    FoldJoin(true, [], p);
    assert [] + p == p;
    SplitPiece(name);
    FoldPlain(true, p, [name]);
  }
}
