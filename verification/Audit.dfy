/** The audit trail: a ring of recent entries and a file they are appended to (internal/audit/audit.go). */
module Audit {
  import opened Sequences
  import opened Windows

  datatype Entry =
    Entry(time: int, action: string, target: string, remote: string, meta: map<string, string>)

  const DEFAULT_MAX := 1000

  /** How many entries of a ring of `max` a reader asks for; none or a negative number stand for all. */
  function Wanted(max: nat, limit: int): nat {
    if 0 < limit < max then limit else max
  }

  class Recorder {
    const max: nat
    const ring: Window<Entry>
    /** The entries in the file, if there is one. */
    var file: Option<seq<Entry>>
    /** All entries ever recorded. */
    ghost var log: seq<Entry>
    /** How many of the latest entries went to the file, without a gap. */
    ghost var streak: nat

    ghost predicate Valid()
      reads this, ring, ring.data
    {
      && 0 < max == ring.max && ring.Valid()
      && ring.Contents() == Last(log, max)
      && streak <= |log|
      && (file.Some? ==> IsSuffix(Last(log, streak), file.value))
    }

    ghost function Footprint(): set<object>
      reads this, ring
    {
      {this, ring, ring.data}
    }

    constructor (max: int, file: Option<seq<Entry>>)
      ensures Valid() && fresh(Footprint()) && log == [] && streak == 0 && this.file == file
      ensures this.max == if max <= 0 then DEFAULT_MAX else max
    {
      this.max := if max <= 0 then DEFAULT_MAX else max;
      ring := new Window(if max <= 0 then DEFAULT_MAX else max);
      this.file := file;
      log, streak := [], 0;
    }

    /** Under the lock. `writes` says whether the entry can be encoded and the write goes through. */
    method Append(e: Entry, writes: bool)
      requires Valid()
      modifies this, ring, ring.data
      ensures Valid() && fresh(Footprint() - old(Footprint()))
      ensures log == old(log) + [e] && streak == if writes then old(streak) + 1 else 0
      ensures file == if writes && old(file).Some? then Some(old(file).value + [e]) else old(file)
    {
      LastOfAppend(log, e, max);
      ring.Append(e);
      if file.Some? && writes {
        SuffixGrows(log, streak, file.value, e);
        file := Some(file.value + [e]);
      }
      log := log + [e];
      streak := if writes then streak + 1 else 0;
    }

    /** The latest entries, newest last: those of the whole log, as far as the ring goes back. */
    method Recent(limit: int) returns (out: array<Entry>)
      requires Valid()
      ensures fresh(out) && out[..] == Last(log, Wanted(max, limit))
    {
      var n := ring.len;
      if !(limit <= 0 || limit > ring.len) {
        n := limit;
      }
      LastOfLast(log, max, n);
      out := ring.CopyLast(n);
      RecentOfWindow(log, max, limit);
    }
  }

  /** A recorder that could not open its file is not made; one without a path has no file. */
  method New(max: int, path: string, found: Option<seq<Entry>>) returns (r: Recorder?)
    ensures r == null <==> path != "" && found == None
    ensures r != null ==> r.Valid() && fresh(r.Footprint()) && r.log == []
    ensures r != null ==> r.max == if max <= 0 then DEFAULT_MAX else max
    ensures r != null ==> r.file == if path == "" then None else found
  {
    if path != "" && found == None {
      return null;
    }
    r := new Recorder(max, if path == "" then None else found);
  }

  /** Recording without a recorder does nothing. */
  method Record(r: Recorder?, e: Entry, writes: bool)
    requires r != null ==> r.Valid()
    modifies if r == null then {} else r.Footprint()
    ensures r != null ==> r.Valid() && fresh(r.Footprint() - old(r.Footprint()))
    ensures r != null ==> r.log == old(r.log) + [e] && r.streak == if writes then old(r.streak) + 1 else 0
    ensures r != null ==> r.file == if writes && old(r.file).Some? then Some(old(r.file).value + [e]) else old(r.file)
  {
    if r == null {
      return;
    }
    r.Append(e, writes);
  }

  /** While every write succeeds the ring is the end of the file, and results handed out earlier keep what they said. */
  method RecordMany(r: Recorder, limit: int, entries: seq<Entry>) returns (before: array<Entry>, after: array<Entry>)
    requires r.Valid() && r.streak == |r.log|
    modifies r.Footprint()
    ensures r.Valid() && r.log == old(r.log) + entries && r.streak == |r.log|
    ensures r.file.Some? <==> old(r.file).Some?
    ensures r.file.Some? ==> IsSuffix(r.ring.Contents(), r.file.value) && IsSuffix(after[..], r.file.value)
    ensures before[..] == Last(old(r.log), Wanted(r.max, limit))
    ensures after[..] == Last(old(r.log) + entries, Wanted(r.max, limit))
  {
    before := r.Recent(limit);
    ghost var kept := before[..];
    var i := 0;
    while i < |entries|
      invariant i <= |entries| && r.Valid() && r.log == old(r.log) + entries[..i] && r.streak == |r.log|
      invariant fresh(r.Footprint() - old(r.Footprint())) && before !in r.Footprint() && before[..] == kept
      invariant r.file.Some? <==> old(r.file).Some?
    {
      Record(r, entries[i], true);
      i := i + 1;
    }
    assert entries[..i] == entries;
    after := r.Recent(limit);
    if r.file.Some? {
      SuffixOfSuffix(r.log, r.max, r.file.value);
      SuffixOfSuffix(r.log, Wanted(r.max, limit), r.file.value);
    }
  }

  lemma SuffixGrows(log: seq<Entry>, streak: nat, file: seq<Entry>, e: Entry)
    requires streak <= |log| && IsSuffix(Last(log, streak), file)
    ensures IsSuffix(Last(log + [e], streak + 1), file + [e])
  {
    assert Last(log + [e], streak + 1) == Last(log, streak) + [e];
  }

  lemma SuffixOfSuffix(log: seq<Entry>, n: nat, file: seq<Entry>)
    requires IsSuffix(log, file)
    ensures IsSuffix(Last(log, n), file)
  {
  }

  /** Reading a limited number from the ring is reading it from the log, as far as the ring goes back. */
  lemma RecentOfWindow(log: seq<Entry>, max: nat, limit: int)
    requires max > 0
    ensures var ring := Last(log, max);
            Last(ring, if limit <= 0 || limit > |ring| then |ring| else limit) == Last(log, Wanted(max, limit))
  {
    LastOfLast(log, max, if limit <= 0 || limit > |Last(log, max)| then |Last(log, max)| else limit);
  }
}
