/**
 The process manager as a transition system: the shared table, its counter, and every process ever started, in or out
 of the table. One label is one critical section of `Manager` (internal/procapi/procapi.go) or one step of a process.
 */
module ProcTable {
  import opened Sequences
  import opened LogRing
  import Stream
  import StreamTheorems
  import opened Decimal

  /** Lines kept per process. */
  const RING_MAX: nat := 1000

  /**
   The table: ids to positions in the order of registration, the counter, and the ids handed out so far. `ids` is kept
   because each `Process` keeps its own id when the table forgets it.
   */
  datatype Table = Table(entries: map<string, nat>, seqNo: int, ids: seq<string>)

  datatype Manager = Manager(table: Table, procs: seq<Stream.Proc>)

  datatype Label =
    | Register(id: string)
    | FailedStart
    | Find(id: string, found: Option<nat>)
    | Listing(handles: set<nat>)
    | Delete(id: string, ok: bool)
    | Of(handle: nat, step: Stream.Label)

  const New := Manager(Table(map[], 0, []), [])

  /** `nextID`: the counter is a 64-bit int. */
  function NextSeq(n: int): int {
    if n + 1 == TWO_63 then -TWO_63 else n + 1
  }

  function NextId(t: Table): string {
    "p" + ItoaSpec(NextSeq(t.seqNo))
  }

  function Put(t: Table): Table {
    Table(t.entries[NextId(t) := |t.ids|], NextSeq(t.seqNo), t.ids + [NextId(t)])
  }

  function Drop(t: Table, id: string): Table {
    t.(entries := t.entries - {id})
  }

  function Lookup(t: Table, id: string): Option<nat> {
    if id in t.entries then Some(t.entries[id]) else None
  }

  function Step(m: Manager, l: Label): Outcome<Manager> {
    match l
    case Register(id) =>
      if id != NextId(m.table) then Disabled
      else Next(Manager(Put(m.table), m.procs + [Stream.Start(RING_MAX)]))
    case FailedStart => Next(m)
    case Find(id, found) => if found != Lookup(m.table, id) then Disabled else Next(m)
    case Listing(handles) => if handles != m.table.entries.Values then Disabled else Next(m)
    case Delete(id, ok) =>
      if ok != (id in m.table.entries) then Disabled else Next(m.(table := Drop(m.table, id)))
    case Of(h, step) =>
      if h >= |m.procs| then Disabled
      else match Stream.Step(m.procs[h], step)
        case Next(p) => Next(m.(procs := m.procs[h := p]))
        case Disabled => Disabled
        case Panic => Panic
  }

  function ExecFrom(m: Manager, run: seq<Label>): Outcome<Manager> {
    if run == [] then Next(m)
    else match ExecFrom(m, run[..|run| - 1])
      case Next(q) => Step(q, run[|run| - 1])
      case Disabled => Disabled
      case Panic => Panic
  }

  function Exec(run: seq<Label>): Outcome<Manager> {
    ExecFrom(New, run)
  }

  lemma {:induction false} ExecConcat(m: Manager, a: seq<Label>, b: seq<Label>)
    ensures ExecFrom(m, a + b) ==
            match ExecFrom(m, a)
            case Next(q) => ExecFrom(q, b)
            case Disabled => Disabled
            case Panic => Panic
  {
    if b == [] {
      assert a + b == a;
    } else {
      var front := b[..|b| - 1];
      assert (a + b)[..|a + b| - 1] == a + front;
      ExecConcat(m, a, front);
    }
  }

  // Every process of the system is a process on its own

  /** The steps of process `h`. */
  function Project(run: seq<Label>, h: nat): seq<Stream.Label> {
    if run == [] then []
    else
      var l := run[|run| - 1];
      Project(run[..|run| - 1], h) + (if l.Of? && l.handle == h then [l.step] else [])
  }

  /** What one step of the manager does to process `h`. */
  lemma StepAt(m: Manager, l: Label, h: nat)
    requires Step(m, l).Next?
    ensures var q := Step(m, l).value;
            && |q.procs| == |m.procs| + (if l.Register? then 1 else 0)
            && (h < |m.procs| && !(l.Of? && l.handle == h) ==> q.procs[h] == m.procs[h])
            && (h < |m.procs| && l.Of? && l.handle == h ==>
                  Stream.Step(m.procs[h], l.step) == Next(q.procs[h]))
            && (h == |m.procs| < |q.procs| ==> q.procs[h] == Stream.Start(RING_MAX))
            && (l.Of? ==> l.handle < |m.procs|)
  {
  }

  /**
   Whatever the rest of the manager does, and whether or not it is still in the table, each process has made exactly a
   run of its own; so all that holds of every run of a process holds here.
   */
  lemma {:induction false} ProcessesAreIndependent(run: seq<Label>, h: nat)
    requires Exec(run).Next?
    ensures h < |Exec(run).value.procs| ==>
              Stream.Exec(RING_MAX, Project(run, h)) == Next(Exec(run).value.procs[h])
    ensures h >= |Exec(run).value.procs| ==> Project(run, h) == []
  {
    if run != [] {
      var before, l := run[..|run| - 1], run[|run| - 1];
      ProcessesAreIndependent(before, h);
      var m := Exec(before).value;
      StepAt(m, l, h);
      if l.Of? && l.handle == h {
        OneProcessStep(before, h, l.step);
      } else {
        assert Project(run, h) == Project(before, h);
      }
    }
  }

  /** No run of the whole manager crashes. */
  lemma {:induction false} ManagerNeverPanics(run: seq<Label>)
    ensures !Exec(run).Panic?
  {
    if run != [] {
      var before, l := run[..|run| - 1], run[|run| - 1];
      ManagerNeverPanics(before);
      if Exec(before).Next? {
        NextStepIsSafe(before, l);
        assert Exec(run) == Step(Exec(before).value, l);
      }
    }
  }

  lemma NextStepIsSafe(run: seq<Label>, l: Label)
    requires Exec(run).Next?
    ensures !Step(Exec(run).value, l).Panic?
  {
    if l.Of? && l.handle < |Exec(run).value.procs| {
      ProcessesAreIndependent(run, l.handle);
      OneProcessStep(run, l.handle, l.step);
    }
  }

  lemma OneProcessStep(run: seq<Label>, h: nat, step: Stream.Label)
    requires Exec(run).Next? && h < |Exec(run).value.procs|
    requires Stream.Exec(RING_MAX, Project(run, h)) == Next(Exec(run).value.procs[h])
    ensures Stream.Exec(RING_MAX, Project(run, h) + [step]) == Stream.Step(Exec(run).value.procs[h], step)
    ensures !Stream.Step(Exec(run).value.procs[h], step).Panic?
  {
    var mine := Project(run, h);
    assert (mine + [step])[..|mine|] == mine;
    StreamTheorems.ChannelSafety(RING_MAX, mine + [step]);
  }

  // Ids

  /** The ids a run hands out, in order. */
  function Issued(run: seq<Label>): seq<string> {
    if run == [] then []
    else
      var l := run[|run| - 1];
      Issued(run[..|run| - 1]) + (if l.Register? then [l.id] else [])
  }

  ghost predicate TableInv(m: Manager, issued: seq<string>) {
    && |m.procs| == |issued|
    && m.table.seqNo == Wrap(|issued|)
    && m.table.ids == issued
    && (forall k :: 0 <= k < |issued| ==> issued[k] == IdOf(k + 1))
    && (forall id :: id in m.table.entries ==> m.table.entries[id] < |issued| && issued[m.table.entries[id]] == id)
  }

  lemma {:induction false} NextIsWrapped(k: nat)
    ensures NextSeq(Wrap(k)) == Wrap(k + 1)
  {
    if k >= TWO_64 {
      NextIsWrapped(k - TWO_64);
    }
  }

  lemma NextIdIs(m: Manager, issued: seq<string>, l: Label)
    requires TableInv(m, issued) && l.Register? && Step(m, l).Next?
    ensures l.id == IdOf(|issued| + 1)
  {
    NextIsWrapped(|issued|);
  }

  lemma RegisterKeeps(m: Manager, issued: seq<string>, l: Label)
    requires TableInv(m, issued) && l.Register? && Step(m, l).Next?
    ensures TableInv(Step(m, l).value, issued + [l.id])
  {
    NextIsWrapped(|issued|);
    NextIdIs(m, issued, l);
  }

  lemma ProcessStepKeeps(m: Manager, issued: seq<string>, l: Label)
    requires TableInv(m, issued) && !l.Register? && Step(m, l).Next?
    ensures TableInv(Step(m, l).value, issued)
  {
  }

  lemma {:induction false} TableAfter(run: seq<Label>)
    requires Exec(run).Next?
    ensures TableInv(Exec(run).value, Issued(run))
  {
    if run != [] {
      var before, l := run[..|run| - 1], run[|run| - 1];
      TableAfter(before);
      if l.Register? {
        RegisterKeeps(Exec(before).value, Issued(before), l);
      } else {
        ProcessStepKeeps(Exec(before).value, Issued(before), l);
        assert Issued(run) == Issued(before);
      }
    }
  }

  ghost predicate AllDistinct<T>(s: seq<T>) {
    forall i, j :: 0 <= i < j < |s| ==> s[i] != s[j]
  }

  lemma NumberedDistinct(ids: seq<string>)
    requires |ids| <= TWO_63
    requires forall k :: 0 <= k < |ids| ==> ids[k] == IdOf(k + 1)
    ensures AllDistinct(ids)
  {
    forall i, j | 0 <= i < j < |ids|
      ensures ids[i] != ids[j]
    {
      assert ids[i] == IdOf(i + 1) && ids[j] == IdOf(j + 1);
      PairDistinct(ids[i], ids[j], i + 1, j + 1);
    }
  }

  lemma PairDistinct(a: string, b: string, i: nat, j: nat)
    requires 1 <= i < j <= TWO_63 && a == IdOf(i) && b == IdOf(j)
    ensures a != b
  {
    IdsUnique(i, j);
  }

  /**
   Ids are never reused: start number k gets "p" and the decimal k, whatever was removed meanwhile, until the counter
   leaves the 64-bit range; the table only ever maps an id to the process that got it.
   */
  lemma IdsNeverReused(run: seq<Label>)
    requires Exec(run).Next? && |Issued(run)| <= TWO_63
    ensures AllDistinct(Issued(run))
    ensures forall k :: 0 <= k < |Issued(run)| && k + 1 < TWO_63 ==> Issued(run)[k] == "p" + ItoaSpec(k + 1)
    ensures var m := Exec(run).value;
            && |m.procs| == |Issued(run)|
            && (|Issued(run)| < TWO_63 ==> m.table.seqNo == |Issued(run)|)
            && (forall id :: id in m.table.entries ==>
                  m.table.entries[id] < |m.procs| && Issued(run)[m.table.entries[id]] == id)
  {
    TableAfter(run);
    NumberedDistinct(Issued(run));
    forall k | 0 <= k < |Issued(run)| && k + 1 < TWO_63
      ensures Issued(run)[k] == "p" + ItoaSpec(k + 1)
    {
      assert Issued(run)[k] == IdOf(k + 1);
    }
  }

  // Removal

  lemma {:induction false} IssuedConcat(a: seq<Label>, b: seq<Label>)
    ensures Issued(a + b) == Issued(a) + Issued(b)
  {
    if b == [] {
      assert a + b == a;
    } else {
      var front := b[..|b| - 1];
      assert (a + b)[..|a + b| - 1] == a + front;
      IssuedConcat(a, front);
    }
  }

  /** An id once issued and gone from the table stays gone. */
  lemma {:induction false} GoneForGood(run: seq<Label>, more: seq<Label>, id: string)
    requires Exec(run + more).Next? && Exec(run).Next?
    requires id in Issued(run) && id !in Exec(run).value.table.entries
    requires |Issued(run + more)| <= TWO_63
    ensures id !in Exec(run + more).value.table.entries
    decreases |more|
  {
    if more == [] {
      assert run + more == run;
    } else {
      var front, l := more[..|more| - 1], more[|more| - 1];
      var before := run + front;
      assert (run + more)[..|run + more| - 1] == before;
      assert |Issued(before)| <= |Issued(run + more)|;
      GoneForGood(run, front, id);
      if l.Register? {
        IssuedConcat(run, front);
        TableAfter(before);
        var k :| 0 <= k < |Issued(run)| && Issued(run)[k] == id;
        FreshId(Exec(before).value, Issued(before), l, k);
      }
    }
  }

  /** A registration never hands out an id that was issued before. */
  lemma FreshId(m: Manager, issued: seq<string>, l: Label, k: nat)
    requires TableInv(m, issued) && Step(m, l).Next? && l.Register?
    requires k < |issued| < TWO_63
    ensures l.id != issued[k]
  {
    NextIdIs(m, issued, l);
    PairDistinct(issued[k], l.id, k + 1, |issued| + 1);
  }

  /** An id is in the table exactly if it was handed out and no removal of it has succeeded. */
  lemma {:induction false} TableIsWhatIsLeft(run: seq<Label>, id: string)
    requires Exec(run).Next? && |Issued(run)| <= TWO_63
    ensures id in Exec(run).value.table.entries <==> id in Issued(run) && Delete(id, true) !in run
  {
    if run != [] {
      var before, l := run[..|run| - 1], run[|run| - 1];
      assert run == before + [l];
      TableIsWhatIsLeft(before, id);
      EntryAfter(Exec(before).value, l, id);
      if l == Register(id) {
        NewIdIsNew(before, l);
      }
      if l == Delete(id, true) {
        assert Delete(id, true) in run;
      }
    }
  }

  lemma EntryAfter(m: Manager, l: Label, id: string)
    requires Step(m, l).Next?
    ensures id in Step(m, l).value.table.entries <==>
              l == Register(id) || (id in m.table.entries && l != Delete(id, true))
  {
    hide Stream.Step;
  }

  lemma NewIdIsNew(run: seq<Label>, l: Label)
    requires Exec(run).Next? && l.Register? && Step(Exec(run).value, l).Next? && |Issued(run)| < TWO_63
    ensures l.id !in Issued(run) && Delete(l.id, true) !in run
  {
    TableAfter(run);
    if l.id in Issued(run) {
      var k :| 0 <= k < |Issued(run)| && Issued(run)[k] == l.id;
      FreshId(Exec(run).value, Issued(run), l, k);
    }
    if Delete(l.id, true) in run {
      DeletedWasIssued(run, l.id);
    }
  }

  lemma {:induction false} DeletedWasIssued(run: seq<Label>, id: string)
    requires Exec(run).Next? && Delete(id, true) in run
    ensures id in Issued(run)
  {
    var before, l := run[..|run| - 1], run[|run| - 1];
    assert run == before + [l];
    if Delete(id, true) in before {
      DeletedWasIssued(before, id);
    } else {
      TableAfter(before);
    }
  }

  /** A run stopped at position `n` and carried on by the step there. */
  lemma CutAt(run: seq<Label>, n: nat)
    requires Exec(run).Next? && n < |run|
    ensures Exec(run[..n]).Next? && Exec(run[..n + 1]).Next?
    ensures Exec(run[..n + 1]) == Step(Exec(run[..n]).value, run[n])
  {
    PrefixRuns(run, n);
    PrefixRuns(run, n + 1);
    assert run[..n + 1][..n] == run[..n];
  }

  /** The k-th id a run issued stays its k-th id. */
  lemma IssuedStays(run: seq<Label>, i: nat, j: nat, k: nat)
    requires i <= j <= |run| && k < |Issued(run[..i])|
    ensures |Issued(run[..i])| <= |Issued(run[..j])|
    ensures Issued(run[..j])[k] == Issued(run[..i])[k]
  {
    IssuedConcat(run[..i], run[i..j]);
    assert run[..i] + run[i..j] == run[..j];
  }

  /** What a successful removal found: an issued id, which the table no longer has just afterwards. */
  lemma AtDelete(run: seq<Label>, i: nat, id: string)
    requires Exec(run).Next? && i < |run| && run[i] == Delete(id, true)
    ensures Exec(run[..i]).Next? && id in Exec(run[..i]).value.table.entries
    ensures var h := Exec(run[..i]).value.table.entries[id]; h < |Issued(run[..i + 1])| && Issued(run[..i + 1])[h] == id
    ensures Exec(run[..i + 1]).Next? && id !in Exec(run[..i + 1]).value.table.entries
  {
    CutAt(run, i);
    TableAfter(run[..i]);
    var h := Exec(run[..i]).value.table.entries[id];
    assert Issued(run[..i])[h] == id;
    IssuedStays(run, i, i + 1, h);
  }

  /** From a successful removal on, the id is issued, to the process it then named, and absent. */
  lemma GoneAfterDelete(run: seq<Label>, i: nat, j: nat, id: string)
    requires Exec(run).Next? && |Issued(run)| <= TWO_63
    requires i < j <= |run| && run[i] == Delete(id, true)
    ensures Exec(run[..i]).Next? && id in Exec(run[..i]).value.table.entries
    ensures var h := Exec(run[..i]).value.table.entries[id]; h < |Issued(run[..j])| && Issued(run[..j])[h] == id
    ensures Exec(run[..j]).Next? && id !in Exec(run[..j]).value.table.entries
  {
    AtDelete(run, i, id);
    PrefixRuns(run, j);
    var h := Exec(run[..i]).value.table.entries[id];
    IssuedStays(run, i + 1, j, h);
    IssuedStays(run, j, |run|, h);
    assert run[..|run|] == run;
    CutInTwo(run[..j], i + 1);
    assert run[..j][..i + 1] == run[..i + 1] && run[..j][i + 1..] == run[i + 1..j];
    GoneForGood(run[..i + 1], run[i + 1..j], id);
  }

  lemma CutInTwo<T>(s: seq<T>, n: nat)
    requires n <= |s|
    ensures s == s[..n] + s[n..]
  {
  }

  /** No entry of the table leads to a process whose own id is not in it. */
  lemma AbsentAnywhere(run: seq<Label>, h: nat, id: string)
    requires Exec(run).Next? && h < |Issued(run)| && Issued(run)[h] == id && id !in Exec(run).value.table.entries
    ensures h !in Exec(run).value.table.entries.Values
  {
    TableAfter(run);
    var m := Exec(run).value;
    assert forall other :: other in m.table.entries && m.table.entries[other] == h ==> other == id;
  }

  /**
   Of all removals of one id at most one succeeds, and from then on every lookup of that id - the first step of Get,
   Logs, Subscribe, Stop and Remove - reports not found and no listing shows the process, however the operations
   interleave.
   */
  lemma RemovedOnce(run: seq<Label>, i: nat, j: nat, id: string)
    requires Exec(run).Next? && |Issued(run)| <= TWO_63
    requires i < j < |run| && run[i] == Delete(id, true)
    ensures run[j] != Delete(id, true)
    ensures run[j].Find? && run[j].id == id ==> run[j].found == None
    ensures Exec(run[..i]).Next? && id in Exec(run[..i]).value.table.entries
    ensures run[j].Listing? ==> Exec(run[..i]).value.table.entries[id] !in run[j].handles
  {
    GoneAfterDelete(run, i, j, id);
    AbsentAnywhere(run[..j], Exec(run[..i]).value.table.entries[id], id);
    CutAt(run, j);
  }

  lemma PrefixRuns(run: seq<Label>, n: nat)
    requires Exec(run).Next? && n <= |run|
    ensures Exec(run[..n]).Next?
  {
    ExecConcat(New, run[..n], run[n..]);
    assert run == run[..n] + run[n..];
  }

  /** Removing a process strands no stream: its waiter holds the process itself and can still close every channel. */
  lemma RemovalStrandsNoStream(run: seq<Label>, h: nat, code: int, at: int)
    requires Exec(run).Next? && h < |Exec(run).value.procs|
    ensures var p := Exec(run).value.procs[h];
            var rest := Wrapped(h, StreamTheorems.WaiterRest(p, code, at));
            && Exec(run + rest).Next? && h < |Exec(run + rest).value.procs|
            && StreamTheorems.AllClosed(Exec(run + rest).value.procs[h])
  {
    var m := Exec(run).value;
    var mine, steps := Project(run, h), StreamTheorems.WaiterRest(m.procs[h], code, at);
    ProcessesAreIndependent(run, h);
    StreamTheorems.WaiterClosesEveryStream(RING_MAX, mine, code, at);
    StreamTheorems.ExecConcat(Stream.Start(RING_MAX), mine, steps);
    WrappedRuns(m, h, steps);
    ExecConcat(New, run, Wrapped(h, steps));
  }

  ghost function Wrapped(h: nat, steps: seq<Stream.Label>): seq<Label> {
    seq(|steps|, i requires 0 <= i < |steps| => Of(h, steps[i]))
  }

  lemma {:induction false} WrappedRuns(m: Manager, h: nat, steps: seq<Stream.Label>)
    requires h < |m.procs| && Stream.ExecFrom(m.procs[h], steps).Next?
    ensures ExecFrom(m, Wrapped(h, steps)) ==
            Next(m.(procs := m.procs[h := Stream.ExecFrom(m.procs[h], steps).value]))
  {
    if steps == [] {
      assert m.procs[h := m.procs[h]] == m.procs;
    } else {
      var front := steps[..|steps| - 1];
      WrappedRuns(m, h, front);
      assert Stream.ExecFrom(m.procs[h], front).Next?;
      var p, q := Stream.ExecFrom(m.procs[h], front).value, Stream.ExecFrom(m.procs[h], steps).value;
      assert m.procs[h := p][h := q] == m.procs[h := q];
      assert Wrapped(h, steps)[..|steps| - 1] == Wrapped(h, front);
    }
  }
}
