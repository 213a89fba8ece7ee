/**
 The goroutines of the process manager and their mutexes (internal/procapi/procapi.go). A goroutine is the list of
 instructions it has left: take a mutex, release it, or run the body of a critical section. Here a body is one step of
 `ProcTable`, as it would be if critical sections were atomic; `Goroutines` takes the bodies apart, and `Atomicity`
 proves that this makes no difference.
 */
module ManagerThreads {
  import opened Sequences
  import opened LogRing
  import Stream
  import ProcTable

  /** `Manager.mu`, and per process `Process.mu` and `ringBuffer.mu`. */
  datatype Lock = TableLock | ProcLock(h: nat) | RingLock(h: nat)

  function Rank(l: Lock): nat {
    match l
    case TableLock => 0
    case ProcLock(_) => 1
    case RingLock(_) => 2
  }

  /** What a caller wants of the process it looks up. */
  datatype Purpose = ToView | ToReadLogs | ToSubscribe | ToStop | ToRemove

  datatype Action =
    | Register | Find(id: string, purpose: Purpose) | ListAll | Delete(id: string)
    | Look(h: nat) | SetExited(h: nat, code: int, at: int)
    | Append(h: nat, src: Source) | Subscribe(h: nat) | Snapshot(h: nat) | Cancel(h: nat, c: nat) | CloseSubs(h: nat)

  datatype Instr = Acquire(lock: Lock) | Release(lock: Lock) | Do(action: Action)

  datatype Thread = Thread(held: set<Lock>, todo: seq<Instr>)

  datatype ThreadId = Caller(n: nat) | Pump(h: nat, src: Source) | Waiter(h: nat)

  datatype System = System(threads: map<ThreadId, Thread>, manager: ProcTable.Manager, trace: seq<ProcTable.Label>)

  const Boot := System(map[], ProcTable.New, [])

  // Programs

  function Locked(l: Lock, a: Action): seq<Instr> {
    [Acquire(l), Do(a), Release(l)]
  }

  datatype Op = Start | Lookup(id: string, purpose: Purpose) | List | CancelStream(h: nat, c: nat)

  /** `Start`, `Get`/`Logs`/`Subscribe`/`Stop`/`Remove`, `List`, and the cancel function `Subscribe` returns. */
  function Program(op: Op): seq<Instr> {
    match op
    case Start => [Acquire(TableLock), Do(Register)]
    case Lookup(id, purpose) => [Acquire(TableLock), Do(Find(id, purpose))]
    case List => [Acquire(TableLock), Do(ListAll)]
    case CancelStream(h, c) => Locked(RingLock(h), Cancel(h, c))
  }

  /** What follows `find`. `Remove` deletes under a second hold of the table lock even when `Stop` found nothing. */
  function AfterFind(id: string, purpose: Purpose, found: Option<nat>): seq<Instr> {
    var first :=
      if found == None then []
      else match purpose
        case ToReadLogs => Locked(RingLock(found.value), Snapshot(found.value))
        case ToSubscribe => Locked(RingLock(found.value), Subscribe(found.value))
        case _ => Locked(ProcLock(found.value), Look(found.value));
    first + if purpose == ToRemove then Locked(TableLock, Delete(id)) else []
  }

  /** `List` views every process, in the map's arbitrary order, without letting go of the table. */
  function Views(order: seq<nat>): seq<Instr> {
    if order == [] then [] else Locked(ProcLock(order[0]), Look(order[0])) + Views(order[1..])
  }

  function PumpProgram(h: nat, src: Source): seq<Instr> {
    Locked(RingLock(h), Append(h, src))
  }

  function WaiterProgram(h: nat, code: int, at: int): seq<Instr> {
    Locked(ProcLock(h), SetExited(h, code, at)) + Locked(RingLock(h), CloseSubs(h))
  }

  // Steps

  /** A goroutine runs its next instruction; a call begins; a pump scans a line; Wait returns; a reader receives. */
  datatype Event =
    | Run(t: ThreadId, order: seq<nat>)
    | Call(n: nat, op: Op)
    | Scan(h: nat, src: Source, text: Bytes, at: int)
    | Reap(h: nat, code: int, at: int)
    | Receive(h: nat, l: Stream.Label)

  function Guard(a: Action): Lock {
    match a
    case Register | Find(_, _) | ListAll | Delete(_) => TableLock
    case Look(h) => ProcLock(h)
    case SetExited(h, _, _) => ProcLock(h)
    case Append(h, _) => RingLock(h)
    case Subscribe(h) => RingLock(h)
    case Snapshot(h) => RingLock(h)
    case Cancel(h, _) => RingLock(h)
    case CloseSubs(h) => RingLock(h)
  }

  function Target(a: Action): Option<nat> {
    match Guard(a)
    case TableLock => None
    case ProcLock(h) => Some(h)
    case RingLock(h) => Some(h)
  }

  /** The manager step an action makes, given the state it finds. */
  function LabelOf(m: ProcTable.Manager, a: Action): ProcTable.Label
    requires Target(a).Some? ==> Target(a).value < |m.procs|
  {
    match a
    case Register => ProcTable.Register(ProcTable.NextId(m.table))
    case Find(id, _) => ProcTable.Find(id, ProcTable.Lookup(m.table, id))
    case ListAll => ProcTable.Listing(m.table.entries.Values)
    case Delete(id) => ProcTable.Delete(id, id in m.table.entries)
    case Look(h) => ProcTable.Of(h, Stream.Look(Stream.ViewOf(m.procs[h])))
    case SetExited(h, code, at) => ProcTable.Of(h, Stream.SetState(code, at))
    case Append(h, src) => ProcTable.Of(h, Stream.Add(src))
    case Subscribe(h) =>
      ProcTable.Of(h, Stream.Subscribe(|m.procs[h].ring.chans|, m.procs[h].ring.lines))
    case Snapshot(h) => ProcTable.Of(h, Stream.Snapshot(m.procs[h].ring.lines))
    case Cancel(h, c) => ProcTable.Of(h, Stream.Cancel(c))
    case CloseSubs(h) => ProcTable.Of(h, Stream.CloseSubs)
  }

  /** The instructions an action adds in front of what its goroutine has left. */
  function Sequel(m: ProcTable.Manager, a: Action, order: seq<nat>): seq<Instr> {
    match a
    case Register => [Release(TableLock)] + Locked(ProcLock(|m.procs|), Look(|m.procs|))
    case Find(id, purpose) => [Release(TableLock)] + AfterFind(id, purpose, ProcTable.Lookup(m.table, id))
    case ListAll => Views(order) + [Release(TableLock)]
    case _ => []
  }

  ghost predicate Enumerates(order: seq<nat>, s: set<nat>) {
    (forall h :: h in s <==> h in order) && forall i, j :: 0 <= i < j < |order| ==> order[i] != order[j]
  }

  /** A registered process gets its two pumps and its waiter, all idle. */
  function Spawn(threads: map<ThreadId, Thread>, h: nat): map<ThreadId, Thread> {
    threads[Pump(h, Stdout) := Thread({}, [])][Pump(h, Stderr) := Thread({}, [])][Waiter(h) := Thread({}, [])]
  }

  ghost predicate Taken(threads: map<ThreadId, Thread>, l: Lock) {
    exists t :: t in threads && l in threads[t].held
  }

  function Advance(s: System, l: ProcTable.Label): Outcome<System> {
    match ProcTable.Step(s.manager, l)
    case Next(m) => Next(s.(manager := m, trace := s.trace + [l]))
    case Disabled => Disabled
    case Panic => Panic
  }

  ghost function RunDo(s: System, t: ThreadId, a: Action, rest: seq<Instr>, order: seq<nat>): Outcome<System>
    requires t in s.threads
  {
    if Target(a).Some? && Target(a).value >= |s.manager.procs| then Disabled
    else if a == ListAll && !Enumerates(order, s.manager.table.entries.Values) then Disabled
    else match Advance(s, LabelOf(s.manager, a))
      case Next(s') =>
        var mine := s.threads[t].(todo := Sequel(s.manager, a, order) + rest);
        var threads := s.threads[t := mine];
        Next(s'.(threads := if a == Register then Spawn(threads, |s.manager.procs|) else threads))
      case Disabled => Disabled
      case Panic => Panic
  }

  /** Taking a taken mutex waits; releasing one not held crashes. */
  ghost function RunNext(s: System, t: ThreadId, order: seq<nat>): Outcome<System>
    requires t in s.threads && s.threads[t].todo != []
  {
    var th := s.threads[t];
    var rest := th.todo[1..];
    match th.todo[0]
    case Acquire(l) =>
      if Taken(s.threads, l) then Disabled else Next(s.(threads := s.threads[t := Thread(th.held + {l}, rest)]))
    case Release(l) =>
      if l !in th.held then Panic else Next(s.(threads := s.threads[t := Thread(th.held - {l}, rest)]))
    case Do(a) => RunDo(s, t, a, rest, order)
  }

  predicate Idle(threads: map<ThreadId, Thread>, t: ThreadId) {
    t in threads && threads[t].todo == []
  }

  ghost function Step(s: System, e: Event): Outcome<System> {
    match e
    case Run(t, order) =>
      if t !in s.threads || s.threads[t].todo == [] then Disabled else RunNext(s, t, order)
    case Call(n, op) =>
      if Caller(n) in s.threads || (op.CancelStream? && !HasChannel(s.manager, op.h, op.c)) then Disabled
      else Next(s.(threads := s.threads[Caller(n) := Thread({}, Program(op))]))
    case Scan(h, src, text, at) =>
      if !Idle(s.threads, Pump(h, src)) then Disabled
      else (match Advance(s, ProcTable.Of(h, Stream.Scan(src, text, at)))
        case Next(s') => Next(s'.(threads := s.threads[Pump(h, src) := Thread({}, PumpProgram(h, src))]))
        case Disabled => Disabled
        case Panic => Panic)
    case Reap(h, code, at) =>
      if !Idle(s.threads, Waiter(h)) || h >= |s.manager.procs| then Disabled
      else if s.manager.procs[h].waiter != Stream.Waiting then Disabled
      else Next(s.(threads := s.threads[Waiter(h) := Thread({}, WaiterProgram(h, code, at))]))
    case Receive(h, l) =>
      if !l.Receive? && !l.ReceiveClosed? then Disabled else Advance(s, ProcTable.Of(h, l))
  }

  predicate HasChannel(m: ProcTable.Manager, h: nat, c: nat) {
    h < |m.procs| && c < |m.procs[h].ring.chans|
  }

  ghost function Exec(run: seq<Event>): Outcome<System> {
    if run == [] then Next(Boot)
    else match Exec(run[..|run| - 1])
      case Next(s) => Step(s, run[|run| - 1])
      case Disabled => Disabled
      case Panic => Panic
  }
}
