/**
 The goroutines of `ManagerThreads` with their critical sections taken apart (internal/procapi/procapi.go). A body first
 loads what it reads into variables of its own, and then writes: one field, one channel send or one close at a time.
 Nothing here asks whether the goroutine holds the mutex; between any two instructions others run, and receivers, who
 need no mutex, receive.
 */
module Goroutines {
  import opened Sequences
  import opened LogRing
  import opened ManagerThreads
  import Stream
  import ProcTable

  /** How far a goroutine has got with a body, and what it has loaded or has left to do. */
  datatype Body =
    | Outside
    | HasTable(table: ProcTable.Table)
    | HasView(view: Stream.View)
    | Writing(written: nat)
    | HasRing(lines: seq<LogLine>, subs: set<nat>, closed: bool)
    | Forgotten
    | Sending(line: LogLine, left: set<nat>)
    | Closing(left: set<nat>)

  /** Shared memory and goroutines; a pump's scanned line and the waiter's stage are in `mem` too, for their owners. */
  datatype Machine = Machine(threads: map<ThreadId, Thread>, bodies: map<ThreadId, Body>, mem: ProcTable.Manager)

  const Initial := Machine(map[], map[], ProcTable.New)

  function BodyOf(f: Machine, t: ThreadId): Body {
    if t in f.bodies then f.bodies[t] else Outside
  }

  /** What one instruction of a body leads to. */
  datatype Progress = More(mem: ProcTable.Manager, body: Body) | Done(mem: ProcTable.Manager) | Crash | Stuck

  function WithProc(mem: ProcTable.Manager, h: nat, p: Stream.Proc): ProcTable.Manager
    requires h < |mem.procs|
  {
    mem.(procs := mem.procs[h := p])
  }

  function WithRing(mem: ProcTable.Manager, h: nat, r: Ring): ProcTable.Manager
    requires h < |mem.procs|
  {
    WithProc(mem, h, mem.procs[h].(ring := r))
  }

  function Load(mem: ProcTable.Manager, a: Action): Body
    requires Target(a).Some? ==> Target(a).value < |mem.procs|
  {
    match Guard(a)
    case TableLock => HasTable(mem.table)
    case ProcLock(h) => if a.SetExited? then Writing(0) else HasView(Stream.ViewOf(mem.procs[h]))
    case RingLock(h) =>
      var r := mem.procs[h].ring;
      HasRing(r.lines, r.subs, r.closed)
  }

  function PublishTable(mem: ProcTable.Manager, a: Action, table: ProcTable.Table): Progress {
    match a
    case Register => Done(ProcTable.Manager(ProcTable.Put(table), mem.procs + [Stream.Start(ProcTable.RING_MAX)]))
    case Delete(id) => Done(mem.(table := ProcTable.Drop(table, id)))
    case Find(_, _) | ListAll => Done(mem)
    case _ => Stuck
  }

  /** `setState` assigns its three fields one by one. */
  function WriteExit(mem: ProcTable.Manager, h: nat, code: int, at: int, written: nat): Progress
    requires h < |mem.procs|
  {
    var p := mem.procs[h];
    match written
    case 0 => More(WithProc(mem, h, p.(state := Stream.Exited)), Writing(1))
    case 1 => More(WithProc(mem, h, p.(exitCode := code)), Writing(2))
    case _ => Done(WithProc(mem, h, p.(endedAt := Some(at), waiter := Stream.StateSet)))
  }

  /** The first write of a ring body, computed from what it loaded. */
  function PublishRing(mem: ProcTable.Manager, h: nat, a: Action, lines: seq<LogLine>, subs: set<nat>, closed: bool)
      : Progress
    requires h < |mem.procs|
  {
    var p := mem.procs[h];
    var r := p.ring;
    match a
    case Append(_, src) =>
      if src !in p.held then Stuck
      else More(WithRing(mem, h, r.(lines := Window(lines, p.held[src], r.max))), Sending(p.held[src], subs))
    case Subscribe(_) =>
      Done(WithRing(mem, h, r.(chans := r.chans + [Chan([], !closed)],
                               subs := if closed then subs else subs + {|r.chans|})))
    case Snapshot(_) => Done(mem)
    case Cancel(_, c) => if c in subs then More(WithRing(mem, h, r.(subs := subs - {c})), Forgotten) else Done(mem)
    case CloseSubs(_) =>
      if closed then Done(WithProc(mem, h, p.(waiter := Stream.Finished)))
      else More(WithRing(mem, h, r.(closed := true)), Closing(subs))
    case _ => Stuck
  }

  /** One send that does not block; sending on a closed channel crashes. */
  function SendOne(mem: ProcTable.Manager, h: nat, line: LogLine, left: set<nat>, pick: nat): Progress
    requires h < |mem.procs|
  {
    var r := mem.procs[h].ring;
    if pick !in left || pick >= |r.chans| then Stuck
    else if !r.chans[pick].open then Crash
    else
      var ch := TrySend(r.chans[pick], line);
      More(WithRing(mem, h, r.(chans := r.chans[pick := ch])), Sending(line, left - {pick}))
  }

  /** One round of the loop of `closeSubs`; closing a closed channel crashes. */
  function CloseOne(mem: ProcTable.Manager, h: nat, left: set<nat>, pick: nat): Progress
    requires h < |mem.procs|
  {
    var r := mem.procs[h].ring;
    if pick !in left || pick >= |r.chans| then Stuck
    else match Close(r.chans[pick])
      case Next(ch) =>
        More(WithRing(mem, h, r.(subs := r.subs - {pick}, chans := r.chans[pick := ch])), Closing(left - {pick}))
      case _ => Crash
  }

  function CloseForgotten(mem: ProcTable.Manager, h: nat, c: nat): Progress
    requires h < |mem.procs|
  {
    var r := mem.procs[h].ring;
    if c >= |r.chans| then Stuck
    else match Close(r.chans[c])
      case Next(ch) => Done(WithRing(mem, h, r.(chans := r.chans[c := ch])))
      case _ => Crash
  }

  /** The next instruction of a body; `pick` is the channel the loop over the subscribers comes to next. */
  function Instruct(mem: ProcTable.Manager, a: Action, body: Body, pick: nat): Progress
    requires Target(a).Some? ==> Target(a).value < |mem.procs|
  {
    match body
    case Outside => More(mem, Load(mem, a))
    case HasTable(table) => PublishTable(mem, a, table)
    case HasView(_) => Done(mem)
    case Writing(n) => if a.SetExited? then WriteExit(mem, a.h, a.code, a.at, n) else Stuck
    case HasRing(lines, subs, closed) =>
      if Guard(a).RingLock? then PublishRing(mem, Guard(a).h, a, lines, subs, closed) else Stuck
    case Forgotten => if a.Cancel? then CloseForgotten(mem, a.h, a.c) else Stuck
    case Sending(line, left) =>
      if !a.Append? then Stuck
      else if left == {} then
        Done(WithProc(mem, a.h, mem.procs[a.h].(held := mem.procs[a.h].held - {a.src})))
      else SendOne(mem, a.h, line, left, pick)
    case Closing(left) =>
      if !a.CloseSubs? then Stuck
      else if left == {} then Done(WithProc(mem, a.h, mem.procs[a.h].(waiter := Stream.Finished)))
      else CloseOne(mem, a.h, left, pick)
  }

  /** What follows a body is decided by what it loaded. */
  function After(f: Machine, t: ThreadId, a: Action, order: seq<nat>): seq<Instr> {
    var body := BodyOf(f, t);
    Sequel(if body.HasTable? then f.mem.(table := body.table) else f.mem, a, order)
  }

  ghost function RunBody(f: Machine, t: ThreadId, a: Action, order: seq<nat>): Outcome<Machine>
    requires t in f.threads && f.threads[t].todo != []
  {
    var body := BodyOf(f, t);
    if Target(a).Some? && Target(a).value >= |f.mem.procs| then Disabled
    else if a == ListAll && body.HasTable? && !Enumerates(order, body.table.entries.Values) then Disabled
    else match Instruct(f.mem, a, body, if order == [] then 0 else order[0])
      case More(mem, next) => Next(f.(mem := mem, bodies := f.bodies[t := next]))
      case Done(mem) =>
        var th := f.threads[t];
        var threads := f.threads[t := th.(todo := After(f, t, a, order) + th.todo[1..])];
        Next(Machine(if a == Register then Spawn(threads, |f.mem.procs|) else threads, f.bodies[t := Outside], mem))
      case Crash => Panic
      case Stuck => Disabled
  }

  ghost function RunNext(f: Machine, t: ThreadId, order: seq<nat>): Outcome<Machine>
    requires t in f.threads && f.threads[t].todo != []
  {
    var th := f.threads[t];
    var rest := th.todo[1..];
    match th.todo[0]
    case Acquire(l) =>
      if Taken(f.threads, l) then Disabled else Next(f.(threads := f.threads[t := Thread(th.held + {l}, rest)]))
    case Release(l) =>
      if l !in th.held then Panic else Next(f.(threads := f.threads[t := Thread(th.held - {l}, rest)]))
    case Do(a) => RunBody(f, t, a, order)
  }

  /** A pump's scan or a channel receive, done by one process on its own. */
  function Privately(f: Machine, h: nat, l: Stream.Label): Outcome<Machine> {
    if h >= |f.mem.procs| then Disabled
    else match Stream.Step(f.mem.procs[h], l)
      case Next(p) => Next(f.(mem := WithProc(f.mem, h, p)))
      case Disabled => Disabled
      case Panic => Panic
  }

  /** The events are those of `ManagerThreads`; the first of `order` also tells which channel a loop comes to. */
  ghost function Step(f: Machine, e: Event): Outcome<Machine> {
    match e
    case Run(t, order) =>
      if t !in f.threads || f.threads[t].todo == [] then Disabled else RunNext(f, t, order)
    case Call(n, op) =>
      if Caller(n) in f.threads || (op.CancelStream? && !HasChannel(f.mem, op.h, op.c)) then Disabled
      else Next(f.(threads := f.threads[Caller(n) := Thread({}, Program(op))]))
    case Scan(h, src, text, at) =>
      if !Idle(f.threads, Pump(h, src)) then Disabled
      else (match Privately(f, h, Stream.Scan(src, text, at))
        case Next(g) => Next(g.(threads := f.threads[Pump(h, src) := Thread({}, PumpProgram(h, src))]))
        case Disabled => Disabled
        case Panic => Panic)
    case Reap(h, code, at) =>
      if !Idle(f.threads, Waiter(h)) || h >= |f.mem.procs| || f.mem.procs[h].waiter != Stream.Waiting then Disabled
      else Next(f.(threads := f.threads[Waiter(h) := Thread({}, WaiterProgram(h, code, at))]))
    case Receive(h, l) => if !l.Receive? && !l.ReceiveClosed? then Disabled else Privately(f, h, l)
  }

  ghost function Exec(run: seq<Event>): Outcome<Machine> {
    if run == [] then Next(Initial)
    else match Exec(run[..|run| - 1])
      case Next(f) => Step(f, run[|run| - 1])
      case Disabled => Disabled
      case Panic => Panic
  }
}
