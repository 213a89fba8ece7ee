/**
 The discipline that the goroutines of `ManagerThreads` follow - which mutexes are held where, and by whom - as an
 invariant of every run.
 */
module ThreadSafety {
  import opened Sequences
  import opened LogRing
  import opened ManagerThreads
  import Stream
  import ProcTable

  // The discipline every goroutine's remaining instructions follow

  /** Actions that only know what follows them once they have run. */
  predicate Expands(a: Action) {
    a.Register? || a.Find? || a.ListAll?
  }

  /**
   A mutex is taken holding nothing, or a process's holding the table's; bodies run under their own mutex, and nothing
   is held at the end. In particular a ring mutex is never held together with another.
   */
  ghost predicate Disciplined(held: set<Lock>, todo: seq<Instr>)
    decreases |todo|
  {
    if todo == [] then held == {}
    else match todo[0]
      case Acquire(l) =>
        (held == {} || (held == {TableLock} && l.ProcLock?)) && Disciplined(held + {l}, todo[1..])
      case Release(l) => l in held && Disciplined(held - {l}, todo[1..])
      case Do(a) =>
        if Expands(a) then held == {TableLock} && |todo| == 1
        else Guard(a) in held && Disciplined(held, todo[1..])
  }

  predicate OfCaller(a: Action) {
    !a.SetExited? && !a.Append? && !a.CloseSubs?
  }

  ghost predicate Refers(m: ProcTable.Manager, a: Action) {
    && (Target(a).Some? ==> Target(a).value < |m.procs|)
    && (a.Cancel? ==> HasChannel(m, a.h, a.c))
  }

  ghost predicate CallerOk(m: ProcTable.Manager, todo: seq<Instr>) {
    forall i :: 0 <= i < |todo| && todo[i].Do? ==> OfCaller(todo[i].action) && Refers(m, todo[i].action)
  }

  /** A pump is somewhere in its three instructions, and holds a line exactly until it has added it. */
  ghost predicate PumpOk(p: Stream.Proc, h: nat, src: Source, todo: seq<Instr>) {
    var whole := PumpProgram(h, src);
    if src in p.held then todo == whole || todo == whole[1..] else todo == whole[2..] || todo == []
  }

  /** The waiter's six instructions and the process's waiter stage go together. */
  ghost predicate WaiterOk(p: Stream.Proc, h: nat, todo: seq<Instr>) {
    var tail := WaiterProgram(h, 0, 0);
    match p.waiter
    case Waiting => todo == [] || BeforeExit(h, todo)
    case StateSet => todo == tail[2..] || todo == tail[3..] || todo == tail[4..]
    case Finished => todo == tail[5..] || todo == []
  }

  ghost predicate BeforeExit(h: nat, todo: seq<Instr>) {
    var at := if |todo| == 6 then 1 else 0;
    && 5 <= |todo| <= 6 && todo[at].Do? && todo[at].action.SetExited?
    && todo == WaiterProgram(h, todo[at].action.code, todo[at].action.at)[1 - at..]
  }

  ghost predicate ThreadOk(m: ProcTable.Manager, t: ThreadId, th: Thread) {
    && Disciplined(th.held, th.todo)
    && match t
       case Caller(_) => CallerOk(m, th.todo)
       case Pump(h, src) => h < |m.procs| && PumpOk(m.procs[h], h, src, th.todo)
       case Waiter(h) => h < |m.procs| && WaiterOk(m.procs[h], h, th.todo)
  }

  ghost predicate Exclusive(threads: map<ThreadId, Thread>) {
    forall t, u :: t in threads && u in threads && t != u ==> threads[t].held !! threads[u].held
  }

  ghost predicate Inv(s: System) {
    && ProcTable.Exec(s.trace) == Next(s.manager)
    && (forall t :: t in s.threads ==> ThreadOk(s.manager, t, s.threads[t]))
    && Exclusive(s.threads)
    && (forall h :: 0 <= h < |s.manager.procs| ==>
          Pump(h, Stdout) in s.threads && Pump(h, Stderr) in s.threads && Waiter(h) in s.threads)
  }

  // Every step keeps it

  /** Steps that move a pump's or a waiter's own stage. */
  predicate Moves(l: ProcTable.Label, t: ThreadId) {
    l.Of? &&
    match t
    case Caller(_) => false
    case Pump(h, src) => l.handle == h && ((l.step.Add? && l.step.src == src) || (l.step.Scan? && l.step.src == src))
    case Waiter(h) => l.handle == h && (l.step.SetState? || l.step.CloseSubs?)
  }

  lemma ChannelsGrow(p: Stream.Proc, l: Stream.Label)
    requires Stream.Step(p, l).Next?
    ensures |Stream.Step(p, l).value.ring.chans| >= |p.ring.chans|
    ensures forall src :: l != Stream.Add(src) && !(l.Scan? && l.src == src) ==>
              (src in Stream.Step(p, l).value.held <==> src in p.held)
    ensures !l.SetState? && !l.CloseSubs? ==> Stream.Step(p, l).value.waiter == p.waiter
  {
  }

  lemma OthersStayOk(m: ProcTable.Manager, l: ProcTable.Label, t: ThreadId, th: Thread)
    requires ThreadOk(m, t, th) && ProcTable.Step(m, l).Next? && !Moves(l, t)
    ensures ThreadOk(ProcTable.Step(m, l).value, t, th)
  {
    var m' := ProcTable.Step(m, l).value;
    if l.Of? {
      ChannelsGrow(m.procs[l.handle], l.step);
    }
    match t
    case Caller(_) =>
      forall i | 0 <= i < |th.todo| && th.todo[i].Do?
        ensures OfCaller(th.todo[i].action) && Refers(m', th.todo[i].action)
      {
        assert Refers(m, th.todo[i].action);
      }
    case Pump(h, src) =>
      ProcTable.StepAt(m, l, h);
      assert src in m'.procs[h].held <==> src in m.procs[h].held;
    case Waiter(h) =>
      ProcTable.StepAt(m, l, h);
      assert m'.procs[h].waiter == m.procs[h].waiter;
  }

  lemma Advanced(s: System, l: ProcTable.Label)
    requires Inv(s)
    ensures !Advance(s, l).Panic?
    ensures Advance(s, l).Next? ==>
              var s' := Advance(s, l).value;
              && ProcTable.Step(s.manager, l) == Next(s'.manager)
              && ProcTable.Exec(s'.trace) == Next(s'.manager)
  {
    assert (s.trace + [l])[..|s.trace|] == s.trace;
    ProcTable.ManagerNeverPanics(s.trace + [l]);
  }

  /** A thread replaced by one that holds no more, with the manager unchanged. */
  lemma ThreadReplaced(s: System, t: ThreadId, th: Thread)
    requires Inv(s) && ThreadOk(s.manager, t, th)
    requires forall l :: l in th.held ==> (t in s.threads && l in s.threads[t].held) || !Taken(s.threads, l)
    ensures Inv(s.(threads := s.threads[t := th]))
  {
  }

  lemma AcquireReleaseKeeps(s: System, t: ThreadId, order: seq<nat>)
    requires Inv(s) && t in s.threads && s.threads[t].todo != [] && !s.threads[t].todo[0].Do?
    ensures !RunNext(s, t, order).Panic?
    ensures RunNext(s, t, order).Next? ==> Inv(RunNext(s, t, order).value)
  {
    var th := s.threads[t];
    if RunNext(s, t, order).Next? {
      var th' := RunNext(s, t, order).value.threads[t];
      TailOk(s.manager, t, th, th'.held);
      ThreadReplaced(s, t, th');
    }
  }

  /** Dropping the first instruction, when it is no body, keeps a thread in order. */
  lemma TailOk(m: ProcTable.Manager, t: ThreadId, th: Thread, held: set<Lock>)
    requires ThreadOk(m, t, th) && th.todo != [] && !th.todo[0].Do?
    requires held == if th.todo[0].Acquire? then th.held + {th.todo[0].lock} else th.held - {th.todo[0].lock}
    ensures ThreadOk(m, t, Thread(held, th.todo[1..]))
  {
    match t
    case Caller(_) =>
    case Pump(h, src) =>
    case Waiter(h) =>
      var tail := WaiterProgram(h, 0, 0);
      assert tail[2..][1..] == tail[3..] && tail[3..][1..] == tail[4..] && tail[5..][1..] == [];
  }

  // Bodies

  lemma ViewsDisciplined(order: seq<nat>)
    ensures Disciplined({TableLock}, Views(order) + [Release(TableLock)])
    decreases |order|
  {
    var all := Views(order) + [Release(TableLock)];
    if order == [] {
      assert all[1..] == [] && {TableLock} - {TableLock} == {};
    } else {
      var p := ProcLock(order[0]);
      var rest := Views(order[1..]) + [Release(TableLock)];
      assert all == Locked(p, Look(order[0])) + rest;
      assert all[1..][1..][1..] == rest;
      ViewsDisciplined(order[1..]);
      assert {TableLock} + {p} - {p} == {TableLock};
    }
  }

  lemma LockedDisciplined(l: Lock, a: Action, rest: seq<Instr>)
    requires Guard(a) == l && !Expands(a) && Disciplined({}, rest)
    ensures Disciplined({}, Locked(l, a) + rest)
  {
    var all := Locked(l, a) + rest;
    assert all[1..][1..][1..] == rest;
    assert {} + {l} == {l} && {l} - {l} == {};
  }

  lemma AfterTable(rest: seq<Instr>)
    requires Disciplined({}, rest)
    ensures Disciplined({TableLock}, [Release(TableLock)] + rest)
  {
    assert ([Release(TableLock)] + rest)[1..] == rest && {TableLock} - {TableLock} == {};
  }

  lemma SequelDisciplined(m: ProcTable.Manager, a: Action, order: seq<nat>)
    requires Expands(a)
    ensures Disciplined({TableLock}, Sequel(m, a, order))
  {
    assert Disciplined({}, []);
    match a
    case Register =>
      var h := |m.procs|;
      LockedDisciplined(ProcLock(h), Look(h), []);
      assert Locked(ProcLock(h), Look(h)) + [] == Locked(ProcLock(h), Look(h));
      AfterTable(Locked(ProcLock(h), Look(h)));
    case Find(id, purpose) =>
      var last := if purpose == ToRemove then Locked(TableLock, Delete(id)) else [];
      if purpose == ToRemove {
        LockedDisciplined(TableLock, Delete(id), []);
        assert Locked(TableLock, Delete(id)) + [] == last;
      }
      var found := ProcTable.Lookup(m.table, id);
      if found == None {
        assert AfterFind(id, purpose, found) == last;
      } else {
        var h := found.value;
        match purpose {
          case ToReadLogs => LockedDisciplined(RingLock(h), Snapshot(h), last);
          case ToSubscribe => LockedDisciplined(RingLock(h), Subscribe(h), last);
          case _ => LockedDisciplined(ProcLock(h), Look(h), last);
        }
      }
      AfterTable(AfterFind(id, purpose, found));
    case ListAll =>
      ViewsDisciplined(order);
  }

  lemma ViewsAreViews(order: seq<nat>, i: nat)
    requires i < |Views(order)| && Views(order)[i].Do?
    ensures Views(order)[i].action.Look? && Views(order)[i].action.h in order
    decreases |order|
  {
    if i >= 3 {
      ViewsAreViews(order[1..], i - 3);
    }
  }

  lemma AfterFindRefers(m: ProcTable.Manager, id: string, purpose: Purpose, found: Option<nat>)
    requires found.Some? ==> found.value < |m.procs|
    ensures CallerOk(m, AfterFind(id, purpose, found))
  {
  }

  lemma ViewsRefer(m: ProcTable.Manager, order: seq<nat>)
    requires forall h :: h in order ==> h < |m.procs|
    ensures CallerOk(m, Views(order))
  {
    forall i | 0 <= i < |Views(order)| && Views(order)[i].Do?
      ensures OfCaller(Views(order)[i].action) && Refers(m, Views(order)[i].action)
    {
      ViewsAreViews(order, i);
    }
  }

  /** What an expanding body adds refers to processes that exist: the table never names one that was not registered. */
  lemma SequelRefers(s: System, a: Action, order: seq<nat>, m': ProcTable.Manager)
    requires Inv(s) && Expands(a)
    requires a == ListAll ==> Enumerates(order, s.manager.table.entries.Values)
    requires ProcTable.Step(s.manager, LabelOf(s.manager, a)) == Next(m')
    ensures CallerOk(m', Sequel(s.manager, a, order))
  {
    ProcTable.TableAfter(s.trace);
    match a
    case Register =>
    case Find(id, purpose) => AfterFindRefers(m', id, purpose, ProcTable.Lookup(s.manager.table, id));
    case ListAll => ViewsRefer(m', order);
  }

  /** Callers run callers' bodies, each pump adds its own line, and each waiter makes its own two steps. */
  lemma BodyBelongs(m: ProcTable.Manager, t: ThreadId, th: Thread, a: Action)
    requires ThreadOk(m, t, th) && th.todo != [] && th.todo[0] == Do(a)
    ensures Guard(a) in th.held
    ensures Refers(m, a)
    ensures match t
            case Caller(_) => OfCaller(a)
            case Pump(h, src) => a == Append(h, src) && src in m.procs[h].held
            case Waiter(h) =>
              || (a.SetExited? && a.h == h && m.procs[h].waiter == Stream.Waiting)
              || (a == CloseSubs(h) && m.procs[h].waiter == Stream.StateSet)
  {
  }

  lemma BodyEnabled(m: ProcTable.Manager, t: ThreadId, th: Thread, a: Action)
    requires ThreadOk(m, t, th) && th.todo != [] && th.todo[0] == Do(a)
    requires Target(a).Some? ==> Target(a).value < |m.procs|
    ensures ProcTable.Step(m, LabelOf(m, a)) != Disabled
  {
    BodyBelongs(m, t, th, a);
  }

  /** The body a goroutine has next refers to something that exists and can run; the lock discipline guards it. */
  lemma BodyCanRun(s: System, t: ThreadId, a: Action)
    requires Inv(s) && t in s.threads && s.threads[t].todo != [] && s.threads[t].todo[0] == Do(a)
    ensures Guard(a) in s.threads[t].held
    ensures Refers(s.manager, a)
    ensures Advance(s, LabelOf(s.manager, a)).Next?
    ensures forall u :: u in s.threads && u != t ==> !Moves(LabelOf(s.manager, a), u)
    ensures t.Caller? <==> OfCaller(a)
  {
    assert ThreadOk(s.manager, t, s.threads[t]);
    BodyBelongs(s.manager, t, s.threads[t], a);
    BodyEnabled(s.manager, t, s.threads[t], a);
    Advanced(s, LabelOf(s.manager, a));
  }

  lemma CallerBodyKeeps(s: System, t: ThreadId, a: Action, order: seq<nat>)
    requires Inv(s) && t in s.threads && s.threads[t].todo != [] && s.threads[t].todo[0] == Do(a) && t.Caller?
    requires RunNext(s, t, order).Next?
    ensures var m', th' := RunNext(s, t, order).value.manager, RunNext(s, t, order).value.threads[t];
            ThreadOk(m', t, th') && th'.held == s.threads[t].held
  {
    var th := s.threads[t];
    var s' := RunNext(s, t, order).value;
    BodyCanRun(s, t, a);
    var did := LabelOf(s.manager, a);
    Advanced(s, did);
    OthersStayOk(s.manager, did, t, th);
    if Expands(a) {
      assert th.todo[1..] == [];
      assert s'.threads[t].todo == Sequel(s.manager, a, order);
      SequelDisciplined(s.manager, a, order);
      SequelRefers(s, a, order, s'.manager);
    } else {
      assert s'.threads[t].todo == th.todo[1..];
    }
  }

  lemma ServiceStage(m: ProcTable.Manager, t: ThreadId, th: Thread, a: Action, m': ProcTable.Manager)
    requires ThreadOk(m, t, th) && th.todo != [] && th.todo[0] == Do(a) && !t.Caller?
    requires Refers(m, a) && ProcTable.Step(m, LabelOf(m, a)) == Next(m')
    ensures ThreadOk(m', t, th.(todo := th.todo[1..]))
  {
    BodyBelongs(m, t, th, a);
    match t
    case Pump(h, src) =>
      assert PumpProgram(h, src)[1..][1..] == PumpProgram(h, src)[2..];
      assert src !in m'.procs[h].held;
    case Waiter(h) =>
      var tail := WaiterProgram(h, 0, 0);
      assert tail[4..][1..] == tail[5..];
      if a.SetExited? {
        assert th.todo[1..] == tail[2..];
        assert m'.procs[h].waiter == Stream.StateSet;
      } else {
        assert th.todo == tail[4..];
        assert m'.procs[h].waiter == Stream.Finished;
      }
  }

  lemma ServiceBodyKeeps(s: System, t: ThreadId, a: Action, order: seq<nat>)
    requires Inv(s) && t in s.threads && s.threads[t].todo != [] && s.threads[t].todo[0] == Do(a) && !t.Caller?
    requires RunNext(s, t, order).Next?
    ensures var m', th' := RunNext(s, t, order).value.manager, RunNext(s, t, order).value.threads[t];
            ThreadOk(m', t, th') && th'.held == s.threads[t].held
  {
    BodyCanRun(s, t, a);
    Advanced(s, LabelOf(s.manager, a));
    assert RunNext(s, t, order).value.threads[t].todo == s.threads[t].todo[1..];
    ServiceStage(s.manager, t, s.threads[t], a, RunNext(s, t, order).value.manager);
  }

  /** What running a body changes: the manager makes one step, and the goroutine's instructions move on. */
  lemma BodyResult(s: System, t: ThreadId, a: Action, order: seq<nat>)
    requires Inv(s) && t in s.threads && s.threads[t].todo != [] && s.threads[t].todo[0] == Do(a)
    ensures !RunNext(s, t, order).Panic?
    ensures RunNext(s, t, order).Next? ==>
              var s', did := RunNext(s, t, order).value, LabelOf(s.manager, a);
              && ProcTable.Step(s.manager, did) == Next(s'.manager) && ProcTable.Exec(s'.trace) == Next(s'.manager)
              && t in s'.threads && s'.threads[t].held == s.threads[t].held
              && var base := s.threads[t := s'.threads[t]];
              s'.threads == if did.Register? then Spawn(base, |s.manager.procs|) else base
  {
    BodyCanRun(s, t, a);
    Advanced(s, LabelOf(s.manager, a));
    SpawnedAreNew(s);
  }

  lemma BodyKeeps(s: System, t: ThreadId, a: Action, order: seq<nat>)
    requires Inv(s) && t in s.threads && s.threads[t].todo != [] && s.threads[t].todo[0] == Do(a)
    ensures !RunNext(s, t, order).Panic?
    ensures RunNext(s, t, order).Next? ==> Inv(RunNext(s, t, order).value)
  {
    BodyCanRun(s, t, a);
    BodyResult(s, t, a, order);
    if RunNext(s, t, order).Next? {
      if t.Caller? { CallerBodyKeeps(s, t, a, order); } else { ServiceBodyKeeps(s, t, a, order); }
      AfterBody(s, RunNext(s, t, order).value, t, LabelOf(s.manager, a));
    }
  }

  /** The goroutines a registration starts are new. */
  lemma SpawnedAreNew(s: System)
    requires Inv(s)
    ensures var h := |s.manager.procs|;
            Pump(h, Stdout) !in s.threads && Pump(h, Stderr) !in s.threads && Waiter(h) !in s.threads
  {
    assert forall u :: u in s.threads ==> ThreadOk(s.manager, u, s.threads[u]);
  }

  lemma SpawnedAreOk(m: ProcTable.Manager, m': ProcTable.Manager, did: ProcTable.Label, u: ThreadId)
    requires did.Register? && ProcTable.Step(m, did) == Next(m')
    requires u == Waiter(|m.procs|) || (u.Pump? && u.h == |m.procs|)
    ensures ThreadOk(m', u, Thread({}, []))
  {
    ProcTable.StepAt(m, did, |m.procs|);
  }

  lemma ExclusiveKept(threads: map<ThreadId, Thread>, threads': map<ThreadId, Thread>)
    requires Exclusive(threads)
    requires forall u :: u in threads' ==>
               threads'[u].held == {} || (u in threads && threads'[u].held == threads[u].held)
    ensures Exclusive(threads')
  {
  }

  lemma ThreadAfterBody(s: System, s': System, t: ThreadId, did: ProcTable.Label, u: ThreadId)
    requires Inv(s) && t in s.threads && t in s'.threads && u in s'.threads && u != t
    requires ProcTable.Step(s.manager, did) == Next(s'.manager)
    requires u in s.threads ==> !Moves(did, u)
    requires var base := s.threads[t := s'.threads[t]];
             s'.threads == if did.Register? then Spawn(base, |s.manager.procs|) else base
    ensures ThreadOk(s'.manager, u, s'.threads[u])
    ensures s'.threads[u].held == {} || (u in s.threads && s'.threads[u].held == s.threads[u].held)
  {
    SpawnedAreNew(s);
    if u in s.threads {
      assert s'.threads[u] == s.threads[u];
      OthersStayOk(s.manager, did, u, s.threads[u]);
    } else {
      assert s'.threads[u] == Thread({}, []);
      SpawnedAreOk(s.manager, s'.manager, did, u);
    }
  }

  /** Every process, a new one included, has its three goroutines. */
  lemma ServicesKept(s: System, s': System, t: ThreadId, did: ProcTable.Label)
    requires Inv(s) && t in s.threads && t in s'.threads
    requires ProcTable.Step(s.manager, did) == Next(s'.manager)
    requires var base := s.threads[t := s'.threads[t]];
             s'.threads == if did.Register? then Spawn(base, |s.manager.procs|) else base
    ensures forall h :: 0 <= h < |s'.manager.procs| ==>
              Pump(h, Stdout) in s'.threads && Pump(h, Stderr) in s'.threads && Waiter(h) in s'.threads
  {
    forall h | 0 <= h < |s'.manager.procs|
      ensures Pump(h, Stdout) in s'.threads && Pump(h, Stderr) in s'.threads && Waiter(h) in s'.threads
    {
      ProcTable.StepAt(s.manager, did, h);
      if h < |s.manager.procs| {
        assert Pump(h, Stdout) in s.threads && Pump(h, Stderr) in s.threads && Waiter(h) in s.threads;
      }
    }
  }

  /** Assembling the invariant after a body: the thread that ran it, the threads that did not, and any it started. */
  lemma AfterBody(s: System, s': System, t: ThreadId, did: ProcTable.Label)
    requires Inv(s) && t in s.threads && t in s'.threads
    requires ProcTable.Step(s.manager, did) == Next(s'.manager) && ProcTable.Exec(s'.trace) == Next(s'.manager)
    requires forall u :: u in s.threads && u != t ==> !Moves(did, u)
    requires ThreadOk(s'.manager, t, s'.threads[t]) && s'.threads[t].held == s.threads[t].held
    requires var base := s.threads[t := s'.threads[t]];
             s'.threads == if did.Register? then Spawn(base, |s.manager.procs|) else base
    ensures Inv(s')
  {
    forall u | u in s'.threads
      ensures ThreadOk(s'.manager, u, s'.threads[u])
      ensures s'.threads[u].held == {} || (u in s.threads && s'.threads[u].held == s.threads[u].held)
    {
      if u != t {
        ThreadAfterBody(s, s', t, did, u);
      }
    }
    ExclusiveKept(s.threads, s'.threads);
    ServicesKept(s, s', t, did);
  }

  // The other events

  lemma CallKeeps(s: System, n: nat, op: Op)
    requires Inv(s) && Step(s, Call(n, op)).Next?
    ensures Inv(Step(s, Call(n, op)).value)
  {
    var th := Thread({}, Program(op));
    assert Disciplined({}, th.todo) by {
      if op.CancelStream? {
        LockedDisciplined(RingLock(op.h), Cancel(op.h, op.c), []);
        assert th.todo + [] == th.todo;
      } else {
        assert {} + {TableLock} == {TableLock} && th.todo[1..][1..] == [];
      }
    }
    ThreadReplaced(s, Caller(n), th);
  }

  lemma ScanKeeps(s: System, e: Event)
    requires Inv(s) && e.Scan? && Step(s, e).Next?
    ensures Inv(Step(s, e).value)
  {
    var did, t := ProcTable.Of(e.h, Stream.Scan(e.src, e.text, e.at)), Pump(e.h, e.src);
    Advanced(s, did);
    LockedDisciplined(RingLock(e.h), Append(e.h, e.src), []);
    assert PumpProgram(e.h, e.src) + [] == PumpProgram(e.h, e.src);
    assert s.threads[t].held == {};
    AfterBody(s, Step(s, e).value, t, did);
  }

  lemma ReapKeeps(s: System, e: Event)
    requires Inv(s) && e.Reap? && Step(s, e).Next?
    ensures Inv(Step(s, e).value)
  {
    var last := Locked(RingLock(e.h), CloseSubs(e.h));
    LockedDisciplined(RingLock(e.h), CloseSubs(e.h), []);
    assert last + [] == last;
    LockedDisciplined(ProcLock(e.h), SetExited(e.h, e.code, e.at), last);
    var todo := WaiterProgram(e.h, e.code, e.at);
    assert todo[0..] == todo;
    ThreadReplaced(s, Waiter(e.h), Thread({}, todo));
  }

  lemma ReceiveKeeps(s: System, e: Event)
    requires Inv(s) && e.Receive? && Step(s, e).Next?
    ensures Inv(Step(s, e).value)
  {
    var did, s' := ProcTable.Of(e.h, e.l), Step(s, e).value;
    Advanced(s, did);
    ProcTable.StepAt(s.manager, did, e.h);
    forall u | u in s'.threads
      ensures ThreadOk(s'.manager, u, s'.threads[u])
    {
      OthersStayOk(s.manager, did, u, s.threads[u]);
    }
  }

  lemma StepKeeps(s: System, e: Event)
    requires Inv(s)
    ensures !Step(s, e).Panic?
    ensures Step(s, e).Next? ==> Inv(Step(s, e).value)
  {
    match e
    case Run(t, order) =>
      if t in s.threads && s.threads[t].todo != [] {
        if s.threads[t].todo[0].Do? {
          BodyKeeps(s, t, s.threads[t].todo[0].action, order);
        } else {
          AcquireReleaseKeeps(s, t, order);
        }
      }
    case Call(n, op) => if Step(s, e).Next? { CallKeeps(s, n, op); }
    case Scan(h, src, text, at) =>
      Advanced(s, ProcTable.Of(h, Stream.Scan(src, text, at)));
      if Step(s, e).Next? { ScanKeeps(s, e); }
    case Reap(_, _, _) => if Step(s, e).Next? { ReapKeeps(s, e); }
    case Receive(h, l) =>
      Advanced(s, ProcTable.Of(h, l));
      if Step(s, e).Next? { ReceiveKeeps(s, e); }
  }

  lemma {:induction false} RunKeeps(run: seq<Event>)
    ensures !Exec(run).Panic?
    ensures Exec(run).Next? ==> Inv(Exec(run).value)
  {
    if run != [] {
      RunKeeps(run[..|run| - 1]);
      if Exec(run[..|run| - 1]).Next? {
        StepKeeps(Exec(run[..|run| - 1]).value, run[|run| - 1]);
      }
    }
  }
}
