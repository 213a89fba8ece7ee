/**
 The mutexes make critical sections atomic: every interleaving of the instructions of `Goroutines` is matched by a run
 of `ManagerThreads`, where each body runs in one go, and so by a run of `ProcTable`. A body is matched where it ends.
 Lines received meanwhile from channels the body has served already are matched right after it.
 */
module Atomicity {
  import opened Sequences
  import opened LogRing
  import opened ManagerThreads
  import opened Goroutines
  import opened ThreadSafety
  import opened Bodies
  import ProcTable
  import Stories
  import Stream
  import StreamTheorems

  // The relation

  /** Goroutine `t` is inside a body that mutex `l` is meant to guard. Nothing is said about holding it. */
  ghost predicate Inside(f: Machine, t: ThreadId, l: Lock) {
    && t in f.threads && BodyOf(f, t) != Outside
    && f.threads[t].todo != [] && f.threads[t].todo[0].Do? && Guard(f.threads[t].todo[0].action) == l
  }

  ghost predicate Busy(f: Machine, l: Lock) {
    exists t :: Inside(f, t, l)
  }

  type Later = map<Lock, seq<Stream.Label>>

  function Of(d: Later, l: Lock): seq<Stream.Label> {
    if l in d then d[l] else []
  }

  ghost predicate At(f: Machine, m: ProcTable.Manager, d: Later, l: Lock) {
    && (forall t :: Inside(f, t, l) ==> Mid(f.mem, m, f.threads[t].todo[0].action, BodyOf(f, t), Of(d, l)))
    && (!Busy(f, l) ==> Settled(f.mem, m, l, Of(d, l)))
  }

  ghost predicate BodiesBelong(f: Machine) {
    forall t :: BodyOf(f, t) != Outside ==> t in f.threads && f.threads[t].todo != [] && f.threads[t].todo[0].Do?
  }

  ghost predicate Related(f: Machine, s: System, d: Later) {
    && f.threads == s.threads && Inv(s)
    && BodiesBelong(f)
    && SamePrivates(f.mem, s.manager)
    && forall l :: At(f, s.manager, d, l)
  }

  /** This is where the mutexes come in: whoever is inside a body holds its mutex, so nobody else is. */
  lemma Alone(f: Machine, s: System, d: Later, t: ThreadId, u: ThreadId, l: Lock)
    requires Related(f, s, d) && t in f.threads && f.threads[t].todo != []
    requires f.threads[t].todo[0].Do? && Guard(f.threads[t].todo[0].action) == l && Inside(f, u, l)
    ensures t == u
  {
    BodyCanRun(s, t, f.threads[t].todo[0].action);
    BodyCanRun(s, u, f.threads[u].todo[0].action);
  }

  lemma RingIsOpen(s: System, h: nat)
    requires Inv(s) && h < |s.manager.procs|
    ensures AllOpen(s.manager.procs[h].ring)
  {
    ProcTable.ProcessesAreIndependent(s.trace, h);
    StreamTheorems.ChannelSafety(ProcTable.RING_MAX, ProcTable.Project(s.trace, h));
  }

  // The other mutexes

  /** What `l` guards is the same in both, as far as it is there. */
  ghost predicate SameFor(x: ProcTable.Manager, y: ProcTable.Manager, l: Lock) {
    && |x.procs| <= |y.procs|
    && match l
       case TableLock => x.table == y.table
       case ProcLock(h) => h < |x.procs| ==> Stream.ViewOf(x.procs[h]) == Stream.ViewOf(y.procs[h])
       case RingLock(h) => h < |x.procs| ==> x.procs[h].ring == y.procs[h].ring
  }

  /** The same goroutines are inside the bodies of `l`, just as far. */
  ghost predicate SameInside(f: Machine, g: Machine, l: Lock) {
    forall t :: (Inside(f, t, l) <==> Inside(g, t, l)) &&
                (Inside(f, t, l) ==> BodyOf(f, t) == BodyOf(g, t) && f.threads[t].todo[0] == g.threads[t].todo[0])
  }

  /** A pump that is adding a line still holds it. */
  ghost predicate SameHeld(f: Machine, m: ProcTable.Manager, m': ProcTable.Manager, l: Lock) {
    forall t :: Inside(f, t, l) && f.threads[t].todo[0].action.Append? ==>
      var a := f.threads[t].todo[0].action;
      a.h < |m.procs| && a.h < |m'.procs| &&
      (a.src in m.procs[a.h].held ==>
         a.src in m'.procs[a.h].held && m'.procs[a.h].held[a.src] == m.procs[a.h].held[a.src])
  }

  lemma AtFrame(f: Machine, m: ProcTable.Manager, d: Later, g: Machine, m': ProcTable.Manager, d': Later, l: Lock)
    requires At(f, m, d, l) && SameInside(f, g, l) && SameHeld(f, m, m', l)
    requires SameFor(f.mem, g.mem, l) && SameFor(m, m', l) && Of(d, l) == Of(d', l)
    requires |f.mem.procs| == |m.procs| && |g.mem.procs| == |m'.procs|
    requires forall h :: |m.procs| <= h < |m'.procs| ==> g.mem.procs[h] == m'.procs[h]
    ensures At(g, m', d', l)
  {
    forall t | Inside(g, t, l)
      ensures Mid(g.mem, m', g.threads[t].todo[0].action, BodyOf(g, t), Of(d', l))
    {
      assert Inside(f, t, l);
      assert Mid(f.mem, m, f.threads[t].todo[0].action, BodyOf(f, t), Of(d, l));
    }
    assert Busy(f, l) ==> Busy(g, l) by { if t :| Inside(f, t, l) { assert Inside(g, t, l); } }
  }

  /** A goroutine outside all bodies goes on, or a new one begins; memory and manager stay. */
  lemma QuietStep(f: Machine, s: System, d: Later, g: Machine, s': System)
    requires Related(f, s, d) && Inv(s') && g.threads == s'.threads
    requires g.mem == f.mem && g.bodies == f.bodies && s'.manager == s.manager
    requires forall t :: BodyOf(f, t) != Outside ==> t in g.threads && g.threads[t] == f.threads[t]
    ensures Related(g, s', d)
  {
    forall l
      ensures At(g, s'.manager, d, l)
    {
      assert At(f, s.manager, d, l);
      assert SameInside(f, g, l);
      HeldStays(f, s.manager, d, l);
      AtFrame(f, s.manager, d, g, s'.manager, d, l);
    }
  }

  /** One instruction inside a body, not the last. */
  lemma BodyGoesOn(f: Machine, s: System, d: Later, t: ThreadId, order: seq<nat>)
    requires Related(f, s, d) && t in f.threads && f.threads[t].todo != [] && f.threads[t].todo[0].Do?
    ensures var a, pick := f.threads[t].todo[0].action, if order == [] then 0 else order[0];
            && (Target(a).Some? ==> Target(a).value < |f.mem.procs|)
            && var p := Instruct(f.mem, a, BodyOf(f, t), pick);
            && p != Crash
            && (p.More? ==> Related(f.(mem := p.mem, bodies := f.bodies[t := p.body]), s, d))
  {
    var a, pick := f.threads[t].todo[0].action, if order == [] then 0 else order[0];
    var body, l := BodyOf(f, t), Guard(a);
    BodyCanRun(s, t, a);
    var p := Instruct(f.mem, a, body, pick);
    assert At(f, s.manager, d, l);
    if body == Outside {
      assert !Busy(f, l) by { if u :| Inside(f, u, l) { Alone(f, s, d, t, u, l); } }
      LoadIsMid(f.mem, s.manager, a, Of(d, l));
    } else {
      assert Inside(f, t, l);
      if l.RingLock? { RingIsOpen(s, l.h); }
      InstructKeeps(f.mem, s.manager, a, body, Of(d, l), pick);
    }
    if p.More? {
      MoreKeeps(f, s, d, t, a, p);
    }
  }

  lemma MoreKeeps(f: Machine, s: System, d: Later, t: ThreadId, a: Action, p: Progress)
    requires Related(f, s, d) && t in f.threads && f.threads[t].todo != [] && f.threads[t].todo[0] == Do(a)
    requires p.More? && p.body != Outside && Mid(p.mem, s.manager, a, p.body, Of(d, Guard(a)))
    requires Elsewhere(f.mem, p.mem, Guard(a)) && SamePrivates(p.mem, s.manager)
    ensures Related(f.(mem := p.mem, bodies := f.bodies[t := p.body]), s, d)
  {
    var g := f.(mem := p.mem, bodies := f.bodies[t := p.body]);
    MoreMoves(f, t, a, g, p.body);
    HeldEverywhere(f, s, d);
    OthersKept(f, s, d, t, a, g, s.manager);
    OwnAt(f, s, d, t, a, g);
    Assemble(g, s, d, Guard(a));
  }

  lemma MoreMoves(f: Machine, t: ThreadId, a: Action, g: Machine, body: Body)
    requires BodiesBelong(f) && t in f.threads && f.threads[t].todo != [] && f.threads[t].todo[0] == Do(a)
    requires g.threads == f.threads && g.bodies == f.bodies[t := body]
    ensures OnlyMoved(f, g, t) && BodiesBelong(g)
    ensures forall l :: l != Guard(a) ==> !Inside(g, t, l)
  {
  }

  lemma HeldEverywhere(f: Machine, s: System, d: Later)
    requires Related(f, s, d)
    ensures forall l :: SameHeld(f, s.manager, s.manager, l)
  {
    forall l
      ensures SameHeld(f, s.manager, s.manager, l)
    {
      assert At(f, s.manager, d, l);
      HeldStays(f, s.manager, d, l);
    }
  }

  lemma Assemble(g: Machine, s: System, d: Later, own: Lock)
    requires g.threads == s.threads && Inv(s) && BodiesBelong(g) && SamePrivates(g.mem, s.manager)
    requires At(g, s.manager, d, own) && forall l :: l != own ==> At(g, s.manager, d, l)
    ensures Related(g, s, d)
  {
  }

  lemma OwnAt(f: Machine, s: System, d: Later, t: ThreadId, a: Action, g: Machine)
    requires Related(f, s, d) && t in f.threads && f.threads[t].todo != [] && f.threads[t].todo[0] == Do(a)
    requires g.threads == f.threads && OnlyMoved(f, g, t) && BodyOf(g, t) != Outside
    requires Mid(g.mem, s.manager, a, BodyOf(g, t), Of(d, Guard(a)))
    ensures At(g, s.manager, d, Guard(a))
  {
    OnlyInside(f, s, d, t, a, g);
    assert Inside(g, t, Guard(a));
  }

  lemma OthersKept(f: Machine, s: System, d: Later, t: ThreadId, a: Action, g: Machine, m': ProcTable.Manager)
    requires Related(f, s, d) && t in f.threads && f.threads[t].todo != [] && f.threads[t].todo[0] == Do(a)
    requires forall l :: l != Guard(a) ==> SameHeld(f, s.manager, m', l)
    requires Elsewhere(f.mem, g.mem, Guard(a)) && Elsewhere(s.manager, m', Guard(a)) && |g.mem.procs| == |m'.procs|
    requires forall h :: |s.manager.procs| <= h < |m'.procs| ==> g.mem.procs[h] == m'.procs[h]
    requires OnlyMoved(f, g, t) && forall l :: l != Guard(a) ==> !Inside(g, t, l)
    ensures forall l :: l != Guard(a) ==> At(g, m', d, l)
  {
    forall l | l != Guard(a)
      ensures At(g, m', d, l)
    {
      assert At(f, s.manager, d, l);
      OthersAt(f, s.manager, d, t, Guard(a), g, m', l);
    }
  }

  /** After an instruction of `t`, which is in the body of `a`, nobody else is in a body of that mutex. */
  lemma OnlyInside(f: Machine, s: System, d: Later, t: ThreadId, a: Action, g: Machine)
    requires Related(f, s, d) && t in f.threads && f.threads[t].todo != [] && f.threads[t].todo[0] == Do(a)
    requires OnlyMoved(f, g, t)
    ensures forall u :: Inside(g, u, Guard(a)) ==> u == t
  {
    forall u | Inside(g, u, Guard(a))
      ensures u == t
    {
      if u != t {
        assert Inside(f, u, Guard(a));
        Alone(f, s, d, t, u, Guard(a));
      }
    }
  }

  /** What the other mutexes guard is not touched by a body of `own`'s. */
  lemma OthersAt(f: Machine, m: ProcTable.Manager, d: Later, t: ThreadId, own: Lock, g: Machine, m': ProcTable.Manager,
                 l: Lock)
    requires At(f, m, d, l) && l != own && SameHeld(f, m, m', l)
    requires Elsewhere(f.mem, g.mem, own) && Elsewhere(m, m', own)
    requires |f.mem.procs| == |m.procs| && |g.mem.procs| == |m'.procs|
    requires forall h :: |m.procs| <= h < |m'.procs| ==> g.mem.procs[h] == m'.procs[h]
    requires OnlyMoved(f, g, t) && !Inside(f, t, l) && !Inside(g, t, l)
    ensures At(g, m', d, l)
  {
    assert SameInside(f, g, l);
    AtFrame(f, m, d, g, m', d, l);
  }

  /** No goroutine but `t`, and new ones, has moved; and new ones are outside all bodies. */
  ghost predicate OnlyMoved(f: Machine, g: Machine, t: ThreadId) {
    && (forall u :: u in f.threads && u != t ==> u in g.threads && g.threads[u] == f.threads[u])
    && (forall u :: u !in f.threads ==> BodyOf(g, u) == Outside)
    && (forall u :: u != t ==> BodyOf(g, u) == BodyOf(f, u))
  }

  lemma HeldStays(f: Machine, m: ProcTable.Manager, d: Later, l: Lock)
    requires At(f, m, d, l)
    ensures SameHeld(f, m, m, l)
  {
    forall t | Inside(f, t, l)
      ensures Mid(f.mem, m, f.threads[t].todo[0].action, BodyOf(f, t), Of(d, l))
    {
    }
  }

  // The end of a body

  lemma HeldKept(p: Stream.Proc, l: Stream.Label)
    requires Stream.Step(p, l).Next? && !l.Add? && !l.Scan?
    ensures Stream.Step(p, l).value.held == p.held
  {
  }

  /** A body's step of the manager takes nothing from the pumps that are adding under other mutexes. */
  lemma HeldElsewhere(f: Machine, m: ProcTable.Manager, d: Later, a: Action, m': ProcTable.Manager, l: Lock)
    requires At(f, m, d, l) && Refers(m, a) && l != Guard(a)
    requires ProcTable.Step(m, LabelOf(m, a)) == Next(m')
    ensures SameHeld(f, m, m', l)
  {
    var did := LabelOf(m, a);
    HeldStays(f, m, d, l);
    forall t | Inside(f, t, l) && f.threads[t].todo[0].action.Append?
      ensures var h := f.threads[t].todo[0].action.h; h < |m'.procs| && m'.procs[h].held == m.procs[h].held
    {
      var h := f.threads[t].todo[0].action.h;
      assert h < |m.procs|;
      ProcTable.StepAt(m, did, h);
      if did.Of? && did.handle == h { HeldKept(m.procs[h], did.step); }
    }
  }

  lemma SequelSame(m: ProcTable.Manager, n: ProcTable.Manager, a: Action, order: seq<nat>)
    requires |m.procs| == |n.procs| && (Guard(a) == TableLock ==> m.table == n.table)
    ensures Sequel(m, a, order) == Sequel(n, a, order)
  {
  }

  /** The body `a` of `t` is over: all is related but for what was received from channels it had served. */
  ghost predicate AlmostRelated(g: Machine, s: System, d: Later, a: Action) {
    && g.threads == s.threads && Inv(s) && BodiesBelong(g) && SamePrivates(g.mem, s.manager)
    && (forall l :: l != Guard(a) ==> At(g, s.manager, d, l))
    && !Busy(g, Guard(a)) && AllButReceived(g.mem, s.manager, Guard(a), Of(d, Guard(a)))
  }

  /** The instruction that `t` runs next is the last of the body of `a`, and leaves `mem`. */
  ghost predicate Ends(f: Machine, t: ThreadId, order: seq<nat>, a: Action, mem: ProcTable.Manager) {
    && t in f.threads && f.threads[t].todo != [] && f.threads[t].todo[0] == Do(a)
    && (Target(a).Some? ==> Target(a).value < |f.mem.procs|)
    && Instruct(f.mem, a, BodyOf(f, t), if order == [] then 0 else order[0]) == Done(mem)
    && Goroutines.RunNext(f, t, order).Next?
  }

  /** The goroutines after `t` has gone through the body of `a`, with `sequel` to follow. */
  function Went(threads: map<ThreadId, Thread>, t: ThreadId, a: Action, sequel: seq<Instr>, n: nat)
      : map<ThreadId, Thread>
    requires t in threads && threads[t].todo != []
  {
    var next := threads[t := threads[t].(todo := sequel + threads[t].todo[1..])];
    if a == Register then Spawn(next, n) else next
  }

  lemma EndsHere(f: Machine, t: ThreadId, order: seq<nat>, a: Action, mem: ProcTable.Manager)
    requires Ends(f, t, order, a, mem)
    ensures Goroutines.RunNext(f, t, order).value ==
            Machine(Went(f.threads, t, a, After(f, t, a, order), |f.mem.procs|), f.bodies[t := Outside], mem)
    ensures a == ListAll && BodyOf(f, t).HasTable? ==> Enumerates(order, BodyOf(f, t).table.entries.Values)
  {
  }

  /** The whole body, where it happens in one go. */
  lemma GoesInOne(s: System, t: ThreadId, order: seq<nat>, a: Action)
    requires Inv(s) && t in s.threads && s.threads[t].todo != [] && s.threads[t].todo[0] == Do(a)
    requires a == ListAll ==> Enumerates(order, s.manager.table.entries.Values)
    ensures ManagerThreads.RunNext(s, t, order).Next?
    ensures var s' := ManagerThreads.RunNext(s, t, order).value;
            && s'.threads == Went(s.threads, t, a, Sequel(s.manager, a, order), |s.manager.procs|)
            && ProcTable.Step(s.manager, LabelOf(s.manager, a)) == Next(s'.manager)
  {
    BodyCanRun(s, t, a);
    BodyResult(s, t, a, order);
  }

  lemma WentIsMoved(f: Machine, t: ThreadId, a: Action, sequel: seq<Instr>, mem: ProcTable.Manager)
    requires t in f.threads && f.threads[t].todo != [] && BodiesBelong(f)
    requires var h := |f.mem.procs|;
             Pump(h, Stdout) !in f.threads && Pump(h, Stderr) !in f.threads && Waiter(h) !in f.threads
    ensures OnlyMoved(f, Machine(Went(f.threads, t, a, sequel, |f.mem.procs|), f.bodies[t := Outside], mem), t)
    ensures BodiesBelong(Machine(Went(f.threads, t, a, sequel, |f.mem.procs|), f.bodies[t := Outside], mem))
  {
  }

  /** What the goroutine loaded decides what follows, and is still so. */
  lemma SequelAgrees(f: Machine, s: System, d: Later, t: ThreadId, order: seq<nat>, a: Action)
    requires Related(f, s, d) && t in f.threads && f.threads[t].todo != [] && f.threads[t].todo[0] == Do(a)
    requires BodyOf(f, t) != Outside
    ensures After(f, t, a, order) == Sequel(s.manager, a, order)
    ensures Guard(a).TableLock? ==> BodyOf(f, t) == HasTable(s.manager.table)
  {
    var body := BodyOf(f, t);
    assert Inside(f, t, Guard(a)) && At(f, s.manager, d, Guard(a));
    assert Mid(f.mem, s.manager, a, body, Of(d, Guard(a)));
    SequelSame(if body.HasTable? then f.mem.(table := body.table) else f.mem, s.manager, a, order);
  }

  /** Both machines go on with the same instructions. */
  lemma EndRuns(f: Machine, s: System, d: Later, t: ThreadId, order: seq<nat>, a: Action, mem: ProcTable.Manager)
    requires Related(f, s, d) && Ends(f, t, order, a, mem)
    ensures ManagerThreads.RunNext(s, t, order).Next?
    ensures var g, s' := Goroutines.RunNext(f, t, order).value, ManagerThreads.RunNext(s, t, order).value;
            && g.mem == mem && g.bodies == f.bodies[t := Outside] && g.threads == s'.threads
            && ProcTable.Step(s.manager, LabelOf(s.manager, a)) == Next(s'.manager)
            && OnlyMoved(f, g, t) && BodiesBelong(g)
  {
    EndsHere(f, t, order, a, mem);
    SequelAgrees(f, s, d, t, order, a);
    GoesInOne(s, t, order, a);
    SpawnedAreNew(s);
    WentIsMoved(f, t, a, After(f, t, a, order), mem);
  }

  /** The goroutine's last instruction in a body is matched by the whole body. */
  lemma BodyEnds(f: Machine, s: System, d: Later, t: ThreadId, order: seq<nat>, a: Action, mem: ProcTable.Manager)
    requires Related(f, s, d) && Ends(f, t, order, a, mem)
    ensures ManagerThreads.RunNext(s, t, order).Next?
    ensures AlmostRelated(Goroutines.RunNext(f, t, order).value, ManagerThreads.RunNext(s, t, order).value, d, a)
  {
    EndRuns(f, s, d, t, order, a, mem);
    var g, s' := Goroutines.RunNext(f, t, order).value, ManagerThreads.RunNext(s, t, order).value;
    BodyKeeps(s, t, a, order);
    MatchEnd(f, s, d, t, order, a, mem, s'.manager);
    EndKeeps(f, s, d, t, a, g, s');
  }

  lemma MatchEnd(f: Machine, s: System, d: Later, t: ThreadId, order: seq<nat>, a: Action, mem: ProcTable.Manager,
                 m': ProcTable.Manager)
    requires Related(f, s, d) && Ends(f, t, order, a, mem)
    requires ProcTable.Step(s.manager, LabelOf(s.manager, a)) == Next(m')
    ensures Refers(s.manager, a) && Matches(f.mem, s.manager, a, Of(d, Guard(a)), mem, m')
  {
    var l := Guard(a);
    BodyCanRun(s, t, a);
    assert Inside(f, t, l) && At(f, s.manager, d, l);
    if l.RingLock? { RingIsOpen(s, l.h); }
    DoneMatches(f.mem, s.manager, a, BodyOf(f, t), Of(d, l), if order == [] then 0 else order[0], m');
  }

  lemma EndKeeps(f: Machine, s: System, d: Later, t: ThreadId, a: Action, g: Machine, s': System)
    requires Related(f, s, d) && t in f.threads && f.threads[t].todo != [] && f.threads[t].todo[0] == Do(a)
    requires Refers(s.manager, a) && ProcTable.Step(s.manager, LabelOf(s.manager, a)) == Next(s'.manager)
    requires Inv(s') && g.threads == s'.threads && g.bodies == f.bodies[t := Outside] && BodiesBelong(g)
    requires Matches(f.mem, s.manager, a, Of(d, Guard(a)), g.mem, s'.manager)
    requires OnlyMoved(f, g, t)
    ensures AlmostRelated(g, s', d, a)
  {
    OnlyInside(f, s, d, t, a, g);
    assert !Inside(g, t, Guard(a));
    forall l | l != Guard(a)
      ensures SameHeld(f, s.manager, s'.manager, l)
    {
      assert At(f, s.manager, d, l);
      HeldElsewhere(f, s.manager, d, a, s'.manager, l);
    }
    OthersKept(f, s, d, t, a, g, s'.manager);
  }

  // What the explaining run has in common with the run it explains

  /** What was received, in a run, on channel `c` of process `h`. */
  function Receipts(run: seq<Event>, h: nat, c: nat): seq<Stream.Label> {
    if run == [] then []
    else
      var e := run[|run| - 1];
      Receipts(run[..|run| - 1], h, c) + if e.Receive? && e.h == h && IsReceive(e.l) && e.l.c == c then [e.l] else []
  }

  function OnChannel(ls: seq<Stream.Label>, c: nat): seq<Stream.Label> {
    if ls == [] then []
    else
      var l := ls[|ls| - 1];
      OnChannel(ls[..|ls| - 1], c) + if IsReceive(l) && l.c == c then [l] else []
  }

  /** The same calls, lines and exits in the same order, and the same receipts a channel but for those held up. */
  ghost predicate Accounts(run: seq<Event>, atomic: seq<Event>, d: Later) {
    && Stories.Incoming(run) == Stories.Incoming(atomic)
    && forall h, c :: Receipts(run, h, c) == Receipts(atomic, h, c) + OnChannel(Of(d, RingLock(h)), c)
  }

  lemma OneEventMore(run: seq<Event>, e: Event, h: nat, c: nat)
    ensures Stories.Incoming(run + [e]) == Stories.Incoming(run) + if e.Call? || e.Scan? || e.Reap? then [e] else []
    ensures Receipts(run + [e], h, c) ==
            Receipts(run, h, c) + if e.Receive? && e.h == h && IsReceive(e.l) && e.l.c == c then [e.l] else []
  {
    assert (run + [e])[..|run|] == run;
  }

  lemma OneLabelMore(ls: seq<Stream.Label>, l: Stream.Label, c: nat)
    ensures OnChannel(ls + [l], c) == OnChannel(ls, c) + if IsReceive(l) && l.c == c then [l] else []
  {
    assert (ls + [l])[..|ls|] == ls;
  }

  lemma BothSame(run: seq<Event>, atomic: seq<Event>, d: Later, e: Event)
    requires Accounts(run, atomic, d) && !e.Receive?
    ensures Accounts(run + [e], atomic + [e], d)
  {
    OneEventMore(run, e, 0, 0);
    OneEventMore(atomic, e, 0, 0);
    forall h, c
      ensures Receipts(run + [e], h, c) == Receipts(atomic + [e], h, c) + OnChannel(Of(d, RingLock(h)), c)
    {
      OneEventMore(run, e, h, c);
      OneEventMore(atomic, e, h, c);
      assert Receipts(run, h, c) + [] == Receipts(run, h, c) && Receipts(atomic, h, c) + [] == Receipts(atomic, h, c);
    }
  }

  /** An instruction of a goroutine, in either run, is nobody's receipt and nothing from outside. */
  lemma RunsApart(run: seq<Event>, atomic: seq<Event>, d: Later, e: Event)
    requires Accounts(run, atomic, d) && e.Run?
    ensures Accounts(run + [e], atomic, d) && Accounts(run, atomic + [e], d)
  {
    OneEventMore(run, e, 0, 0);
    OneEventMore(atomic, e, 0, 0);
    assert Stories.Incoming(run) + [] == Stories.Incoming(run);
    assert Stories.Incoming(atomic) + [] == Stories.Incoming(atomic);
    forall h, c
      ensures Receipts(run + [e], h, c) == Receipts(run, h, c) && Receipts(atomic + [e], h, c) == Receipts(atomic, h, c)
    {
      OneEventMore(run, e, h, c);
      OneEventMore(atomic, e, h, c);
      assert Receipts(run, h, c) + [] == Receipts(run, h, c) && Receipts(atomic, h, c) + [] == Receipts(atomic, h, c);
    }
  }

  /** A receipt held up. */
  lemma ReceiptLater(run: seq<Event>, atomic: seq<Event>, d: Later, h: nat, l: Stream.Label)
    requires Accounts(run, atomic, d) && IsReceive(l)
    ensures Accounts(run + [Event.Receive(h, l)], atomic, d[RingLock(h) := Of(d, RingLock(h)) + [l]])
  {
    var e, d' := Event.Receive(h, l), d[RingLock(h) := Of(d, RingLock(h)) + [l]];
    OneEventMore(run, e, 0, 0);
    assert Stories.Incoming(run) + [] == Stories.Incoming(run);
    forall k, c
      ensures Receipts(run + [e], k, c) == Receipts(atomic, k, c) + OnChannel(Of(d', RingLock(k)), c)
    {
      assert Receipts(run, k, c) == Receipts(atomic, k, c) + OnChannel(Of(d, RingLock(k)), c);
      ReceiptHeldUp(run, atomic, d, h, l, k, c);
    }
  }

  lemma ReceiptHeldUp(run: seq<Event>, atomic: seq<Event>, d: Later, h: nat, l: Stream.Label, k: nat, c: nat)
    requires IsReceive(l)
    requires Receipts(run, k, c) == Receipts(atomic, k, c) + OnChannel(Of(d, RingLock(k)), c)
    ensures Receipts(run + [Event.Receive(h, l)], k, c) ==
            Receipts(atomic, k, c) + OnChannel(Of(d[RingLock(h) := Of(d, RingLock(h)) + [l]], RingLock(k)), c)
  {
    OneEventMore(run, Event.Receive(h, l), k, c);
    if k == h {
      HeldUpOne(Receipts(run, h, c), Receipts(atomic, h, c), Of(d, RingLock(h)), l, c);
    } else {
      assert Receipts(run, k, c) + [] == Receipts(run, k, c);
    }
  }

  lemma HeldUpOne(mine: seq<Stream.Label>, theirs: seq<Stream.Label>, ls: seq<Stream.Label>, l: Stream.Label, c: nat)
    requires mine == theirs + OnChannel(ls, c) && IsReceive(l)
    ensures mine + (if l.c == c then [l] else []) == theirs + OnChannel(ls + [l], c)
  {
    hide OnChannel;
    OneLabelMore(ls, l, c);
    if l.c == c {
      assert theirs + OnChannel(ls, c) + [l] == theirs + (OnChannel(ls, c) + [l]);
    } else {
      assert mine + [] == mine && OnChannel(ls, c) + [] == OnChannel(ls, c);
    }
  }

  /** A receipt matched at once, on a channel where none is held up. */
  lemma ReceiptNow(run: seq<Event>, atomic: seq<Event>, d: Later, h: nat, l: Stream.Label)
    requires Accounts(run, atomic, d) && IsReceive(l) && OnChannel(Of(d, RingLock(h)), l.c) == []
    ensures Accounts(run + [Event.Receive(h, l)], atomic + [Event.Receive(h, l)], d)
  {
    var e := Event.Receive(h, l);
    OneEventMore(run, e, 0, 0);
    OneEventMore(atomic, e, 0, 0);
    forall k, c
      ensures Receipts(run + [e], k, c) == Receipts(atomic + [e], k, c) + OnChannel(Of(d, RingLock(k)), c)
    {
      OneEventMore(run, e, k, c);
      OneEventMore(atomic, e, k, c);
      if k == h && l.c == c {
        assert Receipts(run, k, c) == Receipts(atomic, k, c) + [] == Receipts(atomic, k, c);
        assert Receipts(atomic + [e], k, c) + [] == Receipts(atomic + [e], k, c);
      } else {
        assert Receipts(run, k, c) + [] == Receipts(run, k, c) && Receipts(atomic, k, c) + [] == Receipts(atomic, k, c);
      }
    }
  }

  /** `run'` is `run` and then the receipts `ls` on process `h`. */
  ghost predicate Delivered(run: seq<Event>, run': seq<Event>, h: nat, ls: seq<Stream.Label>) {
    && Stories.Incoming(run') == Stories.Incoming(run)
    && forall k, c ::
         Receipts(run', k, c) == if k == h then Receipts(run, k, c) + OnChannel(ls, c) else Receipts(run, k, c)
  }

  lemma NothingDelivered(run: seq<Event>, h: nat)
    ensures Delivered(run, run, h, [])
  {
    assert forall k, c :: Receipts(run, k, c) == Receipts(run, k, c) + OnChannel([], c);
  }

  lemma DeliveredMore(run: seq<Event>, run1: seq<Event>, h: nat, ls: seq<Stream.Label>, l: Stream.Label)
    requires Delivered(run, run1, h, ls) && IsReceive(l)
    ensures Delivered(run, run1 + [Event.Receive(h, l)], h, ls + [l])
  {
    var e := Event.Receive(h, l);
    OneEventMore(run1, e, 0, 0);
    assert Stories.Incoming(run1) + [] == Stories.Incoming(run1);
    forall k, c
      ensures Receipts(run1 + [e], k, c) ==
              if k == h then Receipts(run, k, c) + OnChannel(ls + [l], c) else Receipts(run, k, c)
    {
      DeliveredOne(run, run1, h, ls, l, k, c);
    }
  }

  lemma DeliveredOne(run: seq<Event>, run1: seq<Event>, h: nat, ls: seq<Stream.Label>, l: Stream.Label, k: nat, c: nat)
    requires IsReceive(l)
    requires Receipts(run1, k, c) == if k == h then Receipts(run, k, c) + OnChannel(ls, c) else Receipts(run, k, c)
    ensures Receipts(run1 + [Event.Receive(h, l)], k, c) ==
            if k == h then Receipts(run, k, c) + OnChannel(ls + [l], c) else Receipts(run, k, c)
  {
    OneEventMore(run1, Event.Receive(h, l), k, c);
    if k == h {
      HeldUpOne(Receipts(run1, h, c), Receipts(run, h, c), ls, l, c);
    } else {
      assert Receipts(run1, k, c) + [] == Receipts(run1, k, c);
    }
  }

  lemma NothingHeldUp(run: seq<Event>, atomic: seq<Event>, d: Later, atomic': seq<Event>, l: Lock)
    requires Accounts(run, atomic, d)
    requires if l.RingLock? then Delivered(atomic, atomic', l.h, Of(d, l)) else atomic' == atomic
    ensures Accounts(run, atomic', d[l := []])
  {
    forall h, c
      ensures Receipts(run, h, c) == Receipts(atomic', h, c) + OnChannel(Of(d[l := []], RingLock(h)), c)
    {
      if l == RingLock(h) {
        assert OnChannel([], c) == [] && Receipts(atomic', h, c) + [] == Receipts(atomic', h, c);
      }
    }
  }

  lemma {:induction false} NoneOnChannel(ls: seq<Stream.Label>, c: nat)
    requires forall i :: 0 <= i < |ls| ==> IsReceive(ls[i]) && ls[i].c != c
    ensures OnChannel(ls, c) == []
  {
    if ls != [] {
      NoneOnChannel(ls[..|ls| - 1], c);
    }
  }

  // Receives matched later

  lemma OneMore(run: seq<Event>, e: Event)
    requires ManagerThreads.Exec(run).Next?
    ensures ManagerThreads.Exec(run + [e]) == ManagerThreads.Step(ManagerThreads.Exec(run).value, e)
  {
    assert (run + [e])[..|run|] == run;
  }

  /** The run `run` leads to `s`. */
  ghost predicate LeadsTo(run: seq<Event>, s: System) {
    ManagerThreads.Exec(run) == Next(s)
  }

  /** A receive on one channel of a process, in `ManagerThreads`. */
  lemma ReceiveRuns(run: seq<Event>, s: System, h: nat, l: Stream.Label, ch: Chan) returns (s': System)
    requires LeadsTo(run, s) && Inv(s) && h < |s.manager.procs| && IsReceive(l)
    requires l.c < |s.manager.procs[h].ring.chans|
    requires Taken1(s.manager.procs[h].ring.chans[l.c], l, l.c) == Some(ch)
    ensures LeadsTo(run + [Event.Receive(h, l)], s') && Inv(s')
    ensures s'.threads == s.threads
    ensures var r := s.manager.procs[h].ring;
            s'.manager == WithRing(s.manager, h, r.(chans := r.chans[l.c := ch]))
  {
    var e := Event.Receive(h, l);
    OneMore(run, e);
    StepKeeps(s, e);
    s' := ManagerThreads.Step(s, e).value;
    var r := s.manager.procs[h].ring;
    if l.ReceiveClosed? {
      assert r.chans[l.c := ch] == r.chans;
      assert s.manager.procs[h := s.manager.procs[h]] == s.manager.procs;
    }
  }

  /** The channels after some receives. */
  ghost function AllDrained(chans: seq<Chan>, ls: seq<Stream.Label>): seq<Chan>
    requires forall c :: 0 <= c < |chans| ==> Drained(chans[c], ls, c).Some?
  {
    seq(|chans|, c requires 0 <= c < |chans| => Drained(chans[c], ls, c).value)
  }

  lemma {:induction false} Deliver(run: seq<Event>, s: System, h: nat, ls: seq<Stream.Label>)
      returns (run': seq<Event>, s': System)
    requires LeadsTo(run, s) && Inv(s) && h < |s.manager.procs|
    requires var chans := s.manager.procs[h].ring.chans;
             Served(ls, {}, |chans|) && forall c :: 0 <= c < |chans| ==> Drained(chans[c], ls, c).Some?
    ensures run <= run' && LeadsTo(run', s') && Inv(s') && s'.threads == s.threads && Delivered(run, run', h, ls)
    ensures var r := s.manager.procs[h].ring;
            s'.manager == WithRing(s.manager, h, r.(chans := AllDrained(r.chans, ls)))
  {
    hide Delivered;
    var chans := s.manager.procs[h].ring.chans;
    if ls == [] {
      run', s' := run, s;
      NothingDelivered(run, h);
      assert AllDrained(chans, ls) == chans;
      assert s.manager.procs[h := s.manager.procs[h]] == s.manager.procs;
    } else {
      var front, l := ls[..|ls| - 1], ls[|ls| - 1];
      var run1, s1 := Deliver(run, s, h, front);
      var ch := Drained(chans[l.c], ls, l.c).value;
      s' := ReceiveRuns(run1, s1, h, l, ch);
      run' := run1 + [Event.Receive(h, l)];
      DeliveredMore(run, run1, h, front, l);
      assert front + [l] == ls;
      OneDrained(chans, ls);
    }
  }

  lemma OneDrained(chans: seq<Chan>, ls: seq<Stream.Label>)
    requires ls != [] && IsReceive(ls[|ls| - 1]) && ls[|ls| - 1].c < |chans|
    requires forall c :: 0 <= c < |chans| ==> Drained(chans[c], ls, c).Some? && Drained(chans[c], ls[..|ls| - 1], c).Some?
    ensures var l := ls[|ls| - 1];
            AllDrained(chans, ls[..|ls| - 1])[l.c := Drained(chans[l.c], ls, l.c).value] == AllDrained(chans, ls)
  {
  }

  /** A change of one process's ring, in memory or in the manager, is nothing to the other mutexes. */
  lemma OtherRing(f: Machine, m: ProcTable.Manager, d: Later, h: nat, x: Ring, y: Ring, d': Later, k: Lock)
    requires At(f, m, d, k) && k != RingLock(h) && h < |m.procs| == |f.mem.procs| && Of(d, k) == Of(d', k)
    ensures At(f.(mem := WithRing(f.mem, h, x)), WithRing(m, h, y), d', k)
  {
    var g, m' := f.(mem := WithRing(f.mem, h, x)), WithRing(m, h, y);
    HeldStays(f, m, d, k);
    assert SameInside(f, g, k) && SameHeld(f, m, m', k);
    AtFrame(f, m, d, g, m', d', k);
  }

  lemma SameRing(m: ProcTable.Manager, h: nat)
    requires h < |m.procs|
    ensures WithRing(m, h, m.procs[h].ring) == m
  {
    assert m.procs[h := m.procs[h]] == m.procs;
  }

  /** After a body has ended, the receives it held up follow, and all is related again. */
  lemma Settle(run: seq<Event>, g: Machine, s: System, d: Later, a: Action)
      returns (run': seq<Event>, s': System, d': Later)
    requires LeadsTo(run, s) && AlmostRelated(g, s, d, a)
    ensures run <= run' && LeadsTo(run', s') && Related(g, s', d')
    ensures d' == d[Guard(a) := []]
    ensures if Guard(a).RingLock? then Delivered(run, run', Guard(a).h, Of(d, Guard(a))) else run' == run
  {
    var l := Guard(a);
    d' := d[l := []];
    run', s' := run, s;
    if l.RingLock? {
      var r, now := s.manager.procs[l.h].ring, g.mem.procs[l.h].ring;
      run', s' := Deliver(run, s, l.h, Of(d, l));
      assert AllDrained(r.chans, Of(d, l)) == now.chans;
      assert s'.manager.procs[l.h].ring == now;
    }
    forall k | k != l
      ensures At(g, s'.manager, d', k)
    {
      assert At(g, s.manager, d, k);
      if l.RingLock? {
        SameRing(g.mem, l.h);
        OtherRing(g, s.manager, d, l.h, g.mem.procs[l.h].ring, s'.manager.procs[l.h].ring, d', k);
      } else {
        HeldStays(g, s.manager, d, k);
        AtFrame(g, s.manager, d, g, s.manager, d', k);
      }
    }
  }

  // A receive

  /** A body under way has served channel `c`: its effect on the channel shows, though the body has not ended. */
  predicate HasServed(body: Body, c: nat) {
    match body
    case Sending(_, left) => c !in left
    case Closing(left) => c !in left
    case _ => false
  }

  function Popped(r: Ring, c: nat, ch: Chan): Ring
    requires c < |r.chans|
  {
    r.(chans := r.chans[c := ch])
  }

  lemma ReceivedFromServed(now: Ring, r: Ring, a: Action, body: Body, ls: seq<Stream.Label>, l: Stream.Label, ch: Chan)
    requires MidRing(now, r, a, body, ls) && IsReceive(l) && l.c < |now.chans| && HasServed(body, l.c)
    requires Taken1(now.chans[l.c], l, l.c) == Some(ch)
    ensures MidRing(Popped(now, l.c, ch), r, a, body, ls + [l])
  {
    var after := if body.Sending? then Offered(r, body.line) else AllShut(r);
    assert (ls + [l])[..|ls|] == ls;
    forall c | 0 <= c < |now.chans| && c !in body.left
      ensures Drained(after[c], ls + [l], c) == Some(Popped(now, l.c, ch).chans[c])
    {
      assert Drained(after[c], ls, c) == Some(now.chans[c]);
    }
  }

  lemma ReceivedFromUnserved(now: Ring, r: Ring, a: Action, body: Body, ls: seq<Stream.Label>, c: nat, ch: Chan)
    requires MidRing(now, r, a, body, ls) && c < |now.chans| && !HasServed(body, c)
    ensures c < |r.chans| && now.chans[c] == r.chans[c]
    ensures MidRing(Popped(now, c, ch), Popped(r, c, ch), a, body, ls)
  {
    var r' := Popped(r, c, ch);
    if body.Sending? {
      assert forall k :: 0 <= k < |r.chans| && k != c ==> Offered(r', body.line)[k] == Offered(r, body.line)[k];
    }
    if body.Closing? {
      assert forall k :: 0 <= k < |r.chans| && k != c ==> AllShut(r')[k] == AllShut(r)[k];
    }
  }

  /** What a receive makes of the memory. */
  lemma ReceiveTakes(f: Machine, h: nat, l: Stream.Label) returns (ch: Chan)
    requires IsReceive(l) && Privately(f, h, l).Next?
    ensures h < |f.mem.procs| && l.c < |f.mem.procs[h].ring.chans|
    ensures Taken1(f.mem.procs[h].ring.chans[l.c], l, l.c) == Some(ch)
    ensures Privately(f, h, l).value == f.(mem := WithRing(f.mem, h, Popped(f.mem.procs[h].ring, l.c, ch)))
  {
    var r := f.mem.procs[h].ring;
    ch := Taken1(r.chans[l.c], l, l.c).value;
    if l.ReceiveClosed? {
      assert r.chans[l.c := ch] == r.chans;
    }
  }

  /** A receive that is accounted for under its own process's ring mutex leaves all related. */
  lemma RingStep(f: Machine, s: System, d: Later, h: nat, x: Ring, s': System, y: Ring, d': Later)
    requires Related(f, s, d) && h < |f.mem.procs| && |x.chans| == |y.chans|
    requires Inv(s') && s'.threads == s.threads && s'.manager == WithRing(s.manager, h, y)
    requires forall k :: k != RingLock(h) ==> Of(d, k) == Of(d', k)
    requires At(f.(mem := WithRing(f.mem, h, x)), s'.manager, d', RingLock(h))
    ensures Related(f.(mem := WithRing(f.mem, h, x)), s', d')
  {
    forall k | k != RingLock(h)
      ensures At(f.(mem := WithRing(f.mem, h, x)), s'.manager, d', k)
    {
      assert At(f, s.manager, d, k);
      OtherRing(f, s.manager, d, h, x, y, d', k);
    }
  }

  /** A receive from a channel that a body has served is matched when the body ends. */
  lemma ReceiveLater(f: Machine, s: System, d: Later, t: ThreadId, h: nat, l: Stream.Label, ch: Chan)
    requires Related(f, s, d) && h < |f.mem.procs| && IsReceive(l) && l.c < |f.mem.procs[h].ring.chans|
    requires Taken1(f.mem.procs[h].ring.chans[l.c], l, l.c) == Some(ch)
    requires Inside(f, t, RingLock(h)) && HasServed(BodyOf(f, t), l.c)
    ensures Related(f.(mem := WithRing(f.mem, h, Popped(f.mem.procs[h].ring, l.c, ch))), s,
                    d[RingLock(h) := Of(d, RingLock(h)) + [l]])
  {
    var d', x := d[RingLock(h) := Of(d, RingLock(h)) + [l]], Popped(f.mem.procs[h].ring, l.c, ch);
    HeldUp(f, s, d, t, h, l, ch);
    KeepRing(f, s, d, h, x, d');
  }

  /** `RingStep`, with the manager as it is. */
  lemma KeepRing(f: Machine, s: System, d: Later, h: nat, x: Ring, d': Later)
    requires Related(f, s, d) && h < |f.mem.procs| && |x.chans| == |f.mem.procs[h].ring.chans|
    requires forall k :: k != RingLock(h) ==> Of(d, k) == Of(d', k)
    requires At(f.(mem := WithRing(f.mem, h, x)), s.manager, d', RingLock(h))
    ensures Related(f.(mem := WithRing(f.mem, h, x)), s, d')
  {
    SameRing(s.manager, h);
    RingStep(f, s, d, h, x, s, s.manager.procs[h].ring, d');
  }

  lemma HeldUp(f: Machine, s: System, d: Later, t: ThreadId, h: nat, l: Stream.Label, ch: Chan)
    requires Related(f, s, d) && h < |f.mem.procs| && IsReceive(l) && l.c < |f.mem.procs[h].ring.chans|
    requires Taken1(f.mem.procs[h].ring.chans[l.c], l, l.c) == Some(ch)
    requires Inside(f, t, RingLock(h)) && HasServed(BodyOf(f, t), l.c)
    ensures At(f.(mem := WithRing(f.mem, h, Popped(f.mem.procs[h].ring, l.c, ch))), s.manager,
               d[RingLock(h) := Of(d, RingLock(h)) + [l]], RingLock(h))
  {
    var lock := RingLock(h);
    var g := f.(mem := WithRing(f.mem, h, Popped(f.mem.procs[h].ring, l.c, ch)));
    ServedKeeps(f, s, d, t, h, l, ch);
    forall u | Inside(g, u, lock)
      ensures u == t
    {
      assert Inside(f, u, lock);
      Alone(f, s, d, t, u, lock);
    }
    assert Inside(g, t, lock);
  }

  lemma ServedKeeps(f: Machine, s: System, d: Later, t: ThreadId, h: nat, l: Stream.Label, ch: Chan)
    requires Related(f, s, d) && h < |f.mem.procs| == |s.manager.procs| && IsReceive(l)
    requires l.c < |f.mem.procs[h].ring.chans|
    requires Taken1(f.mem.procs[h].ring.chans[l.c], l, l.c) == Some(ch)
    requires Inside(f, t, RingLock(h)) && HasServed(BodyOf(f, t), l.c)
    ensures Mid(WithRing(f.mem, h, Popped(f.mem.procs[h].ring, l.c, ch)), s.manager, f.threads[t].todo[0].action,
                BodyOf(f, t), Of(d, RingLock(h)) + [l])
  {
    var lock, a := RingLock(h), f.threads[t].todo[0].action;
    assert At(f, s.manager, d, lock);
    assert Mid(f.mem, s.manager, a, BodyOf(f, t), Of(d, lock));
    ReceivedFromServed(f.mem.procs[h].ring, s.manager.procs[h].ring, a, BodyOf(f, t), Of(d, lock), l, ch);
  }

  /** Any other receive is matched at once. */
  lemma ReceiveNow(f: Machine, s: System, d: Later, h: nat, c: nat, ch: Chan, s': System)
    requires Related(f, s, d) && h < |f.mem.procs| && c < |f.mem.procs[h].ring.chans|
    requires forall t :: Inside(f, t, RingLock(h)) ==> !HasServed(BodyOf(f, t), c)
    requires Inv(s') && s'.threads == s.threads
    requires s'.manager == WithRing(s.manager, h, Popped(s.manager.procs[h].ring, c, ch))
    ensures Related(f.(mem := WithRing(f.mem, h, Popped(f.mem.procs[h].ring, c, ch))), s', d)
  {
    UnservedPops(f, s, d, h, c, ch);
    RingStep(f, s, d, h, Popped(f.mem.procs[h].ring, c, ch), s', Popped(s.manager.procs[h].ring, c, ch), d);
  }

  lemma UnservedPops(f: Machine, s: System, d: Later, h: nat, c: nat, ch: Chan)
    requires Related(f, s, d) && h < |f.mem.procs| && c < |f.mem.procs[h].ring.chans|
    requires forall t :: Inside(f, t, RingLock(h)) ==> !HasServed(BodyOf(f, t), c)
    ensures c < |s.manager.procs[h].ring.chans|
    ensures At(f.(mem := WithRing(f.mem, h, Popped(f.mem.procs[h].ring, c, ch))),
               WithRing(s.manager, h, Popped(s.manager.procs[h].ring, c, ch)), d, RingLock(h))
  {
    var lock, now, r := RingLock(h), f.mem.procs[h].ring, s.manager.procs[h].ring;
    var g, m' := f.(mem := WithRing(f.mem, h, Popped(now, c, ch))), WithRing(s.manager, h, Popped(r, c, ch));
    assert At(f, s.manager, d, lock);
    forall t | Inside(g, t, lock)
      ensures Mid(g.mem, m', g.threads[t].todo[0].action, BodyOf(g, t), Of(d, lock))
    {
      assert Inside(f, t, lock);
      ReceivedFromUnserved(now, r, f.threads[t].todo[0].action, BodyOf(f, t), Of(d, lock), c, ch);
    }
    assert Busy(f, lock) ==> Busy(g, lock) by { if t :| Inside(f, t, lock) { assert Inside(g, t, lock); } }
  }

  lemma UnservedAgrees(f: Machine, s: System, d: Later, h: nat, c: nat)
    requires Related(f, s, d) && h < |f.mem.procs| && c < |f.mem.procs[h].ring.chans|
    requires forall t :: Inside(f, t, RingLock(h)) ==> !HasServed(BodyOf(f, t), c)
    ensures c < |s.manager.procs[h].ring.chans| && s.manager.procs[h].ring.chans[c] == f.mem.procs[h].ring.chans[c]
  {
    var lock := RingLock(h);
    assert At(f, s.manager, d, lock);
    if t :| Inside(f, t, lock) {
      ReceivedFromUnserved(f.mem.procs[h].ring, s.manager.procs[h].ring, f.threads[t].todo[0].action, BodyOf(f, t),
                           Of(d, lock), c, f.mem.procs[h].ring.chans[c]);
    }
  }

  /** Receipts are held up only on channels that a body has served. */
  lemma UnservedHasNone(f: Machine, s: System, d: Later, h: nat, c: nat)
    requires Related(f, s, d) && h < |f.mem.procs| && c < |f.mem.procs[h].ring.chans|
    requires forall t :: Inside(f, t, RingLock(h)) ==> !HasServed(BodyOf(f, t), c)
    ensures OnChannel(Of(d, RingLock(h)), c) == []
  {
    var lock := RingLock(h);
    assert At(f, s.manager, d, lock);
    if t :| Inside(f, t, lock) {
      assert Mid(f.mem, s.manager, f.threads[t].todo[0].action, BodyOf(f, t), Of(d, lock));
    }
    NoneOnChannel(Of(d, lock), c);
  }

  lemma ReceiveMatched(run: seq<Event>, f: Machine, s: System, d: Later, h: nat, l: Stream.Label)
      returns (run': seq<Event>, s': System, d': Later)
    requires LeadsTo(run, s) && Related(f, s, d) && IsReceive(l) && Privately(f, h, l).Next?
    ensures run <= run' && LeadsTo(run', s') && Related(Privately(f, h, l).value, s', d')
    ensures forall fine :: Accounts(fine, run, d) ==> Accounts(fine + [Event.Receive(h, l)], run', d')
  {
    var ch := ReceiveTakes(f, h, l);
    if t :| Inside(f, t, RingLock(h)) && HasServed(BodyOf(f, t), l.c) {
      run', s', d' := run, s, d[RingLock(h) := Of(d, RingLock(h)) + [l]];
      ReceiveLater(f, s, d, t, h, l, ch);
      forall fine | Accounts(fine, run, d)
        ensures Accounts(fine + [Event.Receive(h, l)], run', d')
      {
        ReceiptLater(fine, run, d, h, l);
      }
    } else {
      UnservedAgrees(f, s, d, h, l.c);
      UnservedHasNone(f, s, d, h, l.c);
      forall fine | Accounts(fine, run, d)
        ensures Accounts(fine + [Event.Receive(h, l)], run + [Event.Receive(h, l)], d)
      {
        ReceiptNow(fine, run, d, h, l);
      }
      s' := ReceiveRuns(run, s, h, l, ch);
      run', d' := run + [Event.Receive(h, l)], d;
      ReceiveNow(f, s, d, h, l.c, ch, s');
    }
  }

  // Every event

  /** The run `atomic` of the machine with bodies in one go explains `f`, and the run that led to it. */
  ghost predicate Explains(atomic: seq<Event>, run: seq<Event>, f: Machine) {
    exists s, d :: LeadsTo(atomic, s) && Related(f, s, d) && Accounts(run, atomic, d)
  }

  lemma AgreeOutside(f: Machine, s: System, d: Later)
    requires Related(f, s, d)
    ensures forall h, c :: HasChannel(f.mem, h, c) == HasChannel(s.manager, h, c)
  {
  }

  /** Both machines take the event `e`, leave memory alone and go on with the same goroutines. */
  ghost predicate Quiet(f: Machine, s: System, e: Event, g: Machine) {
    && g.mem == f.mem && g.bodies == f.bodies
    && (forall t :: BodyOf(f, t) != Outside ==>
          t in f.threads && t in g.threads && g.threads[t] == f.threads[t])
    && ManagerThreads.Step(s, e).Next?
    && ManagerThreads.Step(s, e).value.threads == g.threads && ManagerThreads.Step(s, e).value.manager == s.manager
  }

  lemma MutexQuiet(f: Machine, s: System, d: Later, t: ThreadId, order: seq<nat>)
    requires Related(f, s, d) && t in f.threads && f.threads[t].todo != [] && !f.threads[t].todo[0].Do?
    ensures !Goroutines.RunNext(f, t, order).Panic?
    ensures Goroutines.RunNext(f, t, order).Next? ==> Quiet(f, s, Run(t, order), Goroutines.RunNext(f, t, order).value)
  {
    assert ThreadOk(s.manager, t, s.threads[t]);
    MutexSame(f, s, t, order);
  }

  lemma MutexSame(f: Machine, s: System, t: ThreadId, order: seq<nat>)
    requires f.threads == s.threads && BodiesBelong(f) && t in f.threads
    requires f.threads[t].todo != [] && !f.threads[t].todo[0].Do? && Disciplined(f.threads[t].held, f.threads[t].todo)
    ensures !Goroutines.RunNext(f, t, order).Panic?
    ensures Goroutines.RunNext(f, t, order).Next? ==> Quiet(f, s, Run(t, order), Goroutines.RunNext(f, t, order).value)
  {
    assert BodyOf(f, t) == Outside;
  }

  lemma CallQuiet(f: Machine, s: System, d: Later, n: nat, op: Op)
    requires Related(f, s, d)
    ensures !Goroutines.Step(f, Call(n, op)).Panic?
    ensures Goroutines.Step(f, Call(n, op)).Next? ==> Quiet(f, s, Call(n, op), Goroutines.Step(f, Call(n, op)).value)
  {
    AgreeOutside(f, s, d);
  }

  lemma ReapQuiet(f: Machine, s: System, d: Later, e: Event)
    requires Related(f, s, d) && e.Reap?
    ensures !Goroutines.Step(f, e).Panic?
    ensures Goroutines.Step(f, e).Next? ==> Quiet(f, s, e, Goroutines.Step(f, e).value)
  {
  }

  lemma QuietMatched(atomic: seq<Event>, run: seq<Event>, f: Machine, s: System, d: Later, e: Event, g: Machine)
    requires LeadsTo(atomic, s) && Related(f, s, d) && Accounts(run, atomic, d) && Quiet(f, s, e, g) && !e.Receive?
    ensures Explains(atomic + [e], run + [e], g)
  {
    hide Accounts;
    StepKeeps(s, e);
    OneMore(atomic, e);
    var s' := ManagerThreads.Step(s, e).value;
    QuietStep(f, s, d, g, s');
    BothSame(run, atomic, d, e);
    assert LeadsTo(atomic + [e], s') && Related(g, s', d);
  }

  lemma ScanMatched(atomic: seq<Event>, run: seq<Event>, f: Machine, s: System, d: Later, e: Event)
    requires LeadsTo(atomic, s) && Related(f, s, d) && Accounts(run, atomic, d) && e.Scan?
    ensures !Goroutines.Step(f, e).Panic?
    ensures Goroutines.Step(f, e).Next? ==> Explains(atomic + [e], run + [e], Goroutines.Step(f, e).value)
  {
    hide Accounts;
    if Goroutines.Step(f, e).Next? {
      StepKeeps(s, e);
      OneMore(atomic, e);
      ScanIsSame(f, s, d, e);
      var g, s' := Goroutines.Step(f, e).value, ManagerThreads.Step(s, e).value;
      ScanKept(f, s, d, e, g, s');
      BothSame(run, atomic, d, e);
      assert LeadsTo(atomic + [e], s') && Related(g, s', d);
    }
  }

  /** `m` with one more line scanned by a pump of process `h`. */
  function Scanned(m: ProcTable.Manager, h: nat, line: LogLine): ProcTable.Manager
    requires h < |m.procs|
  {
    WithProc(m, h, m.procs[h].(held := m.procs[h].held[line.source := line]))
  }

  lemma ScanIsSame(f: Machine, s: System, d: Later, e: Event)
    requires Related(f, s, d) && e.Scan? && Goroutines.Step(f, e).Next?
    ensures ManagerThreads.Step(s, e).Next? && e.h < |f.mem.procs|
    ensures var g, s' := Goroutines.Step(f, e).value, ManagerThreads.Step(s, e).value;
            var line := LogLine(e.src, e.text, e.at);
            && g.mem == Scanned(f.mem, e.h, line) && s'.manager == Scanned(s.manager, e.h, line)
            && g.bodies == f.bodies && g.threads == s'.threads
            && g.threads == f.threads[Pump(e.h, e.src) := Thread({}, PumpProgram(e.h, e.src))]
  {
  }

  lemma ScanKept(f: Machine, s: System, d: Later, e: Event, g: Machine, s': System)
    requires Related(f, s, d) && e.Scan? && Idle(f.threads, Pump(e.h, e.src)) && e.h < |f.mem.procs| && Inv(s')
    requires g.mem == Scanned(f.mem, e.h, LogLine(e.src, e.text, e.at))
    requires s'.manager == Scanned(s.manager, e.h, LogLine(e.src, e.text, e.at))
    requires g.bodies == f.bodies && g.threads == s'.threads
    requires g.threads == f.threads[Pump(e.h, e.src) := Thread({}, PumpProgram(e.h, e.src))]
    ensures Related(g, s', d)
  {
    var line := LogLine(e.src, e.text, e.at);
    forall l
      ensures At(g, s'.manager, d, l)
    {
      assert At(f, s.manager, d, l);
      HeldAfterScan(f, s, d, e, s'.manager, l);
      ScanAt(f, s.manager, d, e.h, line, g, l);
    }
  }

  lemma ScanAt(f: Machine, m: ProcTable.Manager, d: Later, h: nat, line: LogLine, g: Machine, l: Lock)
    requires At(f, m, d, l) && h < |m.procs| == |f.mem.procs| && SameHeld(f, m, Scanned(m, h, line), l)
    requires g.mem == Scanned(f.mem, h, line) && g.bodies == f.bodies
    requires forall t :: BodyOf(f, t) != Outside ==>
               t in f.threads && t in g.threads && g.threads[t] == f.threads[t]
    ensures At(g, Scanned(m, h, line), d, l)
  {
    assert SameInside(f, g, l);
    AtFrame(f, m, d, g, Scanned(m, h, line), d, l);
  }

  /** Only a pump that is idle scans, so no pump that is adding loses its line. */
  lemma HeldAfterScan(f: Machine, s: System, d: Later, e: Event, m': ProcTable.Manager, l: Lock)
    requires Related(f, s, d) && e.Scan? && Idle(f.threads, Pump(e.h, e.src)) && e.h < |s.manager.procs|
    requires m' == Scanned(s.manager, e.h, LogLine(e.src, e.text, e.at))
    ensures SameHeld(f, s.manager, m', l)
  {
    HeldStays(f, s.manager, d, l);
    forall t | Inside(f, t, l) && f.threads[t].todo[0].action.Append?
      ensures var a := f.threads[t].todo[0].action; a.h < |s.manager.procs| && (a.h != e.h || a.src != e.src)
    {
      assert ThreadOk(s.manager, t, s.threads[t]);
      BodyBelongs(s.manager, t, s.threads[t], f.threads[t].todo[0].action);
    }
  }

  lemma EndMatched(atomic: seq<Event>, run: seq<Event>, f: Machine, s: System, d: Later, t: ThreadId, order: seq<nat>,
                   a: Action, mem: ProcTable.Manager) returns (atomic': seq<Event>)
    requires LeadsTo(atomic, s) && Related(f, s, d) && Accounts(run, atomic, d) && Ends(f, t, order, a, mem)
    ensures atomic <= atomic'
    ensures Explains(atomic', run + [Run(t, order)], Goroutines.RunNext(f, t, order).value)
  {
    hide Accounts, Delivered;
    var e := Run(t, order);
    BodyEnds(f, s, d, t, order, a, mem);
    OneMore(atomic, e);
    RunsApart(run, atomic, d, e);
    RunsApart(run + [e], atomic, d, e);
    var g, s1 := Goroutines.RunNext(f, t, order).value, ManagerThreads.RunNext(s, t, order).value;
    var s', d';
    atomic', s', d' := Settle(atomic + [e], g, s1, d, a);
    NothingHeldUp(run + [e], atomic + [e], d, atomic', Guard(a));
    assert LeadsTo(atomic', s') && Related(g, s', d');
  }

  lemma BodyMatched(atomic: seq<Event>, run: seq<Event>, f: Machine, s: System, d: Later, t: ThreadId, order: seq<nat>)
      returns (atomic': seq<Event>)
    requires LeadsTo(atomic, s) && Related(f, s, d) && Accounts(run, atomic, d)
    requires t in f.threads && f.threads[t].todo != [] && f.threads[t].todo[0].Do?
    ensures !Goroutines.RunNext(f, t, order).Panic?
    ensures Goroutines.RunNext(f, t, order).Next? ==>
              atomic <= atomic' && Explains(atomic', run + [Run(t, order)], Goroutines.RunNext(f, t, order).value)
  {
    hide Accounts;
    atomic' := atomic;
    BodyGoesOn(f, s, d, t, order);
    if Goroutines.RunNext(f, t, order).Next? {
      var g, a := Goroutines.RunNext(f, t, order).value, f.threads[t].todo[0].action;
      var p := Instruct(f.mem, a, BodyOf(f, t), if order == [] then 0 else order[0]);
      if p.Done? {
        atomic' := EndMatched(atomic, run, f, s, d, t, order, a, p.mem);
      } else {
        RunsApart(run, atomic, d, Run(t, order));
        assert Related(g, s, d);
      }
    }
  }

  lemma StepMatched(atomic: seq<Event>, run: seq<Event>, f: Machine, e: Event) returns (atomic': seq<Event>)
    requires Explains(atomic, run, f)
    ensures !Goroutines.Step(f, e).Panic?
    ensures Goroutines.Step(f, e).Next? ==>
              atomic <= atomic' && Explains(atomic', run + [e], Goroutines.Step(f, e).value)
  {
    hide Accounts;
    var s, d :| LeadsTo(atomic, s) && Related(f, s, d) && Accounts(run, atomic, d);
    atomic' := atomic + [e];
    match e {
      case Run(t, order) =>
        if t in f.threads && f.threads[t].todo != [] {
          if f.threads[t].todo[0].Do? {
            atomic' := BodyMatched(atomic, run, f, s, d, t, order);
          } else {
            MutexQuiet(f, s, d, t, order);
            TryQuiet(atomic, run, f, s, d, e);
          }
        }
      case Scan(_, _, _, _) => ScanMatched(atomic, run, f, s, d, e);
      case Receive(h, l) =>
        if IsReceive(l) && Privately(f, h, l).Next? {
          var s', d';
          atomic', s', d' := ReceiveMatched(atomic, f, s, d, h, l);
          assert LeadsTo(atomic', s') && Related(Privately(f, h, l).value, s', d');
          assert Accounts(run + [e], atomic', d');
        }
      case Call(n, op) =>
        CallQuiet(f, s, d, n, op);
        TryQuiet(atomic, run, f, s, d, e);
      case Reap(_, _, _) =>
        ReapQuiet(f, s, d, e);
        TryQuiet(atomic, run, f, s, d, e);
    }
  }

  lemma TryQuiet(atomic: seq<Event>, run: seq<Event>, f: Machine, s: System, d: Later, e: Event)
    requires LeadsTo(atomic, s) && Related(f, s, d) && Accounts(run, atomic, d) && !e.Receive?
    requires Goroutines.Step(f, e).Next? ==> Quiet(f, s, e, Goroutines.Step(f, e).value)
    ensures Goroutines.Step(f, e).Next? ==> Explains(atomic + [e], run + [e], Goroutines.Step(f, e).value)
  {
    if Goroutines.Step(f, e).Next? {
      QuietMatched(atomic, run, f, s, d, e, Goroutines.Step(f, e).value);
    }
  }

  lemma InitiallyRelated()
    ensures Explains([], [], Initial)
  {
    RunKeeps([]);
    assert LeadsTo([], Boot) && Related(Initial, Boot, map[]) && Accounts([], [], map[]);
  }

  /**
   Atomicity: no interleaving of single instructions crashes, and every one is explained by a run in which each body
   happens in one go - a run of the same calls, lines and exits, in which the same is received on every channel.
   */
  lemma {:induction false} BodiesAreAtomic(run: seq<Event>) returns (atomic: seq<Event>)
    ensures !Goroutines.Exec(run).Panic?
    ensures Goroutines.Exec(run).Next? ==> Explains(atomic, run, Goroutines.Exec(run).value)
  {
    atomic := [];
    if run == [] {
      InitiallyRelated();
    } else {
      var before, e := run[..|run| - 1], run[|run| - 1];
      atomic := BodiesAreAtomic(before);
      if Goroutines.Exec(before).Next? {
        atomic := StepMatched(atomic, before, Goroutines.Exec(before).value, e);
        assert before + [e] == run;
      }
    }
  }

  // Theorems

  /** What `l` guards, as it is after some run of the manager. */
  ghost predicate Consistent(mem: ProcTable.Manager, trace: seq<ProcTable.Label>, l: Lock) {
    && ProcTable.Exec(trace).Next?
    && |mem.procs| == |ProcTable.Exec(trace).value.procs|
    && Settled(mem, ProcTable.Exec(trace).value, l, [])
  }

  /**
   After any interleaving there is a run of the manager - critical sections one after the other - with which memory
   agrees: on all that a mutex guards, for every mutex in whose bodies no goroutine is, and on the whole, if no
   goroutine is inside a body at all.
   */
  lemma MemoryIsConsistent(run: seq<Event>) returns (trace: seq<ProcTable.Label>)
    requires Goroutines.Exec(run).Next?
    ensures var f := Goroutines.Exec(run).value;
            && (forall l :: !Busy(f, l) ==> Consistent(f.mem, trace, l))
            && ((forall l :: !Busy(f, l)) ==> ProcTable.Exec(trace) == Next(f.mem))
  {
    var atomic := BodiesAreAtomic(run);
    var f := Goroutines.Exec(run).value;
    var s, d :| LeadsTo(atomic, s) && Related(f, s, d);
    trace := s.trace;
    forall l | !Busy(f, l)
      ensures Consistent(f.mem, trace, l) && Settled(f.mem, s.manager, l, [])
    {
      assert At(f, s.manager, d, l);
    }
    if forall l :: !Busy(f, l) {
      SettledIsEqual(f.mem, s.manager);
    }
  }

  lemma SettledIsEqual(mem: ProcTable.Manager, m: ProcTable.Manager)
    requires SamePrivates(mem, m) && forall l :: Settled(mem, m, l, [])
    ensures mem == m
  {
    assert Settled(mem, m, TableLock, []);
    forall h | 0 <= h < |m.procs|
      ensures mem.procs[h] == m.procs[h]
    {
      assert Settled(mem, m, ProcLock(h), []) && Settled(mem, m, RingLock(h), []);
    }
    assert mem.procs == m.procs;
  }

  /** Mutual exclusion: who is inside a body holds its mutex; nobody else holds it or is inside one of its bodies. */
  lemma MutualExclusion(run: seq<Event>, t: ThreadId, u: ThreadId, l: Lock)
    requires Goroutines.Exec(run).Next? && Inside(Goroutines.Exec(run).value, t, l)
    requires u in Goroutines.Exec(run).value.threads && u != t
    ensures var f := Goroutines.Exec(run).value;
            l in f.threads[t].held && l !in f.threads[u].held && !Inside(f, u, l)
  {
    var atomic := BodiesAreAtomic(run);
    var f := Goroutines.Exec(run).value;
    var s, d :| LeadsTo(atomic, s) && Related(f, s, d);
    BodyCanRun(s, t, f.threads[t].todo[0].action);
    if Inside(f, u, l) {
      Alone(f, s, d, t, u, l);
    }
  }

  /** The only nesting of mutexes in any run is a process's inside the table's. */
  lemma LockNesting(run: seq<Event>, t: ThreadId)
    requires Goroutines.Exec(run).Next? && t in Goroutines.Exec(run).value.threads
    ensures var th := Goroutines.Exec(run).value.threads[t];
            th.todo != [] && th.todo[0].Acquire? && th.held != {} ==>
              th.held == {TableLock} && th.todo[0].lock.ProcLock?
  {
    var atomic := BodiesAreAtomic(run);
    var f := Goroutines.Exec(run).value;
    var s, d :| LeadsTo(atomic, s) && Related(f, s, d);
    assert ThreadOk(s.manager, t, s.threads[t]);
  }

  /** What a body has loaded is what memory still holds when it writes: no update is lost and no view is torn. */
  lemma LoadsStayTrue(run: seq<Event>, t: ThreadId)
    requires Goroutines.Exec(run).Next? && t in Goroutines.Exec(run).value.threads
    ensures var f := Goroutines.Exec(run).value;
            && (BodyOf(f, t).HasTable? ==> BodyOf(f, t).table == f.mem.table)
            && (BodyOf(f, t).HasView? || BodyOf(f, t).HasRing? ==>
                  && f.threads[t].todo != [] && f.threads[t].todo[0].Do?
                  && Target(f.threads[t].todo[0].action).Some?
                  && Target(f.threads[t].todo[0].action).value < |f.mem.procs|
                  && var body, p := BodyOf(f, t), f.mem.procs[Target(f.threads[t].todo[0].action).value];
                  && (body.HasView? ==> body.view == Stream.ViewOf(p))
                  && (body.HasRing? ==> body == HasRing(p.ring.lines, p.ring.subs, p.ring.closed)))
  {
    var atomic := BodiesAreAtomic(run);
    var f := Goroutines.Exec(run).value;
    var s, d :| LeadsTo(atomic, s) && Related(f, s, d);
    if BodyOf(f, t) != Outside {
      var a := f.threads[t].todo[0].action;
      assert Inside(f, t, Guard(a)) && At(f, s.manager, d, Guard(a));
    }
  }
}
