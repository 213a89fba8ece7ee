/** Every call can come to its end: from any state there is a way on that leads there, whatever mutexes others hold. */
module Completion {
  import opened Sequences
  import opened LogRing
  import opened ManagerThreads
  import opened Goroutines
  import opened ThreadSafety
  import opened Bodies
  import opened Atomicity
  import Stream
  import ProcTable

  // How much a goroutine has left

  ghost predicate WillExpand(todo: seq<Instr>) {
    exists i :: 0 <= i < |todo| && todo[i].Do? && Expands(todo[i].action)
  }

  ghost function Level(todo: seq<Instr>): nat {
    if WillExpand(todo) then 1 else 0
  }

  function Stage(body: Body): nat {
    match body
    case Outside => 3
    case HasTable(_) | HasView(_) | HasRing(_, _, _) => 2
    case _ => 1
  }

  function Left(body: Body): nat {
    match body
    case Writing(n) => if n <= 3 then 3 - n else 0
    case Sending(_, left) => |left|
    case Closing(left) => |left|
    case _ => 0
  }

  /** Goroutine `t` has less left to do in `g` than in `f`. */
  ghost predicate Less(f: Machine, g: Machine, t: ThreadId)
    requires t in f.threads && t in g.threads
  {
    var x, y := f.threads[t].todo, g.threads[t].todo;
    var a, b := BodyOf(f, t), BodyOf(g, t);
    || Level(y) < Level(x)
    || (Level(y) == Level(x) && |y| < |x|)
    || (y == x && (Stage(b) < Stage(a) || (Stage(b) == Stage(a) && Left(b) < Left(a))))
  }

  // One step of one goroutine

  /** The goroutine's next instruction is not the taking of a mutex that is taken. */
  ghost predicate Free(f: Machine, t: ThreadId)
    requires t in f.threads
  {
    var todo := f.threads[t].todo;
    todo != [] && !(todo[0].Acquire? && Taken(f.threads, todo[0].lock))
  }

  lemma Enumeration(s: set<nat>) returns (order: seq<nat>)
    ensures Enumerates(order, s)
  {
    if s == {} {
      order := [];
    } else {
      var h :| h in s;
      var rest := Enumeration(s - {h});
      order := [h] + rest;
      forall x
        ensures x in s <==> x in order
      {
        assert x in s <==> x == h || x in s - {h};
      }
    }
  }

  /** With this choice the body goes on, and has less left, or ends. */
  ghost predicate Goes(mem: ProcTable.Manager, a: Action, body: Body, order: seq<nat>) {
    && (Target(a).Some? ==> Target(a).value < |mem.procs|)
    && (a == ListAll && body.HasTable? ==> Enumerates(order, body.table.entries.Values))
    && var p := Instruct(mem, a, body, if order == [] then 0 else order[0]);
    && (p.More? || p.Done?)
    && (p.More? ==> Stage(p.body) < Stage(body) || (Stage(p.body) == Stage(body) && Left(p.body) < Left(body)))
  }

  /** No body waits: whatever it has come to, there is a choice with which it goes on, and it has less left. */
  lemma BodyGoes(mem: ProcTable.Manager, m: ProcTable.Manager, a: Action, body: Body, ls: seq<Stream.Label>)
      returns (order: seq<nat>)
    requires Mid(mem, m, a, body, ls) && SamePrivates(mem, m)
    requires a.Append? ==> a.src in mem.procs[a.h].held
    requires Guard(a).RingLock? ==> AllOpen(m.procs[Guard(a).h].ring)
    requires a.Cancel? ==> HasChannel(mem, a.h, a.c)
    ensures Goes(mem, a, body, order)
  {
    order := [];
    if a == ListAll && body.HasTable? {
      order := Enumeration(body.table.entries.Values);
    }
    if body.Sending? || body.Closing? {
      if c :| c in body.left {
        order := [c];
      }
    }
    InstructKeeps(mem, m, a, body, ls, if order == [] then 0 else order[0]);
  }

  lemma SequelIsFlat(m: ProcTable.Manager, a: Action, order: seq<nat>)
    ensures !WillExpand(Sequel(m, a, order))
  {
    if a == ListAll {
      forall i | 0 <= i < |Views(order)| && Views(order)[i].Do?
        ensures !Expands(Views(order)[i].action)
      {
        ViewsAreViews(order, i);
      }
    }
  }

  lemma AfterBodyLess(a: Action, rest: seq<Instr>, sequel: seq<Instr>)
    requires !WillExpand(sequel) && (Expands(a) ==> rest == []) && (!Expands(a) ==> sequel == [])
    ensures var x, y := [Do(a)] + rest, sequel + rest;
            Level(y) < Level(x) || (Level(y) == Level(x) && |y| < |x|)
  {
    var x := [Do(a)] + rest;
    if Expands(a) {
      assert x[0] == Do(a);
      assert sequel + rest == sequel;
    } else {
      assert sequel + rest == rest;
      TailLevel(x);
    }
  }

  lemma TailLevel(todo: seq<Instr>)
    requires todo != [] && !(todo[0].Do? && Expands(todo[0].action))
    ensures Level(todo[1..]) == Level(todo)
  {
    if WillExpand(todo) {
      var i :| 0 <= i < |todo| && todo[i].Do? && Expands(todo[i].action);
      assert todo[1..][i - 1] == todo[i];
    }
    if WillExpand(todo[1..]) {
      var i :| 0 <= i < |todo[1..]| && todo[1..][i].Do? && Expands(todo[1..][i].action);
      assert todo[i + 1] == todo[1..][i];
    }
  }

  /** Only the taking of a mutex makes a goroutine wait, and every other instruction brings it closer to its end. */
  lemma OnlyMutexesBlock(f: Machine, s: System, d: Later, t: ThreadId) returns (order: seq<nat>)
    requires Related(f, s, d) && t in f.threads && Free(f, t)
    ensures Goroutines.RunNext(f, t, order).Next?
    ensures var g := Goroutines.RunNext(f, t, order).value; t in g.threads && Less(f, g, t)
  {
    order := [];
    var todo := f.threads[t].todo;
    if todo[0].Do? {
      order := BodyRuns(f, s, d, t);
    } else {
      MutexQuiet(f, s, d, t, order);
      TailLevel(todo);
    }
  }

  lemma BodyRuns(f: Machine, s: System, d: Later, t: ThreadId) returns (order: seq<nat>)
    requires Related(f, s, d) && t in f.threads && f.threads[t].todo != [] && f.threads[t].todo[0].Do?
    ensures Goroutines.RunNext(f, t, order).Next?
    ensures var g := Goroutines.RunNext(f, t, order).value; t in g.threads && Less(f, g, t)
  {
    order := [];
    var a := f.threads[t].todo[0].action;
    BodyCanRun(s, t, a);
    if BodyOf(f, t) != Outside {
      order := BodyPicks(f, s, d, t, a);
      BodyShortens(f, s, d, t, a, order);
    }
  }

  lemma BodyPicks(f: Machine, s: System, d: Later, t: ThreadId, a: Action) returns (order: seq<nat>)
    requires Related(f, s, d) && t in f.threads && f.threads[t].todo != [] && f.threads[t].todo[0] == Do(a)
    requires BodyOf(f, t) != Outside
    ensures Refers(s.manager, a)
    ensures Goes(f.mem, a, BodyOf(f, t), order)
  {
    BodyCanRun(s, t, a);
    assert Inside(f, t, Guard(a)) && At(f, s.manager, d, Guard(a));
    if Guard(a).RingLock? { RingIsOpen(s, Guard(a).h); }
    PumpHolds(s, t, a);
    order := BodyGoes(f.mem, s.manager, a, BodyOf(f, t), Of(d, Guard(a)));
  }

  lemma BodyShortens(f: Machine, s: System, d: Later, t: ThreadId, a: Action, order: seq<nat>)
    requires Related(f, s, d) && t in f.threads && f.threads[t].todo != [] && f.threads[t].todo[0] == Do(a)
    requires BodyOf(f, t) != Outside && Refers(s.manager, a) && Goes(f.mem, a, BodyOf(f, t), order)
    ensures Goroutines.RunNext(f, t, order).Next?
    ensures var g := Goroutines.RunNext(f, t, order).value; t in g.threads && Less(f, g, t)
  {
    var todo := f.threads[t].todo;
    ExpandingIsLast(s, t, a);
    SequelIsFlat(if BodyOf(f, t).HasTable? then f.mem.(table := BodyOf(f, t).table) else f.mem, a, order);
    AfterBodyLess(a, todo[1..], After(f, t, a, order));
    assert todo == [Do(a)] + todo[1..];
    SpawnedAreNew(s);
  }

  lemma PumpHolds(s: System, t: ThreadId, a: Action)
    requires Inv(s) && t in s.threads && s.threads[t].todo != [] && s.threads[t].todo[0] == Do(a)
    ensures a.Append? ==> a.h < |s.manager.procs| && a.src in s.manager.procs[a.h].held
  {
    assert ThreadOk(s.manager, t, s.threads[t]);
    BodyBelongs(s.manager, t, s.threads[t], a);
  }

  lemma ExpandingIsLast(s: System, t: ThreadId, a: Action)
    requires Inv(s) && t in s.threads && s.threads[t].todo != [] && s.threads[t].todo[0] == Do(a)
    ensures Expands(a) ==> s.threads[t].todo[1..] == []
  {
    assert ThreadOk(s.manager, t, s.threads[t]);
  }

  // Runs of goroutines only

  /** `more` continues `run` by instructions of goroutines alone: no new call, no output, no exit, no receive. */
  ghost predicate GoesOn(run: seq<Event>, more: seq<Event>) {
    run <= more && forall i :: |run| <= i < |more| ==> more[i].Run?
  }

  function OrderOf(l: Lock): nat {
    3 - Rank(l)
  }

  /** What the others do leaves `t` as it is. */
  ghost predicate Untouched(f: Machine, g: Machine, t: ThreadId)
    requires t in f.threads
  {
    t in g.threads && g.threads[t] == f.threads[t] && BodyOf(g, t) == BodyOf(f, t)
  }

  /** `t` holds only mutexes that come before `l`, if any. */
  ghost predicate HoldsBefore(f: Machine, t: ThreadId, l: Lock)
    requires t in f.threads
  {
    forall k :: k in f.threads[t].held ==> Rank(k) < Rank(l)
  }

  /** One step of `t`; no other goroutine is touched, and a new one holds nothing. */
  lemma OneStep(run: seq<Event>, t: ThreadId) returns (more: seq<Event>)
    requires Goroutines.Exec(run).Next? && t in Goroutines.Exec(run).value.threads
    requires Free(Goroutines.Exec(run).value, t)
    ensures GoesOn(run, more) && Goroutines.Exec(more).Next?
    ensures var f, g := Goroutines.Exec(run).value, Goroutines.Exec(more).value;
            && t in g.threads && Less(f, g, t)
            && (forall u :: u in f.threads && u != t ==> Untouched(f, g, u))
            && (forall u :: u in g.threads && u !in f.threads ==> g.threads[u].held == {})
            && g.threads[t].held ==
               (match f.threads[t].todo[0]
                case Acquire(l) => f.threads[t].held + {l}
                case Release(l) => f.threads[t].held - {l}
                case Do(_) => f.threads[t].held)
  {
    var atomic := BodiesAreAtomic(run);
    var f := Goroutines.Exec(run).value;
    var s, d :| LeadsTo(atomic, s) && Related(f, s, d);
    var order := OnlyMutexesBlock(f, s, d, t);
    more := run + [Run(t, order)];
    assert more[..|run|] == run;
    SpawnedAreNew(s);
    StepLeavesOthers(f, t, order, Goroutines.RunNext(f, t, order).value);
  }

  lemma StepLeavesOthers(f: Machine, t: ThreadId, order: seq<nat>, g: Machine)
    requires t in f.threads && f.threads[t].todo != [] && Goroutines.RunNext(f, t, order) == Next(g)
    requires var h := |f.mem.procs|;
             Pump(h, Stdout) !in f.threads && Pump(h, Stderr) !in f.threads && Waiter(h) !in f.threads
    ensures forall u :: u in f.threads && u != t ==> Untouched(f, g, u)
    ensures forall u :: u in g.threads && u !in f.threads ==> g.threads[u].held == {}
    ensures t in g.threads && g.threads[t].held ==
            (match f.threads[t].todo[0]
             case Acquire(l) => f.threads[t].held + {l}
             case Release(l) => f.threads[t].held - {l}
             case Do(_) => f.threads[t].held)
  {
  }

  /** A goroutine that holds a mutex has instructions left, and if it waits, then for one that comes after. */
  lemma HolderMoves(run: seq<Event>, u: ThreadId)
    requires Goroutines.Exec(run).Next? && u in Goroutines.Exec(run).value.threads
    ensures var f := Goroutines.Exec(run).value;
            && (f.threads[u].held != {} ==> f.threads[u].todo != [])
            && (f.threads[u].todo != [] && f.threads[u].todo[0].Acquire? ==>
                  HoldsBefore(f, u, f.threads[u].todo[0].lock))
            && (forall v, k :: v in f.threads && v != u && k in f.threads[v].held ==> k !in f.threads[u].held)
  {
    var atomic := BodiesAreAtomic(run);
    var f := Goroutines.Exec(run).value;
    var s, d :| LeadsTo(atomic, s) && Related(f, s, d);
    assert ThreadOk(s.manager, u, s.threads[u]);
    assert Exclusive(s.threads);
  }

  /** Who holds a mutex can be run until it is free, and nobody is touched who holds only mutexes that come before. */
  lemma {:induction false} LetGo(run: seq<Event>, u: ThreadId, l: Lock) returns (more: seq<Event>)
    requires Goroutines.Exec(run).Next? && u in Goroutines.Exec(run).value.threads
    requires l in Goroutines.Exec(run).value.threads[u].held
    ensures GoesOn(run, more) && Goroutines.Exec(more).Next?
    ensures var f, g := Goroutines.Exec(run).value, Goroutines.Exec(more).value;
            && !Taken(g.threads, l)
            && forall t :: t in f.threads && HoldsBefore(f, t, l) ==> Untouched(f, g, t)
    decreases OrderOf(l), Level(Goroutines.Exec(run).value.threads[u].todo),
              |Goroutines.Exec(run).value.threads[u].todo|, Stage(BodyOf(Goroutines.Exec(run).value, u)),
              Left(BodyOf(Goroutines.Exec(run).value, u))
  {
    var f := Goroutines.Exec(run).value;
    HolderMoves(run, u);
    var clear := run;
    if !Free(f, u) {
      var k := f.threads[u].todo[0].lock;
      var w :| w in f.threads && k in f.threads[w].held;
      clear := LetGo(run, w, k);
      assert Untouched(f, Goroutines.Exec(clear).value, u);
    }
    more := OneStep(clear, u);
    var g := Goroutines.Exec(more).value;
    if l in g.threads[u].held {
      var next := LetGo(more, u, l);
      more := next;
    } else {
      HolderMoves(clear, u);
    }
  }

  /** A call, or any goroutine, can be run to its end. */
  lemma {:induction false} RunToEnd(run: seq<Event>, t: ThreadId) returns (more: seq<Event>)
    requires Goroutines.Exec(run).Next? && t in Goroutines.Exec(run).value.threads
    ensures GoesOn(run, more) && Goroutines.Exec(more).Next?
    ensures var g := Goroutines.Exec(more).value; t in g.threads && g.threads[t] == Thread({}, [])
    decreases Level(Goroutines.Exec(run).value.threads[t].todo),
              |Goroutines.Exec(run).value.threads[t].todo|, Stage(BodyOf(Goroutines.Exec(run).value, t)),
              Left(BodyOf(Goroutines.Exec(run).value, t))
  {
    var f := Goroutines.Exec(run).value;
    HolderMoves(run, t);
    if f.threads[t].todo == [] {
      more := run;
    } else {
      var clear := run;
      if !Free(f, t) {
        var l := f.threads[t].todo[0].lock;
        var u :| u in f.threads && l in f.threads[u].held;
        clear := LetGo(run, u, l);
        assert Untouched(f, Goroutines.Exec(clear).value, t);
      }
      var next := OneStep(clear, t);
      more := RunToEnd(next, t);
    }
  }

  /**
   No goroutine is ever stuck: after any run, every call, pump or waiter with instructions left can be brought to its
   end, holding nothing, by instructions of goroutines alone - no output, exit, receive or further call is needed.
   */
  lemma EveryCallCanFinish(run: seq<Event>, t: ThreadId)
    requires Goroutines.Exec(run).Next? && t in Goroutines.Exec(run).value.threads
    ensures exists more :: GoesOn(run, more) && Goroutines.Exec(more).Next? &&
              var g := Goroutines.Exec(more).value; t in g.threads && g.threads[t] == Thread({}, [])
  {
    var more := RunToEnd(run, t);
  }

  /** No deadlock: while any goroutine has an instruction left, some goroutine can run its next one. */
  lemma NoDeadlock(run: seq<Event>, t: ThreadId) returns (e: Event)
    requires Goroutines.Exec(run).Next? && t in Goroutines.Exec(run).value.threads
    requires Goroutines.Exec(run).value.threads[t].todo != []
    ensures e.Run? && Goroutines.Step(Goroutines.Exec(run).value, e).Next?
  {
    var more := RunToEnd(run, t);
    assert |more| == |run| ==> more == run;
    FirstStep(run, more);
    e := more[|run|];
  }

  lemma {:induction false} FirstStep(run: seq<Event>, more: seq<Event>)
    requires GoesOn(run, more) && |more| > |run| && Goroutines.Exec(run).Next? && Goroutines.Exec(more).Next?
    ensures more[|run|].Run? && Goroutines.Step(Goroutines.Exec(run).value, more[|run|]).Next?
    decreases |more|
  {
    var front := more[..|more| - 1];
    if |front| == |run| {
      assert front == run;
    } else {
      FirstStep(run, front);
    }
  }
}
