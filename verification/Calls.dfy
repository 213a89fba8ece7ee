/**
 What a caller of the process manager may rely on, whatever the interleaving: every call that has returned was answered
 by the steps it stands for, on a manager that had them happen one after the other; and what was output and how the
 process exited is what the manager tells.
 */
module Calls {
  import opened Sequences
  import opened LogRing
  import opened ManagerThreads
  import opened Goroutines
  import opened ThreadSafety
  import opened Bodies
  import opened Atomicity
  import opened Stories
  import Stream
  import ProcTable

  // Each caller calls once, each process exits once

  lemma {:induction false} OutsideHasIt(run: seq<Event>, e: Event)
    requires e in run && (e.Call? || e.Scan? || e.Reap?)
    ensures e in Incoming(run)
  {
    var front := run[..|run| - 1];
    assert run == front + [run[|run| - 1]];
    if e in front {
      OutsideHasIt(front, e);
    }
  }

  lemma {:induction false} OutsideKeeps(outside: seq<Event>, n: nat, h: nat)
    ensures (exists op :: Call(n, op) in outside) ==> OpOf(outside, n).Some?
    ensures (exists code, at :: Reap(h, code, at) in outside) ==> ReapOf(outside, h).Some?
  {
    if outside != [] {
      var front := outside[..|outside| - 1];
      assert outside == front + [outside[|outside| - 1]];
      OutsideKeeps(front, n, h);
    }
  }

  lemma {:induction false} OneCall(run: seq<Event>, n: nat, op: Op)
    requires ManagerThreads.Exec(run).Next? && Call(n, op) in Incoming(run)
    ensures OpOf(Incoming(run), n) == Some(op)
  {
    var before, e := run[..|run| - 1], run[|run| - 1];
    assert before + [e] == run;
    if Call(n, op) in Incoming(before) {
      OneCall(before, n, op);
      StoriesHold(before, Caller(n));
      assert !(e.Call? && e.n == n);
      OutsideOneMore(Incoming(before), e, n, 0, Stdout);
      assert Incoming(before) + [] == Incoming(before);
    } else {
      OutsideOneMore(Incoming(before), e, n, 0, Stdout);
    }
  }

  lemma {:induction false} OneReap(run: seq<Event>, h: nat, code: int, at: int)
    requires ManagerThreads.Exec(run).Next? && Reap(h, code, at) in Incoming(run)
    ensures ReapOf(Incoming(run), h) == Some((code, at))
  {
    var before, e := run[..|run| - 1], run[|run| - 1];
    assert before + [e] == run;
    if Reap(h, code, at) in Incoming(before) {
      OneReap(before, h, code, at);
      if e.Reap? && e.h == h {
        SecondReap(before, h, e, code, at);
      } else {
        OutsideOneMore(Incoming(before), e, 0, h, Stdout);
        assert Incoming(before) + [] == Incoming(before);
      }
    } else {
      OutsideOneMore(Incoming(before), e, 0, h, Stdout);
    }
  }

  /** Wait does not return a second time: the process is known to have exited by then. */
  lemma SecondReap(run: seq<Event>, h: nat, e: Event, code: int, at: int)
    requires ManagerThreads.Exec(run).Next? && e.Reap? && e.h == h
    requires ReapOf(Incoming(run), h) == Some((code, at))
    ensures !ManagerThreads.Step(ManagerThreads.Exec(run).value, e).Next?
  {
    var s := ManagerThreads.Exec(run).value;
    if Idle(s.threads, Waiter(h)) && h < |s.manager.procs| {
      RunKeeps(run);
      StoriesHold(run, Waiter(h));
      var made := Made(s.trace, Authors(run), Waiter(h));
      assert Fits(SetExited(h, code, at), made[0]);
      MadeIsInTrace(s.trace, Authors(run), Waiter(h));
      ExitedInTrace(s, h, code, at);
    }
  }

  // What holds once a goroutine is done

  lemma CallIsAnswered(atomic: seq<Event>, run: seq<Event>, f: Machine, s: System, d: Later, n: nat, op: Op)
    requires LeadsTo(atomic, s) && Related(f, s, d) && Accounts(run, atomic, d)
    requires Call(n, op) in run && Idle(f.threads, Caller(n))
    ensures Answered(op, Made(s.trace, Authors(atomic), Caller(n)), s.trace)
  {
    OutsideHasIt(run, Call(n, op));
    OneCall(atomic, n, op);
    StoriesHold(atomic, Caller(n));
    StoryEnds(op, Made(s.trace, Authors(atomic), Caller(n)), s.trace);
  }

  lemma ExitIsTold(atomic: seq<Event>, run: seq<Event>, f: Machine, s: System, d: Later, h: nat, code: int, at: int)
    requires LeadsTo(atomic, s) && Related(f, s, d) && Accounts(run, atomic, d)
    requires Reap(h, code, at) in run && Idle(f.threads, Waiter(h))
    ensures Made(s.trace, Authors(atomic), Waiter(h)) ==
            [ProcTable.Of(h, Stream.SetState(code, at)), ProcTable.Of(h, Stream.CloseSubs)]
    ensures h < |f.mem.procs|
    ensures Stream.ViewOf(f.mem.procs[h]) == Stream.View(Stream.Exited, code, Some(at))
  {
    OutsideHasIt(run, Reap(h, code, at));
    OneReap(atomic, h, code, at);
    StoriesHold(atomic, Waiter(h));
    var made := Made(s.trace, Authors(atomic), Waiter(h));
    assert Fits(SetExited(h, code, at), made[0]) && Fits(CloseSubs(h), made[1]);
    assert made == [made[0], made[1]];
    MadeIsInTrace(s.trace, Authors(atomic), Waiter(h));
    assert ThreadOk(s.manager, Waiter(h), s.threads[Waiter(h)]);
    ExitedInTrace(s, h, code, at);
    NobodyWritesView(f, s, d, h);
  }

  /** While the waiter rests, the view in memory is the manager's, even if somebody is reading it. */
  lemma NobodyWritesView(f: Machine, s: System, d: Later, h: nat)
    requires Related(f, s, d) && h < |s.manager.procs| && Idle(f.threads, Waiter(h))
    ensures Stream.ViewOf(f.mem.procs[h]) == Stream.ViewOf(s.manager.procs[h])
  {
    assert At(f, s.manager, d, ProcLock(h));
    if t :| Inside(f, t, ProcLock(h)) {
      var a := f.threads[t].todo[0].action;
      assert Mid(f.mem, s.manager, a, BodyOf(f, t), Of(d, ProcLock(h)));
      assert ThreadOk(s.manager, t, s.threads[t]);
      BodyBelongs(s.manager, t, s.threads[t], a);
    }
  }

  lemma OutputIsPumped(atomic: seq<Event>, run: seq<Event>, f: Machine, s: System, d: Later, h: nat, src: Source)
    requires LeadsTo(atomic, s) && Related(f, s, d) && Accounts(run, atomic, d) && Idle(f.threads, Pump(h, src))
    ensures Made(s.trace, Authors(atomic), Pump(h, src)) == Pumped(Incoming(run), h, src)
  {
    StoriesHold(atomic, Pump(h, src));
    var made := Made(s.trace, Authors(atomic), Pump(h, src));
    assert made + [] == made;
  }

  /**
   After any interleaving there is a run of the manager, every step of it ascribed to a goroutine (or, a receipt, to
   none), that agrees with memory on all that is guarded by a mutex in whose sections nobody is, and in which
   - every call that has returned made exactly the steps that answer it;
   - every waiter that is done made exactly the exit that Wait returned, which the process's view now shows, and then
     closed the subscribers;
   - every pump that rests has scanned and added exactly the lines it was given, one after the other.
   */
  lemma CallsAreAnswered(run: seq<Event>) returns (trace: seq<ProcTable.Label>, authors: seq<Option<ThreadId>>)
    requires Goroutines.Exec(run).Next?
    ensures ProcTable.Exec(trace).Next? && |authors| == |trace|
    ensures forall l :: !Busy(Goroutines.Exec(run).value, l) ==> Consistent(Goroutines.Exec(run).value.mem, trace, l)
    ensures forall n: nat, op: Op :: Call(n, op) in run && Idle(Goroutines.Exec(run).value.threads, Caller(n)) ==>
              Answered(op, Made(trace, authors, Caller(n)), trace)
    ensures forall h: nat, code: int, at: int ::
              Reap(h, code, at) in run && Idle(Goroutines.Exec(run).value.threads, Waiter(h)) ==>
              && Made(trace, authors, Waiter(h)) ==
                 [ProcTable.Of(h, Stream.SetState(code, at)), ProcTable.Of(h, Stream.CloseSubs)]
              && h < |Goroutines.Exec(run).value.mem.procs|
              && Stream.ViewOf(Goroutines.Exec(run).value.mem.procs[h]) == Stream.View(Stream.Exited, code, Some(at))
    ensures forall h: nat, src: Source :: Idle(Goroutines.Exec(run).value.threads, Pump(h, src)) ==>
              Made(trace, authors, Pump(h, src)) == Pumped(Incoming(run), h, src)
  {
    hide Accounts, Answered, Made, Related;
    var atomic := BodiesAreAtomic(run);
    var f := Goroutines.Exec(run).value;
    var s, d :| LeadsTo(atomic, s) && Related(f, s, d) && Accounts(run, atomic, d);
    trace, authors := s.trace, Authors(atomic);
    AuthorsCount(atomic);
    RelatedIsConsistent(f, s, d);
    forall n: nat, op: Op | Call(n, op) in run && Idle(f.threads, Caller(n))
      ensures Answered(op, Made(trace, authors, Caller(n)), trace)
    {
      CallIsAnswered(atomic, run, f, s, d, n, op);
    }
    forall h: nat, code: int, at: int | Reap(h, code, at) in run && Idle(f.threads, Waiter(h))
      ensures Made(trace, authors, Waiter(h)) ==
              [ProcTable.Of(h, Stream.SetState(code, at)), ProcTable.Of(h, Stream.CloseSubs)]
      ensures h < |f.mem.procs| && Stream.ViewOf(f.mem.procs[h]) == Stream.View(Stream.Exited, code, Some(at))
    {
      ExitIsTold(atomic, run, f, s, d, h, code, at);
    }
    forall h: nat, src: Source | Idle(f.threads, Pump(h, src))
      ensures Made(trace, authors, Pump(h, src)) == Pumped(Incoming(run), h, src)
    {
      OutputIsPumped(atomic, run, f, s, d, h, src);
    }
  }

  lemma RelatedIsConsistent(f: Machine, s: System, d: Later)
    requires Related(f, s, d)
    ensures ProcTable.Exec(s.trace).Next?
    ensures forall l :: !Busy(f, l) ==> Consistent(f.mem, s.trace, l)
  {
    forall l | !Busy(f, l)
      ensures Consistent(f.mem, s.trace, l)
    {
      assert At(f, s.manager, d, l);
    }
  }
}
