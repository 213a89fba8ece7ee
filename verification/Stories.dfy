/**
 What each goroutine of `ManagerThreads` does, from the event that sets it off to its last instruction
 (internal/procapi/procapi.go): every step of the manager's trace is ascribed to the goroutine that made it.
 */
module Stories {
  import opened Sequences
  import opened LogRing
  import opened ManagerThreads
  import opened ThreadSafety
  import Stream
  import StreamTheorems
  import ProcTable

  // Who made which step

  function AuthorOf(e: Event): Option<ThreadId> {
    match e
    case Run(t, _) => Some(t)
    case Scan(h, src, _, _) => Some(Pump(h, src))
    case _ => None
  }

  /** The goroutine behind each step of the trace; a receiver is none of the manager's. */
  ghost function Authors(run: seq<Event>): seq<Option<ThreadId>> {
    if run == [] then []
    else
      var before := run[..|run| - 1];
      Authors(before) +
      if Exec(before).Next? && Exec(run).Next? && |Exec(run).value.trace| > |Exec(before).value.trace|
      then [AuthorOf(run[|run| - 1])] else []
  }

  /** The steps of the trace that are `t`'s. */
  ghost function Made(trace: seq<ProcTable.Label>, authors: seq<Option<ThreadId>>, t: ThreadId): seq<ProcTable.Label> {
    if trace == [] || |authors| != |trace| then []
    else
      var n := |trace| - 1;
      Made(trace[..n], authors[..n], t) + if authors[n] == Some(t) then [trace[n]] else []
  }

  lemma MadeOneMore(trace: seq<ProcTable.Label>, authors: seq<Option<ThreadId>>, l: ProcTable.Label,
                    a: Option<ThreadId>, t: ThreadId)
    requires |authors| == |trace|
    ensures Made(trace + [l], authors + [a], t) == Made(trace, authors, t) + if a == Some(t) then [l] else []
  {
    assert (trace + [l])[..|trace|] == trace && (authors + [a])[..|trace|] == authors;
  }

  lemma {:induction false} MadeIsInTrace(trace: seq<ProcTable.Label>, authors: seq<Option<ThreadId>>, t: ThreadId)
    ensures forall l :: l in Made(trace, authors, t) ==> l in trace
  {
    if trace != [] && |authors| == |trace| {
      MadeIsInTrace(trace[..|trace| - 1], authors[..|trace| - 1], t);
    }
  }

  // What comes from outside

  /** The events that are not the goroutines' own: calls, output and exits. */
  function Incoming(run: seq<Event>): seq<Event> {
    if run == [] then []
    else
      var e := run[|run| - 1];
      Incoming(run[..|run| - 1]) + if e.Call? || e.Scan? || e.Reap? then [e] else []
  }

  /** The operation that caller `n` called. */
  function OpOf(outside: seq<Event>, n: nat): Option<Op> {
    if outside == [] then None
    else
      var e := outside[|outside| - 1];
      if e.Call? && e.n == n then Some(e.op) else OpOf(outside[..|outside| - 1], n)
  }

  /** The exit code and time that Wait returned for process `h`. */
  function ReapOf(outside: seq<Event>, h: nat): Option<(int, int)> {
    if outside == [] then None
    else
      var e := outside[|outside| - 1];
      if e.Reap? && e.h == h then Some((e.code, e.at)) else ReapOf(outside[..|outside| - 1], h)
  }

  /** What a pump does with the lines it is given: each is scanned and then added. */
  function Pumped(outside: seq<Event>, h: nat, src: Source): seq<ProcTable.Label> {
    if outside == [] then []
    else
      var e := outside[|outside| - 1];
      Pumped(outside[..|outside| - 1], h, src) +
      if e.Scan? && e.h == h && e.src == src
      then [ProcTable.Of(h, Stream.Scan(src, e.text, e.at)), ProcTable.Of(h, Stream.Add(src))] else []
  }

  // What a call amounts to

  predicate IsLook(l: ProcTable.Label, h: nat) {
    l.Of? && l.handle == h && l.step.Look?
  }

  /** Process `h` is the one registered under `id`. */
  ghost predicate Registered(trace: seq<ProcTable.Label>, h: nat, id: string) {
    h < |ProcTable.Issued(trace)| && ProcTable.Issued(trace)[h] == id
  }

  /** The steps by which a call of `op`, now returned, has been answered, and no others. */
  ghost predicate Answered(op: Op, made: seq<ProcTable.Label>, trace: seq<ProcTable.Label>) {
    match op
    case Start =>
      |made| == 2 && made[0].Register? && made[1].Of? && Registered(trace, made[1].handle, made[0].id)
      && IsLook(made[1], made[1].handle)
    case List =>
      && made != [] && made[0].Listing?
      && exists order :: Enumerates(order, made[0].handles) && |made| == 1 + |order| &&
           forall i :: 0 <= i < |order| ==> IsLook(made[1 + i], order[i])
    case CancelStream(h, c) => made == [ProcTable.Of(h, Stream.Cancel(c))]
    case Lookup(id, purpose) =>
      && made != [] && made[0].Find? && made[0].id == id
      && match made[0].found
         case None =>
           if purpose == ToRemove then |made| == 2 && made[1].Delete? && made[1].id == id else |made| == 1
         case Some(h) =>
           && |made| == (if purpose == ToRemove then 3 else 2)
           && (match purpose
               case ToReadLogs => made[1].Of? && made[1].handle == h && made[1].step.Snapshot?
               case ToSubscribe => made[1].Of? && made[1].handle == h && made[1].step.Subscribe?
               case _ => IsLook(made[1], h))
           && (purpose == ToRemove ==> made[2].Delete? && made[2].id == id)
  }

  // On the way there

  /** The bodies a goroutine has left. */
  function Acts(todo: seq<Instr>): seq<Action> {
    if todo == [] then []
    else (if todo[0].Do? then [todo[0].action] else []) + Acts(todo[1..])
  }

  lemma {:induction false} ActsConcat(a: seq<Instr>, b: seq<Instr>)
    ensures Acts(a + b) == Acts(a) + Acts(b)
  {
    if a == [] {
      assert a + b == b;
    } else {
      assert (a + b)[1..] == a[1..] + b;
      ActsConcat(a[1..], b);
    }
  }

  lemma ActsLocked(l: Lock, a: Action)
    ensures Acts(Locked(l, a)) == [a]
  {
    var last: seq<Instr> := [Release(l)];
    assert last[1..] == [] && Acts(last) == [];
    var rest := [Do(a)] + last;
    assert rest[1..] == last && Acts(rest) == [a];
    assert Locked(l, a)[1..] == rest;
  }

  /** `l` is the kind of step that the body of `a` makes. */
  predicate Fits(a: Action, l: ProcTable.Label) {
    match a
    case Register => l.Register?
    case Find(id, _) => l.Find? && l.id == id
    case ListAll => l.Listing?
    case Delete(id) => l.Delete? && l.id == id
    case Look(h) => IsLook(l, h)
    case SetExited(h, code, at) => l == ProcTable.Of(h, Stream.SetState(code, at))
    case Append(h, src) => l == ProcTable.Of(h, Stream.Add(src))
    case Subscribe(h) => l.Of? && l.handle == h && l.step.Subscribe?
    case Snapshot(h) => l.Of? && l.handle == h && l.step.Snapshot?
    case Cancel(h, c) => l == ProcTable.Of(h, Stream.Cancel(c))
    case CloseSubs(h) => l == ProcTable.Of(h, Stream.CloseSubs)
  }

  lemma LabelFits(m: ProcTable.Manager, a: Action)
    requires Target(a).Some? ==> Target(a).value < |m.procs|
    ensures Fits(a, LabelOf(m, a))
  {
  }

  /** Of the bodies `acts` those of `did` are done and the rest is still to do. */
  ghost predicate Doing(acts: seq<Action>, did: seq<ProcTable.Label>, todo: seq<Instr>) {
    && |did| <= |acts| && Acts(todo) == acts[|did|..]
    && forall i :: 0 <= i < |did| ==> Fits(acts[i], did[i])
  }

  lemma DoingNext(acts: seq<Action>, did: seq<ProcTable.Label>, todo: seq<Instr>, l: ProcTable.Label)
    requires Doing(acts, did, todo) && todo != [] && todo[0].Do? && Fits(todo[0].action, l)
    ensures Doing(acts, did + [l], todo[1..])
  {
    assert Acts(todo)[0] == todo[0].action == acts[|did|];
    assert Acts(todo[1..]) == Acts(todo)[1..] == acts[|did| + 1..];
  }

  /** What a lookup does with what it has found. */
  function Purposes(id: string, purpose: Purpose, found: Option<nat>): seq<Action> {
    (if found == None then []
     else match purpose
       case ToReadLogs => [Snapshot(found.value)]
       case ToSubscribe => [Subscribe(found.value)]
       case _ => [Look(found.value)])
    + if purpose == ToRemove then [Delete(id)] else []
  }

  function Looks(order: seq<nat>): seq<Action> {
    seq(|order|, i requires 0 <= i < |order| => Look(order[i]))
  }

  ghost predicate CallStory(op: Op, made: seq<ProcTable.Label>, todo: seq<Instr>, trace: seq<ProcTable.Label>) {
    match op
    case Start =>
      if made == [] then Acts(todo) == [Register]
      else made[0].Register? && exists h :: Registered(trace, h, made[0].id) && Doing([Look(h)], made[1..], todo)
    case List =>
      if made == [] then Acts(todo) == [ListAll]
      else
        made[0].Listing? &&
        exists order :: Enumerates(order, made[0].handles) && Doing(Looks(order), made[1..], todo)
    case CancelStream(h, c) => Doing([Cancel(h, c)], made, todo)
    case Lookup(id, purpose) =>
      if made == [] then Acts(todo) == [Find(id, purpose)]
      else made[0].Find? && made[0].id == id && Doing(Purposes(id, purpose, made[0].found), made[1..], todo)
  }

  /** Whose story it is, and how far it has come: `made` so far and `todo` ahead. */
  ghost predicate Story(outside: seq<Event>, t: ThreadId, made: seq<ProcTable.Label>, todo: seq<Instr>,
                        trace: seq<ProcTable.Label>) {
    match t
    case Caller(n) => OpOf(outside, n).Some? && CallStory(OpOf(outside, n).value, made, todo, trace)
    case Waiter(h) =>
      (match ReapOf(outside, h)
       case None => made == [] && todo == []
       case Some(exit) => Doing([SetExited(h, exit.0, exit.1), CloseSubs(h)], made, todo))
    case Pump(h, src) =>
      && (Acts(todo) == [] || Acts(todo) == [Append(h, src)])
      && made + (if Acts(todo) == [] then [] else [ProcTable.Of(h, Stream.Add(src))]) == Pumped(outside, h, src)
  }

  /** Nothing has set `t` off. */
  ghost predicate NoStory(outside: seq<Event>, t: ThreadId, made: seq<ProcTable.Label>) {
    && made == []
    && match t
       case Caller(n) => OpOf(outside, n) == None
       case Waiter(h) => ReapOf(outside, h) == None
       case Pump(h, src) => Pumped(outside, h, src) == []
  }

  ghost predicate StoryAt(run: seq<Event>, s: System, t: ThreadId) {
    var made := Made(s.trace, Authors(run), t);
    if t in s.threads then Story(Incoming(run), t, made, s.threads[t].todo, s.trace)
    else NoStory(Incoming(run), t, made)
  }

  // One instruction

  lemma AfterFindActs(id: string, purpose: Purpose, found: Option<nat>)
    ensures Acts(AfterFind(id, purpose, found)) == Purposes(id, purpose, found)
  {
    var last := if purpose == ToRemove then Locked(TableLock, Delete(id)) else [];
    ActsLocked(TableLock, Delete(id));
    if found.Some? {
      var h := found.value;
      ActsLocked(RingLock(h), Snapshot(h));
      ActsLocked(RingLock(h), Subscribe(h));
      ActsLocked(ProcLock(h), Look(h));
      match purpose {
        case ToReadLogs => ActsConcat(Locked(RingLock(h), Snapshot(h)), last);
        case ToSubscribe => ActsConcat(Locked(RingLock(h), Subscribe(h)), last);
        case _ => ActsConcat(Locked(ProcLock(h), Look(h)), last);
      }
    } else {
      assert AfterFind(id, purpose, found) == last;
    }
  }

  lemma {:induction false} ViewsActs(order: seq<nat>)
    ensures Acts(Views(order)) == Looks(order)
    decreases |order|
  {
    if order != [] {
      ActsLocked(ProcLock(order[0]), Look(order[0]));
      ActsConcat(Locked(ProcLock(order[0]), Look(order[0])), Views(order[1..]));
      ViewsActs(order[1..]);
      assert Looks(order) == [Look(order[0])] + Looks(order[1..]);
    }
  }

  lemma SequelActs(m: ProcTable.Manager, a: Action, order: seq<nat>)
    ensures Acts(Sequel(m, a, order)) ==
            match a
            case Register => [Look(|m.procs|)]
            case Find(id, purpose) => Purposes(id, purpose, ProcTable.Lookup(m.table, id))
            case ListAll => Looks(order)
            case _ => []
  {
    var release := [Release(TableLock)];
    assert release[1..] == [];
    match a
    case Register =>
      ActsConcat(release, Locked(ProcLock(|m.procs|), Look(|m.procs|)));
      ActsLocked(ProcLock(|m.procs|), Look(|m.procs|));
    case Find(id, purpose) =>
      ActsConcat(release, AfterFind(id, purpose, ProcTable.Lookup(m.table, id)));
      AfterFindActs(id, purpose, ProcTable.Lookup(m.table, id));
    case ListAll =>
      ActsConcat(Views(order), release);
      ViewsActs(order);
    case _ =>
  }

  /** A caller's body takes its story one step further. */
  lemma CallGoesOn(op: Op, made: seq<ProcTable.Label>, todo: seq<Instr>, trace: seq<ProcTable.Label>,
                   m: ProcTable.Manager, order: seq<nat>, trace': seq<ProcTable.Label>)
    requires CallStory(op, made, todo, trace) && todo != [] && todo[0].Do?
    requires Target(todo[0].action).Some? ==> Target(todo[0].action).value < |m.procs|
    requires todo[0].action == ListAll ==> Enumerates(order, m.table.entries.Values)
    requires Expands(todo[0].action) ==> todo[1..] == []
    requires trace' == trace + [LabelOf(m, todo[0].action)]
    requires |m.procs| == |ProcTable.Issued(trace)|
    ensures CallStory(op, made + [LabelOf(m, todo[0].action)], Sequel(m, todo[0].action, order) + todo[1..], trace')
  {
    var a := todo[0].action;
    var l := LabelOf(m, a);
    LabelFits(m, a);
    SequelActs(m, a, order);
    assert trace'[..|trace|] == trace;
    if Expands(a) {
      ExpandGoesOn(op, made, todo, trace, m, order, trace');
    } else {
      assert Sequel(m, a, order) + todo[1..] == todo[1..];
      PlainGoesOn(op, made, todo, trace, l, trace');
    }
  }

  lemma ExpandGoesOn(op: Op, made: seq<ProcTable.Label>, todo: seq<Instr>, trace: seq<ProcTable.Label>,
                     m: ProcTable.Manager, order: seq<nat>, trace': seq<ProcTable.Label>)
    requires CallStory(op, made, todo, trace) && todo != [] && todo[0].Do? && Expands(todo[0].action)
    requires todo[0].action == ListAll ==> Enumerates(order, m.table.entries.Values)
    requires todo[1..] == [] && |m.procs| == |ProcTable.Issued(trace)|
    requires trace' == trace + [LabelOf(m, todo[0].action)] && trace'[..|trace|] == trace
    ensures CallStory(op, made + [LabelOf(m, todo[0].action)], Sequel(m, todo[0].action, order) + todo[1..], trace')
  {
    var a := todo[0].action;
    var l := LabelOf(m, a);
    var next := Sequel(m, a, order) + todo[1..];
    assert next == Sequel(m, a, order);
    SequelActs(m, a, order);
    NoSecondExpansion(op, made, todo, trace);
    assert (made + [l])[1..] == [];
    match a
    case Register =>
      assert Registered(trace', |m.procs|, l.id);
      assert Doing([Look(|m.procs|)], [], next);
    case Find(id, purpose) =>
      assert Doing(Purposes(id, purpose, l.found), [], next);
    case ListAll =>
      assert Doing(Looks(order), [], next);
  }

  /** The bodies that look something up come first. */
  lemma NoSecondExpansion(op: Op, made: seq<ProcTable.Label>, todo: seq<Instr>, trace: seq<ProcTable.Label>)
    requires CallStory(op, made, todo, trace) && todo != [] && todo[0].Do? && Expands(todo[0].action)
    ensures made == [] && Acts(todo)[0] == todo[0].action && !op.CancelStream?
  {
    assert Acts(todo)[0] == todo[0].action;
  }

  lemma PlainGoesOn(op: Op, made: seq<ProcTable.Label>, todo: seq<Instr>, trace: seq<ProcTable.Label>,
                    l: ProcTable.Label, trace': seq<ProcTable.Label>)
    requires CallStory(op, made, todo, trace) && todo != [] && todo[0].Do? && !Expands(todo[0].action)
    requires Fits(todo[0].action, l) && trace' == trace + [l] && trace'[..|trace|] == trace
    ensures CallStory(op, made + [l], todo[1..], trace')
  {
    assert Acts(todo)[0] == todo[0].action;
    if op.CancelStream? {
      DoingNext([Cancel(op.h, op.c)], made, todo, l);
    } else {
      assert made != [];
      assert (made + [l])[1..] == made[1..] + [l];
      match op {
        case Start =>
          var h :| Registered(trace, h, made[0].id) && Doing([Look(h)], made[1..], todo);
          DoingNext([Look(h)], made[1..], todo, l);
          assert Registered(trace', h, made[0].id);
        case List =>
          var order :| Enumerates(order, made[0].handles) && Doing(Looks(order), made[1..], todo);
          DoingNext(Looks(order), made[1..], todo, l);
        case Lookup(id, purpose) =>
          DoingNext(Purposes(id, purpose, made[0].found), made[1..], todo, l);
      }
    }
  }

  /** A story told to its end is an answer. */
  lemma StoryEnds(op: Op, made: seq<ProcTable.Label>, trace: seq<ProcTable.Label>)
    requires CallStory(op, made, [], trace)
    ensures Answered(op, made, trace)
  {
    match op
    case Start =>
      var h :| Registered(trace, h, made[0].id) && Doing([Look(h)], made[1..], []);
      assert Fits(Look(h), made[1..][0]);
    case List =>
      var order :| Enumerates(order, made[0].handles) && Doing(Looks(order), made[1..], []);
      assert forall i :: 0 <= i < |order| ==> Fits(Looks(order)[i], made[1..][i]);
    case CancelStream(h, c) => assert made == [made[0]];
    case Lookup(id, purpose) =>
      var acts := Purposes(id, purpose, made[0].found);
      assert forall i :: 0 <= i < |acts| ==> Fits(acts[i], made[1..][i]);
  }

  // Over a run

  /** What an event does to the trace. */
  lemma TraceAfter(s: System, e: Event)
    requires ManagerThreads.Step(s, e).Next?
    ensures var s' := ManagerThreads.Step(s, e).value;
            |s'.trace| <= |s.trace| + 1 && s'.trace[..|s.trace|] == s.trace
  {
    hide ProcTable.Step, LabelOf, Sequel;
  }

  lemma {:induction false} AuthorsCount(run: seq<Event>)
    requires Exec(run).Next?
    ensures |Authors(run)| == |Exec(run).value.trace|
  {
    if run != [] {
      AuthorsCount(run[..|run| - 1]);
      TraceAfter(Exec(run[..|run| - 1]).value, run[|run| - 1]);
    }
  }

  /** `run` and then `e`, from `s` to `s'`. */
  ghost predicate Goes(run: seq<Event>, e: Event, s: System, s': System) {
    Exec(run) == Next(s) && Inv(s) && ManagerThreads.Step(s, e) == Next(s')
  }

  lemma Ascribed(run: seq<Event>, e: Event, s: System, s': System, t: ThreadId)
    requires Goes(run, e, s, s')
    ensures Exec(run + [e]) == Next(s')
    ensures Incoming(run + [e]) == Incoming(run) + if e.Call? || e.Scan? || e.Reap? then [e] else []
    ensures s'.trace == s.trace || (|s'.trace| == |s.trace| + 1 && s'.trace == s.trace + [s'.trace[|s.trace|]])
    ensures Made(s'.trace, Authors(run + [e]), t) ==
            Made(s.trace, Authors(run), t) +
            if |s'.trace| > |s.trace| && AuthorOf(e) == Some(t) then [s'.trace[|s.trace|]] else []
  {
    assert (run + [e])[..|run|] == run;
    AuthorsCount(run);
    TraceAfter(s, e);
    if |s'.trace| > |s.trace| {
      assert s'.trace == s.trace + [s'.trace[|s.trace|]];
      MadeOneMore(s.trace, Authors(run), s'.trace[|s.trace|], AuthorOf(e), t);
    } else {
      assert s'.trace == s.trace;
      assert Authors(run + [e]) == Authors(run);
    }
  }

  lemma OutsideOneMore(outside: seq<Event>, e: Event, n: nat, h: nat, src: Source)
    ensures OpOf(outside + [e], n) == if e.Call? && e.n == n then Some(e.op) else OpOf(outside, n)
    ensures ReapOf(outside + [e], h) == if e.Reap? && e.h == h then Some((e.code, e.at)) else ReapOf(outside, h)
    ensures Pumped(outside + [e], h, src) ==
            Pumped(outside, h, src) +
            if e.Scan? && e.h == h && e.src == src
            then [ProcTable.Of(h, Stream.Scan(src, e.text, e.at)), ProcTable.Of(h, Stream.Add(src))] else []
  {
    assert (outside + [e])[..|outside|] == outside;
  }

  /** What comes from outside for somebody else leaves `t`'s story. */
  predicate SetsOff(e: Event, t: ThreadId) {
    match t
    case Caller(n) => e.Call? && e.n == n
    case Waiter(h) => e.Reap? && e.h == h
    case Pump(h, src) => e.Scan? && e.h == h && e.src == src
  }

  lemma OutsideSame(outside: seq<Event>, e: Event, t: ThreadId, made: seq<ProcTable.Label>, todo: seq<Instr>,
                    trace: seq<ProcTable.Label>)
    requires !SetsOff(e, t)
    ensures Story(outside + [e], t, made, todo, trace) <==> Story(outside, t, made, todo, trace)
    ensures NoStory(outside + [e], t, made) <==> NoStory(outside, t, made)
  {
    match t
    case Caller(n) => OutsideOneMore(outside, e, n, 0, Stdout);
    case Waiter(h) => OutsideOneMore(outside, e, 0, h, Stdout);
    case Pump(h, src) => OutsideOneMore(outside, e, 0, h, src);
  }

  lemma TraceLonger(outside: seq<Event>, t: ThreadId, made: seq<ProcTable.Label>, todo: seq<Instr>,
                    trace: seq<ProcTable.Label>, trace': seq<ProcTable.Label>)
    requires Story(outside, t, made, todo, trace) && |trace'| <= |trace| + 1
    requires |trace| <= |trace'| && trace'[..|trace|] == trace
    ensures Story(outside, t, made, todo, trace')
  {
    if |trace'| == |trace| {
      assert trace' == trace;
    } else if t.Caller? && OpOf(outside, t.n) == Some(Start) && made != [] {
      var h :| Registered(trace, h, made[0].id) && Doing([Look(h)], made[1..], todo);
      assert trace'[..|trace'| - 1] == trace;
      assert Registered(trace', h, made[0].id);
    }
  }

  /** Who does not act in `e`, and is not set off by it, goes on with the same story. */
  lemma BystanderKept(run: seq<Event>, e: Event, s: System, s': System, t: ThreadId)
    requires Goes(run, e, s, s') && StoryAt(run, s, t) && !SetsOff(e, t) && AuthorOf(e) != Some(t)
    requires t in s.threads ==> t in s'.threads && s'.threads[t].todo == s.threads[t].todo
    requires t !in s.threads && t in s'.threads ==> !t.Caller? && s'.threads[t].todo == []
    ensures StoryAt(run + [e], s', t)
  {
    hide ManagerThreads.Step, Inv, Story, NoStory, Made, Authors;
    var made := Made(s.trace, Authors(run), t);
    Ascribed(run, e, s, s', t);
    assert made + [] == made;
    if e.Call? || e.Scan? || e.Reap? {
      OutsideSame(Incoming(run), e, t, made, if t in s.threads then s.threads[t].todo else [], s.trace);
    } else {
      assert Incoming(run) + [] == Incoming(run);
    }
    if t in s.threads {
      TraceLonger(Incoming(run + [e]), t, made, s.threads[t].todo, s.trace, s'.trace);
    } else if t in s'.threads {
      IdleAtFirst(Incoming(run + [e]), t, made, s'.trace);
    }
  }

  /** A pump or waiter that has just been started has nothing to do yet. */
  lemma IdleAtFirst(outside: seq<Event>, t: ThreadId, made: seq<ProcTable.Label>, trace: seq<ProcTable.Label>)
    requires NoStory(outside, t, made) && !t.Caller?
    ensures Story(outside, t, made, [], trace)
  {
  }

  // The one who acts

  lemma MutexActs(todo: seq<Instr>)
    requires todo != [] && !todo[0].Do?
    ensures Acts(todo[1..]) == Acts(todo)
  {
  }

  /** A mutex taken or released leaves the story where it is. */
  lemma MutexKept(run: seq<Event>, t: ThreadId, order: seq<nat>, s: System, s': System)
    requires Goes(run, Run(t, order), s, s') && StoryAt(run, s, t) && t in s.threads && s.threads[t].todo != []
    requires !s.threads[t].todo[0].Do?
    ensures StoryAt(run + [Run(t, order)], s', t)
  {
    hide Inv, Made, Authors, Story;
    var made, todo := Made(s.trace, Authors(run), t), s.threads[t].todo;
    Ascribed(run, Run(t, order), s, s', t);
    MutexEnds(s, t, order, s');
    MutexTells(Incoming(run), t, made, todo, s.trace);
    assert Incoming(run) + [] == Incoming(run) && made + [] == made;
  }

  lemma MutexTells(outside: seq<Event>, t: ThreadId, made: seq<ProcTable.Label>, todo: seq<Instr>,
                   trace: seq<ProcTable.Label>)
    requires Story(outside, t, made, todo, trace) && todo != [] && !todo[0].Do?
    ensures Story(outside, t, made, todo[1..], trace)
  {
    MutexActs(todo);
  }

  lemma MutexEnds(s: System, t: ThreadId, order: seq<nat>, s': System)
    requires t in s.threads && s.threads[t].todo != [] && !s.threads[t].todo[0].Do?
    requires RunNext(s, t, order) == Next(s')
    ensures s'.trace == s.trace && t in s'.threads && s'.threads[t].todo == s.threads[t].todo[1..]
    ensures s'.threads.Keys == s.threads.Keys
    ensures forall u :: u in s.threads && u != t ==> u in s'.threads && s'.threads[u] == s.threads[u]
  {
  }

  /** What running a body does to the machine. */
  lemma BodyEnds(s: System, t: ThreadId, order: seq<nat>, a: Action, s': System)
    requires Inv(s) && t in s.threads && s.threads[t].todo != [] && s.threads[t].todo[0] == Do(a)
    requires RunNext(s, t, order) == Next(s')
    ensures Target(a).Some? ==> Target(a).value < |s.manager.procs|
    ensures s'.trace == s.trace + [LabelOf(s.manager, a)]
    ensures t in s'.threads && s'.threads[t].todo == Sequel(s.manager, a, order) + s.threads[t].todo[1..]
    ensures a == ListAll ==> Enumerates(order, s.manager.table.entries.Values)
    ensures forall u :: u in s.threads && u != t ==> u in s'.threads && s'.threads[u] == s.threads[u]
    ensures forall u :: u in s'.threads && u !in s.threads ==> !u.Caller? && s'.threads[u].todo == []
  {
    BodyCanRun(s, t, a);
    SpawnedAreNew(s);
  }

  lemma BodyKept(run: seq<Event>, t: ThreadId, order: seq<nat>, a: Action, s: System, s': System)
    requires Goes(run, Run(t, order), s, s') && StoryAt(run, s, t) && t in s.threads
    requires s.threads[t].todo != [] && s.threads[t].todo[0] == Do(a)
    ensures StoryAt(run + [Run(t, order)], s', t)
  {
    hide Inv, LabelOf, Sequel, Made, Authors, Story;
    BodyEnds(s, t, order, a, s');
    Ascribed(run, Run(t, order), s, s', t);
    assert Incoming(run) + [] == Incoming(run);
    BodyTells(run, t, order, a, s);
  }

  /** The story after a body: one more step made, and what follows the body still to do. */
  lemma BodyTells(run: seq<Event>, t: ThreadId, order: seq<nat>, a: Action, s: System)
    requires Exec(run) == Next(s) && Inv(s) && StoryAt(run, s, t) && t in s.threads
    requires s.threads[t].todo != [] && s.threads[t].todo[0] == Do(a)
    requires Target(a).Some? ==> Target(a).value < |s.manager.procs|
    requires a == ListAll ==> Enumerates(order, s.manager.table.entries.Values)
    ensures Story(Incoming(run), t, Made(s.trace, Authors(run), t) + [LabelOf(s.manager, a)],
                  Sequel(s.manager, a, order) + s.threads[t].todo[1..], s.trace + [LabelOf(s.manager, a)])
  {
    var made, todo, l := Made(s.trace, Authors(run), t), s.threads[t].todo, LabelOf(s.manager, a);
    assert ThreadOk(s.manager, t, s.threads[t]);
    BodyBelongs(s.manager, t, s.threads[t], a);
    match t
    case Caller(n) =>
      ProcTable.TableAfter(s.trace);
      LastIfExpanding(s, t, a);
      CallGoesOn(OpOf(Incoming(run), n).value, made, todo, s.trace, s.manager, order, s.trace + [l]);
    case Waiter(h) =>
      LabelFits(s.manager, a);
      var exit := ReapOf(Incoming(run), h).value;
      DoingNext([SetExited(h, exit.0, exit.1), CloseSubs(h)], made, todo, l);
      assert Sequel(s.manager, a, order) + todo[1..] == todo[1..];
    case Pump(h, src) =>
      assert Acts(todo)[0] == a && Acts(todo) == [a] + Acts(todo[1..]);
      assert Sequel(s.manager, a, order) + todo[1..] == todo[1..];
      assert (made + [l]) + [] == made + [l];
  }

  lemma LastIfExpanding(s: System, t: ThreadId, a: Action)
    requires Inv(s) && t in s.threads && s.threads[t].todo != [] && s.threads[t].todo[0] == Do(a)
    ensures Expands(a) ==> s.threads[t].todo[1..] == []
  {
    assert ThreadOk(s.manager, t, s.threads[t]);
  }

  /** A call begins with its program. */
  lemma CallBegins(run: seq<Event>, n: nat, op: Op, s: System, s': System)
    requires Goes(run, Call(n, op), s, s') && StoryAt(run, s, Caller(n))
    ensures StoryAt(run + [Call(n, op)], s', Caller(n))
  {
    Ascribed(run, Call(n, op), s, s', Caller(n));
    OutsideOneMore(Incoming(run), Call(n, op), n, 0, Stdout);
    ProgramActs(op);
  }

  lemma ProgramActs(op: Op)
    ensures Acts(Program(op)) ==
            match op
            case Start => [Register]
            case Lookup(id, purpose) => [Find(id, purpose)]
            case List => [ListAll]
            case CancelStream(h, c) => [Cancel(h, c)]
  {
    var todo := Program(op);
    match op
    case CancelStream(h, c) => ActsLocked(RingLock(h), Cancel(h, c));
    case _ =>
      assert todo[1..] == [todo[1]] && todo[1..][1..] == [];
      assert Acts(todo[1..]) == [todo[1].action];
  }

  lemma ScanBegins(run: seq<Event>, e: Event, s: System, s': System)
    requires e.Scan? && Goes(run, e, s, s') && StoryAt(run, s, Pump(e.h, e.src))
    ensures StoryAt(run + [e], s', Pump(e.h, e.src))
  {
    var t := Pump(e.h, e.src);
    var made := Made(s.trace, Authors(run), t);
    Ascribed(run, e, s, s', t);
    OutsideOneMore(Incoming(run), e, 0, e.h, e.src);
    ActsLocked(RingLock(e.h), Append(e.h, e.src));
    var scan, add := ProcTable.Of(e.h, Stream.Scan(e.src, e.text, e.at)), ProcTable.Of(e.h, Stream.Add(e.src));
    assert s'.trace[|s.trace|] == scan;
    assert made + [] == made && (made + [scan]) + [add] == made + [scan, add];
  }

  /** A waiter that has told its story has seen its process exit. */
  lemma ExitedInTrace(s: System, h: nat, code: int, at: int)
    requires Inv(s) && h < |s.manager.procs| && ProcTable.Of(h, Stream.SetState(code, at)) in s.trace
    ensures s.manager.procs[h].waiter != Stream.Waiting
    ensures Stream.ViewOf(s.manager.procs[h]) == Stream.View(Stream.Exited, code, Some(at))
  {
    var mine := ProcTable.Project(s.trace, h);
    ProcTable.ProcessesAreIndependent(s.trace, h);
    StreamTheorems.ExitsFollowWaiter(ProcTable.RING_MAX, mine);
    ExitProjected(s.trace, h, code, at);
  }

  lemma {:induction false} ExitProjected(trace: seq<ProcTable.Label>, h: nat, code: int, at: int)
    requires ProcTable.Of(h, Stream.SetState(code, at)) in trace
    ensures Stream.View(Stream.Exited, code, Some(at)) in StreamTheorems.Exits(ProcTable.Project(trace, h))
  {
    var front, l := trace[..|trace| - 1], trace[|trace| - 1];
    var mine := ProcTable.Project(front, h);
    assert trace == front + [l];
    assert ProcTable.Project(trace, h) == mine + if l.Of? && l.handle == h then [l.step] else [];
    if l.Of? && l.handle == h {
      assert (mine + [l.step])[..|mine|] == mine;
    } else {
      assert mine + [] == mine;
    }
    if ProcTable.Of(h, Stream.SetState(code, at)) in front {
      ExitProjected(front, h, code, at);
    }
  }

  lemma ReapBegins(run: seq<Event>, e: Event, s: System, s': System)
    requires e.Reap? && Goes(run, e, s, s') && StoryAt(run, s, Waiter(e.h))
    ensures StoryAt(run + [e], s', Waiter(e.h))
  {
    var t := Waiter(e.h);
    var made := Made(s.trace, Authors(run), t);
    Ascribed(run, e, s, s', t);
    OutsideOneMore(Incoming(run), e, 0, e.h, Stdout);
    if ReapOf(Incoming(run), e.h).Some? {
      var exit := ReapOf(Incoming(run), e.h).value;
      assert Fits(SetExited(e.h, exit.0, exit.1), made[0]);
      MadeIsInTrace(s.trace, Authors(run), t);
      ExitedInTrace(s, e.h, exit.0, exit.1);
    }
    ActsConcat(Locked(ProcLock(e.h), SetExited(e.h, e.code, e.at)), Locked(RingLock(e.h), CloseSubs(e.h)));
    ActsLocked(ProcLock(e.h), SetExited(e.h, e.code, e.at));
    ActsLocked(RingLock(e.h), CloseSubs(e.h));
  }

  // Every goroutine, always

  lemma OthersStay(s: System, e: Event, s': System, t: ThreadId)
    requires Inv(s) && ManagerThreads.Step(s, e) == Next(s') && !SetsOff(e, t) && !(e.Run? && e.t == t)
    ensures t in s.threads ==> t in s'.threads && s'.threads[t].todo == s.threads[t].todo
    ensures t !in s.threads && t in s'.threads ==> !t.Caller? && s'.threads[t].todo == []
  {
    if e.Run? {
      if s.threads[e.t].todo[0].Do? {
        BodyEnds(s, e.t, e.order, s.threads[e.t].todo[0].action, s');
      } else {
        MutexEnds(s, e.t, e.order, s');
      }
    }
  }

  lemma StoryKept(run: seq<Event>, e: Event, s: System, s': System, t: ThreadId)
    requires Goes(run, e, s, s') && StoryAt(run, s, t)
    ensures StoryAt(run + [e], s', t)
  {
    if e.Run? && e.t == t {
      if s.threads[t].todo[0].Do? {
        BodyKept(run, t, e.order, s.threads[t].todo[0].action, s, s');
      } else {
        MutexKept(run, t, e.order, s, s');
      }
    } else if SetsOff(e, t) {
      match t {
        case Caller(n) => CallBegins(run, n, e.op, s, s');
        case Pump(_, _) => ScanBegins(run, e, s, s');
        case Waiter(_) => ReapBegins(run, e, s, s');
      }
    } else {
      OthersStay(s, e, s', t);
      BystanderKept(run, e, s, s', t);
    }
  }

  /** After every run, every goroutine has done its part of what it was set off to do, and has the rest before it. */
  lemma {:induction false} StoriesHold(run: seq<Event>, t: ThreadId)
    requires Exec(run).Next?
    ensures StoryAt(run, Exec(run).value, t)
  {
    if run != [] {
      var before := run[..|run| - 1];
      StoriesHold(before, t);
      RunKeeps(before);
      StoryKept(before, run[|run| - 1], Exec(before).value, Exec(run).value, t);
      assert before + [run[|run| - 1]] == run;
    }
  }
}
