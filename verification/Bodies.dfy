/**
 A critical section under way (internal/procapi/procapi.go): what its instructions have done to memory so far, compared
 with a manager for which it has not happened yet, and, once it has ended, with one for which it happened in one go.
 */
module Bodies {
  import opened Sequences
  import opened LogRing
  import opened ManagerThreads
  import opened Goroutines
  import Stream
  import ProcTable

  // What a body under way has done to the memory

  /** A channel after some receives, if they are all possible. */
  ghost function Drained(ch: Chan, ls: seq<Stream.Label>, c: nat): Option<Chan> {
    if ls == [] then Some(ch)
    else
      var before, l := Drained(ch, ls[..|ls| - 1], c), ls[|ls| - 1];
      if before == None then None else Taken1(before.value, l, c)
  }

  ghost function Taken1(ch: Chan, l: Stream.Label, c: nat): Option<Chan> {
    match l
    case Receive(k, line) =>
      if k != c then Some(ch)
      else if ch.queue != [] && ch.queue[0] == line then Some(ch.(queue := ch.queue[1..]))
      else None
    case ReceiveClosed(k) => if k != c || (ch.queue == [] && !ch.open) then Some(ch) else None
    case _ => None
  }

  predicate IsReceive(l: Stream.Label) {
    l.Receive? || l.ReceiveClosed?
  }

  /** Receives from channels that are not `left` to be served. */
  ghost predicate Served(ls: seq<Stream.Label>, left: set<nat>, n: nat) {
    forall i :: 0 <= i < |ls| ==> IsReceive(ls[i]) && ls[i].c < n && ls[i].c !in left
  }

  /** Channels in `left` are as before the body; on the others its effect shows, and the receives that came after. */
  ghost predicate Partway(now: seq<Chan>, before: seq<Chan>, after: seq<Chan>, left: set<nat>, ls: seq<Stream.Label>) {
    && |now| == |before| == |after| && Served(ls, left, |now|)
    && (forall c :: c in left ==> c < |now|)
    && (forall c :: 0 <= c < |now| ==>
          if c in left then now[c] == before[c] else Drained(after[c], ls, c) == Some(now[c]))
  }

  function Offered(r: Ring, line: LogLine): seq<Chan> {
    seq(|r.chans|, c requires 0 <= c < |r.chans| => if c in r.subs then TrySend(r.chans[c], line) else r.chans[c])
  }

  function AllShut(r: Ring): seq<Chan> {
    seq(|r.chans|, c requires 0 <= c < |r.chans| => if c in r.subs then r.chans[c].(open := false) else r.chans[c])
  }

  function HalfWritten(v: Stream.View, code: int, written: nat): Stream.View {
    if written == 0 then v
    else if written == 1 then v.(state := Stream.Exited)
    else v.(state := Stream.Exited, exitCode := code)
  }

  ghost predicate MidRing(now: Ring, r: Ring, a: Action, body: Body, ls: seq<Stream.Label>) {
    && now.max == r.max
    && match body
       case HasRing(lines, subs, closed) =>
         now == r && lines == r.lines && subs == r.subs && closed == r.closed && ls == []
       case Forgotten => a.Cancel? && a.c in r.subs && now == r.(subs := r.subs - {a.c}) && ls == []
       case Sending(line, left) =>
         && a.Append? && left <= r.subs
         && now == r.(lines := Window(r.lines, line, r.max), chans := now.chans)
         && Partway(now.chans, r.chans, Offered(r, line), left, ls)
       case Closing(left) =>
         && a.CloseSubs? && left <= r.subs && !r.closed
         && now == r.(closed := true, subs := left, chans := now.chans)
         && Partway(now.chans, r.chans, AllShut(r), left, ls)
       case _ => false
  }

  /** Inside the body of `a`: what it has loaded is still so, and what it has written so far is all that differs. */
  ghost predicate Mid(mem: ProcTable.Manager, m: ProcTable.Manager, a: Action, body: Body, ls: seq<Stream.Label>) {
    && (Target(a).Some? ==> Target(a).value < |m.procs| && Target(a).value < |mem.procs|)
    && match Guard(a)
       case TableLock => body == HasTable(m.table) && mem.table == m.table
       case ProcLock(h) =>
         var v := Stream.ViewOf(m.procs[h]);
         if a.SetExited? then
           body.Writing? && body.written <= 2 && Stream.ViewOf(mem.procs[h]) == HalfWritten(v, a.code, body.written)
         else body == HasView(v) && Stream.ViewOf(mem.procs[h]) == v
       case RingLock(h) =>
         && MidRing(mem.procs[h].ring, m.procs[h].ring, a, body, ls)
         && (body.Sending? && a.Append? ==> a.src in m.procs[h].held && m.procs[h].held[a.src] == body.line)
  }

  /** What the mutex guards is as in `m`. */
  ghost predicate Settled(mem: ProcTable.Manager, m: ProcTable.Manager, l: Lock, ls: seq<Stream.Label>) {
    match l
    case TableLock => mem.table == m.table
    case ProcLock(h) =>
      h < |m.procs| && h < |mem.procs| ==> Stream.ViewOf(mem.procs[h]) == Stream.ViewOf(m.procs[h])
    case RingLock(h) => ls == [] && (h < |m.procs| && h < |mem.procs| ==> mem.procs[h].ring == m.procs[h].ring)
  }

  /** What no mutex guards, because one goroutine only uses it. */
  ghost predicate SamePrivates(mem: ProcTable.Manager, m: ProcTable.Manager) {
    && |mem.procs| == |m.procs|
    && forall h :: 0 <= h < |m.procs| ==>
         && mem.procs[h].held == m.procs[h].held && mem.procs[h].waiter == m.procs[h].waiter
         && |mem.procs[h].ring.chans| == |m.procs[h].ring.chans|
  }

  // One instruction of a body

  /** `mem'` differs from `mem` only in what `l` guards. */
  ghost predicate Elsewhere(mem: ProcTable.Manager, mem': ProcTable.Manager, l: Lock) {
    && (l != TableLock ==> mem'.table == mem.table && |mem'.procs| == |mem.procs|)
    && |mem'.procs| >= |mem.procs|
    && forall h :: 0 <= h < |mem.procs| ==>
         && (l != ProcLock(h) ==> Stream.ViewOf(mem'.procs[h]) == Stream.ViewOf(mem.procs[h]))
         && (l != RingLock(h) ==> mem'.procs[h].ring == mem.procs[h].ring)
  }

  lemma LoadIsMid(mem: ProcTable.Manager, m: ProcTable.Manager, a: Action, ls: seq<Stream.Label>)
    requires Target(a).Some? ==> Target(a).value < |m.procs| && Target(a).value < |mem.procs|
    requires Settled(mem, m, Guard(a), ls)
    ensures Mid(mem, m, a, Load(mem, a), ls)
  {
  }

  lemma DrainedElsewhere(ch: Chan, ls: seq<Stream.Label>, c: nat)
    requires forall i :: 0 <= i < |ls| ==> IsReceive(ls[i]) && ls[i].c != c
    ensures Drained(ch, ls, c) == Some(ch)
  {
    if ls != [] {
      DrainedElsewhere(ch, ls[..|ls| - 1], c);
    }
  }

  /** Serving one more channel. */
  lemma ServeOne(now: seq<Chan>, before: seq<Chan>, after: seq<Chan>, left: set<nat>, ls: seq<Stream.Label>, pick: nat)
    requires Partway(now, before, after, left, ls) && pick in left
    ensures pick < |now| && now[pick] == before[pick]
    ensures Partway(now[pick := after[pick]], before, after, left - {pick}, ls)
  {
    DrainedElsewhere(after[pick], ls, pick);
  }

  /** An instruction that is not the last of a body leaves it under way, and touches only what its mutex guards. */
  ghost predicate StillMid(mem: ProcTable.Manager, m: ProcTable.Manager, a: Action, ls: seq<Stream.Label>,
                           p: Progress) {
    && p != Crash
    && (p.More? ==> p.body != Outside && Mid(p.mem, m, a, p.body, ls)
                    && Elsewhere(mem, p.mem, Guard(a)) && SamePrivates(p.mem, m))
  }

  lemma RingWriteKeeps(mem: ProcTable.Manager, m: ProcTable.Manager, a: Action, body: Body, ls: seq<Stream.Label>)
    requires Mid(mem, m, a, body, ls) && SamePrivates(mem, m) && Guard(a).RingLock? && body.HasRing?
    requires AllOpen(m.procs[Guard(a).h].ring)
    ensures StillMid(mem, m, a, ls, Instruct(mem, a, body, 0))
  {
    var h := Guard(a).h;
    var r := m.procs[h].ring;
    assert forall ch, c: nat :: Drained(ch, [], c) == Some(ch);
    if a.Append? && a.src in m.procs[h].held {
      var line := m.procs[h].held[a.src];
      assert Partway(r.chans, r.chans, Offered(r, line), r.subs, []);
    }
    assert Partway(r.chans, r.chans, AllShut(r), r.subs, []);
  }

  lemma SendKeeps(mem: ProcTable.Manager, m: ProcTable.Manager, a: Action, body: Body, ls: seq<Stream.Label>, pick: nat)
    requires Mid(mem, m, a, body, ls) && SamePrivates(mem, m) && body.Sending? && a.Append? && pick in body.left
    requires AllOpen(m.procs[a.h].ring)
    ensures StillMid(mem, m, a, ls, Instruct(mem, a, body, pick))
  {
    var now, r := mem.procs[a.h].ring, m.procs[a.h].ring;
    ServeOne(now.chans, r.chans, Offered(r, body.line), body.left, ls, pick);
  }

  lemma CloseKeeps(mem: ProcTable.Manager, m: ProcTable.Manager, a: Action, body: Body, ls: seq<Stream.Label>,
                   pick: nat)
    requires Mid(mem, m, a, body, ls) && SamePrivates(mem, m) && body.Closing? && a.CloseSubs? && pick in body.left
    requires AllOpen(m.procs[a.h].ring)
    ensures StillMid(mem, m, a, ls, Instruct(mem, a, body, pick))
  {
    var now, r := mem.procs[a.h].ring, m.procs[a.h].ring;
    ServeOne(now.chans, r.chans, AllShut(r), body.left, ls, pick);
  }

  /** Every instruction of a body under way: none crashes, and all but the last leave it under way. */
  lemma InstructKeeps(mem: ProcTable.Manager, m: ProcTable.Manager, a: Action, body: Body, ls: seq<Stream.Label>,
                      pick: nat)
    requires Mid(mem, m, a, body, ls) && SamePrivates(mem, m)
    requires Guard(a).RingLock? ==> AllOpen(m.procs[Guard(a).h].ring)
    ensures StillMid(mem, m, a, ls, Instruct(mem, a, body, pick))
  {
    match body
    case HasRing(_, _, _) => RingWriteKeeps(mem, m, a, body, ls);
    case Sending(_, left) => if pick in left { SendKeeps(mem, m, a, body, ls, pick); }
    case Closing(left) => if pick in left { CloseKeeps(mem, m, a, body, ls, pick); }
    case _ =>
  }

  // The last instruction of a body

  /** As `Settled`, but for what was received from channels already served. */
  ghost predicate AllButReceived(mem: ProcTable.Manager, m: ProcTable.Manager, l: Lock, ls: seq<Stream.Label>) {
    match l
    case TableLock => mem.table == m.table
    case ProcLock(_) => Settled(mem, m, l, ls)
    case RingLock(h) =>
      && h < |m.procs| && h < |mem.procs|
      && var now, r := mem.procs[h].ring, m.procs[h].ring;
      && now == r.(chans := now.chans) && Partway(now.chans, now.chans, r.chans, {}, ls)
  }

  /** The body as a whole made the step of `did` on the manager, of which the memory shows all. */
  ghost predicate Matches(mem: ProcTable.Manager, m: ProcTable.Manager, a: Action, ls: seq<Stream.Label>,
                          mem': ProcTable.Manager, m': ProcTable.Manager) {
    && SamePrivates(mem', m')
    && Elsewhere(mem, mem', Guard(a)) && Elsewhere(m, m', Guard(a))
    && AllButReceived(mem', m', Guard(a), ls)
    && forall h :: |m.procs| <= h < |m'.procs| ==> mem'.procs[h] == m'.procs[h]
  }

  lemma TableDone(mem: ProcTable.Manager, m: ProcTable.Manager, a: Action, body: Body, ls: seq<Stream.Label>,
                  m': ProcTable.Manager)
    requires Mid(mem, m, a, body, ls) && SamePrivates(mem, m) && Guard(a).TableLock?
    requires ProcTable.Step(m, LabelOf(m, a)) == Next(m')
    ensures Instruct(mem, a, body, 0).Done? && Matches(mem, m, a, ls, Instruct(mem, a, body, 0).mem, m')
  {
  }

  lemma ProcDone(mem: ProcTable.Manager, m: ProcTable.Manager, a: Action, body: Body, ls: seq<Stream.Label>,
                 m': ProcTable.Manager)
    requires Mid(mem, m, a, body, ls) && SamePrivates(mem, m) && Guard(a).ProcLock?
    requires ProcTable.Step(m, LabelOf(m, a)) == Next(m')
    ensures Instruct(mem, a, body, 0).Done? ==> Matches(mem, m, a, ls, Instruct(mem, a, body, 0).mem, m')
  {
  }

  lemma NothingLater(chans: seq<Chan>)
    ensures Partway(chans, chans, chans, {}, [])
  {
  }

  lemma CallerRingDone(mem: ProcTable.Manager, m: ProcTable.Manager, a: Action, body: Body, ls: seq<Stream.Label>,
                       m': ProcTable.Manager)
    requires Mid(mem, m, a, body, ls) && SamePrivates(mem, m) && Guard(a).RingLock? && !a.Append? && !a.CloseSubs?
    requires ProcTable.Step(m, LabelOf(m, a)) == Next(m') && AllOpen(m.procs[a.h].ring)
    ensures Instruct(mem, a, body, 0).Done? ==> Matches(mem, m, a, ls, Instruct(mem, a, body, 0).mem, m')
  {
    if Instruct(mem, a, body, 0).Done? {
      assert Instruct(mem, a, body, 0).mem.procs[a.h].ring == m'.procs[a.h].ring;
      NothingLater(m'.procs[a.h].ring.chans);
    }
  }

  lemma SentAll(mem: ProcTable.Manager, m: ProcTable.Manager, a: Action, body: Body, ls: seq<Stream.Label>,
                m': ProcTable.Manager)
    requires Mid(mem, m, a, body, ls) && SamePrivates(mem, m) && a.Append? && body.Sending? && body.left == {}
    requires ProcTable.Step(m, LabelOf(m, a)) == Next(m')
    ensures Matches(mem, m, a, ls, Instruct(mem, a, body, 0).mem, m')
  {
    assert m'.procs[a.h].ring.chans == Offered(m.procs[a.h].ring, body.line);
  }

  lemma ClosedAll(mem: ProcTable.Manager, m: ProcTable.Manager, a: Action, body: Body, ls: seq<Stream.Label>,
                  m': ProcTable.Manager)
    requires Mid(mem, m, a, body, ls) && SamePrivates(mem, m) && a.CloseSubs? && body.Closing? && body.left == {}
    requires ProcTable.Step(m, LabelOf(m, a)) == Next(m')
    ensures Matches(mem, m, a, ls, Instruct(mem, a, body, 0).mem, m')
  {
    assert m'.procs[a.h].ring.chans == AllShut(m.procs[a.h].ring);
  }

  /** A body that ends has done what its step of the manager does. */
  lemma DoneMatches(mem: ProcTable.Manager, m: ProcTable.Manager, a: Action, body: Body, ls: seq<Stream.Label>,
                    pick: nat, m': ProcTable.Manager)
    requires Mid(mem, m, a, body, ls) && SamePrivates(mem, m) && Instruct(mem, a, body, pick).Done?
    requires Guard(a).RingLock? ==> AllOpen(m.procs[Guard(a).h].ring)
    requires ProcTable.Step(m, LabelOf(m, a)) == Next(m')
    ensures Matches(mem, m, a, ls, Instruct(mem, a, body, pick).mem, m')
  {
    match Guard(a)
    case TableLock => TableDone(mem, m, a, body, ls, m');
    case ProcLock(_) => ProcDone(mem, m, a, body, ls, m');
    case RingLock(h) =>
      if a.Append? {
        SentAll(mem, m, a, body, ls, m');
      } else if a.CloseSubs? {
        if body.Closing? { ClosedAll(mem, m, a, body, ls, m'); } else { NothingLater(m.procs[h].ring.chans); }
      } else {
        CallerRingDone(mem, m, a, body, ls, m');
      }
  }
}
