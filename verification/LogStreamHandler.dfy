/**
 The Server-Sent Events handler that follows one process's log (`procLogsStream`, internal/handler/procs.go), run
 against the process it reads from. Its scheduler is the list of turns: between any two of its own actions other
 threads may take any steps.
 */
module LogStreamHandler {
  import opened Sequences
  import opened LogRing
  import opened Stream
  import opened StreamTheorems

  datatype Event = Log(line: LogLine) | End(id: string)

  /** Another thread's step; the select taking its channel branch; the select noticing that the client left. */
  datatype Turn = Other(step: Label) | Ready | Gone

  /** Labels of threads other than the one reading channel `c`. */
  predicate Foreign(l: Label, c: nat) {
    !((l.Receive? || l.ReceiveClosed? || l.Cancel?) && l.c == c)
  }

  ghost function Logs(lines: seq<LogLine>): seq<Event> {
    seq(|lines|, i requires 0 <= i < |lines| => Log(lines[i]))
  }

  /** The run so far, seen by the reader of channel `c` who subscribed at position `join` and wrote `events`. */
  ghost predicate Told(k: Ledger, c: nat, join: nat, snapshot: seq<LogLine>, events: seq<Event>) {
    && c < |k.subs|
    && k.subs[c].snapshot == snapshot && k.subs[c].join == join
    && events == Logs(snapshot) + Logs(k.subs[c].got)
  }

  /** Every line accepted for `c` was received; and if none was dropped, what was written has no gap. */
  ghost predicate Complete(k: Ledger, c: nat) {
    && c < |k.subs|
    && var s := k.subs[c];
    var end := Stream.End(s, k.history);
    && Within(s.took, 0, |k.history|) && s.got == Pick(k.history, s.took)
    && |s.snapshot| <= s.join <= end <= |k.history|
    && (s.snapshot + s.got == k.history[s.join - |s.snapshot|..end] <==> s.missed == [])
  }

  lemma Extend(max: nat, run: seq<Label>, trace: seq<Label>, l: Label)
    requires Exec(max, run + trace).Next?
    ensures Exec(max, run + (trace + [l])) == Step(Exec(max, run + trace).value, l)
    ensures Observe(run + (trace + [l])) == Note(Observe(run + trace), l)
  {
    assert run + (trace + [l]) == run + trace + [l];
    assert (run + trace + [l])[..|run + trace|] == run + trace;
  }

  /** What one more step of the run does to the reader's transcript. */
  lemma ToldStep(k: Ledger, c: nat, join: nat, snapshot: seq<LogLine>, events: seq<Event>, l: Label)
    requires Told(k, c, join, snapshot, events)
    ensures Told(Note(k, l), c, join, snapshot, if l.Receive? && l.c == c then events + [Log(l.line)] else events)
    ensures !(l.Cancel? && l.c == c) ==> Note(k, l).subs[c].cancelled == k.subs[c].cancelled
  {
    if l.Receive? && l.c == c {
      assert Logs(k.subs[c].got + [l.line]) == Logs(k.subs[c].got) + [Log(l.line)];
    }
  }

  /** The program is at `p` after `run`, and the reader of `c` has not cancelled and has written `events`. */
  ghost predicate Following(max: nat, run: seq<Label>, p: Proc, c: nat, join: nat,
                            snapshot: seq<LogLine>, events: seq<Event>) {
    && Exec(max, run) == Next(p)
    && c < |p.ring.chans|
    && Told(Observe(run), c, join, snapshot, events)
    && !Observe(run).subs[c].cancelled
  }

  lemma FollowSubscribe(max: nat, before: seq<Label>, p: Proc)
    requires Exec(max, before) == Next(p)
    ensures var c, snapshot, k := |p.ring.chans|, p.ring.lines, Observe(before);
            var l := Label.Subscribe(c, snapshot);
            && snapshot == Last(k.history, max)
            && Step(p, l).Next?
            && Following(max, before + [l], Step(p, l).value, c, |k.history|, snapshot, Logs(snapshot))
  {
    RunKeeps(max, before);
    var l := Label.Subscribe(|p.ring.chans|, p.ring.lines);
    OneMore(max, before, l);
    SubscribeTold(Observe(before), l);
    assert (before + [l])[..|before|] == before;
  }

  lemma SubscribeTold(k: Ledger, l: Label)
    requires l.Subscribe? && l.c == |k.subs|
    ensures Told(Note(k, l), l.c, |k.history|, l.snapshot, Logs(l.snapshot)) && !Note(k, l).subs[l.c].cancelled
  {
    assert Logs([]) == [] && Logs(l.snapshot) + [] == Logs(l.snapshot);
  }

  lemma ChannelsStay(p: Proc, l: Label)
    requires Step(p, l).Next?
    ensures |Step(p, l).value.ring.chans| >= |p.ring.chans|
  {
  }

  lemma FollowStep(max: nat, before: seq<Label>, trace: seq<Label>, p: Proc, c: nat, join: nat,
                   snapshot: seq<LogLine>, events: seq<Event>, l: Label)
    requires Following(max, before + trace, p, c, join, snapshot, events)
    requires Step(p, l).Next? && !(l.Cancel? && l.c == c)
    ensures Following(max, before + (trace + [l]), Step(p, l).value, c, join, snapshot,
                      if l.Receive? && l.c == c then events + [Log(l.line)] else events)
  {
    ToldStep(Observe(before + trace), c, join, snapshot, events, l);
    Extend(max, before, trace, l);
    ChannelsStay(p, l);
  }

  lemma ClosedIsComplete(max: nat, run: seq<Label>, c: nat)
    requires Exec(max, run).Next? && Step(Exec(max, run).value, ReceiveClosed(c)).Next?
    ensures Complete(Observe(run), c) && Observe(run).subs[c].leave.Some?
  {
    EndOfStream(max, run, c);
    StreamGapFree(max, run, c);
    SubAfter(max, run, c);
    var s := Observe(run).subs[c];
    assert s.snapshot + s.got + [] == s.snapshot + s.got;
  }

  lemma CancelStaysComplete(k: Ledger, c: nat)
    requires Complete(k, c) && k.subs[c].leave.Some?
    ensures Complete(Note(k, Cancel(c)), c)
  {
  }

  lemma CancelForgets(max: nat, run: seq<Label>, p: Proc, c: nat)
    requires Exec(max, run) == Next(p) && c < |p.ring.chans|
    ensures Step(p, Cancel(c)).Next?
    ensures c !in Step(p, Cancel(c)).value.ring.subs
    ensures Step(p, Cancel(c)).value.state == p.state && Step(p, Cancel(c)).value.ring.closed == p.ring.closed
  {
    RunKeeps(max, run);
  }

  /** Cancelling after the loop: the channel is forgotten, and a finished stream stays complete and exited. */
  lemma FollowCancel(max: nat, before: seq<Label>, trace: seq<Label>, p: Proc, c: nat, join: nat,
                     snapshot: seq<LogLine>, events: seq<Event>)
    requires Following(max, before + trace, p, c, join, snapshot, events)
    ensures Exec(max, before + (trace + [Cancel(c)])).Next?
    ensures var q, k := Exec(max, before + (trace + [Cancel(c)])).value, Observe(before + (trace + [Cancel(c)]));
            && c !in q.ring.subs && q.ring.closed == p.ring.closed
            && Told(k, c, join, snapshot, events)
            && (Step(p, ReceiveClosed(c)).Next? ==> Complete(k, c) && q.state == Exited)
  {
    var k := Observe(before + trace);
    CancelForgets(max, before + trace, p, c);
    Extend(max, before, trace, Cancel(c));
    ToldStep(k, c, join, snapshot, events, Cancel(c));
    if Step(p, ReceiveClosed(c)).Next? {
      EndOfStream(max, before + trace, c);
      ClosedIsComplete(max, before + trace, c);
      CancelStaysComplete(k, c);
    }
  }

  /** One pass of the select loop: the label it adds to the run, what it writes, and whether the stream ended. */
  method TakeTurn(p: Proc, c: nat, id: string, turn: Turn)
    returns (step: Option<Label>, written: seq<Event>, ended: bool, gone: bool)
    requires c < |p.ring.chans|
    ensures gone <==> turn == Gone
    ensures ended <==> turn == Ready && p.ring.chans[c].queue == [] && !p.ring.chans[c].open
    ensures step == match turn
                    case Ready =>
                      if p.ring.chans[c].queue == [] then None else Some(Receive(c, p.ring.chans[c].queue[0]))
                    case Gone => None
                    case Other(l) => if Foreign(l, c) && Step(p, l).Next? then Some(l) else None
    ensures written == match turn
                       case Ready =>
                         if p.ring.chans[c].queue != [] then [Log(p.ring.chans[c].queue[0])]
                         else if ended then [End(id)]
                         else []
                       case _ => []
  {
    step, written, ended, gone := None, [], false, false;
    match turn {
      case Other(l) =>
        if Foreign(l, c) && Step(p, l).Next? {
          step := Some(l);
        }
      case Gone => gone := true;
      case Ready =>
        var ch := p.ring.chans[c];
        if ch.queue != [] {
          step, written := Some(Receive(c, ch.queue[0])), [Log(ch.queue[0])];
        } else if !ch.open {
          written, ended := [End(id)], true;
        }
    }
  }

  // What the loop does, turn by turn

  /**
   In one turn the run goes from its first `m` steps to its first `n`: a read takes the line that waits, whether or not
   the channel is open, and ends the stream on a closed channel with none; a client that has left is left alone; and any
   other thread makes its step if it can.
   */
  ghost predicate Turned(max: nat, before: seq<Label>, trace: seq<Label>, m: nat, n: nat, c: nat, turn: Turn,
                         ended: bool) {
    && m <= n <= |trace| && Exec(max, before + trace[..m]).Next?
    && var p := Exec(max, before + trace[..m]).value;
    && c < |p.ring.chans|
    && match turn
       case Ready =>
         if p.ring.chans[c].queue != [] then
           !ended && n == m + 1 && trace[m] == Receive(c, p.ring.chans[c].queue[0])
         else n == m && (ended <==> !p.ring.chans[c].open)
       case Gone => !ended && n == m
       case Other(l) =>
         !ended && if Foreign(l, c) && Step(p, l).Next? then n == m + 1 && trace[m] == l else n == m
  }

  /** The first turns have been taken one by one: `marks` says how many steps the run had before each and at the end. */
  ghost predicate Taken(max: nat, before: seq<Label>, trace: seq<Label>, marks: seq<nat>, c: nat, turns: seq<Turn>,
                        ended: bool) {
    && 1 <= |marks| <= |turns| + 1 && marks[0] == 1 && marks[|marks| - 1] == |trace|
    && (forall i :: 0 <= i < |marks| ==> marks[i] <= |trace|)
    && (forall i :: 0 <= i < |marks| - 1 ==>
          Turned(max, before, trace, marks[i], marks[i + 1], c, turns[i], ended && i == |marks| - 2))
    && (forall i :: 0 <= i < |marks| - 2 ==> turns[i] != Gone)
    && (ended ==> |marks| > 1)
  }

  /** And the loop was left only at the end of the stream, because the client left, or for want of turns. */
  ghost predicate Looped(max: nat, before: seq<Label>, trace: seq<Label>, marks: seq<nat>, c: nat, turns: seq<Turn>,
                         ended: bool) {
    && Taken(max, before, trace, marks, c, turns, ended)
    && (ended || |marks| == |turns| + 1 || (|marks| > 1 && turns[|marks| - 2] == Gone))
  }

  /** The run as it was after the first `m` steps of `trace`. */
  function RunAt(before: seq<Label>, trace: seq<Label>, m: nat): seq<Label> {
    if m <= |trace| then before + trace[..m] else before + trace
  }

  lemma TurnedLonger(max: nat, before: seq<Label>, trace: seq<Label>, m: nat, n: nat, c: nat, turn: Turn, ended: bool,
                     more: seq<Label>)
    requires Turned(max, before, trace, m, n, c, turn, ended)
    ensures Turned(max, before, trace + more, m, n, c, turn, ended)
  {
    assert (trace + more)[..m] == trace[..m];
  }

  lemma TakenOneMore(max: nat, before: seq<Label>, trace: seq<Label>, marks: seq<nat>, c: nat, turns: seq<Turn>,
                     more: seq<Label>, ended: bool)
    requires Taken(max, before, trace, marks, c, turns, false) && |marks| <= |turns|
    requires |marks| > 1 ==> turns[|marks| - 2] != Gone
    requires Turned(max, before, trace + more, |trace|, |trace + more|, c, turns[|marks| - 1], ended)
    ensures Taken(max, before, trace + more, marks + [|trace + more|], c, turns, ended)
  {
    var later := marks + [|trace + more|];
    forall i | 0 <= i < |later| - 1
      ensures Turned(max, before, trace + more, later[i], later[i + 1], c, turns[i], ended && i == |later| - 2)
    {
      if i < |marks| - 1 {
        TurnedLonger(max, before, trace, marks[i], marks[i + 1], c, turns[i], false, more);
      }
    }
  }

  /** One turn of the loop, with what it adds to the run and to the transcript. */
  method LoopTurn(max: nat, before: seq<Label>, trace: seq<Label>, p: Proc, c: nat, id: string, turn: Turn,
                  ghost join: nat, ghost snapshot: seq<LogLine>, ghost told: seq<Event>)
    returns (trace': seq<Label>, p': Proc, written: seq<Event>, ended: bool, gone: bool, ghost more: seq<Label>)
    requires Following(max, before + trace, p, c, join, snapshot, told)
    ensures trace' == trace + more && Turned(max, before, trace', |trace|, |trace'|, c, turn, ended)
    ensures Following(max, before + trace', p', c, join, snapshot, if ended then told else told + written)
    ensures ended ==> Step(p', ReceiveClosed(c)).Next? && written == [End(id)]
    ensures gone <==> turn == Gone
  {
    var step;
    step, written, ended, gone := TakeTurn(p, c, id, turn);
    trace', p', more := trace, p, [];
    assert trace + [] == trace && told + [] == told && trace[..|trace|] == trace;
    if step.Some? {
      FollowStep(max, before, trace, p, c, join, snapshot, told, step.value);
      trace', p', more := trace + [step.value], Step(p, step.value).value, [step.value];
      assert trace'[..|trace|] == trace;
    }
  }

  /** The loop of the handler, from the first select to the return. */
  method FollowLive(max: nat, before: seq<Label>, subscribed: Label, start: Proc, c: nat, id: string, turns: seq<Turn>,
                    ghost join: nat, ghost snapshot: seq<LogLine>, sofar: seq<Event>)
    returns (events: seq<Event>, trace: seq<Label>, ended: bool, ghost marks: seq<nat>, ghost told: seq<Event>,
             ghost p': Proc)
    requires Following(max, before + [subscribed], start, c, join, snapshot, sofar)
    ensures trace != [] && trace[0] == subscribed && Looped(max, before, trace, marks, c, turns, ended)
    ensures Following(max, before + trace, p', c, join, snapshot, told)
    ensures events == if ended then told + [End(id)] else told
    ensures ended ==> Step(p', ReceiveClosed(c)).Next?
  {
    hide Turned, Following, Step;
    var p, gone, t := start, false, 0;
    events, trace, ended, told, marks := sofar, [subscribed], false, sofar, [1];
    while !ended && !gone && t < |turns|
      invariant t == |marks| - 1 && |trace| >= 1 && trace[0] == subscribed
      invariant Following(max, before + trace, p, c, join, snapshot, told)
      invariant events == if ended then told + [End(id)] else told
      invariant ended ==> Step(p, ReceiveClosed(c)).Next?
      invariant Taken(max, before, trace, marks, c, turns, ended)
      invariant gone <==> t > 0 && turns[t - 1] == Gone
      decreases |turns| - t
    {
      var written;
      ghost var more, was := [], trace;
      trace, p, written, ended, gone, more := LoopTurn(max, before, trace, p, c, id, turns[t], join, snapshot, told);
      TakenOneMore(max, before, was, marks, c, turns, more, ended);
      marks := marks + [|trace|];
      events := events + written;
      told := if ended then told else events;
      t := t + 1;
    }
    p' := p;
  }

  /**
   The handler subscribes after the run `before`, writes the snapshot, then loops. Its output is the snapshot, then
   the received lines in order, then `end` when the channel read as closed: at most once, last, after every line
   accepted for it, and only when the process has exited. The client leaving ends the loop without `end`. Either way
   the handler cancels, and its channel is closed and forgotten.

   What it does turn by turn is Looped. That lines waiting are written while the process still runs, and that a stream
   whose process has ended comes to its end, follows: WaitingIsWritten and EndIsReached.
   */
  method ProcLogsStream(max: nat, before: seq<Label>, id: string, turns: seq<Turn>)
    returns (events: seq<Event>, trace: seq<Label>, ended: bool, ghost marks: seq<nat>)
    requires Exec(max, before).Next?
    ensures Exec(max, before + trace).Next?
    ensures var c, k := |Exec(max, before).value.ring.chans|, Observe(before + trace);
            var join, snapshot := |Observe(before).history|, Last(Observe(before).history, max);
            && (if ended then events != [] && events[|events| - 1] == End(id)
                              && Told(k, c, join, snapshot, events[..|events| - 1])
                else Told(k, c, join, snapshot, events))
            && (ended ==> Complete(k, c) && Exec(max, before + trace).value.state == Exited)
            && c !in Exec(max, before + trace).value.ring.subs
            && |trace| > 1 && trace[0] == Label.Subscribe(c, snapshot) && trace[|trace| - 1] == Cancel(c)
            && Looped(max, before, trace[..|trace| - 1], marks, c, turns, ended)
  {
    hide Looped;
    var p := Exec(max, before).value;
    var c, snapshot := |p.ring.chans|, p.ring.lines;
    var subscribed := Label.Subscribe(c, snapshot);
    ghost var join := |Observe(before).history|;
    FollowSubscribe(max, before, p);

    var sofar := [];
    for i := 0 to |snapshot|
      invariant sofar == Logs(snapshot[..i])
    {
      sofar := sofar + [Log(snapshot[i])];
    }
    assert snapshot[..|snapshot|] == snapshot;

    ghost var told, q;
    events, trace, ended, marks, told, q :=
      FollowLive(max, before, subscribed, Step(p, subscribed).value, c, id, turns, join, snapshot, sofar);
    FollowCancel(max, before, trace, q, c, join, snapshot, told);
    assert (trace + [Cancel(c)])[..|trace|] == trace;
    trace := trace + [Cancel(c)];
  }

  // What follows for a client

  /** How often, in these turns, the select takes its channel branch. */
  ghost function Readies(turns: seq<Turn>): nat {
    if turns == [] then 0
    else Readies(turns[..|turns| - 1]) + if turns[|turns| - 1] == Ready then 1 else 0
  }

  lemma ReadiesNext(turns: seq<Turn>, i: nat, t: nat)
    requires i <= t < |turns|
    ensures Readies(turns[i..t + 1]) == Readies(turns[i..t]) + if turns[t] == Ready then 1 else 0
  {
    assert turns[i..t + 1][..t - i] == turns[i..t];
  }

  /** After the first `m` steps: what the reader has received, and what waits for it. */
  ghost predicate Holding(max: nat, run: seq<Label>, c: nat, got: seq<LogLine>, queue: seq<LogLine>, closed: bool) {
    && Exec(max, run).Next? && c < |Exec(max, run).value.ring.chans| && c < |Observe(run).subs|
    && Observe(run).subs[c].got == got && Exec(max, run).value.ring.chans[c].queue == queue
    && Exec(max, run).value.ring.closed == closed
  }

  /** One turn moves one waiting line over if it is a read; others only add lines, and none once the ring is closed. */
  lemma TurnMoves(max: nat, before: seq<Label>, trace: seq<Label>, m: nat, n: nat, c: nat, turn: Turn, ended: bool,
                  got: seq<LogLine>, queue: seq<LogLine>, closed: bool)
      returns (got': seq<LogLine>, queue': seq<LogLine>, closed': bool)
    requires Turned(max, before, trace, m, n, c, turn, ended)
    requires Holding(max, RunAt(before, trace, m), c, got, queue, closed)
    ensures Holding(max, RunAt(before, trace, n), c, got', queue', closed')
    ensures if turn == Ready && queue != [] then got' == got + [queue[0]] && queue' == queue[1..] && closed' == closed
            else got' == got && queue <= queue' && (closed ==> closed' && queue' == queue)
  {
    var run := before + trace[..m];
    got', queue', closed' := got, queue, closed;
    RunKeeps(max, run);
    if n == m + 1 {
      var p, l := Exec(max, run).value, trace[m];
      assert trace[..n] == trace[..m] + [l];
      Extend(max, before, trace[..m], l);
      var q := Step(p, l).value;
      StepMoves(p, Observe(run), c, l);
      got', queue', closed' := Note(Observe(run), l).subs[c].got, q.ring.chans[c].queue, q.ring.closed;
    }
  }

  lemma StepMoves(p: Proc, k: Ledger, c: nat, l: Label)
    requires Step(p, l).Next? && c < |p.ring.chans| == |k.subs| && (p.ring.closed ==> p.ring.subs == {})
    requires Foreign(l, c) || (l.Receive? && l.c == c)
    ensures var q := Step(p, l).value;
            && c < |q.ring.chans| && c < |Note(k, l).subs| && (p.ring.closed ==> q.ring.closed)
            && if l.Receive? && l.c == c then
                 && Note(k, l).subs[c].got == k.subs[c].got + [l.line] && q.ring.closed == p.ring.closed
                 && q.ring.chans[c].queue == p.ring.chans[c].queue[1..] && p.ring.chans[c].queue[0] == l.line
               else
                 && Note(k, l).subs[c].got == k.subs[c].got && p.ring.chans[c].queue <= q.ring.chans[c].queue
                 && (p.ring.closed ==> q.ring.chans[c].queue == p.ring.chans[c].queue)
  {
  }

  /** From turn `i` to turn `j` nothing that waited is lost, and every read moved a line on, while there were any. */
  lemma {:induction false} TurnsMove(max: nat, before: seq<Label>, trace: seq<Label>, marks: seq<nat>, c: nat,
                                     turns: seq<Turn>, ended: bool, i: nat, j: nat,
                                     got: seq<LogLine>, queue: seq<LogLine>, closed: bool)
      returns (got': seq<LogLine>, queue': seq<LogLine>, closed': bool)
    requires Taken(max, before, trace, marks, c, turns, ended) && i <= j < |marks|
    requires Holding(max, RunAt(before, trace, marks[i]), c, got, queue, closed)
    ensures Holding(max, RunAt(before, trace, marks[j]), c, got', queue', closed')
    ensures got + queue <= got' + queue' && |got| <= |got'|
    ensures |got'| >= |got| + Readies(turns[i..j]) || |got'| >= |got| + |queue|
    ensures closed ==> closed' && got' + queue' == got + queue
    ensures closed && !ended ==> |got'| == |got| + Readies(turns[i..j])
    decreases j
  {
    hide Holding, Turned;
    if i == j {
      got', queue', closed' := got, queue, closed;
      assert turns[i..j] == [];
    } else {
      var g, q, o := TurnsMove(max, before, trace, marks, c, turns, ended, i, j - 1, got, queue, closed);
      var last := ended && j - 1 == |marks| - 2;
      got', queue', closed' :=
        TurnMoves(max, before, trace, marks[j - 1], marks[j], c, turns[j - 1], last, g, q, o);
      ReadiesNext(turns, i, j - 1);
      Moved(g, q, got', queue');
      if closed && !ended {
        ClosedReads(max, before, trace, marks[j - 1], marks[j], c, turns[j - 1], g, q);
      }
    }
  }

  lemma Moved(g: seq<LogLine>, q: seq<LogLine>, g': seq<LogLine>, q': seq<LogLine>)
    requires (q != [] && g' == g + [q[0]] && q' == q[1..]) || (g' == g && q <= q')
    ensures g + q <= g' + q'
    ensures q' == q || (q != [] && q' == q[1..] && g' == g + [q[0]]) ==> g' + q' == g + q
  {
    if q != [] && g' == g + [q[0]] && q' == q[1..] {
      assert g' + q' == g + q;
    }
  }

  /** On a closed ring a read that does not end the stream finds a line. */
  lemma ClosedReads(max: nat, before: seq<Label>, trace: seq<Label>, m: nat, n: nat, c: nat, turn: Turn,
                    got: seq<LogLine>, queue: seq<LogLine>)
    requires Turned(max, before, trace, m, n, c, turn, false)
    requires Holding(max, RunAt(before, trace, m), c, got, queue, true)
    ensures turn == Ready ==> queue != []
  {
    RunKeeps(max, before + trace[..m]);
  }

  /**
   Live: every line that waits for the client after turn `i` has been written, in its order, by turn `j`, if the loop
   has had a read for each in between - with the process running or not, and whatever others did meanwhile.
   */
  lemma WaitingIsWritten(max: nat, before: seq<Label>, trace: seq<Label>, marks: seq<nat>, c: nat, turns: seq<Turn>,
                         ended: bool, i: nat, j: nat, got: seq<LogLine>, queue: seq<LogLine>, closed: bool)
    requires Taken(max, before, trace, marks, c, turns, ended) && i <= j < |marks|
    requires Holding(max, RunAt(before, trace, marks[i]), c, got, queue, closed)
    requires Readies(turns[i..j]) >= |queue|
    ensures c < |Observe(RunAt(before, trace, marks[j])).subs|
    ensures got + queue <= Observe(RunAt(before, trace, marks[j])).subs[c].got
  {
    var got', queue', _ := TurnsMove(max, before, trace, marks, c, turns, ended, i, j, got, queue, closed);
    assert (got + queue) == (got' + queue')[..|got + queue|] == got'[..|got + queue|];
  }

  /**
   If the client stays, a stream whose ring is closed after turn `i` ends once there has been a read for each line that
   waited then, and one more.
   */
  lemma EndIsReached(max: nat, before: seq<Label>, trace: seq<Label>, marks: seq<nat>, c: nat, turns: seq<Turn>,
                     ended: bool, i: nat, got: seq<LogLine>, queue: seq<LogLine>)
    requires Looped(max, before, trace, marks, c, turns, ended) && i < |marks| && Gone !in turns
    requires Holding(max, RunAt(before, trace, marks[i]), c, got, queue, true)
    requires Readies(turns[i..]) > |queue|
    ensures ended
  {
    var j := |marks| - 1;
    var got', queue', _ := TurnsMove(max, before, trace, marks, c, turns, ended, i, j, got, queue, true);
    assert |got' + queue'| == |got + queue|;
    assert j == |turns| ==> turns[i..j] == turns[i..];
  }
}
