/**
 One managed process as a transition system: two pumps, the waiter and any number of subscribers act in any order,
 one critical section or one channel receive at a time.

 A run is the list of labels of its steps. `Exec` replays a run on the program's state. `Observe` replays the same
 labels on a ledger that an outside observer could keep: it never looks at the program's state. The theorems compare
 the two after every run.
 */
module Stream {
  import opened Sequences
  import opened LogRing

  datatype State = Running | Exited

  /** Where the waiter goroutine stands: blocked in Wait, between setState and closeSubs, or done. */
  datatype Waiter = Waiting | StateSet | Finished

  /** `held` is the line a pump has scanned and stamped but not yet added. */
  datatype Proc = Proc(ring: Ring, state: State, exitCode: int, endedAt: Option<int>,
                       waiter: Waiter, held: map<Source, LogLine>)

  datatype View = View(state: State, exitCode: int, endedAt: Option<int>)

  datatype Label =
    | Scan(src: Source, text: Bytes, at: int)
    | Add(src: Source)
    | SetState(code: int, at: int)
    | CloseSubs
    | Subscribe(c: nat, snapshot: seq<LogLine>)
    | Cancel(c: nat)
    | Receive(c: nat, line: LogLine)
    | ReceiveClosed(c: nat)
    | Snapshot(lines: seq<LogLine>)
    | Look(view: View)

  function Start(max: nat): Proc {
    Proc(Fresh(max), Running, 0, None, Waiting, map[])
  }

  function ViewOf(p: Proc): View {
    View(p.state, p.exitCode, p.endedAt)
  }

  function OnRing(p: Proc, r: Outcome<Ring>): Outcome<Proc> {
    match r
    case Next(ring) => Next(p.(ring := ring))
    case Disabled => Disabled
    case Panic => Panic
  }

  /** The program's transition function. A label whose outputs differ from what the program would return is Disabled. */
  function Step(p: Proc, l: Label): Outcome<Proc> {
    match l
    case Scan(src, text, at) =>
      if src in p.held then Disabled else Next(p.(held := p.held[src := LogLine(src, text, at)]))
    case Add(src) =>
      if src !in p.held then Disabled
      else OnRing(p.(held := p.held - {src}), LogRing.Add(p.ring, p.held[src]))
    case SetState(code, at) =>
      if p.waiter != Waiting then Disabled
      else Next(p.(state := Exited, exitCode := code, endedAt := Some(at), waiter := StateSet))
    case CloseSubs =>
      if p.waiter != StateSet then Disabled else OnRing(p.(waiter := Finished), LogRing.CloseSubs(p.ring))
    case Subscribe(c, snapshot) =>
      if c != |p.ring.chans| || snapshot != p.ring.lines then Disabled
      else Next(p.(ring := LogRing.Subscribe(p.ring)))
    case Cancel(c) =>
      if c >= |p.ring.chans| then Disabled else OnRing(p, LogRing.Unsubscribe(p.ring, c))
    case Receive(c, line) =>
      if c >= |p.ring.chans| || p.ring.chans[c].queue == [] || p.ring.chans[c].queue[0] != line then Disabled
      else
        var ch := p.ring.chans[c];
        Next(p.(ring := p.ring.(chans := p.ring.chans[c := ch.(queue := ch.queue[1..])])))
    case ReceiveClosed(c) =>
      if c >= |p.ring.chans| || p.ring.chans[c].queue != [] || p.ring.chans[c].open then Disabled else Next(p)
    case Snapshot(lines) => if lines != p.ring.lines then Disabled else Next(p)
    case Look(view) => if view != ViewOf(p) then Disabled else Next(p)
  }

  function ExecFrom(p: Proc, run: seq<Label>): Outcome<Proc> {
    if run == [] then Next(p)
    else match ExecFrom(p, run[..|run| - 1])
      case Next(q) => Step(q, run[|run| - 1])
      case Disabled => Disabled
      case Panic => Panic
  }

  /** A run of a process from its start. */
  function Exec(max: nat, run: seq<Label>): Outcome<Proc> {
    ExecFrom(Start(max), run)
  }

  // The observer's ledger

  /**
   One subscription as seen from outside. `join` and `leave` are positions in the history; `took` and `missed` are the
   positions of the lines that did and did not fit, where a line fits when fewer than 256 accepted lines are unreceived.
   */
  datatype Sub = Sub(snapshot: seq<LogLine>, join: nat, leave: Option<nat>,
                     took: seq<nat>, missed: seq<nat>, got: seq<LogLine>, cancelled: bool)

  datatype Ledger = Ledger(scanned: map<Source, seq<LogLine>>, history: seq<LogLine>,
                           ended: bool, subs: seq<Sub>)

  function Offer(s: Sub, position: nat): Sub {
    if s.leave.Some? then s
    else if |s.took| < |s.got| + CHANNEL_CAPACITY then s.(took := s.took + [position])
    else s.(missed := s.missed + [position])
  }

  function Part(s: Sub, position: nat): Sub {
    if s.leave.Some? then s else s.(leave := Some(position))
  }

  function Note(k: Ledger, l: Label): Ledger {
    match l
    case Scan(src, text, at) =>
      k.(scanned := k.scanned[src := Scanned(k, src) + [LogLine(src, text, at)]])
    case Add(src) =>
      var mine := Scanned(k, src);
      if mine == [] then k
      else k.(history := k.history + [mine[|mine| - 1]],
              subs := seq(|k.subs|, c requires 0 <= c < |k.subs| => Offer(k.subs[c], |k.history|)))
    case CloseSubs =>
      k.(ended := true, subs := seq(|k.subs|, c requires 0 <= c < |k.subs| => Part(k.subs[c], |k.history|)))
    case Subscribe(_, snapshot) =>
      var join := |k.history|;
      k.(subs := k.subs + [Sub(snapshot, join, if k.ended then Some(join) else None, [], [], [], false)])
    case Cancel(c) =>
      if c >= |k.subs| then k
      else k.(subs := k.subs[c := Part(k.subs[c], |k.history|).(cancelled := true)])
    case Receive(c, line) =>
      if c >= |k.subs| then k else k.(subs := k.subs[c := k.subs[c].(got := k.subs[c].got + [line])])
    case _ => k
  }

  function Scanned(k: Ledger, src: Source): seq<LogLine> {
    if src in k.scanned then k.scanned[src] else []
  }

  function Observe(run: seq<Label>): Ledger {
    if run == [] then Ledger(map[], [], false, [])
    else Note(Observe(run[..|run| - 1]), run[|run| - 1])
  }

  function End(s: Sub, history: seq<LogLine>): nat {
    if s.leave.Some? then s.leave.value else |history|
  }

  // The invariant

  /** What ties a channel to the observer's account of its subscription. */
  ghost predicate SubInv(ch: Chan, s: Sub, registered: bool, history: seq<LogLine>, max: nat) {
    var end := End(s, history);
    && ch.open == registered == s.leave.None?
    && s.join <= end <= |history|
    && Ascending(s.took) && Within(s.took, s.join, end)
    && Ascending(s.missed) && Within(s.missed, s.join + CHANNEL_CAPACITY, end)
    && |s.took| + |s.missed| == end - s.join
    && (forall p :: p in s.took ==> p !in s.missed)
    && (forall p :: s.join <= p < end ==> p in s.took || p in s.missed)
    && s.got + ch.queue == Pick(history, s.took)
    && |ch.queue| <= CHANNEL_CAPACITY
    && s.snapshot == Last(history[..s.join], max)
  }

  ghost predicate RingInv(r: Ring, k: Ledger) {
    && r.lines == Last(k.history, r.max)
    && |r.chans| == |k.subs|
    && (forall c :: c in r.subs ==> c < |r.chans|)
    && (forall c :: 0 <= c < |r.chans| ==> SubInv(r.chans[c], k.subs[c], c in r.subs, k.history, r.max))
    && r.closed == k.ended
    && (r.closed ==> r.subs == {})
    && (forall c :: 0 <= c < |k.subs| ==> k.subs[c].leave.Some? && !k.subs[c].cancelled ==> k.ended)
  }

  function From(src: Source): LogLine -> bool {
    (ln: LogLine) => ln.source == src
  }

  /** The pump's added lines, plus the one it holds, are exactly what it scanned. */
  ghost predicate PumpInv(p: Proc, k: Ledger) {
    forall src :: Filter(k.history, From(src))
                  + (if src in p.held then [p.held[src]] else [])
                  == Scanned(k, src)
                  && (src in p.held ==> p.held[src].source == src)
  }

  ghost predicate WaiterInv(p: Proc) {
    && (p.waiter == Waiting <==> p.state == Running)
    && (p.state == Running ==> p.exitCode == 0 && p.endedAt == None)
    && (p.state == Exited ==> p.endedAt.Some?)
    && (p.waiter == Finished <==> p.ring.closed)
  }

  ghost predicate Inv(p: Proc, k: Ledger, max: nat) {
    p.ring.max == max && RingInv(p.ring, k) && PumpInv(p, k) && WaiterInv(p)
  }

  // Every step keeps it

  lemma PickGrows(history: seq<LogLine>, x: LogLine, ps: seq<nat>)
    requires Within(ps, 0, |history|)
    ensures Within(ps, 0, |history + [x]|)
    ensures Pick(history + [x], ps) == Pick(history, ps)
    ensures Pick(history + [x], ps + [|history|]) == Pick(history, ps) + [x]
  {
  }

  /** A subscriber with room takes the line in. */
  lemma AcceptKeeps(ch: Chan, s: Sub, history: seq<LogLine>, x: LogLine, max: nat)
    requires SubInv(ch, s, true, history, max) && |ch.queue| < CHANNEL_CAPACITY
    ensures |s.took| < |s.got| + CHANNEL_CAPACITY
    ensures SubInv(ch.(queue := ch.queue + [x]), s.(took := s.took + [|history|]), true, history + [x], max)
  {
    PickGrows(history, x, s.took);
    assert (history + [x])[..s.join] == history[..s.join];
    assert |s.got + ch.queue| == |Pick(history, s.took)|;
    assert s.got + (ch.queue + [x]) == (s.got + ch.queue) + [x];
  }

  /** A full one misses it; by then 256 lines have been added since it joined. */
  lemma DropKeeps(ch: Chan, s: Sub, history: seq<LogLine>, x: LogLine, max: nat)
    requires SubInv(ch, s, true, history, max) && |ch.queue| == CHANNEL_CAPACITY
    ensures |s.took| >= |s.got| + CHANNEL_CAPACITY
    ensures SubInv(ch, s.(missed := s.missed + [|history|]), true, history + [x], max)
  {
    PickGrows(history, x, s.took);
    assert (history + [x])[..s.join] == history[..s.join];
    assert |s.got + ch.queue| == |Pick(history, s.took)|;
  }

  /** One that has left is not concerned. */
  lemma LeftKeeps(ch: Chan, s: Sub, history: seq<LogLine>, x: LogLine, max: nat)
    requires SubInv(ch, s, false, history, max)
    ensures SubInv(ch, s, false, history + [x], max)
  {
    PickGrows(history, x, s.took);
    assert (history + [x])[..s.join] == history[..s.join];
  }

  /** An added line reaches a registered subscriber's queue, or its list of misses when 256 are waiting. */
  lemma OfferKeeps(ch: Chan, s: Sub, registered: bool, history: seq<LogLine>, x: LogLine, max: nat)
    requires SubInv(ch, s, registered, history, max)
    ensures SubInv(if registered then TrySend(ch, x) else ch, Offer(s, |history|), registered, history + [x], max)
  {
    if !registered {
      LeftKeeps(ch, s, history, x, max);
    } else if |ch.queue| < CHANNEL_CAPACITY {
      AcceptKeeps(ch, s, history, x, max);
    } else {
      DropKeeps(ch, s, history, x, max);
    }
  }

  lemma RingAddKeeps(r: Ring, k: Ledger, ln: LogLine, k': Ledger)
    requires RingInv(r, k)
    requires k'.history == k.history + [ln] && k'.ended == k.ended
    requires k'.subs == seq(|k.subs|, c requires 0 <= c < |k.subs| => Offer(k.subs[c], |k.history|))
    ensures LogRing.Add(r, ln).Next? && RingInv(LogRing.Add(r, ln).value, k')
  {
    var r' := LogRing.Add(r, ln).value;
    LastOfAppend(k.history, ln, r.max);
    forall c | 0 <= c < |r.chans|
      ensures SubInv(r'.chans[c], k'.subs[c], c in r'.subs, k'.history, r.max)
    {
      OfferKeeps(r.chans[c], k.subs[c], c in r.subs, k.history, ln, r.max);
    }
  }

  lemma PumpAddKeeps(p: Proc, k: Ledger, src: Source, p': Proc, k': Ledger)
    requires PumpInv(p, k) && src in p.held
    requires p'.held == p.held - {src}
    requires k'.history == k.history + [p.held[src]] && k'.scanned == k.scanned
    ensures PumpInv(p', k')
  {
    assert k'.history[..|k'.history| - 1] == k.history;
    forall s: Source
      ensures Filter(k'.history, From(s)) + (if s in p'.held then [p'.held[s]] else []) == Scanned(k', s)
      ensures s in p'.held ==> p'.held[s].source == s
    {
      assert Scanned(k', s) == Scanned(k, s);
    }
  }

  lemma AddKeeps(p: Proc, k: Ledger, src: Source, max: nat)
    requires Inv(p, k, max) && src in p.held
    ensures Step(p, Label.Add(src)).Next?
    ensures Inv(Step(p, Label.Add(src)).value, Note(k, Label.Add(src)), max)
  {
    var ln := p.held[src];
    var k' := Note(k, Label.Add(src));
    assert Scanned(k, src) == Filter(k.history, From(src)) + [ln];
    RingAddKeeps(p.ring, k, ln, k');
    PumpAddKeeps(p, k, src, Step(p, Label.Add(src)).value, k');
  }

  lemma CloseSubsKeeps(p: Proc, k: Ledger, max: nat)
    requires Inv(p, k, max) && p.waiter == StateSet
    ensures Step(p, Label.CloseSubs).Next?
    ensures Inv(Step(p, Label.CloseSubs).value, Note(k, Label.CloseSubs), max)
  {
  }

  lemma PartKeeps(ch: Chan, s: Sub, registered: bool, history: seq<LogLine>, max: nat)
    requires SubInv(ch, s, registered, history, max)
    ensures SubInv(ch.(open := false), Part(s, |history|), false, history, max)
    ensures SubInv(ch.(open := false), Part(s, |history|).(cancelled := true), false, history, max)
  {
  }

  lemma CancelKeeps(p: Proc, k: Ledger, c: nat, max: nat)
    requires Inv(p, k, max) && c < |p.ring.chans|
    ensures Step(p, Label.Cancel(c)).Next?
    ensures Inv(Step(p, Label.Cancel(c)).value, Note(k, Label.Cancel(c)), max)
  {
    PartKeeps(p.ring.chans[c], k.subs[c], c in p.ring.subs, k.history, max);
  }

  lemma SubscribeKeeps(p: Proc, k: Ledger, l: Label, max: nat)
    requires Inv(p, k, max) && l.Subscribe? && Step(p, l).Next?
    ensures Inv(Step(p, l).value, Note(k, l), max)
  {
    RingSubscribeKeeps(p.ring, k, Note(k, l));
  }

  lemma RingSubscribeKeeps(r: Ring, k: Ledger, k': Ledger)
    requires RingInv(r, k) && k'.history == k.history && k'.ended == k.ended
    requires var join := |k.history|;
             k'.subs == k.subs + [Sub(r.lines, join, if k.ended then Some(join) else None, [], [], [], false)]
    ensures RingInv(LogRing.Subscribe(r), k')
  {
    assert k.history[..|k.history|] == k.history;
    assert SubInv(Chan([], !r.closed), k'.subs[|k.subs|], !r.closed, k.history, r.max);
  }

  lemma ReceiveKeeps(p: Proc, k: Ledger, l: Label, max: nat)
    requires Inv(p, k, max) && l.Receive? && Step(p, l).Next?
    ensures Inv(Step(p, l).value, Note(k, l), max)
  {
    var s, ch := k.subs[l.c], p.ring.chans[l.c];
    assert s.got + ch.queue == (s.got + [l.line]) + ch.queue[1..];
    assert SubInv(ch.(queue := ch.queue[1..]), s.(got := s.got + [l.line]), l.c in p.ring.subs, k.history, max);
  }

  lemma ScanKeeps(p: Proc, k: Ledger, l: Label, max: nat)
    requires Inv(p, k, max) && l.Scan? && Step(p, l).Next?
    ensures Inv(Step(p, l).value, Note(k, l), max)
  {
    PumpScanKeeps(p, k, l, Step(p, l).value, Note(k, l));
    RingIsSame(p.ring, k, Note(k, l));
  }

  lemma RingIsSame(r: Ring, k: Ledger, k': Ledger)
    requires RingInv(r, k) && k'.history == k.history && k'.ended == k.ended && k'.subs == k.subs
    ensures RingInv(r, k')
  {
  }

  lemma PumpScanKeeps(p: Proc, k: Ledger, l: Label, p': Proc, k': Ledger)
    requires PumpInv(p, k) && l.Scan? && l.src !in p.held && p'.held == p.held[l.src := LogLine(l.src, l.text, l.at)]
    requires k'.history == k.history
    requires k'.scanned == k.scanned[l.src := Scanned(k, l.src) + [LogLine(l.src, l.text, l.at)]]
    ensures PumpInv(p', k')
  {
    forall s: Source
      ensures Filter(k'.history, From(s)) + (if s in p'.held then [p'.held[s]] else []) == Scanned(k', s)
      ensures s in p'.held ==> p'.held[s].source == s
    {
      assert Filter(k.history, From(s)) + (if s in p.held then [p.held[s]] else []) == Scanned(k, s);
      assert s != l.src ==> Scanned(k', s) == Scanned(k, s);
    }
  }

  lemma SetStateKeeps(p: Proc, k: Ledger, l: Label, max: nat)
    requires Inv(p, k, max) && l.SetState? && Step(p, l).Next?
    ensures Inv(Step(p, l).value, Note(k, l), max)
  {
  }

  lemma StepKeeps(p: Proc, k: Ledger, l: Label, max: nat)
    requires Inv(p, k, max)
    ensures !Step(p, l).Panic?
    ensures Step(p, l).Next? ==> Inv(Step(p, l).value, Note(k, l), max)
  {
    if Step(p, l) != Disabled {
      match l
      case Scan(_, _, _) => ScanKeeps(p, k, l, max);
      case Add(src) => AddKeeps(p, k, src, max);
      case SetState(_, _) => SetStateKeeps(p, k, l, max);
      case CloseSubs => CloseSubsKeeps(p, k, max);
      case Cancel(c) => CancelKeeps(p, k, c, max);
      case Subscribe(_, _) => SubscribeKeeps(p, k, l, max);
      case Receive(_, _) => ReceiveKeeps(p, k, l, max);
      case ReceiveClosed(_) =>
      case Snapshot(_) =>
      case Look(_) =>
    }
  }

  /** No run sends on or closes a closed channel, and every run keeps the program and the ledger in agreement. */
  lemma {:induction false} RunKeeps(max: nat, run: seq<Label>)
    ensures !Exec(max, run).Panic?
    ensures Exec(max, run).Next? ==> Inv(Exec(max, run).value, Observe(run), max)
  {
    if run != [] {
      var before := run[..|run| - 1];
      RunKeeps(max, before);
      if Exec(max, before).Next? {
        StepKeeps(Exec(max, before).value, Observe(before), run[|run| - 1], max);
      }
    }
  }
}
