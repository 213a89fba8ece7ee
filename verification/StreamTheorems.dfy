/**
 What holds of a process, its log and its live streams after every run, in every interleaving of pumps, waiter and
 subscribers. The history, the subscriptions and the exits are those the observer's ledger reads off the run's labels.
 */
module StreamTheorems {
  import opened Sequences
  import opened LogRing
  import opened Stream
  import Scanning

  lemma {:induction false} ExecConcat(p: Proc, a: seq<Label>, b: seq<Label>)
    ensures ExecFrom(p, a + b) ==
            match ExecFrom(p, a)
            case Next(q) => ExecFrom(q, b)
            case Disabled => Disabled
            case Panic => Panic
  {
    if b == [] {
      assert a + b == a;
    } else {
      var front := b[..|b| - 1];
      assert (a + b)[..|a + b| - 1] == a + front;
      ExecConcat(p, a, front);
    }
  }

  // Channels

  /** No run crashes: nothing is sent on or closed twice, and a channel is open exactly while it is registered. */
  lemma ChannelSafety(max: nat, run: seq<Label>)
    ensures !Exec(max, run).Panic?
    ensures Exec(max, run).Next? ==>
              var r := Exec(max, run).value.ring;
              && (forall c :: 0 <= c < |r.chans| ==> (r.chans[c].open <==> c in r.subs))
              && (forall c :: c in r.subs ==> c < |r.chans|)
              && (r.closed ==> r.subs == {})
  {
    RunKeeps(max, run);
  }

  /** The lines a run's receives took from channel `c`. */
  ghost function Received(run: seq<Label>, c: nat): seq<LogLine> {
    if run == [] then []
    else
      var l := run[|run| - 1];
      Received(run[..|run| - 1], c) + (if l.Receive? && l.c == c then [l.line] else [])
  }

  /** A closed channel never reopens and gains nothing: later receives drain what it held, in order. */
  lemma {:induction false} ClosedChannelDrains(p: Proc, more: seq<Label>, c: nat)
    requires c < |p.ring.chans| && !p.ring.chans[c].open && c !in p.ring.subs
    requires ExecFrom(p, more).Next?
    ensures var q := ExecFrom(p, more).value.ring;
            && c < |q.chans| && !q.chans[c].open && c !in q.subs
            && Received(more, c) + q.chans[c].queue == p.ring.chans[c].queue
  {
    if more != [] {
      var front, l := more[..|more| - 1], more[|more| - 1];
      ClosedChannelDrains(p, front, c);
      var mid := ExecFrom(p, front).value.ring;
      if l.Receive? && l.c == c {
        assert Received(front, c) + mid.chans[c].queue
            == (Received(front, c) + [l.line]) + mid.chans[c].queue[1..];
      }
    }
  }

  /**
   Once its channel is closed, a reader that stays can always move, whatever else happens meanwhile: the number of
   lines left is its measure, and exactly when it is zero the channel reads as closed.
   */
  lemma ClosedStreamTerminates(max: nat, run: seq<Label>, more: seq<Label>, c: nat)
    requires Exec(max, run).Next? && Exec(max, run + more).Next?
    requires c < |Exec(max, run).value.ring.chans| && !Exec(max, run).value.ring.chans[c].open
    ensures var left := |Exec(max, run).value.ring.chans[c].queue| - |Received(more, c)|;
            var p := Exec(max, run + more).value;
            && left >= 0
            && (left > 0 ==> Step(p, Receive(c, Exec(max, run).value.ring.chans[c].queue[|Received(more, c)|])).Next?)
            && (left == 0 <==> Step(p, ReceiveClosed(c)).Next?)
  {
    RunKeeps(max, run);
    ExecConcat(Start(max), run, more);
    ClosedChannelDrains(Exec(max, run).value, more, c);
  }

  lemma {:induction false} ClosedStays(p: Proc, more: seq<Label>)
    requires p.ring.closed && p.ring.subs == {} && p.waiter == Finished && ExecFrom(p, more).Next?
    ensures var q := ExecFrom(p, more).value;
            q.ring.closed && q.ring.subs == {} && q.waiter == Finished
  {
    if more != [] {
      ClosedStays(p, more[..|more| - 1]);
    }
  }

  /** After closeSubs no channel is registered again, and a cancel that comes late changes nothing. */
  lemma ClosedForEver(max: nat, run: seq<Label>, more: seq<Label>, c: nat)
    requires Exec(max, run).Next? && Exec(max, run).value.ring.closed && Exec(max, run + more).Next?
    ensures var p := Exec(max, run + more).value;
            && p.ring.closed && p.ring.subs == {}
            && (c < |p.ring.chans| ==> Step(p, Cancel(c)) == Next(p))
  {
    RunKeeps(max, run);
    ExecConcat(Start(max), run, more);
    ClosedStays(Exec(max, run).value, more);
  }

  // What a subscriber receives

  /** The invariant, at one subscription. */
  lemma SubAfter(max: nat, run: seq<Label>, c: nat)
    requires Exec(max, run).Next? && c < |Exec(max, run).value.ring.chans|
    ensures c < |Observe(run).subs|
    ensures var p, k := Exec(max, run).value, Observe(run);
            && SubInv(p.ring.chans[c], k.subs[c], c in p.ring.subs, k.history, max)
            && |k.subs[c].got| + |p.ring.chans[c].queue| == |k.subs[c].took|
  {
    RunKeeps(max, run);
    var p, k := Exec(max, run).value, Observe(run);
    assert SubInv(p.ring.chans[c], k.subs[c], c in p.ring.subs, k.history, max);
    assert |k.subs[c].got + p.ring.chans[c].queue| == |k.subs[c].took|;
  }

  /**
   Conservation: the lines added while `c` is registered are those received, those waiting and those dropped.
   Received then waiting lines are the accepted ones, each once and in the order they were added.
   */
  lemma StreamConservation(max: nat, run: seq<Label>, c: nat)
    requires Exec(max, run).Next? && c < |Exec(max, run).value.ring.chans|
    ensures c < |Observe(run).subs|
    ensures var k, queue := Observe(run), Exec(max, run).value.ring.chans[c].queue;
            var s := k.subs[c];
            var end := End(s, k.history);
            && s.join <= end <= |k.history|
            && end - s.join == |s.got| + |queue| + |s.missed|
            && Ascending(s.took) && Within(s.took, s.join, end)
            && s.got + queue == Pick(k.history, s.took)
            && (forall p :: s.join <= p < end ==> (p in s.took <==> p !in s.missed))
  {
    SubAfter(max, run, c);
  }

  lemma GapFree(ch: Chan, s: Sub, registered: bool, history: seq<LogLine>, max: nat)
    requires SubInv(ch, s, registered, history, max)
    ensures var end := End(s, history);
            && |s.snapshot| <= s.join <= end <= |history|
            && (s.snapshot + s.got + ch.queue == history[s.join - |s.snapshot|..end] <==> s.missed == [])
  {
    var end := End(s, history);
    var whole := history[s.join - |s.snapshot|..end];
    assert |s.got + ch.queue| == |s.took|;
    assert s.snapshot + s.got + ch.queue == s.snapshot + (s.got + ch.queue);
    if s.missed == [] {
      AscendingFull(s.took, s.join, end);
      assert s.got + ch.queue == history[s.join..end];
      assert whole == history[s.join - |s.snapshot|..s.join] + history[s.join..end];
    } else {
      assert |s.snapshot + (s.got + ch.queue)| < |whole|;
    }
  }

  /** Snapshot, received and waiting lines form one gap-free stretch of the history exactly when nothing was dropped. */
  lemma StreamGapFree(max: nat, run: seq<Label>, c: nat)
    requires Exec(max, run).Next? && c < |Exec(max, run).value.ring.chans|
    ensures c < |Observe(run).subs|
    ensures var k, queue := Observe(run), Exec(max, run).value.ring.chans[c].queue;
            var s := k.subs[c];
            var end := End(s, k.history);
            && |s.snapshot| <= s.join <= end <= |k.history|
            && (s.snapshot + s.got + queue == k.history[s.join - |s.snapshot|..end] <==> s.missed == [])
  {
    SubAfter(max, run, c);
    var p, k := Exec(max, run).value, Observe(run);
    GapFree(p.ring.chans[c], k.subs[c], c in p.ring.subs, k.history, max);
  }

  /** A subscriber that saw at most 256 lines added while registered lost none of them, however slowly it read. */
  lemma NoDropWithinCapacity(max: nat, run: seq<Label>, c: nat)
    requires Exec(max, run).Next? && c < |Exec(max, run).value.ring.chans|
    ensures c < |Observe(run).subs|
    ensures var k := Observe(run);
            End(k.subs[c], k.history) - k.subs[c].join <= CHANNEL_CAPACITY ==> k.subs[c].missed == []
  {
    SubAfter(max, run, c);
    var k := Observe(run);
    var s := k.subs[c];
    if s.missed != [] {
      assert s.join + CHANNEL_CAPACITY <= s.missed[0] < End(s, k.history);
    }
  }

  // What the log holds

  /**
   The history is a merge of what the two pumps scanned, less the line each may still hold; the buffer is the history's
   last `max` lines, and its lines from one pump are a contiguous suffix of that pump's.
   */
  lemma HistoryIsMerge(max: nat, run: seq<Label>, src: Source)
    requires Exec(max, run).Next?
    ensures var p, k := Exec(max, run).value, Observe(run);
            && |k.history| == |Filter(k.history, From(Stdout))| + |Filter(k.history, From(Stderr))|
            && Filter(k.history, From(src)) + (if src in p.held then [p.held[src]] else []) == Scanned(k, src)
            && p.ring.lines == Last(k.history, max)
            && IsSuffix(Filter(p.ring.lines, From(src)), Filter(k.history, From(src)))
  {
    RunKeeps(max, run);
    var p, k := Exec(max, run).value, Observe(run);
    FilterSplits(k.history);
    FilterOfSuffix(p.ring.lines, k.history, From(src));
  }

  ghost function Texts(lines: seq<LogLine>): seq<Bytes> {
    seq(|lines|, i requires 0 <= i < |lines| => lines[i].text)
  }

  /** The pump's scanner, over the output it reads, yields the output's lines one after the other. */
  ghost predicate ReadsFrom(run: seq<Label>, src: Source, output: Bytes) {
    run != [] ==>
      var before, l := run[..|run| - 1], run[|run| - 1];
      && ReadsFrom(before, src, output)
      && (l.Scan? && l.src == src ==>
            var n := |Scanned(Observe(before), src)|;
            n < |Scanning.Lines(output)| && l.text == Scanning.Lines(output)[n])
  }

  lemma {:induction false} ScannedSoFar(run: seq<Label>, src: Source, output: Bytes)
    requires ReadsFrom(run, src, output)
    ensures Texts(Scanned(Observe(run), src)) <= Scanning.Lines(output)
  {
    if run != [] {
      var before, l := run[..|run| - 1], run[|run| - 1];
      ScannedSoFar(before, src, output);
      if l.Scan? && l.src == src {
        var was := Scanned(Observe(before), src);
        assert Texts(was + [LogLine(src, l.text, l.at)]) == Texts(was) + [l.text];
      }
    }
  }

  /**
   Each pump's part of the history is, text by text, a beginning of the lines of the output it reads - and never gets
   past a line that is too long for its scanner - whatever the other pump and everybody else do.
   */
  lemma HistoryIsOutput(max: nat, run: seq<Label>, src: Source, output: Bytes)
    requires Exec(max, run).Next? && ReadsFrom(run, src, output)
    ensures Texts(Filter(Observe(run).history, From(src))) <= Scanning.Lines(output)
  {
    ScannedSoFar(run, src, output);
    HistoryIsMerge(max, run, src);
    var mine, all := Filter(Observe(run).history, From(src)), Scanned(Observe(run), src);
    assert mine == all[..|mine|];
    assert Texts(mine) == Texts(all)[..|mine|];
  }

  lemma {:induction false} FilterSplits(lines: seq<LogLine>)
    ensures |lines| == |Filter(lines, From(Stdout))| + |Filter(lines, From(Stderr))|
  {
    if lines != [] {
      FilterSplits(lines[..|lines| - 1]);
    }
  }

  /** What is read from a process is so then: the log's last lines, and the running view or the reported exit. */
  lemma ReadsAreTrue(max: nat, run: seq<Label>, lines: seq<LogLine>, view: View)
    requires Exec(max, run).Next?
    ensures Exec(max, run + [Label.Snapshot(lines)]).Next? <==> lines == Last(Observe(run).history, max)
    ensures Exec(max, run + [Look(view)]).Next? <==>
              view == if Exits(run) == [] then View(Running, 0, None) else Exits(run)[0]
  {
    SnapshotIsTrue(max, run, lines);
    OneMore(max, run, Look(view));
    ExitsFollowWaiter(max, run);
  }

  lemma SnapshotIsTrue(max: nat, run: seq<Label>, lines: seq<LogLine>)
    requires Exec(max, run).Next?
    ensures Exec(max, run + [Label.Snapshot(lines)]).Next? <==> lines == Last(Observe(run).history, max)
  {
    RunKeeps(max, run);
    OneMore(max, run, Label.Snapshot(lines));
  }

  // Lifecycle

  /** The exits a run reports, in order. */
  ghost function Exits(run: seq<Label>): seq<View> {
    if run == [] then []
    else
      var l := run[|run| - 1];
      Exits(run[..|run| - 1]) + (if l.SetState? then [View(Exited, l.code, Some(l.at))] else [])
  }

  lemma WaiterStep(p: Proc, l: Label)
    requires Step(p, l).Next?
    ensures var q := Step(p, l).value;
            if l.SetState? then
              p.waiter == Waiting && q.waiter == StateSet && ViewOf(q) == View(Exited, l.code, Some(l.at))
            else (q.waiter == Waiting <==> p.waiter == Waiting) && ViewOf(q) == ViewOf(p)
  {
  }

  lemma {:induction false} ExitsFollowWaiter(max: nat, run: seq<Label>)
    requires Exec(max, run).Next?
    ensures var p := Exec(max, run).value;
            && ViewOf(p) == (if Exits(run) == [] then View(Running, 0, None) else Exits(run)[0])
            && |Exits(run)| == if p.waiter == Waiting then 0 else 1
  {
    if run != [] {
      var before := run[..|run| - 1];
      ExitsFollowWaiter(max, before);
      WaiterStep(Exec(max, before).value, run[|run| - 1]);
    }
  }

  /** A process exits at most once; its view is the running one before that and the reported exit ever after. */
  lemma Lifecycle(max: nat, run: seq<Label>)
    requires Exec(max, run).Next?
    ensures |Exits(run)| <= 1
    ensures ViewOf(Exec(max, run).value) == if Exits(run) == [] then View(Running, 0, None) else Exits(run)[0]
  {
    ExitsFollowWaiter(max, run);
  }

  lemma {:induction false} ViewStays(p: Proc, more: seq<Label>)
    requires p.waiter != Waiting && ExecFrom(p, more).Next?
    ensures var q := ExecFrom(p, more).value;
            q.waiter != Waiting && ViewOf(q) == ViewOf(p)
  {
    if more != [] {
      var front := more[..|more| - 1];
      ViewStays(p, front);
      WaiterStep(ExecFrom(p, front).value, more[|more| - 1]);
    }
  }

  /** Once exited, no later step changes the state, the exit code or the end time. */
  lemma ExitIsFinal(max: nat, run: seq<Label>, more: seq<Label>)
    requires Exec(max, run).Next? && Exec(max, run).value.state == Exited && Exec(max, run + more).Next?
    ensures ViewOf(Exec(max, run + more).value) == ViewOf(Exec(max, run).value)
  {
    RunKeeps(max, run);
    ExecConcat(Start(max), run, more);
    ViewStays(Exec(max, run).value, more);
  }

  /**
   A reader that never cancelled and finds its channel closed has received every line that was accepted for it, and the
   process has already exited: setState comes before closeSubs.
   */
  lemma EndOfStream(max: nat, run: seq<Label>, c: nat)
    requires Exec(max, run).Next? && Step(Exec(max, run).value, ReceiveClosed(c)).Next?
    ensures c < |Observe(run).subs|
    ensures var k, s := Observe(run), Observe(run).subs[c];
            && Within(s.took, 0, |k.history|)
            && s.got == Pick(k.history, s.took)
            && (!s.cancelled ==> Exec(max, run).value.state == Exited)
  {
    RunKeeps(max, run);
    var s := Observe(run).subs[c];
    assert s.got + [] == s.got;
  }

  /** A channel that its own reader has not cancelled is closed only once the process has exited. */
  lemma ClosedMeansExited(max: nat, run: seq<Label>, c: nat)
    requires Exec(max, run).Next? && c < |Exec(max, run).value.ring.chans|
    ensures c < |Observe(run).subs|
    ensures !Exec(max, run).value.ring.chans[c].open && !Observe(run).subs[c].cancelled ==>
              Exec(max, run).value.state == Exited && Exec(max, run).value.endedAt.Some?
  {
    RunKeeps(max, run);
    SubAfter(max, run, c);
  }

  /** The waiter's remaining steps. */
  ghost function WaiterRest(p: Proc, code: int, at: int): seq<Label> {
    match p.waiter
    case Waiting => [SetState(code, at), Label.CloseSubs]
    case StateSet => [Label.CloseSubs]
    case Finished => []
  }

  /** The process has exited and no stream is left open. */
  ghost predicate AllClosed(p: Proc) {
    p.state == Exited && p.ring.closed && forall c :: 0 <= c < |p.ring.chans| ==> !p.ring.chans[c].open
  }

  /** From every reachable state the waiter can run to its end, and then no stream is left open. */
  lemma WaiterClosesEveryStream(max: nat, run: seq<Label>, code: int, at: int)
    requires Exec(max, run).Next?
    ensures var rest := WaiterRest(Exec(max, run).value, code, at);
            Exec(max, run + rest).Next? && AllClosed(Exec(max, run + rest).value)
  {
    var p := Exec(max, run).value;
    if p.waiter == Waiting {
      var exited := run + [SetState(code, at)];
      OneMore(max, run, SetState(code, at));
      WaiterStep(p, SetState(code, at));
      CloseSubsLast(max, exited);
      assert run + WaiterRest(p, code, at) == exited + [Label.CloseSubs];
    } else if p.waiter == StateSet {
      CloseSubsLast(max, run);
    } else {
      ClosedAtLast(max, run);
      assert run + WaiterRest(p, code, at) == run;
    }
  }

  lemma OneMore(max: nat, run: seq<Label>, l: Label)
    requires Exec(max, run).Next?
    ensures Exec(max, run + [l]) == Step(Exec(max, run).value, l)
  {
    assert (run + [l])[..|run|] == run;
  }

  lemma CloseSubsLast(max: nat, run: seq<Label>)
    requires Exec(max, run).Next? && Exec(max, run).value.waiter == StateSet
    ensures var more := run + [Label.CloseSubs];
            Exec(max, more).Next? && AllClosed(Exec(max, more).value)
  {
    RunKeeps(max, run);
    CloseSubsKeeps(Exec(max, run).value, Observe(run), max);
    OneMore(max, run, Label.CloseSubs);
    ClosedAtLast(max, run + [Label.CloseSubs]);
  }

  lemma ClosedAtLast(max: nat, run: seq<Label>)
    requires Exec(max, run).Next? && Exec(max, run).value.waiter == Finished
    ensures AllClosed(Exec(max, run).value)
  {
    RunKeeps(max, run);
    ChannelSafety(max, run);
  }
}
