/** `ringBuffer` and its channels as objects (internal/procapi/procapi.go); each method is one critical section. */
module RingObjects {
  import opened Sequences
  import opened LogRing
  import opened Scanning
  import opened Windows

  /** A Go channel of capacity 256, with the two uses that crash as preconditions. */
  class Channel {
    var queue: seq<LogLine>
    var open: bool

    function Value(): Chan
      reads this
    {
      Chan(queue, open)
    }

    constructor ()
      ensures Value() == Chan([], true)
    {
      queue, open := [], true;
    }

    method TrySend(ln: LogLine)
      requires open
      modifies this
      ensures Value() == LogRing.TrySend(old(Value()), ln)
    {
      if |queue| < CHANNEL_CAPACITY {
        queue := queue + [ln];
      }
    }

    method Close()
      requires open
      modifies this
      ensures LogRing.Close(old(Value())) == Next(Value())
    {
      open := false;
    }
  }

  class RingBuffer {
    const window: Window<LogLine>
    var subs: set<Channel>
    var closed: bool
    /** Every channel this ring has made; its position here is its number in the model. */
    ghost var made: seq<Channel>

    ghost predicate Valid()
      reads this, window, made
    {
      && window.Valid()
      && (forall i, j :: 0 <= i < j < |made| ==> made[i] != made[j])
      && (forall ch :: ch in subs ==> ch in made && ch.open)
      && (closed ==> subs == {})
    }

    ghost function Model(): Ring
      requires Valid()
      reads this, window, window.data, made
    {
      Ring(window.Contents(), window.max, Registered(), closed,
           seq(|made|, i requires 0 <= i < |made| reads this, made => made[i].Value()))
    }

    ghost function Registered(): set<nat>
      reads this
    {
      set i | 0 <= i < |made| && made[i] in subs
    }

    constructor (max: nat)
      ensures Valid() && fresh(window) && fresh(window.data)
      ensures Model() == Fresh(max)
    {
      window := new Window(max);
      subs, closed, made := {}, false, [];
    }

    lemma ModelIsOpen()
      requires Valid()
      ensures AllOpen(Model())
    {
    }

    /** Adds a line and offers it to every registered channel, in whatever order the map yields them. */
    method Add(ln: LogLine)
      requires Valid()
      modifies window, window.data, subs
      ensures Valid() && unchanged(this) && (window.data == old(window.data) || fresh(window.data))
      ensures LogRing.Add(old(Model()), ln) == Next(Model())
      ensures window.Contents() == Last(old(window.Contents()) + [ln], window.max)
    {
      ModelIsOpen();
      window.Append(ln);
      OfferAll(ln);
      ghost var next := LogRing.Add(old(Model()), ln).value;
      forall c | 0 <= c < |made|
        ensures Model().chans[c] == next.chans[c]
      {
        assert made[c] in subs <==> c in old(Model()).subs;
      }
      assert Model().chans == next.chans;
    }

    /** Every registered channel is offered the line once; the buffer is not touched. */
    method OfferAll(ln: LogLine)
      requires Valid()
      modifies subs
      ensures Valid()
      ensures forall ch :: ch in made ==>
                ch.Value() == if ch in subs then LogRing.TrySend(old(ch.Value()), ln) else old(ch.Value())
    {
      var rest := subs;
      while rest != {}
        invariant Valid() && rest <= subs
        invariant forall ch :: ch in made ==>
                    ch.Value() ==
                    if ch in subs && ch !in rest then LogRing.TrySend(old(ch.Value()), ln) else old(ch.Value())
        decreases rest
        modifies subs
      {
        var ch :| ch in rest;
        ch.TrySend(ln);
        rest := rest - {ch};
      }
    }

    method Snapshot() returns (out: array<LogLine>)
      requires Valid()
      ensures fresh(out) && out[..] == Model().lines
    {
      out := window.CopyLast(window.len);
    }

    /** The buffer as it is, and a channel for what comes; after closeSubs the channel comes closed. */
    method Subscribe() returns (snap: array<LogLine>, ch: Channel)
      requires Valid()
      modifies this
      ensures Valid() && fresh(snap) && fresh(ch) && closed == old(closed)
      ensures snap[..] == old(Model()).lines && made == old(made) + [ch]
      ensures Model() == LogRing.Subscribe(old(Model()))
    {
      snap := window.CopyLast(window.len);
      ch := new Channel();
      made := made + [ch];
      if closed {
        ch.Close();
        return;
      }
      subs := subs + {ch};
    }

    method Unsubscribe(ch: Channel, ghost c: nat)
      requires Valid() && c < |made| && made[c] == ch
      modifies this, ch
      ensures Valid() && made == old(made)
      ensures LogRing.Unsubscribe(old(Model()), c) == Next(Model())
    {
      if ch in subs {
        subs := subs - {ch};
        ch.Close();
        assert c in old(Model()).subs && Registered() == old(Registered()) - {c};
        assert Model().chans == old(Model()).chans[c := Model().chans[c]];
      }
    }

    method CloseSubs()
      requires Valid()
      modifies this, subs
      ensures Valid() && made == old(made) && closed
      ensures LogRing.CloseSubs(old(Model())) == Next(Model())
    {
      if closed {
        return;
      }
      ModelIsOpen();
      closed := true;
      ghost var registered := subs;
      while subs != {}
        invariant closed && made == old(made) && subs <= registered == old(subs)
        invariant window.Valid() && window.Contents() == old(window.Contents())
        invariant forall ch :: ch in subs ==> ch in made && ch.open
        invariant forall ch :: ch in made ==>
                    ch.Value() ==
                    if ch in registered && ch !in subs then old(ch.Value()).(open := false) else old(ch.Value())
        decreases subs
        modifies this, registered
      {
        var ch :| ch in subs;
        subs := subs - {ch};
        ch.Close();
      }
      ghost var next := LogRing.CloseSubs(old(Model())).value;
      forall c | 0 <= c < |made|
        ensures Model().chans[c] == next.chans[c]
      {
        assert made[c] in registered <==> c in old(Model()).subs;
      }
      assert Model().chans == next.chans && Registered() == {};
    }
  }

  /** The lines a pump reads, stamped by the clock as they are added. */
  ghost function Stamped(src: Source, texts: seq<Bytes>, clock: nat -> int): seq<LogLine> {
    seq(|texts|, i requires 0 <= i < |texts| => LogLine(src, texts[i], clock(i)))
  }

  lemma StampedNext(start: seq<LogLine>, src: Source, texts: seq<Bytes>, clock: nat -> int, i: nat)
    requires i < |texts|
    ensures start + Stamped(src, texts[..i + 1], clock) ==
            start + Stamped(src, texts[..i], clock) + [LogLine(src, texts[i], clock(i))]
  {
    var ln := LogLine(src, texts[i], clock(i));
    assert Stamped(src, texts[..i + 1], clock) == Stamped(src, texts[..i], clock) + [ln];
  }

  /** One more line at the end of `all`, of which the buffer holds the last. */
  method AddTo(r: RingBuffer, ghost all: seq<LogLine>, ln: LogLine)
    requires r.Valid() && r.window.Contents() == Last(all, r.window.max)
    modifies r.window, r.window.data, r.subs
    ensures r.Valid() && unchanged(r) && (r.window.data == old(r.window.data) || fresh(r.window.data))
    ensures r.window.Contents() == Last(all + [ln], r.window.max)
  {
    LastOfAppend(all, ln, r.window.max);
    r.Add(ln);
  }

  /** One turn of the pump's loop: the line just scanned is added, and the next one scanned. */
  method PumpOne(r: RingBuffer, sc: Scanner, src: Source, at: int, ghost all: seq<LogLine>, ghost ahead: seq<Bytes>)
      returns (more: bool)
    requires r.Valid() && r.window.Contents() == Last(all, r.window.max)
    requires ahead != [] && Lines(sc.rest) == ahead[1..] && sc.text == ahead[0]
    modifies r.window, r.window.data, r.subs, sc
    ensures r.Valid() && unchanged(r) && (r.window.data == old(r.window.data) || fresh(r.window.data))
    ensures r.window.Contents() == Last(all + [LogLine(src, ahead[0], at)], r.window.max)
    ensures more <==> |ahead| > 1
    ensures more ==> sc.text == ahead[1] && Lines(sc.rest) == ahead[2..]
  {
    AddTo(r, all, LogLine(src, sc.text, at));
    more := sc.Scan();
  }

  /**
   `pump` with the ring to itself: the buffer ends up as the last lines of all it held and all the output's lines, up to
   the first that is too long for the scanner, where the pump stops for good.
   */
  method Pump(r: RingBuffer, src: Source, output: Bytes, clock: nat -> int)
    requires r.Valid()
    modifies r.window, r.window.data, r.subs
    ensures r.Valid() && unchanged(r)
    ensures r.window.Contents() == Last(old(r.window.Contents()) + Stamped(src, Lines(output), clock), r.window.max)
  {
    var sc := new Scanner(output);
    var i := 0;
    ghost var texts, start := Lines(output), r.window.Contents();
    ghost var all := start;
    assert all == start + Stamped(src, texts[..0], clock);
    var more := sc.Scan();
    while more
      invariant i <= |texts| && all == start + Stamped(src, texts[..i], clock)
      invariant more ==> i < |texts| && sc.text == texts[i] && Lines(sc.rest) == texts[i + 1..]
      invariant !more ==> i == |texts|
      invariant r.Valid() && unchanged(r) && (r.window.data == old(r.window.data) || fresh(r.window.data))
      invariant r.window.Contents() == Last(all, r.window.max)
      decreases |texts| - i
    {
      StampedNext(start, src, texts, clock, i);
      more := PumpOne(r, sc, src, clock(i), all, texts[i..]);
      all, i := all + [LogLine(src, texts[i], clock(i))], i + 1;
    }
    assert texts[..i] == texts;
  }

  /** A snapshot, once returned, is never altered by later lines, though they overwrite the ring's array in place. */
  method SnapshotThenPump(r: RingBuffer, src: Source, output: Bytes, clock: nat -> int) returns (snap: array<LogLine>)
    requires r.Valid()
    modifies r.window, r.window.data, r.subs
    ensures fresh(snap) && snap[..] == old(r.window.Contents())
    ensures r.Valid()
    ensures r.window.Contents() == Last(old(r.window.Contents()) + Stamped(src, Lines(output), clock), r.window.max)
  {
    snap := r.Snapshot();
    Pump(r, src, output, clock);
  }
}
