/**
 The log ring of one process and the channels it feeds, as values.
 Every function below is the effect of one critical section of `ringBuffer` (internal/procapi/procapi.go).
 */
module LogRing {
  import opened Sequences

  datatype Source = Stdout | Stderr

  datatype LogLine = LogLine(source: Source, text: Bytes, at: int)

  /** Capacity of a subscriber channel. */
  const CHANNEL_CAPACITY: nat := 256

  /** A buffered Go channel: lines not yet received, and whether it is still open. */
  datatype Chan = Chan(queue: seq<LogLine>, open: bool)

  /**
   `subs` holds the indices of the registered channels; `chans` holds every channel the ring has ever made, because
   a subscriber keeps its channel after the ring has forgotten it.
   */
  datatype Ring = Ring(lines: seq<LogLine>, max: nat, subs: set<nat>, closed: bool, chans: seq<Chan>)

  /** Result of a step: it happens, it must wait, or it crashes the program. */
  datatype Outcome<+S> = Next(value: S) | Disabled | Panic

  function Fresh(max: nat): Ring {
    Ring([], max, {}, false, [])
  }

  /** Whether sending to every registered channel avoids the send-on-closed-channel crash. */
  predicate AllOpen(r: Ring) {
    forall c :: c in r.subs ==> c < |r.chans| && r.chans[c].open
  }

  /** Non-blocking send: a full channel drops the line. */
  function TrySend(ch: Chan, ln: LogLine): Chan {
    if |ch.queue| < CHANNEL_CAPACITY then ch.(queue := ch.queue + [ln]) else ch
  }

  function Window(lines: seq<LogLine>, ln: LogLine, max: nat): seq<LogLine> {
    var grown := lines + [ln];
    if |grown| > max then grown[|grown| - max..] else grown
  }

  function Add(r: Ring, ln: LogLine): Outcome<Ring> {
    if !AllOpen(r) then Panic
    else Next(r.(lines := Window(r.lines, ln, r.max),
                 chans := seq(|r.chans|, c requires 0 <= c < |r.chans| =>
                     if c in r.subs then TrySend(r.chans[c], ln) else r.chans[c])))
  }

  /** The new channel's index is the number of channels made so far. */
  function Subscribe(r: Ring): Ring {
    if r.closed then r.(chans := r.chans + [Chan([], false)])
    else r.(chans := r.chans + [Chan([], true)], subs := r.subs + {|r.chans|})
  }

  function Close(ch: Chan): Outcome<Chan> {
    if ch.open then Next(ch.(open := false)) else Panic
  }

  function Unsubscribe(r: Ring, c: nat): Outcome<Ring>
    requires c < |r.chans|
  {
    if c !in r.subs then Next(r)
    else match Close(r.chans[c])
      case Next(ch) => Next(r.(subs := r.subs - {c}, chans := r.chans[c := ch]))
      case _ => Panic
  }

  function CloseSubs(r: Ring): Outcome<Ring> {
    if r.closed then Next(r)
    else if !AllOpen(r) then Panic
    else Next(r.(closed := true, subs := {},
                 chans := seq(|r.chans|, c requires 0 <= c < |r.chans| =>
                     if c in r.subs then r.chans[c].(open := false) else r.chans[c])))
  }
}
