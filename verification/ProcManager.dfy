/**
 `Process` and `Manager` as objects (internal/procapi/procapi.go). Starting and signalling are parameters and results.
 */
module ProcManager {
  import opened Sequences
  import opened LogRing
  import opened RingObjects
  import opened Decimal
  import opened Stream
  import ProcTable

  datatype ProcView = ProcView(id: string, command: string, args: seq<string>, dir: string, pid: int,
                               state: State, exitCode: int, startedAt: int, endedAt: Option<int>)

  datatype Error = ErrNotFound | CommandRequired | LaunchFailed | KillFailed

  datatype Result<+T> = Ok(value: T) | Err(error: Error)

  datatype StartRequest = StartRequest(command: string, args: seq<string>, dir: string)

  class Process {
    const id: string
    const command: string
    const args: seq<string>
    const dir: string
    const pid: int
    const startedAt: int
    const logs: RingBuffer
    var state: State
    var exitCode: int
    var endedAt: Option<int>
    /** Where the waiter stands, and what the pumps hold: the part of a process that only its own goroutines know. */
    ghost var waiter: Waiter
    ghost var held: map<Source, LogLine>

    /** The process of the transition system, with `ring` for its log, which the process's own fields say nothing of. */
    ghost function Model(ring: Ring): Proc
      reads this
    {
      Proc(ring, state, exitCode, endedAt, waiter, held)
    }

    constructor (id: string, req: StartRequest, dir: string, pid: int, now: int)
      ensures this.id == id && state == Running && exitCode == 0 && endedAt == None
      ensures CurrentView() == ProcView(id, req.command, req.args, dir, pid, Running, 0, now, None)
      ensures fresh(logs) && logs.Valid() && Model(logs.Model()) == Stream.Start(ProcTable.RING_MAX)
    {
      this.id, this.command, this.args, this.dir, this.pid, startedAt := id, req.command, req.args, dir, pid, now;
      logs := new RingBuffer(ProcTable.RING_MAX);
      state, exitCode, endedAt := Running, 0, None;
      waiter, held := Waiting, map[];
    }

    ghost function CurrentView(): ProcView
      reads this
    {
      ProcView(id, command, args, dir, pid, state, exitCode, startedAt, endedAt)
    }

    /** Called by the waiter, with the exited state, it makes exactly the step of the transition system. */
    method SetState(s: State, code: int, at: int)
      modifies this
      ensures CurrentView() == old(CurrentView()).(state := s, exitCode := code, endedAt := Some(at))
      ensures s == Exited && old(waiter) == Waiting ==>
                forall ring :: Stream.Step(old(Model(ring)), Stream.SetState(code, at)) == Next(Model(ring))
    {
      state, exitCode, endedAt := s, code, Some(at);
      waiter := StateSet;
    }

    /** What the view shows of the state, the exit code and the end is what an observer may see, all at one moment. */
    method View() returns (v: ProcView)
      ensures forall ring ::
                Stream.Step(Model(ring), Look(Stream.View(v.state, v.exitCode, v.endedAt))) == Next(Model(ring))
      ensures v == CurrentView() && v.id == id
    {
      v := ProcView(id, command, args, dir, pid, state, exitCode, startedAt, endedAt);
    }
  }

  class Manager {
    const workDir: string
    var procs: map<string, Process>
    var seqNo: int
    /** Every process ever registered, in order, and where each entry stands in that order. */
    ghost var started: seq<Process>
    ghost var entries: map<string, nat>

    ghost predicate Valid()
      reads this
    {
      && seqNo == Wrap(|started|)
      && entries.Keys == procs.Keys
      && (forall id :: id in procs ==>
            entries[id] < |started| && started[entries[id]] == procs[id] && procs[id].id == id)
    }

    /** The table of the transition system. */
    ghost function Model(): ProcTable.Table
      reads this
    {
      ProcTable.Table(entries, seqNo, seq(|started|, k requires 0 <= k < |started| reads this => started[k].id))
    }

    constructor (workDir: string)
      ensures Valid() && this.workDir == workDir && procs == map[] && Model() == ProcTable.New.table
    {
      this.workDir := workDir;
      procs, seqNo, started, entries := map[], 0, [], map[];
    }

    /**
     `launched` is what starting the command yields: its pid, or nothing. A failed start changes nothing; a successful
     one registers a new running process under the next id, and no other entry is touched.
     */
    method Start(req: StartRequest, launched: Option<int>, now: int) returns (r: Result<ProcView>)
      requires Valid()
      modifies this
      ensures Valid()
      ensures r.Err? <==> req.command == "" || launched == None
      ensures r.Err? ==> unchanged(this) && r.error == if req.command == "" then CommandRequired else LaunchFailed
      ensures r.Ok? ==> Model() == ProcTable.Put(old(Model())) && r.value.id == ProcTable.NextId(old(Model()))
      ensures r.Ok? ==>
                && r.value.id in procs
                && var p := procs[r.value.id];
                && fresh(p) && procs == old(procs)[r.value.id := p] && started == old(started) + [p]
                && r.value == p.CurrentView() == ProcView(r.value.id, req.command, req.args,
                     if req.dir != "" then req.dir else workDir, launched.value, Running, 0, now, None)
                && fresh(p.logs) && p.logs.Valid() && p.logs.Model() == Fresh(ProcTable.RING_MAX)
    {
      if req.command == "" {
        return Err(CommandRequired);
      }
      var dir := workDir;
      if req.dir != "" {
        dir := req.dir;
      }
      if launched == None {
        return Err(LaunchFailed);
      }
      var p := Register(req, dir, launched.value, now);
      var v := p.View();
      r := Ok(v);
    }

    /** The part of `Start` under the lock: the next id, and the process in the table. */
    method Register(req: StartRequest, dir: string, pid: int, now: int) returns (p: Process)
      requires Valid()
      modifies this
      ensures Valid() && Model() == ProcTable.Put(old(Model())) && p.id == ProcTable.NextId(old(Model()))
      ensures fresh(p) && procs == old(procs)[p.id := p] && started == old(started) + [p]
      ensures p.state == Running
      ensures p.CurrentView() == ProcView(p.id, req.command, req.args, dir, pid, Running, 0, now, None)
      ensures fresh(p.logs) && p.logs.Valid() && p.logs.Model() == Fresh(ProcTable.RING_MAX)
    {
      ProcTable.NextIsWrapped(|started|);
      var id := NextId();
      p := new Process(id, req, dir, pid, now);
      procs := procs[id := p];
      entries, started := entries[id := |started|], started + [p];
      assert Model().ids == old(Model()).ids + [id];
    }

    /** The counter is a 64-bit int, so it steps from its largest value to its smallest. */
    method NextId() returns (id: string)
      requires -TWO_63 <= seqNo < TWO_63
      modifies this`seqNo
      ensures seqNo == ProcTable.NextSeq(old(seqNo)) && id == ProcTable.NextId(old(Model()))
    {
      seqNo := if seqNo + 1 == TWO_63 then -TWO_63 else seqNo + 1;
      var digits := Itoa(seqNo);
      id := "p" + digits;
    }

    method Find(id: string) returns (r: Result<Process>)
      requires Valid()
      ensures r == match ProcTable.Lookup(Model(), id)
                   case Some(h) => Ok(started[h])
                   case None => Err(ErrNotFound)
      ensures r == if id in procs then Ok(procs[id]) else Err(ErrNotFound)
    {
      if id !in procs {
        return Err(ErrNotFound);
      }
      r := Ok(procs[id]);
    }

    /** One view per entry, in the map's arbitrary order. */
    method List() returns (out: seq<ProcView>, ghost order: seq<string>)
      requires Valid()
      ensures |out| == |order| == |procs|
      ensures forall i, j :: 0 <= i < j < |order| ==> order[i] != order[j]
      ensures forall i :: 0 <= i < |out| ==>
                order[i] in procs && out[i] == procs[order[i]].CurrentView() && out[i].id == order[i]
    {
      out, order := [], [];
      var rest := procs.Keys;
      while rest != {}
        invariant rest <= procs.Keys && |out| == |order| && |order| + |rest| == |procs.Keys|
        invariant forall i :: 0 <= i < |order| ==> order[i] in procs && order[i] !in rest
        invariant forall i, j :: 0 <= i < j < |order| ==> order[i] != order[j]
        invariant forall i :: 0 <= i < |out| ==> out[i] == procs[order[i]].CurrentView() && out[i].id == order[i]
        decreases rest
      {
        var id :| id in rest;
        var v := procs[id].View();
        out, order := out + [v], order + [id];
        rest := rest - {id};
      }
    }

    method Get(id: string) returns (r: Result<ProcView>)
      requires Valid()
      ensures r == if id in procs then Ok(procs[id].CurrentView()) else Err(ErrNotFound)
    {
      var found := Find(id);
      if found.Err? {
        return Err(found.error);
      }
      var v := found.value.View();
      r := Ok(v);
    }

    method Logs(id: string) returns (r: Result<array<LogLine>>)
      requires Valid() && (id in procs ==> procs[id].logs.Valid())
      ensures id !in procs ==> r == Err(ErrNotFound)
      ensures id in procs ==> r.Ok? && fresh(r.value) && r.value[..] == procs[id].logs.Model().lines
    {
      var found := Find(id);
      if found.Err? {
        return Err(found.error);
      }
      var lines := found.value.logs.Snapshot();
      r := Ok(lines);
    }

    method Subscribe(id: string) returns (r: Result<(array<LogLine>, Channel)>)
      requires Valid() && (id in procs ==> procs[id].logs.Valid())
      modifies if id in procs then {procs[id].logs} else {}
      ensures id !in procs ==> r == Err(ErrNotFound)
      ensures id in procs ==>
                var ring := procs[id].logs;
                && r.Ok? && ring.Valid() && ring.made == old(ring.made) + [r.value.1]
                && r.value.0[..] == old(ring.Model()).lines
                && ring.Model() == LogRing.Subscribe(old(ring.Model()))
    {
      var found := Find(id);
      if found.Err? {
        return Err(found.error);
      }
      var snap, ch := found.value.logs.Subscribe();
      r := Ok((snap, ch));
    }

    /** Signals the group only of a process that the view shows running; whether the signal works is the system's. */
    method Stop(id: string, killWorks: bool) returns (r: Result<()>, signalled: Option<int>)
      requires Valid()
      ensures signalled == if id in procs && procs[id].state == Running then Some(-procs[id].pid) else None
      ensures r == if id !in procs then Err(ErrNotFound)
                   else if signalled.Some? && !killWorks then Err(KillFailed)
                   else Ok(())
    {
      signalled := None;
      var found := Find(id);
      if found.Err? {
        return Err(found.error), None;
      }
      var v := found.value.View();
      if v.state != Running {
        return Ok(()), None;
      }
      signalled := Some(-found.value.pid);
      r := if killWorks then Ok(()) else Err(KillFailed);
    }

    /** Drops the entry whatever became of the signal; the process object itself is not touched. */
    method Remove(id: string, killWorks: bool) returns (r: Result<()>)
      requires Valid()
      modifies this`procs, this`entries
      ensures Valid() && procs == old(procs) - {id}
      ensures Model() == ProcTable.Drop(old(Model()), id)
      ensures r == if id in old(procs) then Ok(()) else Err(ErrNotFound)
    {
      var _, _ := Stop(id, killWorks);
      if id !in procs {
        assert entries - {id} == entries && procs - {id} == procs;
        return Err(ErrNotFound);
      }
      procs, entries := procs - {id}, entries - {id};
      r := Ok(());
    }
  }
}
