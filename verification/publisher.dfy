/** The publisher as it is written: methods over a file system they change step by step. A ghost trace records
    the machine's state after every system call, so each execution is a run of the machine. */
module Publishing {
  import opened Tree
  import opened Wrappers
  import opened Machine
  import opened Invariant
  import opened Runs
  import opened Vouching
  import opened Recovery
  import opened Progress
  import opened FileReading

  /** The trace of a publisher: a turn of calls alone, in which the clock shows `now`. */
  ghost predicate IsTrace(c: Config, states: seq<State>, events: seq<Event>, pid: nat, now: Instant) {
    IsTurn(c, states, events, pid) && OnlyCalls(events, pid) && ReadAt(states, events, pid, now)
  }

  lemma Append(c: Config, states: seq<State>, events: seq<Event>, pid: nat, now: Instant, ch: Choice)
    requires IsTrace(c, states, events, pid, now)
    requires var s := states[|events|]; Allowed(c, s, Call(pid, ch)) && (s.procs[pid].pc.Reading? ==> ch.now == now)
    ensures IsTrace(c, states + [Apply(c, states[|events|], Call(pid, ch))], events + [Call(pid, ch)], pid, now)
  {
    var e := Call(pid, ch);
    var states', events' := states + [Apply(c, states[|events|], e)], events + [e];
    forall i | 0 <= i < |events'|
      ensures Allowed(c, states'[i], events'[i]) && states'[i + 1] == Apply(c, states'[i], events'[i])
      ensures Shielded(states'[i], events'[i], pid) && ReadsAt(states'[i], events'[i], pid, now)
    {
      if i < |events| {
        assert states'[i] == states[i] && states'[i + 1] == states[i + 1] && events'[i] == events[i];
        assert ReadsAt(states[i], events[i], pid, now);
      }
    }
  }

  class Publisher {
    const c: Config
    const pid: nat
    const req: Request
    const clock: Instant
    var disk: Disk
    ghost var trace: seq<State>
    ghost var events: seq<Event>

    ghost predicate Valid()
      reads this
    {
      && IsTrace(c, trace, events, pid, clock)
      && Ready(trace[|events|], pid)
      && trace[|events|].procs[pid].req == req
      && (trace[|events|].procs[pid].pc.Waiting? ==> trace[|events|].lock == None)
      && trace[|events|].disk == disk
    }

    ghost function Pc(): Pc
      reads this
      requires Valid()
    {
      trace[|events|].procs[pid].pc
    }

    /** Takes over a machine state in which the process is waiting and the lock is free. */
    constructor (c: Config, ghost s: State, pid: nat, req: Request, disk: Disk, clock: Instant)
      requires pid in s.procs && s.procs[pid] == Proc(req, Waiting) && s.lock == None && s.disk == disk
      ensures Valid() && this.c == c && this.pid == pid && this.req == req && this.disk == disk && this.clock == clock
      ensures trace == [s] && events == []
    {
      this.c, this.pid, this.req, this.disk, this.clock := c, pid, req, disk, clock;
      trace, events := [s], [];
    }

    /** One system call: the machine moves by the same call, and the disk becomes `after`. */
    method System(after: Disk, ghost ch: Choice)
      requires Valid() && Enabled(disk, req, Pc(), ch) && after == Next(c, disk, req, Pc(), ch).0
      requires Pc().Reading? ==> ch.now == clock
      modifies this
      ensures Valid() && trace[0] == old(trace[0])
      ensures disk == after && Pc() == Next(c, old(disk), req, old(Pc()), ch).1
    {
      ghost var s := trace[|events|];
      ghost var was := trace;
      Append(c, trace, events, pid, clock, ch);
      trace := trace + [Apply(c, s, Call(pid, ch))];
      events := events + [Call(pid, ch)];
      disk := after;
      assert trace[0] == was[0];
    }

    /** `_read_private_file`: the file must have mode 0600, an admitted number of names, and at most 64 MiB. While the
        lock is held the size seen before and the contents agree. */
    method ReadPrivateFile(p: Path, links: set<nat>) returns (payload: Option<Bytes>)
      requires Valid()
      ensures payload.Some? <==>
        && p in disk.names && disk.names[p] in disk.inodes
        && disk.inodes[disk.names[p]].mode == 0x180 && |disk.inodes[disk.names[p]].data| <= 67108864
        && |set q | q in disk.names && disk.names[q] == disk.names[p]| in links
      ensures payload.Some? ==> payload.value == disk.inodes[disk.names[p]].data
      ensures payload == if disk.Readable(p, links) then Some(disk.Data(p)) else None
    {
      if p !in disk.names || disk.names[p] !in disk.inodes { return None; }
      var file := disk.inodes[disk.names[p]];
      if file.mode != FILE_MODE || disk.Links(disk.names[p]) !in links { return None; }
      payload := ReadBounded(file.data, |file.data|);
    }

    /** `_remove_orphan_staging`: entries come in any order. */
    method RemoveOrphanStaging(w: Work) returns (ok: bool)
      requires Valid() && Pc() == Sweeping(w, Sweep(disk.Entries(Home(TargetOf(req, w))), false))
      modifies this
      ensures Valid() && trace[0] == old(trace[0])
      ensures Pc() == if ok then Sweeping(w, Create) else Leaving(Some(Internal))
    {
      var t := TargetOf(req, w);
      var todo, removed := disk.Entries(Home(t)), false;
      while todo != {}
        invariant Valid() && trace[0] == old(trace[0])
        invariant Pc() == Sweeping(w, Sweep(todo, removed))
        decreases |todo|
      {
        var candidate :| candidate in todo;
        ghost var ch := Choice(0, candidate, "", 0, 0);
        ghost var before := todo;
        todo := todo - {candidate};
        assert |todo| < |before|;
        if !(candidate.Stage? && candidate.target == t) {
          System(disk, ch);
        } else if candidate in disk.names && disk.names[candidate] in disk.inodes
                  && disk.inodes[disk.names[candidate]].mode == FILE_MODE && disk.Links(disk.names[candidate]) == 1 {
          System(disk.Unlink(candidate), ch);
          removed := true;
        } else {
          System(disk, ch);
          return false;
        }
      }
      System(disk, Choice(0, ManifestPath(req.key), "", 0, 0));
      if removed {
        System(disk.SyncDirectory(Home(t)), Choice(0, ManifestPath(req.key), "", 0, 0));
      }
      ok := true;
    }

    /** The write loop of `_publish_new`: each write takes some of the remaining view, at least one byte. */
    method WriteAll(w: Work, token: string, ino: nat)
      requires Valid() && Pc() == Staging(w, token, ino, Write(0)) && ino in disk.inodes && disk.inodes[ino].data == []
      modifies this
      ensures Valid() && trace[0] == old(trace[0])
      ensures Pc() == Staging(w, token, ino, SyncFile)
      ensures disk == old(disk).(inodes := disk.inodes) && disk.inodes.Keys == old(disk).inodes.Keys
      ensures disk.inodes[ino].data == w.payload
      ensures forall i :: i in disk.inodes && i != ino ==> disk.inodes[i] == old(disk).inodes[i]
    {
      var sent := 0;
      while sent < |w.payload|
        invariant 0 <= sent <= |w.payload|
        invariant Valid() && trace[0] == old(trace[0])
        invariant Pc() == Staging(w, token, ino, Write(sent))
        invariant disk == old(disk).(inodes := disk.inodes) && disk.inodes.Keys == old(disk).inodes.Keys
        invariant ino in disk.inodes && disk.inodes[ino].data == w.payload[..sent]
        invariant forall i :: i in disk.inodes && i != ino ==> disk.inodes[i] == old(disk).inodes[i]
      {
        var view := w.payload[sent..];
        var written :| 1 <= written <= |view|;
        assert view[..written] == w.payload[sent..sent + written];
        assert w.payload[..sent + written] == w.payload[..sent] + view[..written];
        System(disk.Append(ino, view[..written]), Choice(0, ManifestPath(req.key), "", 0, written));
        sent := sent + written;
      }
      assert w.payload[..sent] == w.payload;
      System(disk, Choice(0, ManifestPath(req.key), "", 0, 0));
    }

    /** `_publish_new` up to the fsync of the staging file. */
    method StageFile(w: Work) returns (ok: bool, token: string, ino: nat)
      requires Valid() && Pc() == Sweeping(w, Create)
      modifies this
      ensures Valid() && trace[0] == old(trace[0])
      ensures if ok then Pc() == Staging(w, token, ino, Link) && ino in disk.inodes else Pc() == Leaving(Some(Internal))
    {
      ghost var any := Choice(0, ManifestPath(req.key), "", 0, 0);
      token := *;
      FreshExists(disk.inodes.Keys);
      ino :| ino !in disk.inodes.Keys;
      var stage := Stage(TargetOf(req, w), token);
      if stage in disk.names {
        System(disk, Choice(0, ManifestPath(req.key), token, ino, 0));
        return false, token, ino;
      }
      System(disk.Create(stage, ino, c.createMode), Choice(0, ManifestPath(req.key), token, ino, 0));
      System(disk.Chmod(ino, FILE_MODE), any);
      WriteAll(w, token, ino);
      System(disk.SyncFile(ino), any);
      ok := true;
    }

    /** `_publish_new`, the link. */
    method LinkFinal(w: Work, token: string, ino: nat) returns (ok: bool)
      requires Valid() && Pc() == Staging(w, token, ino, Link) && ino in disk.inodes
      modifies this
      ensures Valid() && trace[0] == old(trace[0])
      ensures Pc() == Closing(w, token, ino, if ok then SyncLink else Clean(false))
    {
      var final := Final(TargetOf(req, w));
      ghost var any := Choice(0, ManifestPath(req.key), "", 0, 0);
      ok := final !in disk.names;
      System(if ok then disk.Link(ino, final) else disk, any);
    }

    /** `_publish_new` from the comparison of the linked file to the last check. */
    method Unstage(w: Work, token: string, ino: nat) returns (ok: bool)
      requires Valid() && Pc() == Closing(w, token, ino, SyncLink)
      modifies this
      ensures Valid() && trace[0] == old(trace[0])
      ensures Pc() == Closing(w, token, ino, Clean(ok))
    {
      var t := TargetOf(req, w);
      ghost var any := Choice(0, ManifestPath(req.key), "", 0, 0);
      if !(Final(t) in disk.names && disk.names[Final(t)] == ino) {
        System(disk, any);
        return false;
      }
      System(disk.SyncDirectory(Home(t)), any);
      if Stage(t, token) !in disk.names {
        System(disk, any);
        return false;
      }
      System(disk.Unlink(Stage(t, token)), any);
      System(disk.SyncDirectory(Home(t)), any);
      ok := disk.Links(ino) == 1 && Final(t) in disk.names && disk.names[Final(t)] == ino;
      System(disk, any);
    }

    /** The `finally` of `_publish_new`: unlink the staging name if it is still there, and sync. */
    method CleanUp(w: Work, token: string, ino: nat, ok: bool)
      requires Valid() && Pc() == Closing(w, token, ino, Clean(ok))
      modifies this
      ensures Valid() && trace[0] == old(trace[0])
      ensures Pc() == if ok then Finish(c, req, w, w.payload) else Leaving(Some(Internal))
    {
      ghost var any := Choice(0, ManifestPath(req.key), "", 0, 0);
      System(disk.Unlink(Stage(TargetOf(req, w), token)), any);
      System(disk.SyncDirectory(Home(TargetOf(req, w))), any);
    }

    /** `_publish_new`, with its clean-up on every way out once the staging file exists. */
    method PublishNew(w: Work) returns (ok: bool)
      requires Valid() && Pc() == Sweeping(w, Sweep(disk.Entries(Home(TargetOf(req, w))), false))
      modifies this
      ensures Valid() && trace[0] == old(trace[0])
      ensures Pc() == if ok then Finish(c, req, w, w.payload) else Leaving(Some(Internal))
    {
      ok := RemoveOrphanStaging(w);
      if !ok { return; }
      var token, ino;
      ok, token, ino := StageFile(w);
      if !ok { return; }
      ok := LinkFinal(w, token, ino);
      if ok { ok := Unstage(w, token, ino); }
      CleanUp(w, token, ino, ok);
    }

    /** `_repair_stage_alias`. */
    method RepairStageAlias(w: Work, existing: Bytes) returns (ok: bool)
      requires Valid() && Pc() == Repairing(w, existing, Inspect)
      modifies this
      ensures Valid() && trace[0] == old(trace[0])
      ensures Pc() == if ok then Finish(c, req, w, existing) else Leaving(Some(Internal))
    {
      var t := TargetOf(req, w);
      var manifest := ManifestPath(req.key);
      ghost var any := Choice(0, manifest, "", 0, 0);
      var matches := Aliases(disk, t);
      var match0 := manifest;
      if |matches| == 1 {
        match0 :| match0 in matches;
      }
      ghost var chosen := Choice(0, match0, "", 0, 0);
      if Final(t) !in disk.names {
        System(disk, chosen);
        return false;
      }
      if disk.Links(disk.names[Final(t)]) == 2 {
        System(disk, chosen);
        if |matches| != 1 {
          return false;
        }
        System(disk.Unlink(match0), any);
        System(disk.SyncDirectory(Home(t)), any);
      } else {
        System(disk, chosen);
      }
      ok := Final(t) in disk.names && disk.Links(disk.names[Final(t)]) == 1;
      System(disk, any);
    }

    /** `_publish_receipt` and `_publish_exact`, which differ in `Matches`: the bytes now published, if any. */
    method PublishFile(w: Work) returns (published: Option<Bytes>)
      requires Valid() && Pc() == Examine(w)
      modifies this
      ensures Valid() && trace[0] == old(trace[0])
      ensures match published
        case Some(bytes) => Pc() == Finish(c, req, w, bytes)
        case None => Pc().Leaving? && Pc().fault != None
    {
      var final := Final(TargetOf(req, w));
      ghost var any := Choice(0, ManifestPath(req.key), "", 0, 0);
      published := None;
      var absent := final !in disk.names;
      var existing := ReadPrivateFile(final, {1, 2});
      System(disk, any);
      if absent {
        var ok := PublishNew(w);
        if ok { published := Some(w.payload); }
      } else if existing.Some? && Matches(c, req, w, existing.value) {
        var ok := RepairStageAlias(w, existing.value);
        if ok { published := existing; }
      }
    }

    /** The body of `publish_execution_incident`: lock, manifest, receipt, pointer, unlock. */
    method PublishBoth() returns (ok: bool)
      requires Valid() && Pc().Waiting?
      modifies this
      ensures Valid() && trace[0] == old(trace[0]) && Pc().Exited? && (ok <==> Pc().fault == None)
    {
      var manifest := ManifestPath(req.key);
      ghost var any := Choice(clock, manifest, "", 0, 0);
      ok := false;
      System(disk, any);
      var payload := ReadPrivateFile(manifest, {1});
      System(disk, any);
      if payload.Some? {
        var receipt := PublishFile(Work(Receipt, c.receipt(req, payload.value, clock), payload.value));
        if receipt.Some? {
          var pointer := PublishFile(Work(Pointer, c.pointer(req.key, receipt.value), payload.value));
          ok := pointer.Some?;
        }
      }
      System(disk, any);
    }

    /** `publish_execution_incident`, from any safe state: it succeeds exactly when the manifest is readable, a receipt
        already there is acceptable and a pointer already there is the one it would publish. It then leaves both files
        with one link, the pointer naming the hash of the receipt's bytes, and no staging name where they were tidy.
        An unacceptable request changes nothing; a pointer that does not fit is found only after the receipt has been
        published. A file it has got past is durable unless it had, at the start, one link and no synced entry. */
    method Publish() returns (ok: bool)
      requires Valid() && events == [] && Starts(c, trace[0], pid)
      requires Lawful(c) && c.createMode == FILE_MODE
      modifies this
      ensures Valid() && trace[0] == old(trace[0]) && Pc().Exited? && (ok <==> Pc().fault == None)
      ensures Result(c, old(disk), clock, disk, {}, req, Pc().fault)
      ensures ok <==> Succeeds(c, old(disk), req, clock)
      ensures !Acceptable(c, old(disk), req) ==> disk == old(disk)
      ensures forall kind: Kind :: Acceptable(c, old(disk), req) && (kind.Pointer? ==> ok) ==>
        var t := Target(kind, req.key);
        && (TidyAt(old(disk), t) ==> NoStage(disk, t))
        && (Final(t) in disk.durable <==>
            !(Final(t) in old(disk).names && old(disk).Links(old(disk).names[Final(t)]) == 1 && Final(t) !in old(disk).durable))
      ensures Completed(c, old(disk), req) ==> ok && disk == old(disk)
      ensures ok ==> ManifestInOrder(old(disk), req.key)
      ensures !ManifestInOrder(old(disk), req.key) ==> disk == old(disk)
    {
      ghost var d0 := disk;
      ok := PublishBoth();
      NoBacks(events, pid);
      RerunOutcome(c, trace, events, pid, clock);
      ManifestDecides(c, trace, events, pid, clock);
      Unchanged(d0, disk);
      forall kind: Kind | Acceptable(c, d0, req) && (kind.Pointer? ==> ok)
        ensures var t := Target(kind, req.key);
          && (TidyAt(d0, t) ==> NoStage(disk, t))
          && (Final(t) in disk.durable <==>
              !(Final(t) in d0.names && d0.Links(d0.names[Final(t)]) == 1 && Final(t) !in d0.durable))
      {
        RerunAnchors(c, trace, events, pid, clock, kind);
        if TidyAt(d0, Target(kind, req.key)) { RerunCleansUp(c, trace, events, pid, clock, kind); }
      }
      if Completed(c, d0, req) {
        CompletedRerunChangesNothing(c, trace, events, pid, clock, |events|);
        assert events[..|events|] == events;
      }
    }
  }

  /** Without write-backs, nothing changed means the same disk. */
  lemma Unchanged(d0: Disk, d: Disk)
    ensures Same(d0, d, {}) ==> d == d0
  {
    if Same(d0, d, {}) {
      assert forall p :: Entry(d.durable, p) == Entry(d0.durable, p);
      assert forall p :: p in d.durable <==> Entry(d.durable, p).Some?;
      assert forall p :: p in d0.durable <==> Entry(d0.durable, p).Some?;
      assert d.durable == d0.durable;
    }
  }
}
