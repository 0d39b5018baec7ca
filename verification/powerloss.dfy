/** Recovery after interrupted runs, and exactly what a power loss can take. */
module PowerLoss {
  import opened Tree
  import opened Wrappers
  import opened Machine
  import opened Invariant
  import opened Runs
  import opened Vouching
  import opened Recovery
  import opened Progress

  lemma FitsWhenMatching(c: Config, d: Disk, req: Request, now: Instant)
    requires Acceptable(c, d, req) && PointerOk(c, d, req.key)
    ensures PointerFits(c, d, req, now)
  {
  }

  /** After any run at all, a turn of the same request (same manifest, any time) succeeds exactly when a pointer that is
      there is the one it would publish; and that is so whenever there was no power loss, or no process of this
      incident was killed inside its receipt's repair. */
  lemma CrashedRunsRecover(c: Config, states: seq<State>, events: seq<Event>,
                           turn: seq<State>, its: seq<Event>, pid: nat, now: Instant)
    requires Lawful(c) && c.createMode == FILE_MODE && IsRun(c, states, events)
    requires Ends(c, turn, its, pid, now) && turn[0] == states[|events|]
    requires var d, req := turn[0].disk, turn[0].procs[pid].req;
      var r := Final(Target(Receipt, req.key));
      && d.Readable(ManifestPath(req.key), {1})
      && (r in d.names && d.names[r] in d.inodes ==> IsReceiptOf(c, req, d.Data(ManifestPath(req.key)), d.Data(r)))
    ensures var d0, d, req, fault := turn[0].disk, turn[|its|].disk, turn[0].procs[pid].req, turn[|its|].procs[pid].pc.fault;
      var r, p := Target(Receipt, req.key), Target(Pointer, req.key);
      && (fault == None <==> PointerFits(c, d0, req, now))
      && (NoOutage(events) || NoRepairKilled(states, events, req.key) ==> fault == None)
      && (fault == None ==> PointerMatches(c, d, req.key) && d.Links(d.names[Final(r)]) == 1 && d.Links(d.names[Final(p)]) == 1)
      && (NoOutage(events) ==> NoStage(d, r) && NoStage(d, p))
  {
    var d, req := turn[0].disk, turn[0].procs[pid].req;
    assert Acceptable(c, d, req);
    RerunOutcome(c, turn, its, pid, now);
    if NoOutage(events) {
      KillsKeepOrder(c, states, events, |events|);
      assert PointerOk(c, d, req.key) && TidyAt(d, Target(Receipt, req.key)) && TidyAt(d, Target(Pointer, req.key));
      FitsWhenMatching(c, d, req, now);
      RerunCleansUp(c, turn, its, pid, now, Receipt);
      RerunCleansUp(c, turn, its, pid, now, Pointer);
    } else if NoRepairKilled(states, events, req.key) {
      PowerLossKeepsReceipts(c, states, events, |events|, req.key);
      FitsWhenMatching(c, d, req, now);
    }
  }

  // ---- reaching states ----

  ghost predicate Reachable(c: Config, s: State) {
    exists states: seq<State>, events: seq<Event> :: IsRun(c, states, events) && states[|events|] == s
  }

  lemma ReachStep(c: Config, s: State, e: Event)
    requires Reachable(c, s) && Allowed(c, s, e)
    ensures Reachable(c, Apply(c, s, e))
  {
    var states: seq<State>, events: seq<Event> :| IsRun(c, states, events) && states[|events|] == s;
    var states', events' := states + [Apply(c, s, e)], events + [e];
    forall i | 0 <= i < |events'|
      ensures Allowed(c, states'[i], events'[i]) && states'[i + 1] == Apply(c, states'[i], events'[i])
    {
      if i < |events| { assert states'[i] == states[i] && states'[i + 1] == states[i + 1] && events'[i] == events[i]; }
    }
    assert IsRun(c, states', events');
    assert states'[|events'|] == Apply(c, s, e);
  }

  /** One process alone on the machine. */
  ghost function Alone(req: Request, pc: Pc, d: Disk): State {
    State(if Holding(pc) then Some(0) else None, map[0 := Proc(req, pc)], d)
  }

  lemma CallAlone(c: Config, req: Request, pc: Pc, d: Disk, ch: Choice)
    requires Reachable(c, Alone(req, pc, d)) && Enabled(d, req, pc, ch)
    ensures var (d', pc') := Next(c, d, req, pc, ch); Reachable(c, Alone(req, pc', d'))
  {
    var (d', pc') := Next(c, d, req, pc, ch);
    ReachStep(c, Alone(req, pc, d), Call(0, ch));
    assert Apply(c, Alone(req, pc, d), Call(0, ch)) == Alone(req, pc', d');
  }

  /** A new process gets as far as looking for the receipt. */
  lemma ReachExamine(c: Config, req: Request, w: Work, d: Disk, s: State)
    requires c.admits(req) && s == State(None, map[], d) && Reachable(c, s)
    requires d.Readable(ManifestPath(req.key), {1}) && w.manifest == d.Data(ManifestPath(req.key))
    requires w == Work(Receipt, c.receipt(req, w.manifest, 0), w.manifest)
    ensures Reachable(c, Alone(req, Examine(w), d))
  {
    var any := Choice(0, ManifestPath(req.key), "", 1, 0);
    ReachStep(c, s, Spawn(0, req));
    assert Apply(c, s, Spawn(0, req)) == Alone(req, Waiting, d);
    CallAlone(c, req, Waiting, d, any);
    CallAlone(c, req, Reading, d, any);
  }

  /** A publisher that finds neither the receipt nor anything to sweep creates its staging file. */
  lemma CreateAlone(c: Config, req: Request, w: Work, d: Disk, ch: Choice)
    requires w.kind.Receipt? && ch.ino !in d.inodes && Reachable(c, Alone(req, Examine(w), d))
    requires Final(Target(Receipt, req.key)) !in d.names && d.Entries(Home(Target(Receipt, req.key))) == {}
    ensures Reachable(c, Alone(req, Staging(w, ch.token, ch.ino, Chmod),
                               d.Create(Stage(Target(Receipt, req.key), ch.token), ch.ino, c.createMode)))
  {
    var p := Stage(Target(Receipt, req.key), ch.token);
    CallAlone(c, req, Examine(w), d, ch);
    CallAlone(c, req, Sweeping(w, Sweep({}, false)), d, ch);
    assert p in d.names ==> p in d.Entries(DirectoryOf(p));
    CallAlone(c, req, Sweeping(w, SweepStep.Create), d, ch);
  }

  lemma KilledAlone(c: Config, req: Request, pc: Pc, d: Disk) returns (s: State)
    requires Reachable(c, Alone(req, pc, d))
    ensures Reachable(c, s) && s == State(None, map[], d)
  {
    ReachStep(c, Alone(req, pc, d), Kill(0));
    s := Apply(c, Alone(req, pc, d), Kill(0));
  }

  lemma FirstState(c: Config, d: Disk)
    requires forall p :: p in d.names ==> p.Other? && d.names[p] in d.inodes
    requires forall p :: p in d.durable ==> p.Other? && d.durable[p] in d.inodes
    ensures Reachable(c, State(None, map[], d))
  {
    var s, none: seq<Event> := State(None, map[], d), [];
    assert IsRun(c, [s], none) && [s][|none|] == s;
  }

  lemma {:induction false} ReachTurn(c: Config, states: seq<State>, events: seq<Event>, pid: nat, i: nat)
    requires IsTurn(c, states, events, pid) && Reachable(c, states[0]) && i < |states|
    ensures Reachable(c, states[i])
  {
    if i > 0 {
      ReachTurn(c, states, events, pid, i - 1);
      ReachStep(c, states[i - 1], events[i - 1]);
    }
  }

  lemma ReachableIsSafe(c: Config, s: State)
    requires Lawful(c) && Reachable(c, s)
    ensures Safe(c, s) && AllVouched(c, s)
  {
    var states: seq<State>, events: seq<Event> :| IsRun(c, states, events) && states[|events|] == s;
    EveryRunIsSafe(c, states, events, |events|);
    EveryRunIsVouched(c, states, events, |events|);
  }

  /** A process that is working on a file is killed: its request is still acceptable, and the lock is free. */
  lemma KilledAtWork(c: Config, s: State, pid: nat) returns (s': State)
    requires Lawful(c) && Reachable(c, s) && pid in s.procs && Working(s.procs[pid].pc)
    requires s.procs[pid].pc.Examine? ==> s.procs[pid].pc.w.kind.Pointer?
    ensures Reachable(c, s') && s'.lock == None && s'.disk == s.disk && Acceptable(c, s'.disk, s.procs[pid].req)
    ensures s' == Apply(c, s, Kill(pid))
  {
    ReachableIsSafe(c, s);
    WorkingIsAcceptable(c, s.disk, s.procs[pid].req, s.procs[pid].pc);
    ReachStep(c, s, Kill(pid));
    s' := Apply(c, s, Kill(pid));
  }

  /** A reachable state with the lock free, in which the request is acceptable. */
  ghost predicate Open(c: Config, s: State, req: Request) {
    Reachable(c, s) && s.lock == None && Acceptable(c, s.disk, req)
  }

  /** And its pointer is not published yet. */
  ghost predicate Idle(c: Config, s: State, req: Request) {
    Open(c, s, req) && Final(Target(Pointer, req.key)) !in s.disk.names
  }

  /** A new process runs the request to its end by calls alone. */
  lemma FreshTurn(c: Config, s: State, req: Request) returns (states: seq<State>, events: seq<Event>, pid: nat, now: Instant)
    requires Lawful(c) && c.createMode == FILE_MODE && c.admits(req) && Open(c, s, req)
    ensures Ends(c, states, events, pid, now) && OnlyCalls(events, pid) && Reachable(c, states[0])
    ensures states[0].disk == s.disk && states[0].procs[pid].req == req
  {
    pid := Fresh(s.procs.Keys);
    var s0 := Apply(c, s, Spawn(pid, req));
    ReachableIsSafe(c, s);
    SafeStep(c, s, Spawn(pid, req));
    ReachStep(c, s, Spawn(pid, req));
    states, events := RunsEnd(c, s0, pid);
    now := TheTime(c, states, events, pid);
  }

  lemma {:induction false} FirstBound(states: seq<State>, p: Path, n: nat) returns (i: nat)
    requires n < |states| && p !in states[0].disk.names && p in states[n].disk.names
    ensures i < n && p !in states[i].disk.names && p in states[i + 1].disk.names
  {
    if p in states[n - 1].disk.names { i := FirstBound(states, p, n - 1); } else { i := n - 1; }
  }

  lemma {:induction false} FirstDurable(states: seq<State>, p: Path, n: nat) returns (i: nat)
    requires n < |states| && p !in states[0].disk.durable && p in states[n].disk.durable
    ensures i < n && p !in states[i].disk.durable && p in states[i + 1].disk.durable
  {
    if p in states[n - 1].disk.durable { i := FirstDurable(states, p, n - 1); } else { i := n - 1; }
  }

  /** The call that binds the receipt is the link: it leaves two names, none of them durable. */
  lemma LinkingCall(c: Config, d: Disk, req: Request, pc: Pc, ch: Choice)
    requires DiskOk(c, d) && PcOk(c, d, req, pc) && Enabled(d, req, pc, ch)
    requires var r := Final(Target(Receipt, req.key)); r !in d.names && r in Next(c, d, req, pc, ch).0.names
    ensures pc.Staging? && pc.stage.Link? && pc.w.kind.Receipt? && WorkOk(c, d, req, pc.w)
    ensures var r, d' := Target(Receipt, req.key), Next(c, d, req, pc, ch).0;
      && d'.names == d.names[Final(r) := pc.ino] && d'.inodes == d.inodes && d'.durable == d.durable
      && Stage(r, pc.token) in d.names && d.names[Stage(r, pc.token)] == pc.ino
      && pc.ino in d.inodes && d.inodes[pc.ino].data == pc.w.payload
      && !Single(d', r) && Final(r) !in d'.durable
  {
    NextFrame(c, d, req, pc, ch);
    assert Linking(req, pc) == Some(Target(Receipt, req.key));
    assert Stage(Target(Receipt, req.key), pc.token) in d.names;
  }

  lemma CallAt(c: Config, states: seq<State>, events: seq<Event>, pid: nat, now: Instant, i: nat) returns (ch: Choice)
    requires Lawful(c) && c.createMode == FILE_MODE && Ends(c, states, events, pid, now) && OnlyCalls(events, pid) && i < |events|
    ensures events[i] == Call(pid, ch)
    ensures pid in states[i].procs && states[i].procs[pid].req == states[0].procs[pid].req
    ensures var d, p := states[i].disk, states[i].procs[pid];
      && DiskOk(c, d) && PcOk(c, d, p.req, p.pc) && Enabled(d, p.req, p.pc, ch)
      && TurnOk(c, states[0].disk, now, d, p.req, p.pc)
      && pid in states[i + 1].procs && states[i + 1].procs[pid] == p.(pc := Next(c, d, p.req, p.pc, ch).1)
      && states[i + 1].disk == Next(c, d, p.req, p.pc, ch).0
  {
    assert events[i] in events;
    ch := events[i].ch;
    TurnStates(c, states, events, pid, now, i);
  }

  /** Kill the publisher right after it links the receipt: two links, not durable. */
  lemma KilledAfterLink(c: Config, s: State, req: Request) returns (s': State)
    requires Lawful(c) && c.createMode == FILE_MODE && c.admits(req) && Idle(c, s, req)
    requires Final(Target(Receipt, req.key)) !in s.disk.names
    ensures Idle(c, s', req)
    ensures var r := Target(Receipt, req.key);
      Final(r) in s'.disk.names && !Single(s'.disk, r) && Final(r) !in s'.disk.durable
    ensures OthersDurable(s.disk) ==> OthersDurable(s'.disk)
  {
    var r := Target(Receipt, req.key);
    var states, events, pid, now := FreshTurn(c, s, req);
    RerunOutcome(c, states, events, pid, now);
    var i := FirstBound(states, Final(r), |events|);
    if OthersDurable(s.disk) { OthersStayDurable(c, states, events, pid, now, i + 1); }
    var ch := CallAt(c, states, events, pid, now, i);
    LinkingCall(c, states[i].disk, req, states[i].procs[pid].pc, ch);
    ReachTurn(c, states, events, pid, i + 1);
    s' := KilledAtWork(c, states[i + 1], pid);
  }

  // ---- the manifest's own entry ----

  /** The entries of files the publisher does not own are durable as they stand. */
  ghost predicate OthersDurable(d: Disk) {
    forall p: Path :: p.Other? ==> Entry(d.durable, p) == Entry(d.names, p)
  }

  lemma OthersDurableCall(c: Config, d: Disk, req: Request, pc: Pc, ch: Choice)
    requires DiskOk(c, d) && PcOk(c, d, req, pc) && Enabled(d, req, pc, ch) && OthersDurable(d)
    ensures OthersDurable(Next(c, d, req, pc, ch).0)
  {
    NextFrame(c, d, req, pc, ch);
    var d' := Next(c, d, req, pc, ch).0;
    forall p: Path | p.Other? ensures Entry(d'.durable, p) == Entry(d'.names, p) {
      assert Entry(d'.names, p) == Entry(d.names, p);
      OtherEntry(c, d, req, pc, ch, p);
    }
  }

  /** A call leaves the durable entries alone or syncs one directory. */
  ghost predicate SyncsOne(d: Disk, d': Disk, dir: Directory) {
    d'.durable == d.durable || d'.durable == d.SyncDirectory(dir).durable
  }

  lemma SweepingSyncsOne(c: Config, d: Disk, t: Target, w: Work, step: SweepStep, ch: Choice)
    requires step.Sweep? && step.todo != {} ==> ch.pick in step.todo
    requires step.Create? ==> ch.ino !in d.inodes
    ensures SyncsOne(d, NextSweeping(c, d, t, w, step, ch).0, Home(t))
  {
  }

  lemma ClosingSyncsOne(c: Config, d: Disk, req: Request, w: Work, token: string, ino: nat, step: CloseStep)
    ensures SyncsOne(d, NextClosing(c, d, req, w, token, ino, step).0, Home(TargetOf(req, w)))
  {
  }

  lemma RepairingSyncsOne(c: Config, d: Disk, req: Request, w: Work, existing: Bytes, step: RepairStep, ch: Choice)
    requires Enabled(d, req, Repairing(w, existing, step), ch)
    ensures SyncsOne(d, NextRepairing(c, d, req, w, existing, step, ch).0, Home(TargetOf(req, w)))
  {
  }

  lemma OtherEntry(c: Config, d: Disk, req: Request, pc: Pc, ch: Choice, p: Path)
    requires Enabled(d, req, pc, ch) && p.Other?
    ensures var d' := Next(c, d, req, pc, ch).0;
      Entry(d'.durable, p) == Entry(d.durable, p) || Entry(d'.durable, p) == Entry(d.names, p)
  {
    match pc
    case Sweeping(w, step) => SweepingSyncsOne(c, d, TargetOf(req, w), w, step, ch);
    case Closing(w, token, ino, step) => ClosingSyncsOne(c, d, req, w, token, ino, step);
    case Repairing(w, existing, step) => RepairingSyncsOne(c, d, req, w, existing, step, ch);
    case _ =>
  }

  lemma {:induction false} OthersStayDurable(c: Config, states: seq<State>, events: seq<Event>, pid: nat, now: Instant, i: nat)
    requires Lawful(c) && c.createMode == FILE_MODE && Ends(c, states, events, pid, now) && i < |states|
    requires OthersDurable(states[0].disk)
    ensures OthersDurable(states[i].disk)
  {
    if i > 0 {
      OthersStayDurable(c, states, events, pid, now, i - 1);
      TurnIsSafe(c, states, events, pid, now, i - 1);
      var s, e := states[i - 1], events[i - 1];
      if e.Call? && e.pid == pid {
        OthersDurableCall(c, s.disk, s.procs[pid].req, s.procs[pid].pc, e.ch);
      } else {
        OtherEvent(c, s, e, pid);
      }
    }
  }

  lemma ReadableAfterPowerFails(c: Config, d: Disk, p: Path)
    requires DiskOk(c, d) && OthersDurable(d) && p.Other? && d.Readable(p, {1})
    ensures d.(names := d.durable).Readable(p, {1})
  {
    var left, ino := d.(names := d.durable), d.names[p];
    assert Entry(d.durable, p) == Entry(d.names, p);
    assert d.At(p, ino);
    forall q ensures q in d.durable && d.durable[q] == ino <==> q in d.names && d.names[q] == ino {
      if q.Other? { assert Entry(d.durable, q) == Entry(d.names, q); }
      if d.At(q, ino) { assert q == p || Related(q, p); }
    }
    assert (set q | q in d.durable && d.durable[q] == ino) == (set q | q in d.names && d.names[q] == ino);
  }

  // ---- the kill that a power loss does not forgive ----

  /** Let the next publisher repair, and kill it between the unlink of the alias and the sync. */
  lemma KilledInsideRepair(c: Config, s: State, req: Request) returns (s': State)
    requires Lawful(c) && c.createMode == FILE_MODE && c.admits(req) && Idle(c, s, req)
    requires var r := Target(Receipt, req.key);
      Final(r) in s.disk.names && !Single(s.disk, r) && Final(r) !in s.disk.durable
    ensures Idle(c, s', req) && Unanchored(s'.disk, Target(Receipt, req.key))
    ensures OthersDurable(s.disk) ==> OthersDurable(s'.disk)
  {
    var r := Target(Receipt, req.key);
    var states, events, pid, now := FreshTurn(c, s, req);
    ReachableIsSafe(c, s);
    LinksOfFinal(c, s.disk, r);
    RerunAnchors(c, states, events, pid, now, Receipt);
    var i := FirstDurable(states, Final(r), |events|);
    if OthersDurable(s.disk) { OthersStayDurable(c, states, events, pid, now, i); }
    var ch := CallAt(c, states, events, pid, now, i);
    SyncIsRepair(c, states[0].disk, now, states[i].disk, req, states[i].procs[pid].pc, ch);
    ReachTurn(c, states, events, pid, i);
    s' := KilledAtWork(c, states[i], pid);
  }

  /** When the receipt was already linked at the start, the call that makes it durable is the repair's sync. */
  lemma SyncIsRepair(c: Config, d0: Disk, now: Instant, d: Disk, req: Request, pc: Pc, ch: Choice)
    requires DiskOk(c, d) && PcOk(c, d, req, pc) && Enabled(d, req, pc, ch) && TurnOk(c, d0, now, d, req, pc)
    requires var r := Final(Target(Receipt, req.key));
      r in d0.names && r !in d.durable && r in Next(c, d, req, pc, ch).0.durable
    ensures pc.Repairing? && pc.repair.DetachSync? && pc.w.kind.Receipt?
  {
  }

  /** Whenever a kill has left a receipt with one link and no durable entry, the next successful run makes a
      durable pointer to it, and a power loss then leaves the pointer without its receipt. */
  lemma UnanchoredReceiptIsLost(c: Config, s: State, req: Request) returns (s': State)
    requires Lawful(c) && c.createMode == FILE_MODE && c.admits(req) && Idle(c, s, req)
    requires Unanchored(s.disk, Target(Receipt, req.key))
    ensures Reachable(c, s')
    ensures Final(Target(Pointer, req.key)) in s'.disk.durable && Final(Target(Pointer, req.key)) in s'.disk.names
    ensures Final(Target(Receipt, req.key)) !in s'.disk.durable && Final(Target(Receipt, req.key)) !in s'.disk.names
    ensures OthersDurable(s.disk) ==> Open(c, s', req)
  {
    var states, events, pid, now := FreshTurn(c, s, req);
    RerunOutcome(c, states, events, pid, now);
    NoBacks(events, pid);
    ReachableIsSafe(c, s);
    LinksOfFinal(c, s.disk, Target(Receipt, req.key));
    RerunAnchors(c, states, events, pid, now, Receipt);
    RerunAnchors(c, states, events, pid, now, Pointer);
    ReachTurn(c, states, events, pid, |events|);
    s' := PowerFails(c, states[|events|]);
    if OthersDurable(s.disk) {
      OthersStayDurable(c, states, events, pid, now, |events|);
      ManifestStays(c, states, events, pid, now, s.disk.Data(ManifestPath(req.key)), |events|);
      ReachableIsSafe(c, states[|events|]);
      ReadableAfterPowerFails(c, states[|events|].disk, ManifestPath(req.key));
    }
  }

  /** The power fails, and what was synced survives. */
  lemma PowerFails(c: Config, s: State) returns (s': State)
    requires Reachable(c, s)
    ensures Reachable(c, s') && s'.lock == None && s'.disk == s.disk.(names := s.disk.durable)
  {
    var left := s.disk.(names := s.disk.durable);
    ReachStep(c, s, Outage(left));
    s' := Apply(c, s, Outage(left));
  }

  /** Such a state exists for every request and every manifest within the size bound: the very first one. */
  lemma FirstStateIsIdle(c: Config, req: Request, manifest: Bytes) returns (s: State)
    requires |manifest| <= MAX_FILE_BYTES
    ensures Initial(s) && Idle(c, s, req) && Final(Target(Receipt, req.key)) !in s.disk.names && OthersDurable(s.disk)
    ensures s.disk.Data(ManifestPath(req.key)) == manifest
  {
    var m := ManifestPath(req.key);
    s := State(None, map[], Disk(map[0 := Inode(manifest, FILE_MODE, true)], map[m := 0], map[m := 0]));
    OneLink(s.disk, 0, m);
    var none: seq<Event> := [];
    assert IsRun(c, [s], none) && [s][|none|] == s;
  }

  /** So the repair's window is real: for every admitted request and every manifest, two kills, one successful run
      and one power loss lose a receipt that a durable pointer names, with the manifest still there. */
  lemma ReceiptCanBeLost(c: Config, req: Request, manifest: Bytes) returns (s': State)
    requires Lawful(c) && c.createMode == FILE_MODE && c.admits(req) && |manifest| <= MAX_FILE_BYTES
    ensures Open(c, s', req)
    ensures Final(Target(Pointer, req.key)) in s'.disk.durable && Final(Target(Pointer, req.key)) in s'.disk.names
    ensures Final(Target(Receipt, req.key)) !in s'.disk.durable && Final(Target(Receipt, req.key)) !in s'.disk.names
  {
    var s0 := FirstStateIsIdle(c, req, manifest);
    var s1 := KilledAfterLink(c, s0, req);
    var s2 := KilledInsideRepair(c, s1, req);
    s' := UnanchoredReceiptIsLost(c, s2, req);
  }

  /** Nor is the condition of `PowerLossKeepsReceipts` too strong: after a run that met it for an incident, any one kill
      that breaks it for that incident can be continued to the loss. */
  lemma SuchAKillIsFatal(c: Config, states: seq<State>, events: seq<Event>, e: Event, k: Key) returns (s': State)
    requires Lawful(c) && c.createMode == FILE_MODE && IsRun(c, states, events) && NoRepairKilled(states, events, k)
    requires KilledInRepair(states[|events|], e, k)
    ensures Reachable(c, s')
    ensures Final(Target(Pointer, k)) in s'.disk.durable && Final(Target(Pointer, k)) in s'.disk.names
    ensures Final(Target(Receipt, k)) !in s'.disk.durable && Final(Target(Receipt, k)) !in s'.disk.names
  {
    var s := states[|events|];
    PowerLossKeepsReceipts(c, states, events, |events|, k);
    EveryRunIsSafe(c, states, events, |events|);
    assert Reachable(c, s);
    var killed := KilledAtWork(c, s, e.pid);
    s' := UnanchoredReceiptIsLost(c, killed, s.procs[e.pid].req);
  }
}
