/** Staging names across power losses: when at most one is left beside a target, and when a stale one returns. */
module Leftovers {
  import opened Tree
  import opened Wrappers
  import opened Machine
  import opened Invariant
  import opened Runs
  import opened Vouching
  import opened Recovery
  import opened Progress
  import opened PowerLoss

  ghost predicate Known(d: Disk, p: Path) {
    p in d.names || p in d.durable
  }

  /** The target whose orphans the process has unlinked but whose directory it has not yet synced. */
  function Sweeps(req: Request, pc: Pc): Option<Target> {
    if pc.Sweeping? && (pc.sweep.SweepSync? || (pc.sweep.Sweep? && pc.sweep.removed)) then Some(TargetOf(req, pc.w)) else None
  }

  function Sweeper(s: State): Option<Target> {
    if s.lock.Some? && s.lock.value in s.procs
    then Sweeps(s.procs[s.lock.value].req, s.procs[s.lock.value].pc) else None
  }

  /** The target has one staging name in the cache and on the disk together; beside its final name it is a second
      link to it on both; and without a final name the disk knows none that the cache does not, unless a sweep
      of the target is still to sync. */
  ghost predicate Neat(d: Disk, t: Target, sweeping: Option<Target>) {
    && (forall a, b :: Known(d, Stage(t, a)) && Known(d, Stage(t, b)) ==> a == b)
    && (forall a :: Final(t) in d.names && Stage(t, a) in d.names ==> d.names[Stage(t, a)] == d.names[Final(t)])
    && (forall a :: Final(t) in d.names && Stage(t, a) in d.durable ==> d.durable[Stage(t, a)] == d.names[Final(t)])
    && (forall a :: Stage(t, a) in d.names && Stage(t, a) in d.durable ==> d.names[Stage(t, a)] == d.durable[Stage(t, a)])
    && (forall a :: Stage(t, a) in d.durable && Final(t) !in d.names && sweeping != Some(t) ==> Stage(t, a) in d.names)
  }

  lemma NeatSweeping(c: Config, d: Disk, t: Target, req: Request, w: Work, step: SweepStep, ch: Choice)
    requires c.createMode == FILE_MODE
    requires DiskOk(c, d) && SweepingOk(d, TargetOf(req, w), step) && Neat(d, t, Sweeps(req, Sweeping(w, step)))
    requires step.Sweep? && step.todo != {} ==> ch.pick in step.todo
    requires step.Create? ==> ch.ino !in d.inodes
    ensures var (d', pc') := NextSweeping(c, d, TargetOf(req, w), w, step, ch); Neat(d', t, Sweeps(req, pc'))
  {
    if step.Sweep? && step.todo != {} && ch.pick.Stage? && ch.pick.target == TargetOf(req, w) {
      OrphanRemovable(c, d, TargetOf(req, w), ch.pick.token);
    }
  }

  lemma NeatStaging(c: Config, d: Disk, t: Target, req: Request, w: Work, token: string, ino: nat, step: StageStep, ch: Choice)
    requires DiskOk(c, d) && StagingOk(d, TargetOf(req, w), w.payload, token, ino, step) && Neat(d, t, None)
    requires step.Write? && step.sent < |w.payload| ==> 1 <= ch.chunk <= |w.payload| - step.sent
    ensures Neat(NextStaging(d, TargetOf(req, w), w, token, ino, step, ch).0, t, None)
  {
  }

  lemma NeatClosing(c: Config, d: Disk, t: Target, req: Request, w: Work, token: string, ino: nat, step: CloseStep)
    requires DiskOk(c, d) && ClosingOk(d, TargetOf(req, w), w.payload, token, ino, step) && Neat(d, t, None)
    ensures Neat(NextClosing(c, d, req, w, token, ino, step).0, t, None)
  {
  }

  lemma NeatRepairing(c: Config, d: Disk, t: Target, req: Request, w: Work, existing: Bytes, step: RepairStep, ch: Choice)
    requires DiskOk(c, d) && RepairingOk(d, TargetOf(req, w), existing, step) && Neat(d, t, None)
    requires step.Inspect? && |Aliases(d, TargetOf(req, w))| == 1 ==> ch.pick in Aliases(d, TargetOf(req, w))
    ensures Neat(NextRepairing(c, d, req, w, existing, step, ch).0, t, None)
  {
  }

  lemma NeatCall(c: Config, d: Disk, t: Target, req: Request, pc: Pc, ch: Choice)
    requires c.createMode == FILE_MODE
    requires DiskOk(c, d) && PcOk(c, d, req, pc) && Enabled(d, req, pc, ch) && Neat(d, t, Sweeps(req, pc))
    ensures var (d', pc') := Next(c, d, req, pc, ch); Neat(d', t, Sweeps(req, pc'))
  {
    match pc
    case Sweeping(w, step) => NeatSweeping(c, d, t, req, w, step, ch);
    case Staging(w, token, ino, step) => NeatStaging(c, d, t, req, w, token, ino, step, ch);
    case Closing(w, token, ino, step) => NeatClosing(c, d, t, req, w, token, ino, step);
    case Repairing(w, existing, step) => NeatRepairing(c, d, t, req, w, existing, step, ch);
    case _ =>
  }

  // ---- whole runs ----

  /** The one interruption that can bring a stale staging name of the target back: a kill after its sweep has unlinked
      an orphan and before it has synced the directory, while the disk still knows the orphan. */
  ghost predicate KilledInSweep(s: State, e: Event, t: Target) {
    && e.Kill? && e.pid in s.procs && Sweeps(s.procs[e.pid].req, s.procs[e.pid].pc) == Some(t)
    && exists a :: Stage(t, a) in s.disk.durable && Stage(t, a) !in s.disk.names
  }

  ghost predicate NoSweepKilled(states: seq<State>, events: seq<Event>, t: Target)
    requires |states| == |events| + 1
  {
    forall i :: 0 <= i < |events| ==> !KilledInSweep(states[i], events[i], t)
  }

  lemma NeatKill(c: Config, s: State, e: Event, t: Target)
    requires Safe(c, s) && Allowed(c, s, e) && e.Kill? && Neat(s.disk, t, Sweeper(s)) && !KilledInSweep(s, e, t)
    ensures Neat(s.disk, t, Sweeper(Apply(c, s, e)))
  {
    if s.lock == Some(e.pid) {
      assert Sweeper(s) == Sweeps(s.procs[e.pid].req, s.procs[e.pid].pc);
    } else {
      assert Sweeper(Apply(c, s, e)) == Sweeper(s);
    }
  }

  lemma NeatOutage(c: Config, d: Disk, t: Target, left: Disk, sweeping: Option<Target>)
    requires DiskOk(c, d) && Neat(d, t, sweeping) && AfterOutage(d, left, c.createMode)
    ensures Neat(left, t, None)
  {
  }

  lemma NeatBack(d: Disk, t: Target, p: Path, sweeping: Option<Target>)
    requires Neat(d, t, sweeping)
    ensures Neat(d.WriteBack(p), t, sweeping)
  {
  }

  lemma NeatStep(c: Config, s: State, e: Event, t: Target)
    requires c.createMode == FILE_MODE && Safe(c, s) && Allowed(c, s, e)
    requires Neat(s.disk, t, Sweeper(s)) && !KilledInSweep(s, e, t)
    ensures var s' := Apply(c, s, e); Neat(s'.disk, t, Sweeper(s'))
  {
    match e
    case Spawn(pid, _) => assert Sweeper(Apply(c, s, e)) == Sweeper(s);
    case Call(pid, ch) =>
      var p := s.procs[pid];
      assert Sweeper(s) == Sweeps(p.req, p.pc);
      NeatCall(c, s.disk, t, p.req, p.pc, ch);
    case Kill(_) => NeatKill(c, s, e, t);
    case Back(p) => NeatBack(s.disk, t, p, Sweeper(s));
    case Outage(left) => NeatOutage(c, s.disk, t, left, Sweeper(s));
  }

  /** Kills and power losses at any point, target by target: as long as none of the kills is of that kind for the
      target, it has at most one staging name, beside its final name only a second link to it, and so it is on the
      disk. What happens to other targets does not matter. */
  lemma {:induction false} LeftoversStayNeat(c: Config, states: seq<State>, events: seq<Event>, i: nat, t: Target)
    requires Lawful(c) && c.createMode == FILE_MODE && IsRun(c, states, events) && i < |states|
    requires NoSweepKilled(states, events, t)
    ensures Neat(states[i].disk, t, Sweeper(states[i])) && TidyAt(states[i].disk, t)
  {
    if i > 0 {
      LeftoversStayNeat(c, states, events, i - 1, t);
      EveryRunIsSafe(c, states, events, i - 1);
      NeatStep(c, states[i - 1], events[i - 1], t);
    }
  }

  /** So without any such kill, whoever's, all targets are tidy. */
  lemma AllLeftoversAreTidy(c: Config, states: seq<State>, events: seq<Event>, i: nat)
    requires Lawful(c) && c.createMode == FILE_MODE && IsRun(c, states, events) && i < |states|
    requires forall t :: NoSweepKilled(states, events, t)
    ensures Tidy(states[i].disk)
  {
    forall t ensures TidyAt(states[i].disk, t) { LeftoversStayNeat(c, states, events, i, t); }
  }

  /** Then a turn leaves no staging name beside a file that it has got past, whatever was lost before. */
  lemma NothingIsLeftOver(c: Config, states: seq<State>, events: seq<Event>,
                          turn: seq<State>, its: seq<Event>, pid: nat, now: Instant, kind: Kind)
    requires Lawful(c) && c.createMode == FILE_MODE && IsRun(c, states, events)
    requires Ends(c, turn, its, pid, now) && turn[0] == states[|events|]
    requires NoSweepKilled(states, events, Target(kind, turn[0].procs[pid].req.key))
    requires Acceptable(c, turn[0].disk, turn[0].procs[pid].req)
    requires kind.Pointer? ==> turn[|its|].procs[pid].pc.fault == None
    ensures NoStage(turn[|its|].disk, Target(kind, turn[0].procs[pid].req.key))
  {
    LeftoversStayNeat(c, states, events, |events|, Target(kind, turn[0].procs[pid].req.key));
    RerunCleansUp(c, turn, its, pid, now, kind);
  }

  // ---- the kill that is not forgiven ----

  /** The disk still knows a staging name that the cache has lost, of a target that is not published. */
  ghost predicate Stale(d: Disk, t: Target, a: string) {
    Stage(t, a) in d.durable && Final(t) !in d.names && NoStage(d, t)
  }

  /** A later run does not learn of it: until it links the final name, the disk keeps the old entry. */
  ghost predicate Lingers(d: Disk, t: Target, a: string, ino: nat, req: Request, pc: Pc) {
    && Stage(t, a) in d.durable && d.durable[Stage(t, a)] == ino && ino in d.inodes && Final(t) !in d.names
    && match pc
       case Sweeping(w, step) => NoStage(d, t) && Sweeps(req, pc) != Some(t)
       case Staging(w, _, staged, _) => if TargetOf(req, w) == t then staged != ino else NoStage(d, t)
       case _ => NoStage(d, t)
  }

  lemma LingersSweeping(c: Config, d: Disk, req: Request, w: Work, step: SweepStep, ch: Choice, t: Target, a: string, ino: nat)
    requires DiskOk(c, d) && SweepingOk(d, TargetOf(req, w), step) && Enabled(d, req, Sweeping(w, step), ch)
    requires t.key == req.key && Lingers(d, t, a, ino, req, Sweeping(w, step))
    ensures var (d', pc') := NextSweeping(c, d, TargetOf(req, w), w, step, ch); Lingers(d', t, a, ino, req, pc')
  {
  }

  lemma LingersStaging(c: Config, d: Disk, req: Request, w: Work, token: string, staged: nat, step: StageStep, ch: Choice,
                        t: Target, a: string, ino: nat)
    requires DiskOk(c, d) && StagingOk(d, TargetOf(req, w), w.payload, token, staged, step)
    requires Enabled(d, req, Staging(w, token, staged, step), ch)
    requires t.key == req.key && Lingers(d, t, a, ino, req, Staging(w, token, staged, step))
    requires Final(t) !in NextStaging(d, TargetOf(req, w), w, token, staged, step, ch).0.names
    ensures var (d', pc') := NextStaging(d, TargetOf(req, w), w, token, staged, step, ch); Lingers(d', t, a, ino, req, pc')
  {
  }

  lemma LingersClosing(c: Config, d: Disk, req: Request, w: Work, token: string, staged: nat, step: CloseStep, t: Target, a: string, ino: nat)
    requires DiskOk(c, d) && ClosingOk(d, TargetOf(req, w), w.payload, token, staged, step)
    requires t.key == req.key && Lingers(d, t, a, ino, req, Closing(w, token, staged, step))
    ensures var (d', pc') := NextClosing(c, d, req, w, token, staged, step); Lingers(d', t, a, ino, req, pc')
  {
    assert Home(TargetOf(req, w)) != Home(t);
  }

  lemma LingersRepairing(c: Config, d: Disk, req: Request, w: Work, existing: Bytes, step: RepairStep, ch: Choice, t: Target, a: string, ino: nat)
    requires DiskOk(c, d) && RepairingOk(d, TargetOf(req, w), existing, step) && Enabled(d, req, Repairing(w, existing, step), ch)
    requires t.key == req.key && Lingers(d, t, a, ino, req, Repairing(w, existing, step))
    ensures var (d', pc') := NextRepairing(c, d, req, w, existing, step, ch); Lingers(d', t, a, ino, req, pc')
  {
    assert Home(TargetOf(req, w)) != Home(t);
  }

  lemma LingersOn(c: Config, d: Disk, req: Request, pc: Pc, ch: Choice, t: Target, a: string, ino: nat)
    requires DiskOk(c, d) && PcOk(c, d, req, pc) && Enabled(d, req, pc, ch) && t.key == req.key
    requires Lingers(d, t, a, ino, req, pc) && Final(t) !in Next(c, d, req, pc, ch).0.names
    ensures var (d', pc') := Next(c, d, req, pc, ch); Lingers(d', t, a, ino, req, pc')
  {
    match pc
    case Sweeping(w, step) => LingersSweeping(c, d, req, w, step, ch, t, a, ino);
    case Staging(w, token, staged, step) => LingersStaging(c, d, req, w, token, staged, step, ch, t, a, ino);
    case Closing(w, token, staged, step) => LingersClosing(c, d, req, w, token, staged, step, t, a, ino);
    case Repairing(w, existing, step) => LingersRepairing(c, d, req, w, existing, step, ch, t, a, ino);
    case _ =>
  }

  lemma LingersStep(c: Config, d: Disk, req: Request, pc: Pc, ch: Choice, t: Target, a: string, ino: nat)
    requires DiskOk(c, d) && PcOk(c, d, req, pc) && Enabled(d, req, pc, ch) && t.key == req.key
    requires Final(t) !in d.names ==> Lingers(d, t, a, ino, req, pc)
    ensures var (d', pc') := Next(c, d, req, pc, ch); Final(t) !in d'.names ==> Lingers(d', t, a, ino, req, pc')
  {
    NextFrame(c, d, req, pc, ch);
    if Final(t) !in Next(c, d, req, pc, ch).0.names { LingersOn(c, d, req, pc, ch, t, a, ino); }
  }

  lemma {:induction false} LingersUntil(c: Config, states: seq<State>, events: seq<Event>, pid: nat, now: Instant, t: Target, a: string, i: nat)
    requires Lawful(c) && c.createMode == FILE_MODE && Ends(c, states, events, pid, now) && OnlyCalls(events, pid) && i < |states|
    requires t.key == states[0].procs[pid].req.key && Stale(states[0].disk, t, a)
    ensures pid in states[i].procs
    ensures Final(t) !in states[i].disk.names ==>
      Lingers(states[i].disk, t, a, states[0].disk.durable[Stage(t, a)], states[0].procs[pid].req, states[i].procs[pid].pc)
  {
    var req, ino := states[0].procs[pid].req, states[0].disk.durable[Stage(t, a)];
    if i == 0 {
      assert states[0].disk.At(Stage(t, a), ino);
    } else {
      LingersUntil(c, states, events, pid, now, t, a, i - 1);
      var ch := CallAt(c, states, events, pid, now, i - 1);
      LingersStep(c, states[i - 1].disk, req, states[i - 1].procs[pid].pc, ch, t, a, ino);
    }
  }

  lemma LinkOf(c: Config, d: Disk, req: Request, pc: Pc, ch: Choice, t: Target)
    requires DiskOk(c, d) && PcOk(c, d, req, pc) && Enabled(d, req, pc, ch)
    requires Final(t) !in d.names && Final(t) in Next(c, d, req, pc, ch).0.names
    ensures pc.Staging? && TargetOf(req, pc.w) == t
    ensures Next(c, d, req, pc, ch).0 == d.Link(pc.ino, Final(t))
  {
    NextFrame(c, d, req, pc, ch);
    assert Linking(req, pc) == Some(t);
  }

  /** A staging name beside the final name, bound to another inode. */
  ghost predicate Foreign(d: Disk, t: Target, a: string) {
    Stage(t, a) in d.names && Final(t) in d.names && d.names[Stage(t, a)] != d.names[Final(t)]
  }

  /** Both entries are on the disk as they stand. */
  ghost predicate BothOnDisk(d: Disk, t: Target, a: string) {
    && Final(t) in d.names && Final(t) in d.durable && d.durable[Final(t)] == d.names[Final(t)]
    && Stage(t, a) in d.names && Stage(t, a) in d.durable && d.durable[Stage(t, a)] == d.names[Stage(t, a)]
  }

  /** A stale staging name can return: the next turn publishes a new file beside it, whether or not it succeeds in
      the end; the kernel writes the final name back, and a power loss then leaves both, bound to different inodes. */
  lemma StaleReturns(c: Config, s: State, req: Request, t: Target, a: string) returns (s': State)
    requires Lawful(c) && c.createMode == FILE_MODE && c.admits(req) && Open(c, s, req)
    requires t.key == req.key && Stale(s.disk, t, a)
    ensures Reachable(c, s') && Foreign(s'.disk, t, a) && BothOnDisk(s'.disk, t, a)
  {
    var states, events, pid, now := FreshTurn(c, s, req);
    RerunOutcome(c, states, events, pid, now);
    assert t.kind == Receipt || t.kind == Pointer;
    assert Final(t) in states[|events|].disk.names;
    var i := FirstBound(states, Final(t), |events|);
    LingersUntil(c, states, events, pid, now, t, a, i);
    var ch := CallAt(c, states, events, pid, now, i);
    LinkOf(c, states[i].disk, req, states[i].procs[pid].pc, ch, t);
    ReachTurn(c, states, events, pid, i + 1);
    s' := BackAndOut(c, states[i + 1], Final(t));
  }

  /** The kernel writes one entry back, and the power fails. */
  lemma BackAndOut(c: Config, s: State, p: Path) returns (s': State)
    requires Reachable(c, s) && p in s.disk.names
    ensures Reachable(c, s') && s'.disk.names == s.disk.durable[p := s.disk.names[p]] && s'.disk.durable == s'.disk.names
  {
    ReachStep(c, s, Back(p));
    s' := PowerFails(c, Apply(c, s, Back(p)));
  }

  /** So the condition of `LeftoversStayNeat` is not too strong: after a run that met it for a target, any one kill
      that breaks it for that target can be continued to a stale name beside the published file. */
  lemma SuchAKillIsUntidy(c: Config, states: seq<State>, events: seq<Event>, e: Event, t: Target) returns (s': State)
    requires Lawful(c) && c.createMode == FILE_MODE && IsRun(c, states, events)
    requires NoSweepKilled(states, events, t) && KilledInSweep(states[|events|], e, t)
    ensures Reachable(c, s') && exists a :: Foreign(s'.disk, t, a) && BothOnDisk(s'.disk, t, a)
  {
    var s := states[|events|];
    EveryRunIsSafe(c, states, events, |events|);
    LeftoversStayNeat(c, states, events, |events|, t);
    var a :| Stage(t, a) in s.disk.durable && Stage(t, a) !in s.disk.names;
    assert Known(s.disk, Stage(t, a));
    assert forall b :: Stage(t, b) in s.disk.names ==> Known(s.disk, Stage(t, b));
    assert Stale(s.disk, t, a);
    assert Reachable(c, s);
    var killed := KilledAtWork(c, s, e.pid);
    s' := StaleReturns(c, killed, s.procs[e.pid].req, t, a);
  }

  /** And such a kill is real: for every request and manifest, a publisher killed while it stages the receipt, and
      the next one killed inside its sweep, leave a stale name. */
  lemma OrphanCanGoStale(c: Config, req: Request, manifest: Bytes) returns (s: State)
    requires Lawful(c) && c.createMode == FILE_MODE && c.admits(req) && |manifest| <= MAX_FILE_BYTES
    ensures Idle(c, s, req) && Stale(s.disk, Target(Receipt, req.key), "")
  {
    var m := ManifestPath(req.key);
    var d := Disk(map[0 := Inode(manifest, FILE_MODE, true)], map[m := 0], map[m := 0]);
    var w := Work(Receipt, c.receipt(req, manifest, 0), manifest);
    OneLink(d, 0, m);
    FirstState(c, d);
    ReachExamine(c, req, w, d, State(None, map[], d));
    var d1 := OrphanLeft(c, req, w, d);
    OneLink(d1, 0, m);
    ReachExamine(c, req, w, d1, State(None, map[], d1));
    s := SweptAndKilled(c, req, w, d1);
    OneLink(s.disk, 0, m);
  }

  /** So for every request and manifest a stale name can come to lie beside the published receipt. */
  lemma StaleNameCanReturn(c: Config, req: Request, manifest: Bytes) returns (s: State)
    requires Lawful(c) && c.createMode == FILE_MODE && c.admits(req) && |manifest| <= MAX_FILE_BYTES
    ensures Reachable(c, s) && Foreign(s.disk, Target(Receipt, req.key), "") && BothOnDisk(s.disk, Target(Receipt, req.key), "")
  {
    var stale := OrphanCanGoStale(c, req, manifest);
    s := StaleReturns(c, stale, req, Target(Receipt, req.key), "");
  }

  /** It creates a staging file, the kernel writes the entry back, and the process is killed. */
  lemma OrphanLeft(c: Config, req: Request, w: Work, d: Disk) returns (d1: Disk)
    requires w.kind.Receipt? && 1 !in d.inodes && Reachable(c, Alone(req, Examine(w), d))
    requires d.names.Keys == {ManifestPath(req.key)}
    ensures var p := Stage(Target(Receipt, req.key), "");
      d1 == d.Create(p, 1, c.createMode).WriteBack(p) && Reachable(c, State(None, map[], d1))
  {
    var t, any := Target(Receipt, req.key), Choice(0, ManifestPath(req.key), "", 1, 0);
    var p, pc := Stage(t, ""), Staging(w, "", 1, Chmod);
    assert d.Entries(Home(t)) == {};
    CreateAlone(c, req, w, d, any);
    BackAlone(c, req, pc, d.Create(p, 1, c.createMode), p);
    d1 := d.Create(p, 1, c.createMode).WriteBack(p);
    var s := KilledAlone(c, req, pc, d1);
  }

  lemma BackAlone(c: Config, req: Request, pc: Pc, d: Disk, p: Path)
    requires Reachable(c, Alone(req, pc, d))
    ensures Reachable(c, Alone(req, pc, d.WriteBack(p)))
  {
    ReachStep(c, Alone(req, pc, d), Back(p));
    assert Apply(c, Alone(req, pc, d), Back(p)) == Alone(req, pc, d.WriteBack(p));
  }

  lemma Swept(c: Config, d: Disk, t: Target, w: Work, ch: Choice)
    requires ch.pick == Stage(t, "") && ch.pick in d.names && d.names[ch.pick] in d.inodes
    requires d.inodes[d.names[ch.pick]].mode == FILE_MODE && d.Links(d.names[ch.pick]) == 1
    ensures NextSweeping(c, d, t, w, Sweep({ch.pick}, false), ch) == (d.Unlink(ch.pick), Sweeping(w, Sweep({}, true)))
  {
    assert {ch.pick} - {ch.pick} == {};
  }

  /** The next one unlinks it, and is killed before it syncs the directory. */
  lemma SweptAndKilled(c: Config, req: Request, w: Work, d: Disk) returns (s: State)
    requires w.kind.Receipt? && Reachable(c, Alone(req, Examine(w), d))
    requires var p := Stage(Target(Receipt, req.key), "");
      && d.names == map[ManifestPath(req.key) := 0, p := 1] && 1 in d.inodes && d.inodes[1].mode == FILE_MODE
    ensures Reachable(c, s) && s == State(None, map[], d.Unlink(Stage(Target(Receipt, req.key), "")))
  {
    var t := Target(Receipt, req.key);
    var any := Choice(0, Stage(t, ""), "", 2, 0);
    OneLink(d, 1, any.pick);
    assert d.Entries(Home(t)) == {any.pick};
    CallAlone(c, req, Examine(w), d, any);
    Swept(c, d, t, w, any);
    CallAlone(c, req, Sweeping(w, Sweep({any.pick}, false)), d, any);
    s := KilledAlone(c, req, Sweeping(w, Sweep({}, true)), d.Unlink(any.pick));
  }

  // ---- and what is done about it ----

  ghost predicate ForeignKept(d: Disk, d': Disk, t: Target, a: string)
    requires Foreign(d, t, a)
  {
    && Foreign(d', t, a) && d'.names[Stage(t, a)] == d.names[Stage(t, a)] && d'.names[Final(t)] == d.names[Final(t)]
    && (BothOnDisk(d, t, a) ==> BothOnDisk(d', t, a))
  }

  lemma ForeignUnlink(d: Disk, d': Disk, t: Target, a: string, p: Path)
    requires Foreign(d, t, a) && p.Stage?
    requires
      || d' == d || d' == d.SyncDirectory(DirectoryOf(p))
      || (d' == d.Unlink(p) && (p.target == t ==> p !in d.names || d.names[p] == d.names[Final(t)]))
    ensures ForeignKept(d, d', t, a)
  {
  }

  lemma ForeignSweeping(d: Disk, t: Target, a: string, c: Config, u: Target, w: Work, step: SweepStep, ch: Choice)
    requires Foreign(d, t, a) && SweepingOk(d, u, step)
    requires step.Sweep? && step.todo != {} ==> ch.pick in step.todo
    requires step.Create? ==> ch.ino !in d.inodes
    ensures ForeignKept(d, NextSweeping(c, d, u, w, step, ch).0, t, a)
  {
  }

  lemma ForeignStaging(d: Disk, t: Target, a: string, u: Target, w: Work, token: string, ino: nat, step: StageStep, ch: Choice)
    requires Foreign(d, t, a) && Final(u) !in d.names && ino in d.inodes
    requires step.Write? && step.sent < |w.payload| ==> 1 <= ch.chunk <= |w.payload| - step.sent
    ensures ForeignKept(d, NextStaging(d, u, w, token, ino, step, ch).0, t, a)
  {
  }

  lemma ForeignClosing(d: Disk, t: Target, a: string, c: Config, req: Request, w: Work, token: string, ino: nat, step: CloseStep)
    requires Foreign(d, t, a) && ClosingOk(d, TargetOf(req, w), w.payload, token, ino, step)
    ensures ForeignKept(d, NextClosing(c, d, req, w, token, ino, step).0, t, a)
  {
    ForeignUnlink(d, NextClosing(c, d, req, w, token, ino, step).0, t, a, Stage(TargetOf(req, w), token));
  }

  lemma ForeignRepairing(d: Disk, t: Target, a: string, c: Config, req: Request, w: Work, existing: Bytes, step: RepairStep, ch: Choice)
    requires Foreign(d, t, a) && RepairingOk(d, TargetOf(req, w), existing, step) && Enabled(d, req, Repairing(w, existing, step), ch)
    ensures ForeignKept(d, NextRepairing(c, d, req, w, existing, step, ch).0, t, a)
  {
    ForeignUnlink(d, NextRepairing(c, d, req, w, existing, step, ch).0, t, a,
                  Stage(TargetOf(req, w), if step.Detach? then step.token else a));
  }

  /** No call removes such a name: a sweep comes before the final name is bound, and a repair takes a second link. */
  lemma ForeignCall(c: Config, d: Disk, req: Request, pc: Pc, ch: Choice, t: Target, a: string)
    requires DiskOk(c, d) && PcOk(c, d, req, pc) && Enabled(d, req, pc, ch) && Foreign(d, t, a)
    ensures ForeignKept(d, Next(c, d, req, pc, ch).0, t, a)
  {
    match pc
    case Sweeping(w, step) => ForeignSweeping(d, t, a, c, TargetOf(req, w), w, step, ch);
    case Closing(w, token, ino, step) => ForeignClosing(d, t, a, c, req, w, token, ino, step);
    case Repairing(w, existing, step) => ForeignRepairing(d, t, a, c, req, w, existing, step, ch);
    case Staging(w, token, ino, step) => ForeignStaging(d, t, a, TargetOf(req, w), w, token, ino, step, ch);
    case _ =>
  }

  lemma ForeignStep(c: Config, s: State, e: Event, t: Target, a: string)
    requires Safe(c, s) && Allowed(c, s, e) && Foreign(s.disk, t, a) && (BothOnDisk(s.disk, t, a) || !e.Outage?)
    ensures ForeignKept(s.disk, Apply(c, s, e).disk, t, a)
  {
    if e.Call? { ForeignCall(c, s.disk, s.procs[e.pid].req, s.procs[e.pid].pc, e.ch, t, a); }
  }

  /** No run removes it: it stays through kills in any case, and through power losses too if both entries are on the
      disk, as they are when a power loss has brought it back. */
  lemma {:induction false} ForeignForever(c: Config, states: seq<State>, events: seq<Event>, i: nat, t: Target, a: string)
    requires Lawful(c) && IsStretch(c, states, events) && Safe(c, states[0]) && i < |states|
    requires Foreign(states[0].disk, t, a) && (BothOnDisk(states[0].disk, t, a) || NoOutage(events))
    ensures Safe(c, states[i]) && Foreign(states[i].disk, t, a)
    ensures states[i].disk.names[Stage(t, a)] == states[0].disk.names[Stage(t, a)]
    ensures BothOnDisk(states[0].disk, t, a) ==> BothOnDisk(states[i].disk, t, a)
  {
    if i > 0 {
      ForeignForever(c, states, events, i - 1, t, a);
      SafeStep(c, states[i - 1], events[i - 1]);
      ForeignStep(c, states[i - 1], events[i - 1], t, a);
    }
  }
}
