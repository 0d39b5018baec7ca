/** Safety over whole runs: every interleaving of any number of publishers, with kills, write-backs and
    power losses anywhere. */
module Runs {
  import opened Tree
  import opened Wrappers
  import opened Machine
  import opened Invariant

  /** The invariant of every run whatsoever. */
  ghost predicate Safe(c: Config, s: State) {
    && DiskOk(c, s.disk)
    && (s.lock.Some? ==> s.lock.value in s.procs && Holding(s.procs[s.lock.value].pc))
    && forall pid :: pid in s.procs ==>
         && c.admits(s.procs[pid].req)
         && PcOk(c, s.disk, s.procs[pid].req, s.procs[pid].pc)
         && (Holding(s.procs[pid].pc) ==> s.lock == Some(pid))
  }

  /** The pointer of an incident, if it is there, names the hash of the receipt that is there. */
  ghost predicate PointerOk(c: Config, d: Disk, k: Key) {
    Final(Target(Pointer, k)) in d.names ==> PointerMatches(c, d, k)
  }

  ghost predicate PointersMatch(c: Config, d: Disk) {
    forall k :: PointerOk(c, d, k)
  }

  ghost predicate PointerMatches(c: Config, d: Disk, k: Key) {
    var r, p := Final(Target(Receipt, k)), Final(Target(Pointer, k));
    && r in d.names && d.names[r] in d.inodes
    && p in d.names && d.names[p] in d.inodes
    && d.Data(p) == c.pointer(k, d.Data(r))
  }

  /** At most one staging name; beside the final name, only a second link to its inode. */
  ghost predicate TidyAt(d: Disk, t: Target) {
    && (forall a, b :: Stage(t, a) in d.names && Stage(t, b) in d.names ==> a == b)
    && (forall a :: Stage(t, a) in d.names && Final(t) in d.names ==> d.names[Stage(t, a)] == d.names[Final(t)])
  }

  ghost predicate Tidy(d: Disk) {
    forall t :: TidyAt(d, t)
  }

  /** The target whose alias the process has unlinked but whose directory it has not yet synced. */
  function Mends(req: Request, pc: Pc): Option<Target> {
    if pc.Repairing? && pc.repair.DetachSync? then Some(TargetOf(req, pc.w)) else None
  }

  function Mending(s: State): Option<Target> {
    if s.lock.Some? && s.lock.value in s.procs
    then Mends(s.procs[s.lock.value].req, s.procs[s.lock.value].pc) else None
  }

  /** A receipt that is not durable still has its staging alias, or is being mended; and no pointer is
      linked before its receipt is durable. */
  ghost predicate Anchored(d: Disk, k: Key, mending: Option<Target>) {
    var r := Target(Receipt, k);
    && (Final(r) in d.names && mending != Some(r) && Single(d, r) ==> Final(r) in d.durable)
    && (Final(Target(Pointer, k)) in d.names ==> Final(r) in d.durable)
  }

  // ---- what one system call leaves alone ----

  predicate Owns(k: Key, p: Path) {
    (p.Final? || p.Stage?) && p.target.key == k
  }

  /** `d'` differs from `d` only in entries of the incident `k`; every published file is still there with
      the same inode and bytes, and the only new one, if any, is `linked`. */
  ghost predicate Framed(d: Disk, d': Disk, k: Key, linked: Option<Target>) {
    && (forall p :: !Owns(k, p) ==> (p in d'.names <==> p in d.names) && (p in d.names ==> d'.names[p] == d.names[p]))
    && (forall t :: Final(t) in d.names ==> SameFile(d, d', t))
    && (forall t :: Final(t) in d'.names && Final(t) !in d.names ==> linked == Some(t))
  }

  ghost predicate SameFile(d: Disk, d': Disk, t: Target) {
    && Final(t) in d.names && d.names[Final(t)] in d.inodes
    && Final(t) in d'.names && d'.names[Final(t)] == d.names[Final(t)]
    && d.names[Final(t)] in d'.inodes && d'.inodes[d.names[Final(t)]] == d.inodes[d.names[Final(t)]]
  }

  function Linking(req: Request, pc: Pc): Option<Target> {
    if pc.Staging? && pc.stage.Link? then Some(TargetOf(req, pc.w)) else None
  }

  lemma StagingFrame(c: Config, d: Disk, req: Request, w: Work, token: string, ino: nat, step: StageStep, ch: Choice)
    requires DiskOk(c, d) && StagingOk(d, TargetOf(req, w), w.payload, token, ino, step)
    requires step.Write? && step.sent < |w.payload| ==> 1 <= ch.chunk <= |w.payload| - step.sent
    ensures Framed(d, NextStaging(d, TargetOf(req, w), w, token, ino, step, ch).0, req.key,
                   if step.Link? then Some(TargetOf(req, w)) else None)
  {
    var t := TargetOf(req, w);
    var d' := NextStaging(d, t, w, token, ino, step, ch).0;
    forall u | Final(u) in d.names ensures SameFile(d, d', u) {
      assert d.At(Final(u), d.names[Final(u)]) && d.At(Stage(t, token), ino);
    }
  }

  lemma SweepingFrame(c: Config, d: Disk, req: Request, w: Work, step: SweepStep, ch: Choice)
    requires DiskOk(c, d)
    requires step.Sweep? && step.todo != {} ==> ch.pick in step.todo
    requires step.Create? ==> ch.ino !in d.inodes
    ensures Framed(d, NextSweeping(c, d, TargetOf(req, w), w, step, ch).0, req.key, None)
  {
    var d' := NextSweeping(c, d, TargetOf(req, w), w, step, ch).0;
    forall u | Final(u) in d.names ensures SameFile(d, d', u) {
      assert d.At(Final(u), d.names[Final(u)]);
    }
  }

  lemma UnlinkFrame(c: Config, d: Disk, d': Disk, k: Key)
    requires DiskOk(c, d) && d'.inodes == d.inodes
    requires d'.names == d.names || exists p: Path :: p.Stage? && p.target.key == k && d'.names == d.names - {p}
    ensures Framed(d, d', k, None)
  {
    forall u | Final(u) in d.names ensures SameFile(d, d', u) {
      assert d.At(Final(u), d.names[Final(u)]);
    }
  }

  /** One call changes no entry but those of the caller's own incident, and neither unbinds, rebinds nor
      rewrites a published file; the only file it can publish is the one it was linking. */
  lemma NextFrame(c: Config, d: Disk, req: Request, pc: Pc, ch: Choice)
    requires DiskOk(c, d) && PcOk(c, d, req, pc) && Enabled(d, req, pc, ch)
    ensures Framed(d, Next(c, d, req, pc, ch).0, req.key, Linking(req, pc))
  {
    match pc
    case Sweeping(w, step) => SweepingFrame(c, d, req, w, step, ch);
    case Staging(w, token, ino, step) => StagingFrame(c, d, req, w, token, ino, step, ch);
    case Closing(w, token, ino, step) => UnlinkFrame(c, d, NextClosing(c, d, req, w, token, ino, step).0, req.key);
    case Repairing(w, existing, step) => UnlinkFrame(c, d, NextRepairing(c, d, req, w, existing, step, ch).0, req.key);
    case _ => UnlinkFrame(c, d, d, req.key);
  }

  lemma PointerKept(c: Config, d: Disk, req: Request, pc: Pc, ch: Choice, k: Key)
    requires DiskOk(c, d) && PcOk(c, d, req, pc) && Enabled(d, req, pc, ch)
    requires PointerOk(c, d, k)
    ensures PointerOk(c, Next(c, d, req, pc, ch).0, k)
  {
    var d', p := Next(c, d, req, pc, ch).0, Target(Pointer, k);
    NextFrame(c, d, req, pc, ch);
    if Final(p) in d'.names {
      assert Final(p) !in d.names ==> Linking(req, pc) == Some(p);
      assert SameFile(d, d', Target(Receipt, k));
    }
  }

  lemma TidyKept(c: Config, d: Disk, req: Request, pc: Pc, ch: Choice, t: Target)
    requires DiskOk(c, d) && PcOk(c, d, req, pc) && Enabled(d, req, pc, ch)
    requires TidyAt(d, t)
    ensures TidyAt(Next(c, d, req, pc, ch).0, t)
  {
  }

  lemma AnchoredSweeping(c: Config, d: Disk, req: Request, w: Work, step: SweepStep, ch: Choice, k: Key)
    requires DiskOk(c, d) && SweepingOk(d, TargetOf(req, w), step) && Anchored(d, k, None)
    requires step.Sweep? && step.todo != {} ==> ch.pick in step.todo
    requires step.Create? ==> ch.ino !in d.inodes
    ensures Anchored(NextSweeping(c, d, TargetOf(req, w), w, step, ch).0, k, None)
  {
  }

  lemma AnchoredStaging(c: Config, d: Disk, req: Request, w: Work, token: string, ino: nat, step: StageStep, ch: Choice, k: Key)
    requires DiskOk(c, d) && StagingOk(d, TargetOf(req, w), w.payload, token, ino, step) && WorkOk(c, d, req, w)
    requires step.Write? && step.sent < |w.payload| ==> 1 <= ch.chunk <= |w.payload| - step.sent
    requires Anchored(d, k, None)
    ensures Anchored(NextStaging(d, TargetOf(req, w), w, token, ino, step, ch).0, k, None)
  {
    var t := TargetOf(req, w);
    var d' := NextStaging(d, t, w, token, ino, step, ch).0;
    if step.Link? {
      assert !Single(d', t);
    }
  }

  lemma AnchoredClosing(c: Config, d: Disk, req: Request, w: Work, token: string, ino: nat, step: CloseStep, k: Key)
    requires DiskOk(c, d) && ClosingOk(d, TargetOf(req, w), w.payload, token, ino, step)
    requires Anchored(d, k, None)
    ensures Anchored(NextClosing(c, d, req, w, token, ino, step).0, k, None)
  {
    if Target(Receipt, k) != TargetOf(req, w) {
      assert Single(NextClosing(c, d, req, w, token, ino, step).0, Target(Receipt, k)) ==> Single(d, Target(Receipt, k));
    }
  }

  lemma AnchoredRepairing(c: Config, d: Disk, req: Request, w: Work, existing: Bytes, step: RepairStep, ch: Choice, k: Key)
    requires DiskOk(c, d) && RepairingOk(d, TargetOf(req, w), existing, step)
    requires step.Inspect? && |Aliases(d, TargetOf(req, w))| == 1 ==> ch.pick in Aliases(d, TargetOf(req, w))
    requires Anchored(d, k, Mends(req, Repairing(w, existing, step)))
    ensures var (d', pc') := NextRepairing(c, d, req, w, existing, step, ch); Anchored(d', k, Mends(req, pc'))
  {
    if Target(Receipt, k) != TargetOf(req, w) {
      assert Single(NextRepairing(c, d, req, w, existing, step, ch).0, Target(Receipt, k)) ==> Single(d, Target(Receipt, k));
    }
  }

  lemma AnchoredKept(c: Config, d: Disk, req: Request, pc: Pc, ch: Choice, k: Key)
    requires DiskOk(c, d) && PcOk(c, d, req, pc) && Enabled(d, req, pc, ch)
    requires Anchored(d, k, Mends(req, pc))
    ensures var (d', pc') := Next(c, d, req, pc, ch); Anchored(d', k, Mends(req, pc'))
  {
    match pc
    case Sweeping(w, step) => AnchoredSweeping(c, d, req, w, step, ch, k);
    case Staging(w, token, ino, step) => AnchoredStaging(c, d, req, w, token, ino, step, ch, k);
    case Closing(w, token, ino, step) => AnchoredClosing(c, d, req, w, token, ino, step, k);
    case Repairing(w, existing, step) => AnchoredRepairing(c, d, req, w, existing, step, ch, k);
    case _ =>
  }

  // ---- one event of a run ----

  lemma BackKeepsPc(c: Config, d: Disk, p: Path, req: Request, pc: Pc)
    requires DiskOk(c, d) && PcOk(c, d, req, pc)
    ensures PcOk(c, d.WriteBack(p), req, pc)
  {
    var d' := d.WriteBack(p);
    assert forall q, i :: d'.At(q, i) ==> d.At(q, i);
  }

  lemma SafeCall(c: Config, s: State, pid: nat, ch: Choice)
    requires Lawful(c) && Safe(c, s) && Allowed(c, s, Call(pid, ch))
    ensures Safe(c, Apply(c, s, Call(pid, ch)))
  {
    var p := s.procs[pid];
    var after := Next(c, s.disk, p.req, p.pc, ch);
    NextKeeps(c, s.disk, p.req, p.pc, ch);
    var s' := Apply(c, s, Call(pid, ch));
    assert Kept(c, p.req, after) && s'.disk == after.0;
    forall q | q in s'.procs ensures PcOk(c, s'.disk, s'.procs[q].req, s'.procs[q].pc) {
      if q != pid { assert !Holding(s.procs[q].pc); }
    }
  }

  lemma SafeBack(c: Config, s: State, p: Path)
    requires Safe(c, s)
    ensures Safe(c, Apply(c, s, Back(p)))
  {
    WriteBackKeeps(c, s.disk, p);
    forall pid | pid in s.procs ensures PcOk(c, s.disk.WriteBack(p), s.procs[pid].req, s.procs[pid].pc) {
      BackKeepsPc(c, s.disk, p, s.procs[pid].req, s.procs[pid].pc);
    }
  }

  lemma SafeStep(c: Config, s: State, e: Event)
    requires Lawful(c) && Safe(c, s) && Allowed(c, s, e)
    ensures Safe(c, Apply(c, s, e))
  {
    match e
    case Spawn(_, _) =>
    case Call(pid, ch) => SafeCall(c, s, pid, ch);
    case Kill(_) =>
    case Back(p) => SafeBack(c, s, p);
    case Outage(left) => OutageKeeps(c, s.disk, left);
  }

  lemma PointerStep(c: Config, s: State, e: Event, k: Key)
    requires Safe(c, s) && Allowed(c, s, e) && PointerOk(c, s.disk, k) && !e.Outage?
    ensures PointerOk(c, Apply(c, s, e).disk, k)
  {
    if e.Call? { PointerKept(c, s.disk, s.procs[e.pid].req, s.procs[e.pid].pc, e.ch, k); }
  }

  lemma TidyStep(c: Config, s: State, e: Event, t: Target)
    requires Safe(c, s) && Allowed(c, s, e) && TidyAt(s.disk, t) && !e.Outage?
    ensures TidyAt(Apply(c, s, e).disk, t)
  {
    if e.Call? { TidyKept(c, s.disk, s.procs[e.pid].req, s.procs[e.pid].pc, e.ch, t); }
  }

  /** What survives a power loss: a settled receipt is durable, and a pointer is not without its receipt. */
  ghost predicate Lasting(c: Config, s: State, k: Key) {
    PointerOk(c, s.disk, k) && Anchored(s.disk, k, Mending(s))
  }

  lemma LastingCall(c: Config, s: State, pid: nat, ch: Choice, k: Key)
    requires Safe(c, s) && Allowed(c, s, Call(pid, ch)) && Lasting(c, s, k)
    ensures Lasting(c, Apply(c, s, Call(pid, ch)), k)
  {
    var p := s.procs[pid];
    PointerKept(c, s.disk, p.req, p.pc, ch, k);
    if Holding(p.pc) {
      AnchoredKept(c, s.disk, p.req, p.pc, ch, k);
    }
  }

  lemma LastingOutage(c: Config, s: State, left: Disk, k: Key)
    requires Safe(c, s) && Allowed(c, s, Outage(left)) && Lasting(c, s, k)
    ensures Lasting(c, Apply(c, s, Outage(left)), k)
  {
    var d, p, r := s.disk, Target(Pointer, k), Target(Receipt, k);
    if Final(p) in left.names {
      assert Published(c, d, p) && Published(c, d, r);
    }
  }

  lemma LastingStep(c: Config, s: State, e: Event, k: Key)
    requires Safe(c, s) && Allowed(c, s, e) && Lasting(c, s, k) && !KilledInRepair(s, e, k)
    ensures Lasting(c, Apply(c, s, e), k)
  {
    match e
    case Spawn(_, _) =>
    case Call(pid, ch) => LastingCall(c, s, pid, ch, k);
    case Kill(_) =>
    case Back(_) =>
    case Outage(left) => LastingOutage(c, s, left, k);
  }

  // ---- whole runs ----

  ghost predicate NoOutage(events: seq<Event>) {
    forall i :: 0 <= i < |events| ==> !events[i].Outage?
  }

  /** No process of this incident is killed between the two calls of its receipt's repair. */
  ghost predicate NoRepairKilled(states: seq<State>, events: seq<Event>, k: Key)
    requires |states| == |events| + 1
  {
    forall i :: 0 <= i < |events| ==> !KilledInRepair(states[i], events[i], k)
  }

  /** In every interleaving, with kills and power losses at any point, every state is safe. */
  lemma {:induction false} EveryRunIsSafe(c: Config, states: seq<State>, events: seq<Event>, i: nat)
    requires Lawful(c) && IsRun(c, states, events) && i < |states|
    ensures Safe(c, states[i])
  {
    if i > 0 {
      EveryRunIsSafe(c, states, events, i - 1);
      SafeStep(c, states[i - 1], events[i - 1]);
    }
  }

  /** Mode 0600, at most 64 MiB, and all of it on the disk. */
  ghost predicate PrivateAndSynced(d: Disk, p: Path) {
    && p in d.names && d.names[p] in d.inodes
    && var f := d.inodes[d.names[p]]; f.synced && f.mode == 0x180 && |f.data| <= 67108864
  }

  /** Each final name, in the cache and on the disk alike, is absent or bound to a synced private file that
      holds a whole payload of its kind, whatever the umask. And unless the umask clears the owner's bits, no
      process is in the error branch of a failed internal check (a colliding staging name, an orphan or alias
      that cannot be removed, a wrong link count). */
  lemma FinalsAreWhole(c: Config, states: seq<State>, events: seq<Event>, i: nat)
    requires Lawful(c) && IsRun(c, states, events) && i < |states|
    ensures var d := states[i].disk;
      && (forall t :: Final(t) in d.names ==> Allocated(c, d) && Published(c, d, t))
      && (forall t :: Final(t) in d.names ==> PrivateAndSynced(d, Final(t)))
      && (forall t :: Final(t) in d.durable ==> Final(t) in d.names && d.names[Final(t)] == d.durable[Final(t)])
    ensures forall pid :: pid in states[i].procs ==>
      && (c.createMode == FILE_MODE && states[i].procs[pid].pc.Leaving? ==> states[i].procs[pid].pc.fault != Some(Internal))
      && (states[i].procs[pid].pc.Closing? && states[i].procs[pid].pc.close.Clean? ==> states[i].procs[pid].pc.close.ok)
  {
    EveryRunIsSafe(c, states, events, i);
    var d := states[i].disk;
    forall t | Final(t) in d.names ensures PrivateAndSynced(d, Final(t)) {
      assert d.At(Final(t), d.names[Final(t)]) && Published(c, d, t);
    }
  }

  /** Whatever token is drawn, the exclusive creation of a staging file cannot collide. */
  lemma StagingNameIsFree(c: Config, states: seq<State>, events: seq<Event>, i: nat, pid: nat, token: string)
    requires Lawful(c) && IsRun(c, states, events) && i < |states|
    requires pid in states[i].procs && states[i].procs[pid].pc.Sweeping? && states[i].procs[pid].pc.sweep.Create?
    ensures Stage(TargetOf(states[i].procs[pid].req, states[i].procs[pid].pc.w), token) !in states[i].disk.names
  {
    EveryRunIsSafe(c, states, events, i);
  }

  /** By the last check of a new file its staging name is gone, and its directory is on the disk as it stands; so the sync
      of the clean-up has nothing left to do. */
  ghost predicate StagingGone(d: Disk, req: Request, pc: Pc) {
    pc.Closing? && (pc.close.Confirm? || pc.close.Clean? || pc.close.CleanSync?) ==>
      var t := TargetOf(req, pc.w);
      && NoStage(d, t)
      && forall p :: DirectoryOf(p) == Home(t) ==>
           (p in d.names <==> p in d.durable) && (p in d.names ==> d.durable[p] == d.names[p])
  }

  lemma GoneCall(c: Config, d: Disk, req: Request, pc: Pc, ch: Choice)
    requires DiskOk(c, d) && PcOk(c, d, req, pc) && Enabled(d, req, pc, ch) && StagingGone(d, req, pc)
    ensures var (d', pc') := Next(c, d, req, pc, ch); StagingGone(d', req, pc')
  {
  }

  lemma GoneStep(c: Config, s: State, e: Event)
    requires Safe(c, s) && Allowed(c, s, e)
    requires forall pid :: pid in s.procs ==> StagingGone(s.disk, s.procs[pid].req, s.procs[pid].pc)
    ensures var s' := Apply(c, s, e);
      forall pid :: pid in s'.procs ==> StagingGone(s'.disk, s'.procs[pid].req, s'.procs[pid].pc)
  {
    if e.Call? {
      var p := s.procs[e.pid];
      GoneCall(c, s.disk, p.req, p.pc, e.ch);
      forall q | q in s.procs && q != e.pid ensures !s.procs[q].pc.Closing? {
        assert Holding(s.procs[q].pc) ==> s.lock == Some(q);
      }
    }
  }

  lemma {:induction false} StagingIsGone(c: Config, states: seq<State>, events: seq<Event>, i: nat)
    requires Lawful(c) && IsRun(c, states, events) && i < |states|
    ensures forall pid :: pid in states[i].procs ==> StagingGone(states[i].disk, states[i].procs[pid].req, states[i].procs[pid].pc)
  {
    if i > 0 {
      StagingIsGone(c, states, events, i - 1);
      EveryRunIsSafe(c, states, events, i - 1);
      GoneStep(c, states[i - 1], events[i - 1]);
    }
  }

  /** Kills alone: a queue pointer exists only beside its receipt and names the hash of exactly those
      bytes, whoever wrote them; and staging names stay tidy. */
  lemma {:induction false} KillsKeepOrder(c: Config, states: seq<State>, events: seq<Event>, i: nat)
    requires Lawful(c) && IsRun(c, states, events) && NoOutage(events) && i < |states|
    ensures PointersMatch(c, states[i].disk) && Tidy(states[i].disk)
  {
    if i > 0 {
      KillsKeepOrder(c, states, events, i - 1);
      EveryRunIsSafe(c, states, events, i - 1);
      forall k ensures PointerOk(c, states[i].disk, k) { PointerStep(c, states[i - 1], events[i - 1], k); }
      forall t ensures TidyAt(states[i].disk, t) { TidyStep(c, states[i - 1], events[i - 1], t); }
    }
  }

  /** Power losses too, incident by incident: as long as no process of the incident is killed between the two
      calls of its receipt's repair, its pointer matches its receipt in the cache and on the disk, and a durable
      pointer has a durable receipt. What happens to other incidents does not matter. */
  lemma {:induction false} PowerLossKeepsReceipts(c: Config, states: seq<State>, events: seq<Event>, i: nat, k: Key)
    requires Lawful(c) && IsRun(c, states, events) && i < |states|
    requires NoRepairKilled(states, events, k)
    ensures Lasting(c, states[i], k)
    ensures Final(Target(Pointer, k)) in states[i].disk.durable ==>
      Final(Target(Receipt, k)) in states[i].disk.durable && PointerMatches(c, states[i].disk, k)
  {
    if i > 0 {
      PowerLossKeepsReceipts(c, states, events, i - 1, k);
      EveryRunIsSafe(c, states, events, i - 1);
      LastingStep(c, states[i - 1], events[i - 1], k);
    }
    EveryRunIsSafe(c, states, events, i);
  }

  /** So without any such kill, whoever's, it holds of all incidents. */
  lemma AllReceiptsAreKept(c: Config, states: seq<State>, events: seq<Event>, i: nat)
    requires Lawful(c) && IsRun(c, states, events) && i < |states|
    requires forall k :: NoRepairKilled(states, events, k)
    ensures PointersMatch(c, states[i].disk)
    ensures forall k :: Final(Target(Pointer, k)) in states[i].disk.durable ==>
      Final(Target(Receipt, k)) in states[i].disk.durable && PointerMatches(c, states[i].disk, k)
  {
    forall k
      ensures PointerOk(c, states[i].disk, k)
      ensures Final(Target(Pointer, k)) in states[i].disk.durable ==>
        Final(Target(Receipt, k)) in states[i].disk.durable && PointerMatches(c, states[i].disk, k)
    {
      PowerLossKeepsReceipts(c, states, events, i, k);
    }
  }

  /** The first publication wins: what is bound stays bound, to the same inode with the same bytes, in every
      later state; across a power loss this holds of what was durable. */
  lemma {:induction false} PublishedForever(c: Config, states: seq<State>, events: seq<Event>, i: nat, j: nat, t: Target)
    requires Lawful(c) && IsRun(c, states, events) && i <= j < |states|
    requires Final(t) in states[i].disk.names
    requires Final(t) in states[i].disk.durable || forall k :: i <= k < j ==> !events[k].Outage?
    ensures SameFile(states[i].disk, states[j].disk, t)
    ensures Final(t) in states[i].disk.durable ==> Final(t) in states[j].disk.durable
  {
    EveryRunIsSafe(c, states, events, i);
    if i == j {
      assert states[i].disk.At(Final(t), states[i].disk.names[Final(t)]);
    } else {
      PublishedForever(c, states, events, i, j - 1, t);
      EveryRunIsSafe(c, states, events, j - 1);
      FileKept(c, states[j - 1], events[j - 1], t);
    }
  }

  lemma FileKept(c: Config, s: State, e: Event, t: Target)
    requires Safe(c, s) && Allowed(c, s, e) && Final(t) in s.disk.names
    requires Final(t) in s.disk.durable || !e.Outage?
    ensures SameFile(s.disk, Apply(c, s, e).disk, t)
    ensures Final(t) in s.disk.durable ==> Final(t) in Apply(c, s, e).disk.durable
  {
    assert Published(c, s.disk, t);
    assert s.disk.At(Final(t), s.disk.names[Final(t)]);
    if e.Call? {
      var p := s.procs[e.pid];
      NextFrame(c, s.disk, p.req, p.pc, e.ch);
      if Final(t) in s.disk.durable { NextDurable(c, s.disk, p.req, p.pc, e.ch, t); }
    }
  }

  lemma NextDurable(c: Config, d: Disk, req: Request, pc: Pc, ch: Choice, t: Target)
    requires DiskOk(c, d) && Enabled(d, req, pc, ch) && Final(t) in d.durable
    ensures Final(t) in Next(c, d, req, pc, ch).0.durable
  {
    assert Final(t) in d.names;
  }
}
