/** The proofs assume that a file created with O_CREAT and mode 0600 has mode 0600, that is, that the umask does
    not clear the owner's bits. Under any other umask a kill before the fchmod blocks the incident: until a power loss,
    which drops the orphan exactly if its entry was never written back, and otherwise for good. */
module Umask {
  import opened Tree
  import opened Wrappers
  import opened Machine
  import opened Invariant
  import opened Runs
  import opened Recovery
  import opened PowerLoss

  /** An orphan with a foreign mode stands where the receipt is to be staged. */
  ghost predicate Blocked(d: Disk, k: Key, token: string) {
    var r := Target(Receipt, k);
    && Final(r) !in d.names && Stage(r, token) in d.names && d.names[Stage(r, token)] in d.inodes
    && d.inodes[d.names[Stage(r, token)]].mode != FILE_MODE
  }

  ghost predicate Stuck(k: Key, token: string, pc: Pc) {
    match pc
    case Waiting | Reading => true
    case Examine(w) => w.kind.Receipt?
    case Sweeping(w, step) => w.kind.Receipt? && step.Sweep? && Stage(Target(Receipt, k), token) in step.todo
    case Leaving(fault) => fault != None
    case Exited(fault) => fault != None
    case _ => false
  }

  /** The orphan's entry is on the disk as it stands. */
  ghost predicate OrphanOnDisk(d: Disk, k: Key, token: string) {
    var p := Stage(Target(Receipt, k), token);
    p in d.names && p in d.durable && d.durable[p] == d.names[p]
  }

  lemma StuckCall(c: Config, d: Disk, req: Request, pc: Pc, ch: Choice, token: string)
    requires Enabled(d, req, pc, ch) && Blocked(d, req.key, token) && Stuck(req.key, token, pc)
    ensures var (d', pc') := Next(c, d, req, pc, ch); Blocked(d', req.key, token) && Stuck(req.key, token, pc')
    ensures OrphanOnDisk(d, req.key, token) ==> OrphanOnDisk(Next(c, d, req, pc, ch).0, req.key, token)
  {
    if pc.Examine? { assert Stage(Target(Receipt, req.key), token) in d.Entries(Home(Target(Receipt, req.key))); }
  }

  lemma SparedStaging(c: Config, d: Disk, t: Target, w: Work, token: string, ino: nat, step: StageStep, ch: Choice, p: Path)
    requires DiskOk(c, d) && StagingOk(d, t, w.payload, token, ino, step)
    requires step.Write? && step.sent < |w.payload| ==> 1 <= ch.chunk <= |w.payload| - step.sent
    requires p.Stage? && p.target != t && p in d.names && d.names[p] in d.inodes
    ensures var d' := NextStaging(d, t, w, token, ino, step, ch).0; d.names[p] in d'.inodes && d'.inodes[d.names[p]] == d.inodes[d.names[p]]
  {
    assert d.At(p, d.names[p]);
  }

  /** A call for another incident does not touch the orphan. */
  lemma SparedCall(c: Config, d: Disk, req: Request, pc: Pc, ch: Choice, k: Key, token: string)
    requires DiskOk(c, d) && PcOk(c, d, req, pc) && Enabled(d, req, pc, ch)
    requires req.key != k && Blocked(d, k, token)
    ensures var d' := Next(c, d, req, pc, ch).0;
      Blocked(d', k, token) && (OrphanOnDisk(d, k, token) ==> OrphanOnDisk(d', k, token))
  {
    var p := Stage(Target(Receipt, k), token);
    NextFrame(c, d, req, pc, ch);
    match pc
    case Staging(w, tok, ino, step) => SparedStaging(c, d, TargetOf(req, w), w, tok, ino, step, ch, p);
    case _ =>
  }

  /** A power loss leaves the incident blocked exactly if the entry it brings back is that of a file with another mode;
      so it does if the orphan's entry was on the disk, and does not if the disk knew none. */
  lemma OutageOnOrphan(c: Config, d: Disk, left: Disk, k: Key, token: string)
    requires DiskOk(c, d) && Blocked(d, k, token) && AfterOutage(d, left, c.createMode)
    ensures var p := Stage(Target(Receipt, k), token);
      Blocked(left, k, token) <==> p in d.durable && d.durable[p] in left.inodes && left.inodes[d.durable[p]].mode != FILE_MODE
    ensures OrphanOnDisk(d, k, token) ==> Blocked(left, k, token) && OrphanOnDisk(left, k, token)
  {
    var p := Stage(Target(Receipt, k), token);
    assert d.At(p, d.names[p]);
  }

  /** Nobody of the incident can get past the orphan; who had left before, `s0` tells. */
  ghost predicate AllStuck(s0: State, s: State, k: Key, token: string) {
    forall pid :: pid in s.procs && s.procs[pid].req.key == k ==>
      || Stuck(k, token, s.procs[pid].pc)
      || (s.procs[pid].pc.Exited? && pid in s0.procs && s0.procs[pid] == s.procs[pid])
  }

  lemma BlockedStep(c: Config, s0: State, s: State, e: Event, k: Key, token: string)
    requires Safe(c, s) && Allowed(c, s, e) && Blocked(s.disk, k, token) && AllStuck(s0, s, k, token)
    requires OrphanOnDisk(s.disk, k, token) || !e.Outage?
    ensures var s' := Apply(c, s, e);
      && Blocked(s'.disk, k, token) && AllStuck(s0, s', k, token)
      && (OrphanOnDisk(s.disk, k, token) ==> OrphanOnDisk(s'.disk, k, token))
  {
    match e
    case Call(pid, ch) =>
      var p := s.procs[pid];
      if p.req.key == k {
        StuckCall(c, s.disk, p.req, p.pc, ch, token);
      } else {
        SparedCall(c, s.disk, p.req, p.pc, ch, k, token);
      }
    case Outage(left) => OutageOnOrphan(c, s.disk, left, k, token);
    case _ =>
  }

  /** From a state in which the lock is free, whoever starts, works or dies: no process of the incident succeeds, and
      none clears the orphan. Kills and write-backs do not matter; nor do power losses if the orphan's entry is on the
      disk. */
  lemma {:induction false} BlockedForever(c: Config, states: seq<State>, events: seq<Event>, i: nat, k: Key, token: string)
    requires Lawful(c) && IsStretch(c, states, events) && Safe(c, states[0]) && i < |states|
    requires states[0].lock == None && Blocked(states[0].disk, k, token)
    requires OrphanOnDisk(states[0].disk, k, token) || NoOutage(events)
    ensures Safe(c, states[i]) && Blocked(states[i].disk, k, token) && AllStuck(states[0], states[i], k, token)
    ensures OrphanOnDisk(states[0].disk, k, token) ==> OrphanOnDisk(states[i].disk, k, token)
    ensures forall pid :: pid in states[i].procs && states[i].procs[pid].req.key == k && states[i].procs[pid].pc == Exited(None) ==>
      pid in states[0].procs && states[0].procs[pid] == states[i].procs[pid]
  {
    if i == 0 {
      forall pid | pid in states[0].procs ensures states[0].procs[pid].pc.Waiting? || states[0].procs[pid].pc.Exited? {
        assert !Holding(states[0].procs[pid].pc);
      }
    } else {
      BlockedForever(c, states, events, i - 1, k, token);
      SafeStep(c, states[i - 1], events[i - 1]);
      BlockedStep(c, states[0], states[i - 1], events[i - 1], k, token);
    }
  }

  /** A kill between the creation and the fchmod leaves such an orphan, for every request and manifest; `written` says
      whether the kernel gets to write its entry back. */
  lemma UmaskCanBlock(c: Config, req: Request, manifest: Bytes, written: bool) returns (s: State)
    requires c.createMode != FILE_MODE && c.admits(req) && |manifest| <= MAX_FILE_BYTES
    ensures Reachable(c, s) && s.lock == None && Blocked(s.disk, req.key, "")
    ensures if written then OrphanOnDisk(s.disk, req.key, "") else Stage(Target(Receipt, req.key), "") !in s.disk.durable
  {
    var m := ManifestPath(req.key);
    var d := Disk(map[0 := Inode(manifest, FILE_MODE, true)], map[m := 0], map[m := 0]);
    var any := Choice(0, m, "", 1, 0);
    var r, w := Target(Receipt, req.key), Work(Receipt, c.receipt(req, manifest, 0), manifest);
    FirstState(c, d);
    OneLink(d, 0, m);
    ReachExamine(c, req, w, d, State(None, map[], d));
    assert d.Entries(Home(r)) == {};
    CreateAlone(c, req, w, d, any);
    s := KilledAlone(c, req, Staging(w, "", 1, Chmod), d.Create(Stage(r, ""), 1, c.createMode));
    if written {
      ReachStep(c, s, Back(Stage(r, "")));
      s := Apply(c, s, Back(Stage(r, "")));
    }
  }
}
