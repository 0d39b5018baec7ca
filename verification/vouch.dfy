/** What a publisher has established by the time it is somewhere: the manifest it read is still there, and the
    receipt it goes on from is one its request accepts. */
module Vouching {
  import opened Tree
  import opened Wrappers
  import opened Machine
  import opened Invariant
  import opened Runs

  // ---- files the publisher does not own ----

  ghost predicate SameOther(d: Disk, d': Disk, m: Path) {
    && m in d.names && m in d'.names && d'.names[m] == d.names[m]
    && d.names[m] in d.inodes && d.names[m] in d'.inodes && d'.inodes[d.names[m]] == d.inodes[d.names[m]]
    && d'.Links(d.names[m]) == d.Links(d.names[m])
  }

  lemma SameNames(d: Disk, d': Disk, m: Path)
    requires m in d.names && m in d'.names && d'.names[m] == d.names[m]
    requires d.names[m] in d.inodes && d.names[m] in d'.inodes && d'.inodes[d.names[m]] == d.inodes[d.names[m]]
    requires forall p :: p in d.names && p in d'.names ==> d'.names[p] == d.names[p]
    requires forall p :: p in d.names && p !in d'.names ==> d.names[p] != d.names[m]
    requires forall p :: p in d'.names && p !in d.names ==> d'.names[p] != d.names[m]
    ensures SameOther(d, d', m)
  {
    var ino := d.names[m];
    assert (set p | p in d'.names && d'.names[p] == ino) == (set p | p in d.names && d.names[p] == ino);
  }

  lemma StagingSpares(c: Config, d: Disk, t: Target, w: Work, token: string, ino: nat, step: StageStep, ch: Choice, m: Path)
    requires DiskOk(c, d) && StagingOk(d, t, w.payload, token, ino, step) && m.Other? && m in d.names
    requires step.Write? && step.sent < |w.payload| ==> 1 <= ch.chunk <= |w.payload| - step.sent
    ensures SameOther(d, NextStaging(d, t, w, token, ino, step, ch).0, m)
  {
    assert d.At(m, d.names[m]) && d.At(Stage(t, token), ino);
    SameNames(d, NextStaging(d, t, w, token, ino, step, ch).0, m);
  }

  lemma SweepingSpares(c: Config, d: Disk, t: Target, w: Work, step: SweepStep, ch: Choice, m: Path)
    requires DiskOk(c, d) && m.Other? && m in d.names
    requires step.Sweep? && step.todo != {} ==> ch.pick in step.todo
    requires step.Create? ==> ch.ino !in d.inodes
    ensures SameOther(d, NextSweeping(c, d, t, w, step, ch).0, m)
  {
    assert d.At(m, d.names[m]);
    if step.Sweep? && ch.pick in d.names { assert d.At(ch.pick, d.names[ch.pick]); }
    SameNames(d, NextSweeping(c, d, t, w, step, ch).0, m);
  }

  lemma UnlinkSpares(c: Config, d: Disk, d': Disk, p: Path, m: Path)
    requires DiskOk(c, d) && m.Other? && m in d.names && p.Stage?
    requires d'.inodes == d.inodes && (d'.names == d.names || d'.names == d.names - {p})
    ensures SameOther(d, d', m)
  {
    assert d.At(m, d.names[m]);
    if p in d.names { assert d.At(p, d.names[p]); }
    SameNames(d, d', m);
  }

  /** A call leaves alone the inode and the link count of a file the publisher does not own. */
  lemma OthersKept(c: Config, d: Disk, req: Request, pc: Pc, ch: Choice, m: Path)
    requires DiskOk(c, d) && PcOk(c, d, req, pc) && Enabled(d, req, pc, ch)
    requires m.Other? && m in d.names
    ensures SameOther(d, Next(c, d, req, pc, ch).0, m)
  {
    assert d.At(m, d.names[m]);
    match pc
    case Sweeping(w, step) => SweepingSpares(c, d, TargetOf(req, w), w, step, ch, m);
    case Staging(w, token, ino, step) => StagingSpares(c, d, TargetOf(req, w), w, token, ino, step, ch, m);
    case Closing(w, token, ino, step) =>
      UnlinkSpares(c, d, NextClosing(c, d, req, w, token, ino, step).0, Stage(TargetOf(req, w), token), m);
    case Repairing(w, existing, step) =>
      UnlinkSpares(c, d, NextRepairing(c, d, req, w, existing, step, ch).0,
                   Stage(TargetOf(req, w), if step.Detach? then step.token else ""), m);
    case _ => UnlinkSpares(c, d, d, Stage(Target(Receipt, req.key), ""), m);
  }

  // ---- the manifest and the receipt ----

  /** What a caller can see beforehand: the manifest is readable, and a receipt already there is one this
      request accepts. */
  ghost predicate Acceptable(c: Config, d: Disk, req: Request) {
    var r := Final(Target(Receipt, req.key));
    && d.Readable(ManifestPath(req.key), {1})
    && (r in d.names && d.names[r] in d.inodes ==> c.accepts(req, d.Data(ManifestPath(req.key)), d.Data(r)))
  }

  ghost predicate ManifestIs(d: Disk, k: Key, manifest: Bytes) {
    d.Readable(ManifestPath(k), {1}) && d.Data(ManifestPath(k)) == manifest
  }

  ghost predicate ReceiptIsAccepted(c: Config, d: Disk, req: Request, manifest: Bytes) {
    var r := Final(Target(Receipt, req.key));
    r in d.names && d.names[r] in d.inodes && c.accepts(req, manifest, d.Data(r))
  }

  predicate Working(pc: Pc) {
    pc.Examine? || pc.Sweeping? || pc.Staging? || pc.Closing? || pc.Repairing?
  }

  ghost predicate Vouched(c: Config, d: Disk, req: Request, pc: Pc) {
    Working(pc) ==>
      && ManifestIs(d, req.key, pc.w.manifest)
      && (pc.w.kind.Pointer? ==> ReceiptIsAccepted(c, d, req, pc.w.manifest))
      && (pc.Repairing? && pc.w.kind.Receipt? ==> c.accepts(req, pc.w.manifest, pc.existing))
  }

  lemma ManifestKept(c: Config, d: Disk, req: Request, pc: Pc, ch: Choice, manifest: Bytes)
    requires DiskOk(c, d) && PcOk(c, d, req, pc) && Enabled(d, req, pc, ch)
    requires ManifestIs(d, req.key, manifest)
    ensures ManifestIs(Next(c, d, req, pc, ch).0, req.key, manifest)
  {
    OthersKept(c, d, req, pc, ch, ManifestPath(req.key));
    assert SameOther(d, Next(c, d, req, pc, ch).0, ManifestPath(req.key));
  }

  lemma AcceptedKept(c: Config, d: Disk, req: Request, pc: Pc, ch: Choice, manifest: Bytes)
    requires DiskOk(c, d) && PcOk(c, d, req, pc) && Enabled(d, req, pc, ch)
    requires ReceiptIsAccepted(c, d, req, manifest)
    ensures ReceiptIsAccepted(c, Next(c, d, req, pc, ch).0, req, manifest)
  {
    NextFrame(c, d, req, pc, ch);
    assert SameFile(d, Next(c, d, req, pc, ch).0, Target(Receipt, req.key));
  }

  /** The receipt a process has just finished with is one that its request accepts. */
  lemma FinishIsAccepted(c: Config, d: Disk, req: Request, w: Work, result: Bytes)
    requires Lawful(c) && c.admits(req) && DiskOk(c, d) && w.kind.Receipt? && WorkOk(c, d, req, w)
    requires Holds(d, TargetOf(req, w), result) && (result == w.payload || c.accepts(req, w.manifest, result))
    ensures ReceiptIsAccepted(c, d, req, w.manifest)
  {
  }

  /** A call that ends the work on a receipt vouches for it. */
  lemma VouchedFinish(c: Config, d: Disk, req: Request, pc: Pc, ch: Choice)
    requires Lawful(c) && c.admits(req)
    requires DiskOk(c, d) && PcOk(c, d, req, pc) && Enabled(d, req, pc, ch) && Vouched(c, d, req, pc)
    requires (pc.Closing? || pc.Repairing?) && pc.w.kind.Receipt?
    ensures ReceiptIsAccepted(c, Next(c, d, req, pc, ch).0, req, pc.w.manifest)
  {
    FinishIsAccepted(c, d, req, pc.w, if pc.Closing? then pc.w.payload else pc.existing);
    AcceptedKept(c, d, req, pc, ch, pc.w.manifest);
  }

  lemma VouchedCall(c: Config, d: Disk, req: Request, pc: Pc, ch: Choice)
    requires Lawful(c) && c.admits(req)
    requires DiskOk(c, d) && PcOk(c, d, req, pc) && Enabled(d, req, pc, ch) && Vouched(c, d, req, pc)
    ensures var (d', pc') := Next(c, d, req, pc, ch); Vouched(c, d', req, pc')
  {
    if Working(pc) {
      ManifestKept(c, d, req, pc, ch, pc.w.manifest);
      if pc.w.kind.Pointer? {
        AcceptedKept(c, d, req, pc, ch, pc.w.manifest);
      } else if pc.Closing? || pc.Repairing? {
        VouchedFinish(c, d, req, pc, ch);
      }
    }
  }

  /** In every state of every run. */
  lemma {:induction false} EveryRunIsVouched(c: Config, states: seq<State>, events: seq<Event>, i: nat)
    requires Lawful(c) && IsRun(c, states, events) && i < |states|
    ensures forall pid :: pid in states[i].procs ==> Vouched(c, states[i].disk, states[i].procs[pid].req, states[i].procs[pid].pc)
  {
    if i > 0 {
      EveryRunIsVouched(c, states, events, i - 1);
      EveryRunIsSafe(c, states, events, i - 1);
      VouchedStep(c, states[i - 1], events[i - 1]);
    }
  }

  ghost predicate AllVouched(c: Config, s: State) {
    forall pid :: pid in s.procs ==> Vouched(c, s.disk, s.procs[pid].req, s.procs[pid].pc)
  }

  lemma VouchedStep(c: Config, s: State, e: Event)
    requires Lawful(c) && Safe(c, s) && Allowed(c, s, e) && AllVouched(c, s)
    ensures AllVouched(c, Apply(c, s, e))
  {
    match e
    case Call(pid, ch) =>
      VouchedCall(c, s.disk, s.procs[pid].req, s.procs[pid].pc, ch);
      forall q | q in s.procs && q != pid ensures !Working(s.procs[q].pc) {
        assert Holding(s.procs[q].pc) ==> s.lock == Some(q);
      }
    case _ =>
  }

  /** Past the look at its first file, a process has made sure that its request is acceptable on the disk as it is. */
  lemma WorkingIsAcceptable(c: Config, d: Disk, req: Request, pc: Pc)
    requires Lawful(c) && c.admits(req) && DiskOk(c, d) && PcOk(c, d, req, pc) && Vouched(c, d, req, pc)
    requires Working(pc) && (pc.Examine? ==> pc.w.kind.Pointer?)
    ensures Acceptable(c, d, req)
  {
    if pc.Closing? && pc.w.kind.Receipt? { FinishIsAccepted(c, d, req, pc.w, pc.w.payload); }
  }
}
