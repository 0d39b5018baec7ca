/** The invariant of the machine, and that every system call keeps it. */
module Invariant {
  import opened Tree
  import opened Wrappers
  import opened Machine

  ghost predicate IsReceipt(c: Config, k: Key, data: Bytes) {
    exists r: Request, m: Bytes, now: Instant :: c.admits(r) && r.key == k && data == c.receipt(r, m, now)
  }

  ghost predicate IsReceiptOf(c: Config, req: Request, m: Bytes, data: Bytes) {
    exists now: Instant :: data == c.receipt(req, m, now)
  }

  /** A whole payload of the kind of file it is, never a part of one. */
  ghost predicate Complete(c: Config, t: Target, data: Bytes) {
    && |data| <= MAX_FILE_BYTES
    && match t.kind
       case Receipt => IsReceipt(c, t.key, data)
       case Pointer => exists x: Bytes :: IsReceipt(c, t.key, x) && data == c.pointer(t.key, x)
  }

  predicate Related(p: Path, q: Path) {
    || (p.Final? && q.Stage? && p.target == q.target)
    || (p.Stage? && q.Final? && p.target == q.target)
    || (p.Other? && q.Other?)
  }

  /** Distinct names of one inode are the two names of one published file. */
  ghost predicate Separate(d: Disk) {
    forall p, q, i :: d.At(p, i) && d.At(q, i) ==> p == q || Related(p, q)
  }

  /** Every name, on either side of the cache, has its inode; a staging file has one of the two modes it is given. */
  ghost predicate Allocated(c: Config, d: Disk) {
    forall p, i :: d.At(p, i) ==> i in d.inodes && (p.Stage? ==> d.inodes[i].mode in {FILE_MODE, c.createMode})
  }

  /** A bound final name holds its whole payload, and the payload has reached the disk. */
  ghost predicate Published(c: Config, d: Disk, t: Target)
    requires Allocated(c, d) && Final(t) in d.names
  {
    assert d.At(Final(t), d.names[Final(t)]);
    var f := d.inodes[d.names[Final(t)]];
    f.synced && f.mode == FILE_MODE && Complete(c, t, f.data)
  }

  ghost predicate DurableFinals(d: Disk) {
    forall t :: Final(t) in d.durable ==> Final(t) in d.names && d.names[Final(t)] == d.durable[Final(t)]
  }

  ghost predicate DiskOk(c: Config, d: Disk) {
    && Allocated(c, d)
    && Separate(d)
    && DurableFinals(d)
    && forall t :: Final(t) in d.names ==> Published(c, d, t)
  }

  /** No staging name of the target shares its inode: the link count is one. */
  ghost predicate Single(d: Disk, t: Target) {
    && Final(t) in d.names
    && forall tok :: Stage(t, tok) in d.names ==> d.names[Stage(t, tok)] != d.names[Final(t)]
  }

  ghost predicate NoStage(d: Disk, t: Target) {
    forall tok :: Stage(t, tok) !in d.names
  }

  /** The process has created `Stage(t, token)`, and nothing else is or was bound to its inode. */
  ghost predicate Staged(d: Disk, t: Target, token: string, ino: nat) {
    && Final(t) !in d.names
    && Stage(t, token) in d.names && d.names[Stage(t, token)] == ino && ino in d.inodes
    && (forall tok :: Stage(t, tok) in d.names ==> tok == token)
    && (forall p :: d.At(p, ino) ==> p == Stage(t, token))
  }

  ghost predicate Holds(d: Disk, t: Target, data: Bytes) {
    Final(t) in d.names && d.names[Final(t)] in d.inodes && d.Data(Final(t)) == data
  }

  ghost predicate WorkOk(c: Config, d: Disk, req: Request, w: Work) {
    && Complete(c, TargetOf(req, w), w.payload)
    && match w.kind
       case Receipt => IsReceiptOf(c, req, w.manifest, w.payload)
       case Pointer =>
         var r := Target(Receipt, req.key);
         Single(d, r) && d.names[Final(r)] in d.inodes && w.payload == c.pointer(req.key, d.Data(Final(r)))
  }

  ghost predicate Linked(d: Disk, t: Target, token: string, ino: nat) {
    && Final(t) in d.names && d.names[Final(t)] == ino
    && Stage(t, token) in d.names && d.names[Stage(t, token)] == ino
    && (forall tok :: Stage(t, tok) in d.names ==> tok == token)
  }

  // ---- what holds between two system calls of the lock holder ----

  ghost predicate SweepingOk(d: Disk, t: Target, step: SweepStep) {
    && Final(t) !in d.names
    && match step
       case Sweep(todo, _) =>
         && (forall p :: p in todo ==> p in d.names)
         && (forall tok :: Stage(t, tok) in d.names ==> Stage(t, tok) in todo)
       case _ => NoStage(d, t)
  }

  ghost predicate StagingOk(d: Disk, t: Target, payload: Bytes, token: string, ino: nat, step: StageStep) {
    && Staged(d, t, token, ino)
    && match step
       case Chmod => d.inodes[ino].data == []
       case Write(sent) => d.inodes[ino].mode == FILE_MODE && sent <= |payload| && d.inodes[ino].data == payload[..sent]
       case SyncFile => d.inodes[ino].mode == FILE_MODE && d.inodes[ino].data == payload
       case Link => d.inodes[ino].mode == FILE_MODE && d.inodes[ino].data == payload && d.inodes[ino].synced
  }

  /** In the branches of an internal error nothing can hold: no process is ever in one. */
  ghost predicate ClosingOk(d: Disk, t: Target, payload: Bytes, token: string, ino: nat, step: CloseStep) {
    && Holds(d, t, payload)
    && match step
       case SyncLink => Linked(d, t, token, ino)
       case Unstage => Linked(d, t, token, ino) && Final(t) in d.durable
       case SyncUnstage => NoStage(d, t) && Final(t) in d.durable && d.names[Final(t)] == ino
       case Confirm => NoStage(d, t) && Final(t) in d.durable && d.names[Final(t)] == ino
       case Clean(ok) => ok && NoStage(d, t) && Final(t) in d.durable
       case CleanSync(ok) => ok && NoStage(d, t) && Final(t) in d.durable
  }

  ghost predicate RepairingOk(d: Disk, t: Target, existing: Bytes, step: RepairStep) {
    && Holds(d, t, existing)
    && match step
       case Inspect => true
       case Detach(token) => Stage(t, token) in d.names && d.names[Stage(t, token)] == d.names[Final(t)]
       case DetachSync => Single(d, t)
       case Settle => Single(d, t)
  }

  /** The umask is the one thing that can make an internal check fail. */
  ghost predicate LeavingOk(c: Config, d: Disk, k: Key, fault: Option<Fault>) {
    && (c.createMode == FILE_MODE ==> fault != Some(Internal))
    && (fault == None ==> Single(d, Target(Receipt, k)) && Single(d, Target(Pointer, k)))
  }

  ghost predicate PcOk(c: Config, d: Disk, req: Request, pc: Pc) {
    match pc
    case Waiting | Reading | Exited(_) => true
    case Examine(w) => WorkOk(c, d, req, w)
    case Sweeping(w, step) => WorkOk(c, d, req, w) && SweepingOk(d, TargetOf(req, w), step)
    case Staging(w, token, ino, step) =>
      WorkOk(c, d, req, w) && StagingOk(d, TargetOf(req, w), w.payload, token, ino, step)
    case Closing(w, token, ino, step) =>
      WorkOk(c, d, req, w) && ClosingOk(d, TargetOf(req, w), w.payload, token, ino, step)
    case Repairing(w, existing, step) => WorkOk(c, d, req, w) && RepairingOk(d, TargetOf(req, w), existing, step)
    case Leaving(fault) => LeavingOk(c, d, req.key, fault)
  }

  ghost predicate Kept(c: Config, req: Request, after: (Disk, Pc)) {
    DiskOk(c, after.0) && PcOk(c, after.0, req, after.1)
  }

  // ---- what each change to the disk keeps ----

  lemma UnlinkKeeps(c: Config, d: Disk, p: Path)
    requires DiskOk(c, d) && p.Stage?
    ensures DiskOk(c, d.Unlink(p))
  {
    var d' := d.Unlink(p);
    assert forall q, i :: d'.At(q, i) ==> d.At(q, i);
    forall t | Final(t) in d'.names ensures Published(c, d', t) { assert Published(c, d, t); }
  }

  lemma SyncDirectoryKeeps(c: Config, d: Disk, dir: Directory)
    requires DiskOk(c, d)
    ensures DiskOk(c, d.SyncDirectory(dir))
  {
    var d' := d.SyncDirectory(dir);
    assert forall q, i :: d'.At(q, i) ==> d.At(q, i);
    forall t | Final(t) in d'.names ensures Published(c, d', t) { assert Published(c, d, t); }
  }

  lemma WriteBackKeeps(c: Config, d: Disk, p: Path)
    requires DiskOk(c, d)
    ensures DiskOk(c, d.WriteBack(p))
  {
    var d' := d.WriteBack(p);
    assert forall q, i :: d'.At(q, i) ==> d.At(q, i);
    forall t | Final(t) in d'.names ensures Published(c, d', t) { assert Published(c, d, t); }
  }

  lemma OutageKeeps(c: Config, d: Disk, d': Disk)
    requires DiskOk(c, d) && AfterOutage(d, d', c.createMode)
    ensures DiskOk(c, d')
  {
    assert forall q, i :: d'.At(q, i) ==> d.At(q, i);
    forall t | Final(t) in d'.names ensures Published(c, d', t) {
      assert Final(t) in d.durable;
      assert Published(c, d, t);
      assert d.At(Final(t), d.names[Final(t)]);
    }
  }

  lemma CreateKeeps(c: Config, d: Disk, t: Target, token: string, ino: nat)
    requires DiskOk(c, d) && ino !in d.inodes
    requires Final(t) !in d.names && NoStage(d, t)
    ensures DiskOk(c, d.Create(Stage(t, token), ino, c.createMode))
    ensures Staged(d.Create(Stage(t, token), ino, c.createMode), t, token, ino)
  {
    var p := Stage(t, token);
    var d' := d.Create(p, ino, c.createMode);
    forall q, i | d'.At(q, i) ensures (q == p && i == ino) || (d.At(q, i) && i != ino) {
      if q == p && p in d'.names && i == ino {
      } else {
        assert d.At(q, i);
      }
    }
    forall u | Final(u) in d'.names ensures Published(c, d', u) {
      assert Published(c, d, u);
      assert d.At(Final(u), d.names[Final(u)]);
    }
  }

  /** Writing to the staged inode, which no final name is bound to. */
  lemma InodeKeeps(c: Config, d: Disk, d': Disk, t: Target, token: string, ino: nat, f: Inode)
    requires DiskOk(c, d) && Staged(d, t, token, ino) && f.mode == FILE_MODE
    requires d' == d.(inodes := d.inodes[ino := f])
    ensures DiskOk(c, d') && Staged(d', t, token, ino)
  {
    assert forall q, i :: d'.At(q, i) == d.At(q, i);
    forall u | Final(u) in d'.names ensures Published(c, d', u) {
      assert Published(c, d, u);
      assert d.At(Final(u), d.names[Final(u)]);
    }
  }

  lemma LinkKeeps(c: Config, d: Disk, t: Target, token: string, ino: nat)
    requires DiskOk(c, d) && Staged(d, t, token, ino)
    requires d.inodes[ino].synced && d.inodes[ino].mode == FILE_MODE && Complete(c, t, d.inodes[ino].data)
    ensures DiskOk(c, d.Link(ino, Final(t)))
    ensures Linked(d.Link(ino, Final(t)), t, token, ino)
  {
    var d' := d.Link(ino, Final(t));
    assert d.At(Stage(t, token), ino);
    forall q, i | d'.At(q, i) ensures (q == Final(t) && i == ino) || d.At(q, i) {
    }
    forall u | Final(u) in d'.names ensures Published(c, d', u) {
      if u != t { assert Published(c, d, u); }
    }
  }

  /** The link count of a published file, read off its names. */
  lemma LinksOfFinal(c: Config, d: Disk, t: Target)
    requires DiskOk(c, d) && Final(t) in d.names
    ensures Single(d, t) ==> d.Links(d.names[Final(t)]) == 1 && Aliases(d, t) == {}
    ensures !Single(d, t) ==> d.Links(d.names[Final(t)]) == 2 && |Aliases(d, t)| == 1
  {
    var ino := d.names[Final(t)];
    assert d.At(Final(t), ino);
    assert forall q :: q in d.names && d.names[q] == ino ==> d.At(q, ino);
    if Single(d, t) {
      OneLink(d, ino, Final(t));
    } else {
      var tok :| Stage(t, tok) in d.names && d.names[Stage(t, tok)] == ino;
      var p := Stage(t, tok);
      assert d.At(p, ino);
      TwoLinks(d, ino, Final(t), p);
      assert Aliases(d, t) == {p};
    }
  }

  lemma FinalReadable(c: Config, d: Disk, t: Target)
    requires DiskOk(c, d) && Final(t) in d.names
    ensures d.Readable(Final(t), {1, 2})
  {
    LinksOfFinal(c, d, t);
    assert Published(c, d, t);
    assert d.At(Final(t), d.names[Final(t)]);
  }

  /** An orphan of a target that is not published has one link and, unless the umask interferes, the private mode. */
  lemma OrphanRemovable(c: Config, d: Disk, t: Target, token: string)
    requires DiskOk(c, d) && Final(t) !in d.names && Stage(t, token) in d.names
    ensures d.names[Stage(t, token)] in d.inodes
    ensures c.createMode == FILE_MODE ==> d.inodes[d.names[Stage(t, token)]].mode == FILE_MODE
    ensures d.Links(d.names[Stage(t, token)]) == 1
  {
    var p := Stage(t, token);
    var ino := d.names[p];
    assert d.At(p, ino);
    assert forall q :: q in d.names && d.names[q] == ino ==> d.At(q, ino);
    OneLink(d, ino, p);
  }

  // ---- one system call at a time ----

  lemma ReadingKeeps(c: Config, d: Disk, req: Request, now: Instant)
    requires Lawful(c) && c.admits(req) && DiskOk(c, d)
    ensures PcOk(c, d, req, NextReading(c, d, req, now))
  {
    if d.Readable(ManifestPath(req.key), {1}) {
      var m := d.Data(ManifestPath(req.key));
      assert IsReceiptOf(c, req, m, c.receipt(req, m, now));
      assert IsReceipt(c, req.key, c.receipt(req, m, now));
    }
  }

  lemma FinishKeeps(c: Config, d: Disk, req: Request, w: Work, result: Bytes)
    requires Lawful(c) && c.admits(req) && DiskOk(c, d) && WorkOk(c, d, req, w)
    requires Single(d, TargetOf(req, w)) && Holds(d, TargetOf(req, w), result)
    ensures PcOk(c, d, req, Finish(c, req, w, result))
  {
    var t := TargetOf(req, w);
    assert Published(c, d, t);
    if w.kind.Receipt? {
      var payload := c.pointer(req.key, result);
      assert IsReceipt(c, req.key, result);
      assert Complete(c, Target(Pointer, req.key), payload);
    }
  }

  /** The work itself is not disturbed by anything that leaves the receipt's names and data alone. */
  lemma WorkFrame(c: Config, d: Disk, d': Disk, req: Request, w: Work)
    requires WorkOk(c, d, req, w)
    requires var r := Target(Receipt, req.key);
      w.kind.Pointer? ==>
        && Final(r) in d'.names && d'.names[Final(r)] == d.names[Final(r)]
        && d.names[Final(r)] in d'.inodes && d'.inodes[d.names[Final(r)]] == d.inodes[d.names[Final(r)]]
        && (forall tok :: Stage(r, tok) in d'.names ==> Stage(r, tok) in d.names && d.names[Stage(r, tok)] == d'.names[Stage(r, tok)])
    ensures WorkOk(c, d', req, w)
  {
  }

  lemma SweepingKeeps(c: Config, d: Disk, req: Request, w: Work, step: SweepStep, ch: Choice)
    requires Lawful(c) && DiskOk(c, d) && WorkOk(c, d, req, w) && SweepingOk(d, TargetOf(req, w), step)
    requires step.Sweep? && step.todo != {} ==> ch.pick in step.todo
    requires !step.Create?
    ensures Kept(c, req, NextSweeping(c, d, TargetOf(req, w), w, step, ch))
  {
    var t := TargetOf(req, w);
    if step.SweepSync? {
      SyncDirectoryKeeps(c, d, Home(t));
      WorkFrame(c, d, d.SyncDirectory(Home(t)), req, w);
    } else if step.todo != {} && ch.pick.Stage? && ch.pick.target == t {
      OrphanRemovable(c, d, t, ch.pick.token);
      UnlinkKeeps(c, d, ch.pick);
      WorkFrame(c, d, d.Unlink(ch.pick), req, w);
    }
  }

  lemma CreatingKeeps(c: Config, d: Disk, req: Request, w: Work, ch: Choice)
    requires Lawful(c)
    requires DiskOk(c, d) && WorkOk(c, d, req, w) && SweepingOk(d, TargetOf(req, w), Create) && ch.ino !in d.inodes
    ensures Kept(c, req, NextSweeping(c, d, TargetOf(req, w), w, Create, ch))
  {
    var t := TargetOf(req, w);
    var r := Target(Receipt, req.key);
    if w.kind.Pointer? { assert d.At(Final(r), d.names[Final(r)]); }
    CreateKeeps(c, d, t, ch.token, ch.ino);
    WorkFrame(c, d, d.Create(Stage(t, ch.token), ch.ino, c.createMode), req, w);
  }

  lemma StagingKeeps(c: Config, d: Disk, req: Request, w: Work, token: string, ino: nat, step: StageStep, ch: Choice)
    requires Lawful(c)
    requires DiskOk(c, d) && WorkOk(c, d, req, w) && StagingOk(d, TargetOf(req, w), w.payload, token, ino, step)
    requires step.Write? && step.sent < |w.payload| ==> 1 <= ch.chunk <= |w.payload| - step.sent
    ensures Kept(c, req, NextStaging(d, TargetOf(req, w), w, token, ino, step, ch))
  {
    var t := TargetOf(req, w);
    var r := Target(Receipt, req.key);
    var d' := NextStaging(d, t, w, token, ino, step, ch).0;
    if w.kind.Pointer? { assert d.At(Final(r), d.names[Final(r)]); }
    assert d.At(Stage(t, token), ino);
    if step.Link? {
      LinkKeeps(c, d, t, token, ino);
    } else if d' != d {
      InodeKeeps(c, d, d', t, token, ino, d'.inodes[ino]);
    }
    WorkFrame(c, d, d', req, w);
    if step.Write? && step.sent < |w.payload| {
      assert w.payload[..step.sent + ch.chunk] == w.payload[..step.sent] + w.payload[step.sent..step.sent + ch.chunk];
    }
  }

  lemma ClosingKeeps(c: Config, d: Disk, req: Request, w: Work, token: string, ino: nat, step: CloseStep)
    requires Lawful(c) && c.admits(req)
    requires DiskOk(c, d) && WorkOk(c, d, req, w) && ClosingOk(d, TargetOf(req, w), w.payload, token, ino, step)
    ensures Kept(c, req, NextClosing(c, d, req, w, token, ino, step))
  {
    var t := TargetOf(req, w);
    if step.Confirm? {
      LinksOfFinal(c, d, t);
    } else if step.Unstage? || step.Clean? {
      UnlinkKeeps(c, d, Stage(t, token));
      WorkFrame(c, d, d.Unlink(Stage(t, token)), req, w);
    } else {
      SyncDirectoryKeeps(c, d, Home(t));
      WorkFrame(c, d, d.SyncDirectory(Home(t)), req, w);
      if step.CleanSync? { FinishKeeps(c, d.SyncDirectory(Home(t)), req, w, w.payload); }
    }
  }

  lemma DetachSingle(c: Config, d: Disk, t: Target, token: string)
    requires DiskOk(c, d) && Final(t) in d.names
    requires Stage(t, token) in d.names && d.names[Stage(t, token)] == d.names[Final(t)]
    ensures Single(d.Unlink(Stage(t, token)), t)
  {
    forall tok | Stage(t, tok) in d.names && tok != token ensures d.names[Stage(t, tok)] != d.names[Final(t)] {
      assert d.At(Stage(t, tok), d.names[Stage(t, tok)]) && d.At(Stage(t, token), d.names[Stage(t, token)]);
    }
  }

  lemma RepairingKeeps(c: Config, d: Disk, req: Request, w: Work, existing: Bytes, step: RepairStep, ch: Choice)
    requires Lawful(c) && c.admits(req)
    requires DiskOk(c, d) && WorkOk(c, d, req, w) && RepairingOk(d, TargetOf(req, w), existing, step)
    requires step.Inspect? && |Aliases(d, TargetOf(req, w))| == 1 ==> ch.pick in Aliases(d, TargetOf(req, w))
    ensures Kept(c, req, NextRepairing(c, d, req, w, existing, step, ch))
  {
    var t := TargetOf(req, w);
    match step
    case Inspect => LinksOfFinal(c, d, t);
    case Detach(token) =>
      UnlinkKeeps(c, d, Stage(t, token));
      WorkFrame(c, d, d.Unlink(Stage(t, token)), req, w);
      DetachSingle(c, d, t, token);
    case DetachSync =>
      SyncDirectoryKeeps(c, d, Home(t));
      WorkFrame(c, d, d.SyncDirectory(Home(t)), req, w);
    case Settle =>
      LinksOfFinal(c, d, t);
      FinishKeeps(c, d, req, w, existing);
  }

  /** Every system call of the lock holder keeps the disk's invariant and its own. */
  lemma NextKeeps(c: Config, d: Disk, req: Request, pc: Pc, ch: Choice)
    requires Lawful(c) && c.admits(req)
    requires DiskOk(c, d) && PcOk(c, d, req, pc) && Enabled(d, req, pc, ch)
    ensures Kept(c, req, Next(c, d, req, pc, ch))
  {
    match pc
    case Waiting =>
    case Leaving(_) =>
    case Reading => ReadingKeeps(c, d, req, ch.now);
    case Examine(w) =>
      if Final(TargetOf(req, w)) in d.names { FinalReadable(c, d, TargetOf(req, w)); }
    case Sweeping(w, step) =>
      if step.Create? { CreatingKeeps(c, d, req, w, ch); } else { SweepingKeeps(c, d, req, w, step, ch); }
    case Staging(w, token, ino, step) => StagingKeeps(c, d, req, w, token, ino, step, ch);
    case Closing(w, token, ino, step) => ClosingKeeps(c, d, req, w, token, ino, step);
    case Repairing(w, existing, step) => RepairingKeeps(c, d, req, w, existing, step, ch);
  }
}
