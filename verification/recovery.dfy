/** One turn of a publisher, from the call that takes the lock to its exit, from any state that earlier runs and
    interruptions can leave. */
module Recovery {
  import opened Tree
  import opened Wrappers
  import opened Machine
  import opened Invariant
  import opened Runs
  import opened Vouching

  // ---- a turn ----

  /** What may happen around the process: once it has the lock, anything but its own kill and a power loss. The
      kernel may write entries back, and other publishers may start, wait and die. */
  ghost predicate Shielded(s: State, e: Event, pid: nat) {
    && pid in s.procs
    && var pc := s.procs[pid].pc;
       if pc.Waiting? then e.Call? && e.pid == pid
       else Holding(pc) && !e.Outage? && !(e.Kill? && e.pid == pid)
  }

  ghost predicate IsTurn(c: Config, states: seq<State>, events: seq<Event>, pid: nat) {
    && |states| == |events| + 1
    && forall i :: 0 <= i < |events| ==>
         && Allowed(c, states[i], events[i]) && states[i + 1] == Apply(c, states[i], events[i])
         && Shielded(states[i], events[i], pid)
  }

  ghost predicate Starts(c: Config, s: State, pid: nat) {
    Safe(c, s) && pid in s.procs && s.procs[pid].pc.Waiting?
  }

  /** The entries that were written back. */
  function Backs(events: seq<Event>): set<Path> {
    if events == [] then {}
    else
      var e := events[|events| - 1];
      Backs(events[..|events| - 1]) + if e.Back? then {e.p} else {}
  }

  /** `now` is what the clock shows when the process asks for the time. */
  ghost predicate ReadAt(states: seq<State>, events: seq<Event>, pid: nat, now: Instant)
    requires |states| == |events| + 1
  {
    ReadUpTo(states, events, pid, now, |events|)
  }

  ghost predicate ReadUpTo(states: seq<State>, events: seq<Event>, pid: nat, now: Instant, n: nat)
    requires n <= |states| && n <= |events|
  {
    forall i :: 0 <= i < n ==> ReadsAt(states[i], events[i], pid, now)
  }

  predicate ReadsAt(s: State, e: Event, pid: nat, now: Instant) {
    e.Call? && e.pid == pid && pid in s.procs && s.procs[pid].pc.Reading? ==> e.ch.now == now
  }

  // ---- what the disk foretells ----

  /** The bytes of the receipt after a turn that gets as far: those that are there, or those built at `now`. */
  ghost function ReceiptAfter(c: Config, d: Disk, req: Request, now: Instant): Bytes
    requires d.Readable(ManifestPath(req.key), {1})
  {
    var r := Final(Target(Receipt, req.key));
    if r in d.names && d.names[r] in d.inodes then d.Data(r) else c.receipt(req, d.Data(ManifestPath(req.key)), now)
  }

  /** A pointer that is there already is the one this turn would publish. */
  ghost predicate PointerFits(c: Config, d: Disk, req: Request, now: Instant)
    requires d.Readable(ManifestPath(req.key), {1})
  {
    var p := Final(Target(Pointer, req.key));
    p in d.names && d.names[p] in d.inodes ==> d.Data(p) == c.pointer(req.key, ReceiptAfter(c, d, req, now))
  }

  ghost predicate Succeeds(c: Config, d: Disk, req: Request, now: Instant) {
    Acceptable(c, d, req) && PointerFits(c, d, req, now)
  }

  // ---- what a turn has done so far ----

  ghost predicate SameTree(d0: Disk, d: Disk) {
    d.names == d0.names && d.inodes == d0.inodes
  }

  ghost predicate FinalsKept(d0: Disk, d: Disk) {
    forall t :: Final(t) in d0.names ==> SameFile(d0, d, t)
  }

  ghost predicate ReceiptReady(c: Config, d0: Disk, now: Instant, d: Disk, req: Request) {
    d0.Readable(ManifestPath(req.key), {1}) && Holds(d, Target(Receipt, req.key), ReceiptAfter(c, d0, req, now))
  }

  /** The turn so far, seen from the disk it began with. */
  ghost predicate TurnOk(c: Config, d0: Disk, now: Instant, d: Disk, req: Request, pc: Pc) {
    match pc
    case Waiting | Reading => SameTree(d0, d)
    case Leaving(fault) => Outcome(c, d0, now, d, req, fault)
    case Exited(fault) => Outcome(c, d0, now, d, req, fault)
    case _ => Midway(c, d0, now, d, req, pc)
  }

  ghost predicate Midway(c: Config, d0: Disk, now: Instant, d: Disk, req: Request, pc: Pc)
    requires Working(pc)
  {
    var t := TargetOf(req, pc.w);
    && ManifestIs(d0, req.key, pc.w.manifest) && FinalsKept(d0, d)
    && (if pc.w.kind.Receipt? then
          && pc.w.payload == c.receipt(req, pc.w.manifest, now)
          && (Final(Target(Pointer, req.key)) in d.names <==> Final(Target(Pointer, req.key)) in d0.names)
          && (pc.Examine? ==> SameTree(d0, d))
        else Acceptable(c, d0, req) && ReceiptReady(c, d0, now, d, req))
    && match pc
       case Examine(_) => Final(t) in d.names <==> Final(t) in d0.names
       case Repairing(w, existing, _) => Final(t) in d0.names && Holds(d0, t, existing) && Matches(c, req, w, existing)
       case _ => Final(t) !in d0.names
  }

  ghost predicate Outcome(c: Config, d0: Disk, now: Instant, d: Disk, req: Request, fault: Option<Fault>) {
    var r, p := Target(Receipt, req.key), Target(Pointer, req.key);
    match fault
    case None =>
      && Succeeds(c, d0, req, now) && ReceiptReady(c, d0, now, d, req) && Single(d, r) && Single(d, p)
      && Holds(d, p, c.pointer(req.key, ReceiptAfter(c, d0, req, now)))
    case Some(f) =>
      if Acceptable(c, d0, req) then
        && f == Mismatch && !PointerFits(c, d0, req, now) && ReceiptReady(c, d0, now, d, req)
        && Single(d, r) && FinalsKept(d0, d)
      else SameTree(d0, d)
  }

  ghost predicate TurnAfter(c: Config, d0: Disk, now: Instant, req: Request, after: (Disk, Pc)) {
    TurnOk(c, d0, now, after.0, req, after.1)
  }

  lemma SameTreeReads(d0: Disk, d: Disk, p: Path, links: set<nat>)
    requires SameTree(d0, d)
    ensures d0.Readable(p, links) <==> d.Readable(p, links)
  {
    if p in d.names {
      assert (set q | q in d.names && d.names[q] == d.names[p]) == (set q | q in d0.names && d0.names[q] == d0.names[p]);
    }
  }

  lemma SameTreeKeeps(c: Config, d0: Disk, d: Disk)
    requires DiskOk(c, d) && SameTree(d0, d)
    ensures FinalsKept(d0, d)
  {
    assert forall t :: Final(t) in d.names ==> d.At(Final(t), d.names[Final(t)]);
  }

  lemma TurnReading(c: Config, d0: Disk, now: Instant, d: Disk, req: Request)
    requires DiskOk(c, d) && SameTree(d0, d)
    ensures TurnOk(c, d0, now, d, req, NextReading(c, d, req, now))
  {
    SameTreeReads(d0, d, ManifestPath(req.key), {1});
    SameTreeKeeps(c, d0, d);
  }

  lemma TurnExamineReceipt(c: Config, d0: Disk, now: Instant, d: Disk, req: Request, w: Work)
    requires DiskOk(c, d) && w.kind.Receipt? && Midway(c, d0, now, d, req, Examine(w))
    ensures TurnOk(c, d0, now, d, req, NextExamine(c, d, req, w))
  {
    var t := TargetOf(req, w);
    if Final(t) in d.names { FinalReadable(c, d, t); }
  }

  lemma TurnExaminePointer(c: Config, d0: Disk, now: Instant, d: Disk, req: Request, w: Work)
    requires DiskOk(c, d) && WorkOk(c, d, req, w) && w.kind.Pointer? && Midway(c, d0, now, d, req, Examine(w))
    ensures TurnOk(c, d0, now, d, req, NextExamine(c, d, req, w))
  {
    var t := TargetOf(req, w);
    if Final(t) in d.names {
      FinalReadable(c, d, t);
      assert SameFile(d0, d, t);
    }
  }

  /** A call of a process that works on a file keeps every published file; only the link publishes one. */
  lemma TurnFrame(c: Config, d0: Disk, d: Disk, req: Request, pc: Pc, ch: Choice)
    requires DiskOk(c, d) && PcOk(c, d, req, pc) && Enabled(d, req, pc, ch) && FinalsKept(d0, d)
    ensures var d' := Next(c, d, req, pc, ch).0;
      && FinalsKept(d0, d')
      && (forall t :: Final(t) in d.names ==> SameFile(d, d', t))
      && (forall t :: Final(t) in d'.names && Final(t) !in d.names ==> pc.Staging? && TargetOf(req, pc.w) == t)
  {
    NextFrame(c, d, req, pc, ch);
    var d' := Next(c, d, req, pc, ch).0;
    forall t | Final(t) in d0.names ensures SameFile(d0, d', t) {
      assert SameFile(d0, d, t) && SameFile(d, d', t);
    }
  }

  lemma TurnSweeping(c: Config, d0: Disk, now: Instant, d: Disk, req: Request, w: Work, step: SweepStep, ch: Choice)
    requires c.createMode == FILE_MODE
    requires var pc := Sweeping(w, step); DiskOk(c, d) && PcOk(c, d, req, pc) && Enabled(d, req, pc, ch) && Midway(c, d0, now, d, req, pc)
    ensures TurnAfter(c, d0, now, req, NextSweeping(c, d, TargetOf(req, w), w, step, ch))
  {
    TurnFrame(c, d0, d, req, Sweeping(w, step), ch);
    if step.Sweep? && step.todo != {} && ch.pick.Stage? && ch.pick.target == TargetOf(req, w) {
      OrphanRemovable(c, d, TargetOf(req, w), ch.pick.token);
    }
  }

  lemma TurnStaging(c: Config, d0: Disk, now: Instant, d: Disk, req: Request, w: Work, token: string, ino: nat, step: StageStep, ch: Choice)
    requires var pc := Staging(w, token, ino, step);
      DiskOk(c, d) && PcOk(c, d, req, pc) && Enabled(d, req, pc, ch) && Midway(c, d0, now, d, req, pc)
    ensures TurnAfter(c, d0, now, req, NextStaging(d, TargetOf(req, w), w, token, ino, step, ch))
  {
    TurnFrame(c, d0, d, req, Staging(w, token, ino, step), ch);
  }

  /** The file is published: what that means for the rest of the turn. */
  lemma TurnFinish(c: Config, d0: Disk, now: Instant, d: Disk, req: Request, w: Work, result: Bytes)
    requires DiskOk(c, d) && WorkOk(c, d, req, w) && FinalsKept(d0, d) && ManifestIs(d0, req.key, w.manifest)
    requires Holds(d, TargetOf(req, w), result) && Single(d, TargetOf(req, w)) && Acceptable(c, d0, req)
    requires w.kind.Receipt? ==>
      && result == ReceiptAfter(c, d0, req, now)
      && (Final(Target(Pointer, req.key)) in d.names <==> Final(Target(Pointer, req.key)) in d0.names)
    requires w.kind.Pointer? ==> ReceiptReady(c, d0, now, d, req) && PointerFits(c, d0, req, now) && result == w.payload
    ensures TurnOk(c, d0, now, d, req, Finish(c, req, w, result))
  {
  }

  lemma TurnClosing(c: Config, d0: Disk, now: Instant, d: Disk, req: Request, w: Work, token: string, ino: nat, step: CloseStep, ch: Choice)
    requires Lawful(c) && c.admits(req)
    requires var pc := Closing(w, token, ino, step);
      DiskOk(c, d) && PcOk(c, d, req, pc) && Enabled(d, req, pc, ch) && Midway(c, d0, now, d, req, pc)
    ensures TurnAfter(c, d0, now, req, NextClosing(c, d, req, w, token, ino, step))
  {
    var pc := Closing(w, token, ino, step);
    TurnFrame(c, d0, d, req, pc, ch);
    NextKeeps(c, d, req, pc, ch);
    var d' := NextClosing(c, d, req, w, token, ino, step).0;
    if step.CleanSync? {
      SyncDirectoryKeeps(c, d, Home(TargetOf(req, w)));
      WorkFrame(c, d, d', req, w);
      TurnFinish(c, d0, now, d', req, w, w.payload);
    }
  }

  lemma TurnRepairing(c: Config, d0: Disk, now: Instant, d: Disk, req: Request, w: Work, existing: Bytes, step: RepairStep, ch: Choice)
    requires Lawful(c) && c.admits(req)
    requires var pc := Repairing(w, existing, step);
      DiskOk(c, d) && PcOk(c, d, req, pc) && Enabled(d, req, pc, ch) && Midway(c, d0, now, d, req, pc)
    ensures TurnAfter(c, d0, now, req, NextRepairing(c, d, req, w, existing, step, ch))
  {
    TurnFrame(c, d0, d, req, Repairing(w, existing, step), ch);
    LinksOfFinal(c, d, TargetOf(req, w));
    if step.Settle? { TurnFinish(c, d0, now, d, req, w, existing); }
  }

  lemma TurnCall(c: Config, d0: Disk, now: Instant, d: Disk, req: Request, pc: Pc, ch: Choice)
    requires Lawful(c) && c.createMode == FILE_MODE && c.admits(req)
    requires DiskOk(c, d) && PcOk(c, d, req, pc) && Enabled(d, req, pc, ch) && (pc.Reading? ==> ch.now == now)
    requires TurnOk(c, d0, now, d, req, pc)
    ensures TurnAfter(c, d0, now, req, Next(c, d, req, pc, ch))
  {
    match pc
    case Reading => TurnReading(c, d0, now, d, req);
    case Examine(w) =>
      if w.kind.Receipt? { TurnExamineReceipt(c, d0, now, d, req, w); } else { TurnExaminePointer(c, d0, now, d, req, w); }
    case Sweeping(w, step) => TurnSweeping(c, d0, now, d, req, w, step, ch);
    case Staging(w, token, ino, step) => TurnStaging(c, d0, now, d, req, w, token, ino, step, ch);
    case Closing(w, token, ino, step) => TurnClosing(c, d0, now, d, req, w, token, ino, step, ch);
    case Repairing(w, existing, step) => TurnRepairing(c, d0, now, d, req, w, existing, step, ch);
    case _ =>
  }

  // ---- what is durable ----

  function Entry(m: map<Path, nat>, p: Path): Option<nat> {
    if p in m then Some(m[p]) else None
  }

  /** Nothing has changed but that the entries in `backs` were written back. */
  ghost predicate Same(d0: Disk, d: Disk, backs: set<Path>) {
    SameTree(d0, d) && forall p :: Entry(d.durable, p) == Entry(if p in backs then d0.names else d0.durable, p)
  }

  /** A settled file (one link) whose directory entry has never been synced. */
  ghost predicate Unanchored(d: Disk, t: Target) {
    Single(d, t) && Final(t) !in d.durable
  }

  ghost predicate BothDurable(d: Disk, k: Key) {
    Final(Target(Receipt, k)) in d.durable && Final(Target(Pointer, k)) in d.durable
  }

  ghost predicate Untouched(d0: Disk, d: Disk, t: Target, backs: set<Path>) {
    && (Final(t) in d.names <==> Final(t) in d0.names)
    && (Single(d, t) <==> Single(d0, t))
    && (Final(t) in d.durable <==> Final(t) in d0.durable || (Final(t) in backs && Final(t) in d0.names))
  }

  ghost predicate Settled(d0: Disk, d: Disk, t: Target, backs: set<Path>) {
    Final(t) in d.durable <==> !Unanchored(d0, t) || Final(t) in backs
  }

  /** How far the file being worked on has come since the turn began at `d0`. */
  ghost predicate Advanced(d0: Disk, d: Disk, t: Target, backs: set<Path>, pc: Pc) {
    match pc
    case Examine(_) => Untouched(d0, d, t, backs)
    case Repairing(_, _, Inspect) => Untouched(d0, d, t, backs) && Final(t) in d0.names
    case Repairing(_, _, Settle) => Settled(d0, d, t, backs)
    case Repairing(_, _, _) => Final(t) in d0.names && !Single(d0, t)
    case _ => Final(t) !in d0.names
  }

  ghost predicate AnchorOk(c: Config, d0: Disk, d: Disk, backs: set<Path>, req: Request, pc: Pc) {
    var r, p := Target(Receipt, req.key), Target(Pointer, req.key);
    match pc
    case Waiting | Reading => Same(d0, d, backs)
    case Leaving(fault) => AnchorEnd(c, d0, d, backs, req, fault)
    case Exited(fault) => AnchorEnd(c, d0, d, backs, req, fault)
    case _ =>
      && Advanced(d0, d, TargetOf(req, pc.w), backs, pc)
      && (if pc.w.kind.Receipt? then Untouched(d0, d, p, backs) && (pc.Examine? ==> Same(d0, d, backs))
          else Settled(d0, d, r, backs))
  }

  ghost predicate AnchorEnd(c: Config, d0: Disk, d: Disk, backs: set<Path>, req: Request, fault: Option<Fault>) {
    var r, p := Target(Receipt, req.key), Target(Pointer, req.key);
    if !Acceptable(c, d0, req) then Same(d0, d, backs)
    else Settled(d0, d, r, backs) && if fault == None then Settled(d0, d, p, backs) else Untouched(d0, d, p, backs)
  }

  ghost predicate AnchorAfter(c: Config, d0: Disk, backs: set<Path>, req: Request, after: (Disk, Pc)) {
    AnchorOk(c, d0, after.0, backs, req, after.1)
  }

  function OtherFile(req: Request, w: Work): Target {
    Target(if w.kind.Receipt? then Pointer else Receipt, req.key)
  }

  /** Another file of the same incident looks the same before and after. */
  ghost predicate SameView(d: Disk, d': Disk, t: Target) {
    && (Final(t) in d'.names <==> Final(t) in d.names)
    && (Final(t) in d.names ==> d'.names[Final(t)] == d.names[Final(t)])
    && (forall tok :: Stage(t, tok) in d'.names <==> Stage(t, tok) in d.names)
    && (forall tok :: Stage(t, tok) in d.names ==> d'.names[Stage(t, tok)] == d.names[Stage(t, tok)])
    && (Final(t) in d'.durable <==> Final(t) in d.durable)
  }

  lemma ViewKept(d0: Disk, d: Disk, d': Disk, t: Target, backs: set<Path>)
    requires SameView(d, d', t)
    ensures Single(d', t) == Single(d, t)
    ensures Untouched(d0, d, t, backs) ==> Untouched(d0, d', t, backs)
    ensures Settled(d0, d, t, backs) ==> Settled(d0, d', t, backs)
  {
  }

  lemma AnchorExamine(c: Config, d0: Disk, now: Instant, d: Disk, backs: set<Path>, req: Request, w: Work)
    requires DiskOk(c, d) && PcOk(c, d, req, Examine(w)) && AnchorOk(c, d0, d, backs, req, Examine(w))
    requires TurnOk(c, d0, now, d, req, Examine(w)) && TurnOk(c, d0, now, d, req, NextExamine(c, d, req, w))
    ensures AnchorOk(c, d0, d, backs, req, NextExamine(c, d, req, w))
  {
    if Final(TargetOf(req, w)) in d.names { FinalReadable(c, d, TargetOf(req, w)); }
  }

  lemma AnchorSweeping(c: Config, d0: Disk, d: Disk, backs: set<Path>, req: Request, w: Work, step: SweepStep, ch: Choice)
    requires c.createMode == FILE_MODE
    requires DiskOk(c, d) && SweepingOk(d, TargetOf(req, w), step) && Enabled(d, req, Sweeping(w, step), ch)
    requires AnchorOk(c, d0, d, backs, req, Sweeping(w, step))
    ensures AnchorAfter(c, d0, backs, req, NextSweeping(c, d, TargetOf(req, w), w, step, ch))
  {
    if step.Sweep? && step.todo != {} && ch.pick.Stage? && ch.pick.target == TargetOf(req, w) {
      OrphanRemovable(c, d, TargetOf(req, w), ch.pick.token);
    }
    ViewKept(d0, d, NextSweeping(c, d, TargetOf(req, w), w, step, ch).0, OtherFile(req, w), backs);
  }

  lemma AnchorStaging(c: Config, d0: Disk, d: Disk, backs: set<Path>, req: Request, w: Work, token: string, ino: nat, step: StageStep, ch: Choice)
    requires DiskOk(c, d) && StagingOk(d, TargetOf(req, w), w.payload, token, ino, step)
    requires Enabled(d, req, Staging(w, token, ino, step), ch) && AnchorOk(c, d0, d, backs, req, Staging(w, token, ino, step))
    ensures AnchorAfter(c, d0, backs, req, NextStaging(d, TargetOf(req, w), w, token, ino, step, ch))
  {
    ViewKept(d0, d, NextStaging(d, TargetOf(req, w), w, token, ino, step, ch).0, OtherFile(req, w), backs);
  }

  lemma AnchorFinish(c: Config, d0: Disk, d: Disk, backs: set<Path>, req: Request, w: Work, result: Bytes)
    requires DiskOk(c, d) && Settled(d0, d, TargetOf(req, w), backs) && Acceptable(c, d0, req)
    requires if w.kind.Receipt? then Untouched(d0, d, Target(Pointer, req.key), backs) else Settled(d0, d, Target(Receipt, req.key), backs)
    ensures AnchorOk(c, d0, d, backs, req, Finish(c, req, w, result))
  {
  }

  lemma AnchorClosing(c: Config, d0: Disk, d: Disk, backs: set<Path>, req: Request, w: Work, token: string, ino: nat, step: CloseStep)
    requires DiskOk(c, d) && ClosingOk(d, TargetOf(req, w), w.payload, token, ino, step) && Acceptable(c, d0, req)
    requires AnchorOk(c, d0, d, backs, req, Closing(w, token, ino, step))
    ensures AnchorAfter(c, d0, backs, req, NextClosing(c, d, req, w, token, ino, step))
  {
    var d' := NextClosing(c, d, req, w, token, ino, step).0;
    ViewKept(d0, d, d', OtherFile(req, w), backs);
    if step.CleanSync? {
      SyncDirectoryKeeps(c, d, Home(TargetOf(req, w)));
      AnchorFinish(c, d0, d', backs, req, w, w.payload);
    }
  }

  lemma AnchorRepairing(c: Config, d0: Disk, d: Disk, backs: set<Path>, req: Request, w: Work, existing: Bytes, step: RepairStep, ch: Choice)
    requires DiskOk(c, d) && RepairingOk(d, TargetOf(req, w), existing, step) && Acceptable(c, d0, req)
    requires Enabled(d, req, Repairing(w, existing, step), ch) && AnchorOk(c, d0, d, backs, req, Repairing(w, existing, step))
    ensures AnchorAfter(c, d0, backs, req, NextRepairing(c, d, req, w, existing, step, ch))
  {
    LinksOfFinal(c, d, TargetOf(req, w));
    match step
    case Settle => AnchorFinish(c, d0, d, backs, req, w, existing);
    case _ => ViewKept(d0, d, NextRepairing(c, d, req, w, existing, step, ch).0, OtherFile(req, w), backs);
  }

  lemma MidwayIsAcceptable(c: Config, d0: Disk, now: Instant, d: Disk, req: Request, pc: Pc)
    requires Working(pc) && !pc.Examine? && Midway(c, d0, now, d, req, pc)
    ensures Acceptable(c, d0, req)
  {
  }

  lemma SameIsUntouched(d0: Disk, d: Disk, t: Target, backs: set<Path>)
    requires DurableFinals(d0) && Same(d0, d, backs)
    ensures Untouched(d0, d, t, backs)
  {
    assert Entry(d.durable, Final(t)) == Entry(if Final(t) in backs then d0.names else d0.durable, Final(t));
  }

  lemma AnchorReading(c: Config, d0: Disk, now: Instant, d: Disk, backs: set<Path>, req: Request)
    requires DurableFinals(d0) && Same(d0, d, backs)
    ensures AnchorOk(c, d0, d, backs, req, NextReading(c, d, req, now))
  {
    SameTreeReads(d0, d, ManifestPath(req.key), {1});
    SameIsUntouched(d0, d, Target(Receipt, req.key), backs);
    SameIsUntouched(d0, d, Target(Pointer, req.key), backs);
  }

  lemma AnchorCall(c: Config, d0: Disk, now: Instant, d: Disk, backs: set<Path>, req: Request, pc: Pc, ch: Choice)
    requires Lawful(c) && c.createMode == FILE_MODE && c.admits(req) && DurableFinals(d0)
    requires DiskOk(c, d) && PcOk(c, d, req, pc) && Enabled(d, req, pc, ch)
    requires TurnOk(c, d0, now, d, req, pc) && TurnAfter(c, d0, now, req, Next(c, d, req, pc, ch))
    requires AnchorOk(c, d0, d, backs, req, pc)
    ensures AnchorAfter(c, d0, backs, req, Next(c, d, req, pc, ch))
  {
    if Working(pc) && !pc.Examine? { MidwayIsAcceptable(c, d0, now, d, req, pc); }
    match pc
    case Reading => AnchorReading(c, d0, ch.now, d, backs, req);
    case Examine(w) => AnchorExamine(c, d0, now, d, backs, req, w);
    case Sweeping(w, step) => AnchorSweeping(c, d0, d, backs, req, w, step, ch);
    case Staging(w, token, ino, step) => AnchorStaging(c, d0, d, backs, req, w, token, ino, step, ch);
    case Closing(w, token, ino, step) => AnchorClosing(c, d0, d, backs, req, w, token, ino, step);
    case Repairing(w, existing, step) => AnchorRepairing(c, d0, d, backs, req, w, existing, step, ch);
    case _ =>
  }

  lemma SettledBack(d0: Disk, d: Disk, t: Target, backs: set<Path>, p: Path)
    requires Settled(d0, d, t, backs) && Final(t) in d.names
    ensures Settled(d0, d.WriteBack(p), t, backs + {p})
  {
  }

  lemma UntouchedBack(c: Config, d0: Disk, d: Disk, t: Target, backs: set<Path>, p: Path)
    requires DiskOk(c, d) && Untouched(d0, d, t, backs)
    ensures Untouched(d0, d.WriteBack(p), t, backs + {p})
  {
    assert Single(d.WriteBack(p), t) == Single(d, t);
  }

  lemma SameBack(d0: Disk, d: Disk, backs: set<Path>, p: Path)
    requires Same(d0, d, backs)
    ensures Same(d0, d.WriteBack(p), backs + {p})
  {
  }

  lemma AnchorBack(c: Config, d0: Disk, now: Instant, d: Disk, backs: set<Path>, req: Request, pc: Pc, p: Path)
    requires DiskOk(c, d) && PcOk(c, d, req, pc) && Holding(pc)
    requires TurnOk(c, d0, now, d, req, pc) && AnchorOk(c, d0, d, backs, req, pc)
    ensures AnchorOk(c, d0, d.WriteBack(p), backs + {p}, req, pc)
  {
    forall kind ensures var t := Target(kind, req.key);
      && (Settled(d0, d, t, backs) && Final(t) in d.names ==> Settled(d0, d.WriteBack(p), t, backs + {p}))
      && (Untouched(d0, d, t, backs) ==> Untouched(d0, d.WriteBack(p), t, backs + {p}))
    {
      var t := Target(kind, req.key);
      if Settled(d0, d, t, backs) && Final(t) in d.names { SettledBack(d0, d, t, backs, p); }
      if Untouched(d0, d, t, backs) { UntouchedBack(c, d0, d, t, backs, p); }
    }
    if Same(d0, d, backs) { SameBack(d0, d, backs, p); }
  }

  // ---- the whole turn ----

  /** While the process has the lock, nobody else moves the disk but the kernel. */
  lemma OtherEvent(c: Config, s: State, e: Event, pid: nat)
    requires Safe(c, s) && Allowed(c, s, e) && Shielded(s, e, pid) && !(e.Call? && e.pid == pid)
    ensures var s' := Apply(c, s, e);
      && pid in s'.procs && s'.procs[pid] == s.procs[pid] && Holding(s.procs[pid].pc)
      && s'.disk == (if e.Back? then s.disk.WriteBack(e.p) else s.disk)
  {
  }

  lemma BacksStep(events: seq<Event>, i: nat)
    requires i < |events|
    ensures Backs(events[..i + 1]) == Backs(events[..i]) + if events[i].Back? then {events[i].p} else {}
  {
    assert events[..i + 1][..i] == events[..i];
  }

  /** Where the turn is in `s`, seen from the disk `d0` it began with. */
  ghost predicate Along(c: Config, d0: Disk, now: Instant, backs: set<Path>, req: Request, s: State, pid: nat) {
    && Safe(c, s) && pid in s.procs && s.procs[pid].req == req
    && TurnOk(c, d0, now, s.disk, req, s.procs[pid].pc) && AnchorOk(c, d0, s.disk, backs, req, s.procs[pid].pc)
  }

  lemma AlongBack(c: Config, d0: Disk, now: Instant, backs: set<Path>, req: Request, s: State, pid: nat, p: Path)
    requires Along(c, d0, now, backs, req, s, pid) && Holding(s.procs[pid].pc)
    ensures TurnOk(c, d0, now, s.disk.WriteBack(p), req, s.procs[pid].pc)
    ensures AnchorOk(c, d0, s.disk.WriteBack(p), backs + {p}, req, s.procs[pid].pc)
  {
    AnchorBack(c, d0, now, s.disk, backs, req, s.procs[pid].pc, p);
    TurnBack(c, d0, now, s.disk, req, s.procs[pid].pc, p);
  }

  lemma TurnBack(c: Config, d0: Disk, now: Instant, d: Disk, req: Request, pc: Pc, p: Path)
    requires TurnOk(c, d0, now, d, req, pc)
    ensures TurnOk(c, d0, now, d.WriteBack(p), req, pc)
  {
    if FinalsKept(d0, d) {
      forall t | Final(t) in d0.names ensures SameFile(d0, d.WriteBack(p), t) { assert SameFile(d0, d, t); }
    }
  }

  lemma AlongCall(c: Config, d0: Disk, now: Instant, backs: set<Path>, req: Request, s: State, pid: nat, ch: Choice)
    requires Lawful(c) && c.createMode == FILE_MODE && DurableFinals(d0)
    requires Along(c, d0, now, backs, req, s, pid) && Allowed(c, s, Call(pid, ch))
    requires s.procs[pid].pc.Reading? ==> ch.now == now
    ensures var after := Next(c, s.disk, req, s.procs[pid].pc, ch); TurnAfter(c, d0, now, req, after) && AnchorAfter(c, d0, backs, req, after)
  {
    TurnCall(c, d0, now, s.disk, req, s.procs[pid].pc, ch);
    AnchorCall(c, d0, now, s.disk, backs, req, s.procs[pid].pc, ch);
  }

  lemma AlongStep(c: Config, d0: Disk, now: Instant, backs: set<Path>, req: Request, s: State, pid: nat, e: Event)
    requires Lawful(c) && c.createMode == FILE_MODE && DurableFinals(d0)
    requires Along(c, d0, now, backs, req, s, pid) && Allowed(c, s, e) && Shielded(s, e, pid) && ReadsAt(s, e, pid, now)
    ensures Along(c, d0, now, backs + (if e.Back? then {e.p} else {}), req, Apply(c, s, e), pid)
  {
    SafeStep(c, s, e);
    if e.Call? && e.pid == pid {
      AlongCall(c, d0, now, backs, req, s, pid, e.ch);
      assert backs + {} == backs;
    } else {
      OtherEvent(c, s, e, pid);
      if e.Back? { AlongBack(c, d0, now, backs, req, s, pid, e.p); } else { assert backs + {} == backs; }
    }
  }

  lemma {:induction false} TurnStates(c: Config, states: seq<State>, events: seq<Event>, pid: nat, now: Instant, i: nat)
    requires Lawful(c) && c.createMode == FILE_MODE
    requires IsTurn(c, states, events, pid) && Starts(c, states[0], pid) && i < |states| && ReadAt(states, events, pid, now)
    ensures Along(c, states[0].disk, now, Backs(events[..i]), states[0].procs[pid].req, states[i], pid)
  {
    if i > 0 {
      TurnStates(c, states, events, pid, now, i - 1);
      BacksStep(events, i - 1);
      assert ReadsAt(states[i - 1], events[i - 1], pid, now);
      AlongStep(c, states[0].disk, now, Backs(events[..i - 1]), states[0].procs[pid].req, states[i - 1], pid, events[i - 1]);
    }
  }

  lemma TurnIsSafe(c: Config, states: seq<State>, events: seq<Event>, pid: nat, now: Instant, i: nat)
    requires Lawful(c) && c.createMode == FILE_MODE
    requires IsTurn(c, states, events, pid) && Starts(c, states[0], pid) && i < |states| && ReadAt(states, events, pid, now)
    ensures Safe(c, states[i]) && pid in states[i].procs && states[i].procs[pid].req == states[0].procs[pid].req
  {
    TurnStates(c, states, events, pid, now, i);
  }

  lemma {:induction false} TurnStaysTidy(c: Config, states: seq<State>, events: seq<Event>, pid: nat, now: Instant, i: nat, t: Target)
    requires Lawful(c) && c.createMode == FILE_MODE
    requires IsTurn(c, states, events, pid) && Starts(c, states[0], pid) && i < |states| && ReadAt(states, events, pid, now)
    requires TidyAt(states[0].disk, t)
    ensures TidyAt(states[i].disk, t)
  {
    if i > 0 {
      TurnStaysTidy(c, states, events, pid, now, i - 1, t);
      TurnIsSafe(c, states, events, pid, now, i - 1);
      TidyStep(c, states[i - 1], events[i - 1], t);
    }
  }

  // ---- the time of the turn ----

  lemma ReadOnce(c: Config, s: State, e: Event, pid: nat)
    requires Allowed(c, s, e) && Shielded(s, e, pid) && pid in Apply(c, s, e).procs
    requires Apply(c, s, e).procs[pid].pc.Waiting? || Apply(c, s, e).procs[pid].pc.Reading?
    ensures s.procs[pid].pc.Waiting? || s.procs[pid].pc.Reading?
    ensures e.Call? && e.pid == pid ==> s.procs[pid].pc.Waiting?
  {
  }

  lemma {:induction false} NotYetRead(c: Config, states: seq<State>, events: seq<Event>, pid: nat, i: nat, now: Instant)
    requires IsTurn(c, states, events, pid) && i < |states|
    requires pid in states[i].procs && (states[i].procs[pid].pc.Waiting? || states[i].procs[pid].pc.Reading?)
    ensures ReadUpTo(states, events, pid, now, i)
  {
    if i > 0 {
      ReadOnce(c, states[i - 1], events[i - 1], pid);
      NotYetRead(c, states, events, pid, i - 1, now);
    }
  }

  /** A turn asks for the time once. */
  lemma {:induction false} TimeRead(c: Config, states: seq<State>, events: seq<Event>, pid: nat, n: nat) returns (now: Instant)
    requires IsTurn(c, states, events, pid) && n <= |events|
    ensures ReadUpTo(states, events, pid, now, n)
  {
    now := 0;
    if n > 0 {
      now := TimeRead(c, states, events, pid, n - 1);
      var s, e := states[n - 1], events[n - 1];
      if e.Call? && e.pid == pid && s.procs[pid].pc.Reading? {
        now := e.ch.now;
        NotYetRead(c, states, events, pid, n - 1, now);
      }
    }
  }

  lemma TheTime(c: Config, states: seq<State>, events: seq<Event>, pid: nat) returns (now: Instant)
    requires IsTurn(c, states, events, pid)
    ensures ReadAt(states, events, pid, now)
  {
    now := TimeRead(c, states, events, pid, |events|);
  }

  // ---- what a turn comes to ----

  ghost predicate Ends(c: Config, states: seq<State>, events: seq<Event>, pid: nat, now: Instant) {
    && IsTurn(c, states, events, pid) && Starts(c, states[0], pid) && ReadAt(states, events, pid, now)
    && pid in states[|events|].procs && states[|events|].procs[pid].pc.Exited?
  }

  /** What a turn that ended with `fault` has made of `d0`. It succeeds exactly when the manifest is readable, a
      receipt already there is acceptable, and a pointer already there is the one this turn would publish. If one of
      the first two fails, nothing changes; if only the last does, the receipt is published all the same and the
      pointer is not touched. Success leaves both files with one link and the pointer naming the receipt's hash. */
  ghost predicate Result(c: Config, d0: Disk, now: Instant, d: Disk, backs: set<Path>, req: Request, fault: Option<Fault>) {
    var r, p := Target(Receipt, req.key), Target(Pointer, req.key);
    && (fault == None <==> Succeeds(c, d0, req, now))
    && (!Acceptable(c, d0, req) ==> Same(d0, d, backs))
    && (Acceptable(c, d0, req) ==> ReceiptReady(c, d0, now, d, req) && d.Links(d.names[Final(r)]) == 1)
    && (Acceptable(c, d0, req) && fault != None ==> fault == Some(Mismatch) && SameFile(d0, d, p))
    && (fault == None ==> PointerMatches(c, d, req.key) && d.Links(d.names[Final(p)]) == 1)
  }

  lemma EndIsResult(c: Config, d0: Disk, now: Instant, d: Disk, backs: set<Path>, req: Request, fault: Option<Fault>)
    requires DiskOk(c, d) && Outcome(c, d0, now, d, req, fault) && AnchorEnd(c, d0, d, backs, req, fault)
    ensures Result(c, d0, now, d, backs, req, fault)
  {
    var r, p := Target(Receipt, req.key), Target(Pointer, req.key);
    if Final(r) in d.names { LinksOfFinal(c, d, r); }
    if Final(p) in d.names { LinksOfFinal(c, d, p); }
  }

  lemma AlongEnds(c: Config, d0: Disk, now: Instant, backs: set<Path>, req: Request, s: State, pid: nat)
    requires Along(c, d0, now, backs, req, s, pid) && s.procs[pid].pc.Exited?
    ensures Result(c, d0, now, s.disk, backs, req, s.procs[pid].pc.fault)
  {
    EndIsResult(c, d0, now, s.disk, backs, req, s.procs[pid].pc.fault);
  }

  lemma TurnEnd(c: Config, states: seq<State>, events: seq<Event>, pid: nat, now: Instant)
    requires Lawful(c) && c.createMode == FILE_MODE && Ends(c, states, events, pid, now)
    ensures Along(c, states[0].disk, now, Backs(events), states[0].procs[pid].req, states[|events|], pid)
  {
    TurnStates(c, states, events, pid, now, |events|);
    assert events[..|events|] == events;
  }

  /** From every safe state, whatever is written back and whoever starts or dies in between. */
  lemma RerunOutcome(c: Config, states: seq<State>, events: seq<Event>, pid: nat, now: Instant)
    requires Lawful(c) && c.createMode == FILE_MODE && Ends(c, states, events, pid, now)
    ensures Result(c, states[0].disk, now, states[|events|].disk, Backs(events), states[0].procs[pid].req,
                   states[|events|].procs[pid].pc.fault)
  {
    TurnEnd(c, states, events, pid, now);
    AlongEnds(c, states[0].disk, now, Backs(events), states[0].procs[pid].req, states[|events|], pid);
  }

  /** Where staging names were in order, none is left beside a file the turn has got past. */
  lemma RerunCleansUp(c: Config, states: seq<State>, events: seq<Event>, pid: nat, now: Instant, kind: Kind)
    requires Lawful(c) && c.createMode == FILE_MODE && Ends(c, states, events, pid, now)
    requires Acceptable(c, states[0].disk, states[0].procs[pid].req)
    requires kind.Pointer? ==> states[|events|].procs[pid].pc.fault == None
    requires TidyAt(states[0].disk, Target(kind, states[0].procs[pid].req.key))
    ensures NoStage(states[|events|].disk, Target(kind, states[0].procs[pid].req.key))
  {
    var n := |events|;
    TurnStates(c, states, events, pid, now, n);
    TurnStaysTidy(c, states, events, pid, now, n, Target(kind, states[0].procs[pid].req.key));
  }

  /** A turn that gets past the receipt makes it durable, and one that succeeds the pointer too, except for a file
      that had, when the turn began, one link and an entry never synced, and whose entry is not written back
      meanwhile: that is the one case in which the link-count test skips the repair and with it the sync. */
  lemma RerunAnchors(c: Config, states: seq<State>, events: seq<Event>, pid: nat, now: Instant, kind: Kind)
    requires Lawful(c) && c.createMode == FILE_MODE && Ends(c, states, events, pid, now)
    requires Acceptable(c, states[0].disk, states[0].procs[pid].req)
    requires kind.Pointer? ==> states[|events|].procs[pid].pc.fault == None
    ensures var d0, d, t := states[0].disk, states[|events|].disk, Target(kind, states[0].procs[pid].req.key);
      Final(t) in d.durable <==>
      || Final(t) in Backs(events)
      || !(Final(t) in d0.names && d0.Links(d0.names[Final(t)]) == 1 && Final(t) !in d0.durable)
  {
    TurnEnd(c, states, events, pid, now);
    var d0, t := states[0].disk, Target(kind, states[0].procs[pid].req.key);
    if Final(t) in d0.names { LinksOfFinal(c, d0, t); }
  }

  /** Nobody starts or kills the process. */
  ghost predicate Undisturbed(events: seq<Event>, pid: nat) {
    forall e :: e in events ==> !((e.Spawn? || e.Kill?) && e.pid == pid)
  }

  /** The lock is free again at the end; an entry `p` of another incident has not moved; and another process `q` is
      where it was unless it was itself started or killed. */
  lemma {:induction false} RerunFrame(c: Config, states: seq<State>, events: seq<Event>, pid: nat, now: Instant, i: nat, p: Path, q: nat)
    requires Lawful(c) && c.createMode == FILE_MODE
    requires IsTurn(c, states, events, pid) && Starts(c, states[0], pid) && ReadAt(states, events, pid, now) && i < |states|
    ensures pid in states[i].procs
    ensures states[i].procs[pid].pc.Exited? ==> states[i].lock == None
    ensures !Owns(states[0].procs[pid].req.key, p) ==> Entry(states[i].disk.names, p) == Entry(states[0].disk.names, p)
    ensures q != pid && Undisturbed(events, q) ==>
      && (q in states[i].procs <==> q in states[0].procs)
      && (q in states[0].procs ==> states[i].procs[q] == states[0].procs[q])
  {
    if i > 0 {
      RerunFrame(c, states, events, pid, now, i - 1, p, q);
      TurnIsSafe(c, states, events, pid, now, i - 1);
      assert events[i - 1] in events;
      FrameStep(c, states[i - 1], events[i - 1], pid, p, q);
    }
  }

  lemma FrameStep(c: Config, s: State, e: Event, pid: nat, p: Path, q: nat)
    requires Safe(c, s) && Allowed(c, s, e) && Shielded(s, e, pid)
    ensures var s' := Apply(c, s, e);
      && pid in s'.procs && (s'.procs[pid].pc.Exited? ==> s'.lock == None)
      && (!Owns(s.procs[pid].req.key, p) ==> Entry(s'.disk.names, p) == Entry(s.disk.names, p))
      && (q != pid && !((e.Spawn? || e.Kill?) && e.pid == q) ==>
            (q in s'.procs <==> q in s.procs) && (q in s.procs ==> s'.procs[q] == s.procs[q]))
  {
    if e.Call? && e.pid == pid {
      NextFrame(c, s.disk, s.procs[pid].req, s.procs[pid].pc, e.ch);
    } else {
      OtherEvent(c, s, e, pid);
    }
  }

  // ---- publishing again ----

  /** The incident is fully published. */
  ghost predicate Completed(c: Config, d: Disk, req: Request) {
    && Acceptable(c, d, req) && PointerMatches(c, d, req.key)
    && Single(d, Target(Receipt, req.key)) && Single(d, Target(Pointer, req.key))
  }

  lemma {:induction false} ManifestStays(c: Config, states: seq<State>, events: seq<Event>, pid: nat, now: Instant, manifest: Bytes, i: nat)
    requires Lawful(c) && c.createMode == FILE_MODE && Ends(c, states, events, pid, now) && i < |states|
    requires ManifestIs(states[0].disk, states[0].procs[pid].req.key, manifest)
    ensures ManifestIs(states[i].disk, states[0].procs[pid].req.key, manifest)
  {
    var k := states[0].procs[pid].req.key;
    if i > 0 {
      ManifestStays(c, states, events, pid, now, manifest, i - 1);
      TurnIsSafe(c, states, events, pid, now, i - 1);
      var s, e := states[i - 1], events[i - 1];
      if e.Call? && e.pid == pid {
        ManifestKept(c, s.disk, s.procs[pid].req, s.procs[pid].pc, e.ch, manifest);
      } else {
        OtherEvent(c, s, e, pid);
        if e.Back? { SameTreeReads(s.disk, states[i].disk, ManifestPath(k), {1}); }
      }
    }
  }

  /** A turn succeeds exactly when it leaves the incident published, and for its own request. */
  lemma SuccessIsCompletion(c: Config, states: seq<State>, events: seq<Event>, pid: nat, now: Instant)
    requires Lawful(c) && c.createMode == FILE_MODE && Ends(c, states, events, pid, now)
    ensures states[|events|].procs[pid].pc.fault == None <==> Completed(c, states[|events|].disk, states[0].procs[pid].req)
  {
    var d0, d, req := states[0].disk, states[|events|].disk, states[0].procs[pid].req;
    RerunOutcome(c, states, events, pid, now);
    TurnIsSafe(c, states, events, pid, now, |events|);
    if Acceptable(c, d0, req) {
      ManifestStays(c, states, events, pid, now, d0.Data(ManifestPath(req.key)), |events|);
      LinksOfFinal(c, d, Target(Receipt, req.key));
      if Final(Target(Pointer, req.key)) in d.names { LinksOfFinal(c, d, Target(Pointer, req.key)); }
    } else {
      SameTreeReads(d0, d, ManifestPath(req.key), {1});
    }
  }

  /** The manifest is there, with mode 0600, one name and at most 64 MiB. */
  ghost predicate ManifestInOrder(d: Disk, k: Key) {
    var m := Other(Session(k.market, k.session), "preparation-manifest.json");
    && m in d.names && d.names[m] in d.inodes
    && d.inodes[d.names[m]].mode == 0x180 && |d.inodes[d.names[m]].data| <= 67108864
    && forall q :: q in d.names && d.names[q] == d.names[m] ==> q == m
  }

  lemma InOrderIsReadable(d: Disk, k: Key)
    ensures ManifestInOrder(d, k) <==> d.Readable(ManifestPath(k), {1})
  {
    var m := ManifestPath(k);
    if m in d.names {
      var others := set q | q in d.names && d.names[q] == d.names[m];
      if ManifestInOrder(d, k) {
        OneLink(d, d.names[m], m);
      } else if |others| == 1 {
        OnlyOne(others, m);
        assert forall q :: q in d.names && d.names[q] == d.names[m] ==> q in others;
      }
    }
  }

  lemma OnlyOne<T>(s: set<T>, x: T)
    requires |s| == 1 && x in s
    ensures forall y :: y in s ==> y == x
  {
    assert |s - {x}| == 0;
    assert forall y :: y in s ==> y == x || y in s - {x};
  }

  /** Nothing is published from a manifest that anyone else could have read, or could still write through another name:
      the turn then fails and nothing changes. A manifest in order is published from. */
  lemma ManifestDecides(c: Config, states: seq<State>, events: seq<Event>, pid: nat, now: Instant)
    requires Lawful(c) && c.createMode == FILE_MODE && Ends(c, states, events, pid, now)
    ensures var d0, d, req, fault := states[0].disk, states[|events|].disk, states[0].procs[pid].req, states[|events|].procs[pid].pc.fault;
      && (fault == None ==> ManifestInOrder(d0, req.key))
      && (!ManifestInOrder(d0, req.key) ==> fault != None && Same(d0, d, Backs(events)))
      && (ManifestInOrder(d0, req.key) && (forall kind :: Final(Target(kind, req.key)) !in d0.names) ==> fault == None)
  {
    RerunOutcome(c, states, events, pid, now);
    InOrderIsReadable(states[0].disk, states[0].procs[pid].req.key);
  }

  predicate ReadsOnly(pc: Pc) {
    match pc
    case Sweeping(_, _) => false
    case Staging(_, _, _, _) => false
    case Closing(_, _, _, _) => false
    case Repairing(_, _, step) => step.Inspect? || step.Settle?
    case _ => true
  }

  lemma CompletedCall(c: Config, d: Disk, req: Request, pc: Pc, ch: Choice)
    requires DiskOk(c, d) && Enabled(d, req, pc, ch) && ReadsOnly(pc)
    requires Single(d, Target(Receipt, req.key)) && Single(d, Target(Pointer, req.key))
    ensures var (d', pc') := Next(c, d, req, pc, ch); d' == d && ReadsOnly(pc')
  {
    LinksOfFinal(c, d, Target(Receipt, req.key));
    LinksOfFinal(c, d, Target(Pointer, req.key));
  }

  lemma {:induction false} CompletedStays(c: Config, states: seq<State>, events: seq<Event>, pid: nat, now: Instant, i: nat)
    requires Lawful(c) && c.createMode == FILE_MODE
    requires IsTurn(c, states, events, pid) && Starts(c, states[0], pid) && ReadAt(states, events, pid, now) && i < |states|
    requires Completed(c, states[0].disk, states[0].procs[pid].req)
    ensures Same(states[0].disk, states[i].disk, Backs(events[..i])) && pid in states[i].procs && ReadsOnly(states[i].procs[pid].pc)
  {
    if i > 0 {
      CompletedStays(c, states, events, pid, now, i - 1);
      TurnIsSafe(c, states, events, pid, now, i - 1);
      BacksStep(events, i - 1);
      CompletedStep(c, states[0].disk, Backs(events[..i - 1]), states[i - 1], events[i - 1], pid);
    }
  }

  /** Publishing a completed request again, at any time of day, succeeds, and changes nothing on the way. */
  lemma CompletedRerunChangesNothing(c: Config, states: seq<State>, events: seq<Event>, pid: nat, now: Instant, i: nat)
    requires Lawful(c) && c.createMode == FILE_MODE && Ends(c, states, events, pid, now) && i < |states|
    requires Completed(c, states[0].disk, states[0].procs[pid].req)
    ensures Same(states[0].disk, states[i].disk, Backs(events[..i]))
    ensures states[|events|].procs[pid].pc.fault == None
  {
    CompletedStays(c, states, events, pid, now, i);
    RerunOutcome(c, states, events, pid, now);
  }

  lemma CompletedStep(c: Config, d0: Disk, backs: set<Path>, s: State, e: Event, pid: nat)
    requires Safe(c, s) && Allowed(c, s, e) && Shielded(s, e, pid) && ReadsOnly(s.procs[pid].pc)
    requires Completed(c, d0, s.procs[pid].req) && Same(d0, s.disk, backs)
    ensures var s' := Apply(c, s, e);
      Same(d0, s'.disk, backs + if e.Back? then {e.p} else {}) && pid in s'.procs && ReadsOnly(s'.procs[pid].pc)
  {
    if e.Call? && e.pid == pid {
      CompletedCall(c, s.disk, s.procs[pid].req, s.procs[pid].pc, e.ch);
      assert backs + {} == backs;
    } else {
      OtherEvent(c, s, e, pid);
      if e.Back? { SameBack(d0, s.disk, backs, e.p); } else { assert backs + {} == backs; }
    }
  }
}
