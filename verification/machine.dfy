/** The publisher as a state machine: any number of processes, one step for each system call that
    changes something, and kills, write-backs and power losses at every point in between. */
module Machine {
  import opened Tree
  import opened Wrappers

  datatype Request = Request(key: Key, requestSha: string, planSha: string, schedulerSha: string, runtimeSha: string)

  /** Seconds since the epoch, as a clock that never shows a negative time. */
  type Instant = t: int | 0 <= t < 0x8000_0000_0000_0000

  /** What the protocol takes from elsewhere: input validation, the two payloads, the comparison of a
      stored receipt with a new candidate, and the mode that O_CREAT leaves under the umask. */
  datatype Config = Config(
    admits: Request -> bool,
    receipt: (Request, Bytes, Instant) -> Bytes,
    pointer: (Key, Bytes) -> Bytes,
    accepts: (Request, Bytes, Bytes) -> bool,
    createMode: nat)

  /** What the protocol needs of the payloads. `Receipts` (receipt.dfy) proves it of the real ones. */
  ghost predicate Lawful(c: Config) {
    && (forall r, m, now :: c.admits(r) ==> c.accepts(r, m, c.receipt(r, m, now)))
    && (forall r, m, now :: c.admits(r) ==> |c.receipt(r, m, now)| <= MAX_FILE_BYTES)
    && (forall r, x :: c.admits(r) ==> |c.pointer(r.key, x)| <= MAX_FILE_BYTES)
  }

  /** The file being published and its payload; `manifest` is what the candidate was built from. */
  datatype Work = Work(kind: Kind, payload: Bytes, manifest: Bytes)

  datatype Fault = BadManifest | Mismatch | Internal

  /** `_remove_orphan_staging`, and the exclusive creation after it. */
  datatype SweepStep = Sweep(todo: set<Path>, removed: bool) | SweepSync | Create

  /** `_publish_new` from the creation of the staging file to the link. */
  datatype StageStep = Chmod | Write(sent: nat) | SyncFile | Link

  /** `_publish_new` after the link; `Clean` and `CleanSync` run on every way out of it. */
  datatype CloseStep = SyncLink | Unstage | SyncUnstage | Confirm | Clean(ok: bool) | CleanSync(ok: bool)

  /** `_repair_stage_alias`. */
  datatype RepairStep = Inspect | Detach(token: string) | DetachSync | Settle

  /** Where a process is: each step names the next system call. */
  datatype Pc =
    | Waiting
    | Reading
    | Examine(w: Work)
    | Sweeping(w: Work, sweep: SweepStep)
    | Staging(w: Work, token: string, ino: nat, stage: StageStep)
    | Closing(w: Work, token: string, ino: nat, close: CloseStep)
    | Repairing(w: Work, existing: Bytes, repair: RepairStep)
    | Leaving(fault: Option<Fault>)
    | Exited(fault: Option<Fault>)

  predicate Holding(pc: Pc) {
    !pc.Waiting? && !pc.Exited?
  }

  function TargetOf(req: Request, w: Work): Target {
    Target(w.kind, req.key)
  }

  predicate IsAlias(d: Disk, t: Target, p: Path) {
    p.Stage? && p.target == t && p in d.names && Final(t) in d.names && d.names[p] == d.names[Final(t)]
  }

  /** The entries `_repair_stage_alias` collects. */
  function Aliases(d: Disk, t: Target): set<Path> {
    set p | p in d.names && IsAlias(d, t, p)
  }

  /** What the environment decides for one system call. */
  datatype Choice = Choice(now: Instant, pick: Path, token: string, ino: nat, chunk: nat)

  predicate Enabled(d: Disk, req: Request, pc: Pc, ch: Choice) {
    match pc
    case Sweeping(_, Sweep(todo, _)) => todo != {} ==> ch.pick in todo
    case Sweeping(_, Create) => ch.ino !in d.inodes
    case Staging(w, _, ino, step) =>
      && ino in d.inodes
      && (step.Write? && step.sent < |w.payload| ==> 1 <= ch.chunk <= |w.payload| - step.sent)
    case Repairing(w, _, Inspect) =>
      |Aliases(d, TargetOf(req, w))| == 1 ==> ch.pick in Aliases(d, TargetOf(req, w))
    case Exited(_) => false
    case _ => true
  }

  /** `_publish_receipt` and `_publish_exact` differ only in how they compare an existing file. */
  predicate Matches(c: Config, req: Request, w: Work, existing: Bytes) {
    if w.kind.Receipt? then c.accepts(req, w.manifest, existing) else existing == w.payload
  }

  /** A file is published: go on to the pointer, which hashes the receipt's bytes, or leave. */
  function Finish(c: Config, req: Request, w: Work, result: Bytes): Pc {
    if w.kind.Receipt? then Examine(Work(Pointer, c.pointer(req.key, result), w.manifest)) else Leaving(None)
  }

  /** `_read_private_file` of the manifest, and the candidate built from it. */
  function NextReading(c: Config, d: Disk, req: Request, now: Instant): Pc {
    var p := ManifestPath(req.key);
    if d.Readable(p, {1})
    then Examine(Work(Receipt, c.receipt(req, d.Data(p), now), d.Data(p)))
    else Leaving(Some(BadManifest))
  }

  /** `_read_private_file` of the final name. */
  function NextExamine(c: Config, d: Disk, req: Request, w: Work): Pc {
    var p := Final(TargetOf(req, w));
    if p !in d.names then Sweeping(w, Sweep(d.Entries(DirectoryOf(p)), false))
    else if !d.Readable(p, {1, 2}) then Leaving(Some(Internal))
    else if Matches(c, req, w, d.Data(p)) then Repairing(w, d.Data(p), Inspect)
    else Leaving(Some(Mismatch))
  }

  function NextSweeping(c: Config, d: Disk, t: Target, w: Work, step: SweepStep, ch: Choice): (Disk, Pc)
    requires step.Sweep? && step.todo != {} ==> ch.pick in step.todo
    requires step.Create? ==> ch.ino !in d.inodes
  {
    match step
    case Sweep(todo, removed) =>
      if todo == {} then (d, Sweeping(w, if removed then SweepSync else Create))
      else
        var rest := todo - {ch.pick};
        if !(ch.pick.Stage? && ch.pick.target == t) then (d, Sweeping(w, Sweep(rest, removed)))
        else if ch.pick in d.names && d.names[ch.pick] in d.inodes
                && d.inodes[d.names[ch.pick]].mode == FILE_MODE && d.Links(d.names[ch.pick]) == 1
        then (d.Unlink(ch.pick), Sweeping(w, Sweep(rest, true)))
        else (d, Leaving(Some(Internal)))
    case SweepSync => (d.SyncDirectory(Home(t)), Sweeping(w, Create))
    case Create =>
      var p := Stage(t, ch.token);
      if p in d.names then (d, Leaving(Some(Internal)))
      else (d.Create(p, ch.ino, c.createMode), Staging(w, ch.token, ch.ino, Chmod))
  }

  function NextStaging(d: Disk, t: Target, w: Work, token: string, ino: nat, step: StageStep, ch: Choice): (Disk, Pc)
    requires ino in d.inodes
    requires step.Write? && step.sent < |w.payload| ==> 1 <= ch.chunk <= |w.payload| - step.sent
  {
    match step
    case Chmod => (d.Chmod(ino, FILE_MODE), Staging(w, token, ino, Write(0)))
    case Write(sent) =>
      if sent < |w.payload|
      then (d.Append(ino, w.payload[sent..sent + ch.chunk]), Staging(w, token, ino, Write(sent + ch.chunk)))
      else (d, Staging(w, token, ino, SyncFile))
    case SyncFile => (d.SyncFile(ino), Staging(w, token, ino, Link))
    case Link =>
      if Final(t) in d.names then (d, Closing(w, token, ino, Clean(false)))
      else (d.Link(ino, Final(t)), Closing(w, token, ino, SyncLink))
  }

  function NextClosing(c: Config, d: Disk, req: Request, w: Work, token: string, ino: nat, step: CloseStep): (Disk, Pc) {
    var t := TargetOf(req, w);
    var bound := Final(t) in d.names && d.names[Final(t)] == ino;
    match step
    case SyncLink =>
      if bound then (d.SyncDirectory(Home(t)), Closing(w, token, ino, Unstage))
      else (d, Closing(w, token, ino, Clean(false)))
    case Unstage =>
      if Stage(t, token) in d.names then (d.Unlink(Stage(t, token)), Closing(w, token, ino, SyncUnstage))
      else (d, Closing(w, token, ino, Clean(false)))
    case SyncUnstage => (d.SyncDirectory(Home(t)), Closing(w, token, ino, Confirm))
    case Confirm => (d, Closing(w, token, ino, Clean(d.Links(ino) == 1 && bound)))
    case Clean(ok) => (d.Unlink(Stage(t, token)), Closing(w, token, ino, CleanSync(ok)))
    case CleanSync(ok) =>
      (d.SyncDirectory(Home(t)), if ok then Finish(c, req, w, w.payload) else Leaving(Some(Internal)))
  }

  function NextRepairing(c: Config, d: Disk, req: Request, w: Work, existing: Bytes, step: RepairStep, ch: Choice): (Disk, Pc)
    requires step.Inspect? && |Aliases(d, TargetOf(req, w))| == 1 ==> ch.pick in Aliases(d, TargetOf(req, w))
  {
    var t := TargetOf(req, w);
    match step
    case Inspect =>
      if Final(t) !in d.names then (d, Leaving(Some(Internal)))
      else if d.Links(d.names[Final(t)]) != 2 then (d, Repairing(w, existing, Settle))
      else if |Aliases(d, t)| == 1 then (d, Repairing(w, existing, Detach(ch.pick.token)))
      else (d, Leaving(Some(Internal)))
    case Detach(token) =>
      if Stage(t, token) in d.names then (d.Unlink(Stage(t, token)), Repairing(w, existing, DetachSync))
      else (d, Leaving(Some(Internal)))
    case DetachSync => (d.SyncDirectory(Home(t)), Repairing(w, existing, Settle))
    case Settle =>
      if Final(t) in d.names && d.Links(d.names[Final(t)]) == 1 then (d, Finish(c, req, w, existing))
      else (d, Leaving(Some(Internal)))
  }

  /** One system call of one process. */
  function Next(c: Config, d: Disk, req: Request, pc: Pc, ch: Choice): (Disk, Pc)
    requires Enabled(d, req, pc, ch)
  {
    match pc
    case Waiting => (d, Reading)
    case Reading => (d, NextReading(c, d, req, ch.now))
    case Examine(w) => (d, NextExamine(c, d, req, w))
    case Sweeping(w, step) => NextSweeping(c, d, TargetOf(req, w), w, step, ch)
    case Staging(w, token, ino, step) => NextStaging(d, TargetOf(req, w), w, token, ino, step, ch)
    case Closing(w, token, ino, step) => NextClosing(c, d, req, w, token, ino, step)
    case Repairing(w, existing, step) => NextRepairing(c, d, req, w, existing, step, ch)
    case Leaving(fault) => (d, Exited(fault))
  }

  datatype Proc = Proc(req: Request, pc: Pc)

  datatype State = State(lock: Option<nat>, procs: map<nat, Proc>, disk: Disk)

  datatype Event =
    | Spawn(pid: nat, req: Request)
    | Call(pid: nat, ch: Choice)
    | Kill(pid: nat)
    | Back(p: Path)
    | Outage(left: Disk)

  ghost predicate Allowed(c: Config, s: State, e: Event) {
    match e
    case Spawn(pid, req) => pid !in s.procs && c.admits(req)
    case Call(pid, ch) =>
      && pid in s.procs
      && Enabled(s.disk, s.procs[pid].req, s.procs[pid].pc, ch)
      && (s.procs[pid].pc.Waiting? ==> s.lock == None)
    case Kill(pid) => pid in s.procs
    case Back(_) => true
    case Outage(left) => AfterOutage(s.disk, left, c.createMode)
  }

  function LockAfter(lock: Option<nat>, pid: nat, pc: Pc): Option<nat> {
    if Holding(pc) then Some(pid) else if lock == Some(pid) then None else lock
  }

  function Apply(c: Config, s: State, e: Event): State
    requires e.Call? ==> e.pid in s.procs && Enabled(s.disk, s.procs[e.pid].req, s.procs[e.pid].pc, e.ch)
  {
    match e
    case Spawn(pid, req) => s.(procs := s.procs[pid := Proc(req, Waiting)])
    case Call(pid, ch) =>
      var p := s.procs[pid];
      var (disk, pc) := Next(c, s.disk, p.req, p.pc, ch);
      State(LockAfter(s.lock, pid, pc), s.procs[pid := p.(pc := pc)], disk)
    case Kill(pid) => s.(lock := if s.lock == Some(pid) then None else s.lock, procs := s.procs - {pid})
    case Back(p) => s.(disk := s.disk.WriteBack(p))
    case Outage(left) => State(None, map[], left)
  }

  /** Nothing has been published yet: only files the publisher does not own exist. */
  ghost predicate Initial(s: State) {
    && s.lock == None
    && s.procs == map[]
    && (forall p :: p in s.disk.names ==> p.Other? && s.disk.names[p] in s.disk.inodes)
    && (forall p :: p in s.disk.durable ==> p.Other? && s.disk.durable[p] in s.disk.inodes)
  }

  /** A stretch of a run: `states[i]` becomes `states[i + 1]` by `events[i]`. */
  ghost predicate IsStretch(c: Config, states: seq<State>, events: seq<Event>) {
    && |states| == |events| + 1
    && forall i :: 0 <= i < |events| ==>
         Allowed(c, states[i], events[i]) && states[i + 1] == Apply(c, states[i], events[i])
  }

  ghost predicate IsRun(c: Config, states: seq<State>, events: seq<Event>) {
    IsStretch(c, states, events) && Initial(states[0])
  }

  /** The one interruption that an incident does not survive together with a power loss: a process killed after its
      repair of the receipt has unlinked the staging alias and before it has synced the directory, when the
      receipt's own entry has not reached the disk either. */
  predicate KilledInRepair(s: State, e: Event, k: Key) {
    && e.Kill? && e.pid in s.procs
    && var p := s.procs[e.pid];
       p.req.key == k && p.pc.Repairing? && p.pc.repair.DetachSync? && p.pc.w.kind.Receipt?
       && Final(TargetOf(p.req, p.pc.w)) !in s.disk.durable
  }
}
