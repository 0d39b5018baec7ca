/** Turns end, and publishers do not block one another. */
module Progress {
  import opened Tree
  import opened Wrappers
  import opened Machine
  import opened Invariant
  import opened Runs
  import opened Vouching
  import opened Recovery

  // ---- every call advances ----

  function Phase(pc: Pc): nat {
    match pc
    case Waiting => 4
    case Reading => 3
    case Leaving(_) => 0
    case Exited(_) => 0
    case _ => if pc.w.kind.Receipt? then 2 else 1
  }

  function Remaining(pc: Pc): nat {
    match pc
    case Waiting => 0
    case Reading => 0
    case Examine(_) => 20
    case Sweeping(_, step) => (match step case Sweep(_, _) => 19 case SweepSync => 18 case Create => 17)
    case Staging(_, _, _, step) => (match step case Chmod => 16 case Write(_) => 15 case SyncFile => 14 case Link => 13)
    case Closing(_, _, _, step) =>
      (match step case SyncLink => 12 case Unstage => 11 case SyncUnstage => 10 case Confirm => 9 case Clean(_) => 8 case CleanSync(_) => 7)
    case Repairing(_, _, step) => (match step case Inspect => 6 case Detach(_) => 5 case DetachSync => 4 case Settle => 3)
    case Leaving(_) => 1
    case Exited(_) => 0
  }

  function Left(pc: Pc): nat {
    if pc.Sweeping? && pc.sweep.Sweep? then |pc.sweep.todo|
    else if pc.Staging? && pc.stage.Write? && pc.stage.sent <= |pc.w.payload| then |pc.w.payload| - pc.stage.sent
    else 0
  }

  /** Lexicographically smaller: the phase, the steps remaining in it, and what the step has left to do. */
  predicate Less(a: Pc, b: Pc) {
    || Phase(a) < Phase(b)
    || (Phase(a) == Phase(b) && Remaining(a) < Remaining(b))
    || (Phase(a) == Phase(b) && Remaining(a) == Remaining(b) && Left(a) < Left(b))
  }

  lemma SweepAdvances(c: Config, d: Disk, t: Target, w: Work, step: SweepStep, ch: Choice)
    requires step.Sweep? && step.todo != {} ==> ch.pick in step.todo
    requires step.Create? ==> ch.ino !in d.inodes
    ensures Less(NextSweeping(c, d, t, w, step, ch).1, Sweeping(w, step))
  {
    if step.Sweep? && step.todo != {} { assert |step.todo - {ch.pick}| < |step.todo|; }
  }

  lemma ClosingAdvances(c: Config, d: Disk, req: Request, w: Work, token: string, ino: nat, step: CloseStep)
    ensures Less(NextClosing(c, d, req, w, token, ino, step).1, Closing(w, token, ino, step))
  {
  }

  lemma RepairAdvances(c: Config, d: Disk, req: Request, w: Work, existing: Bytes, step: RepairStep, ch: Choice)
    requires Enabled(d, req, Repairing(w, existing, step), ch)
    ensures Less(NextRepairing(c, d, req, w, existing, step, ch).1, Repairing(w, existing, step))
  {
  }

  /** Every call brings the process nearer its end, so no uninterrupted run goes on for ever. */
  lemma EveryCallAdvances(c: Config, d: Disk, req: Request, pc: Pc, ch: Choice)
    requires Enabled(d, req, pc, ch)
    ensures Less(Next(c, d, req, pc, ch).1, pc)
  {
    match pc
    case Sweeping(w, step) => SweepAdvances(c, d, TargetOf(req, w), w, step, ch);
    case Closing(w, token, ino, step) => ClosingAdvances(c, d, req, w, token, ino, step);
    case Repairing(w, existing, step) => RepairAdvances(c, d, req, w, existing, step, ch);
    case _ =>
  }

  ghost function Fresh(ids: set<nat>): (n: nat)
    ensures n !in ids
  {
    FreshExists(ids);
    var n: nat :| n !in ids;
    n
  }

  lemma FreshExists(ids: set<nat>)
    ensures exists n: nat :: n !in ids
  {
    if forall n: nat :: n in ids {
      Below(ids, |ids| + 1);
    }
  }

  lemma {:induction false} Below(ids: set<nat>, n: nat)
    requires forall i: nat :: i < n ==> i in ids
    ensures n <= |ids|
  {
    if n > 0 {
      Below(ids - {n - 1}, n - 1);
    }
  }

  ghost function SomeChoice(d: Disk, req: Request, pc: Pc): (ch: Choice)
    requires !pc.Exited? && (pc.Staging? ==> pc.ino in d.inodes)
    ensures Enabled(d, req, pc, ch)
  {
    var ino := Fresh(d.inodes.Keys);
    var manifest := ManifestPath(req.key);
    var pick :=
      if pc.Sweeping? && pc.sweep.Sweep? && pc.sweep.todo != {} then var p :| p in pc.sweep.todo; p
      else if pc.Repairing? && |Aliases(d, TargetOf(req, pc.w))| == 1 then var p :| p in Aliases(d, TargetOf(req, pc.w)); p
      else manifest;
    Choice(0, pick, "", ino, 1)
  }

  // ---- a turn can always go on to its end ----

  ghost predicate Ready(s: State, pid: nat) {
    pid in s.procs && (s.lock == None || s.lock == Some(pid))
  }

  ghost predicate OnlyCalls(events: seq<Event>, pid: nat) {
    forall e :: e in events ==> e.Call? && e.pid == pid
  }

  lemma {:induction false} NoBacks(events: seq<Event>, pid: nat)
    requires OnlyCalls(events, pid)
    ensures Backs(events) == {}
  {
    if events != [] {
      assert events[|events| - 1] in events;
      NoBacks(events[..|events| - 1], pid);
    }
  }

  lemma Prepend(c: Config, s: State, pid: nat, e: Event, rest: seq<State>, more: seq<Event>)
    requires IsTurn(c, rest, more, pid) && Allowed(c, s, e) && Shielded(s, e, pid) && rest[0] == Apply(c, s, e)
    ensures IsTurn(c, [s] + rest, [e] + more, pid)
  {
    var states, events := [s] + rest, [e] + more;
    forall i | 0 <= i < |events|
      ensures Allowed(c, states[i], events[i]) && states[i + 1] == Apply(c, states[i], events[i]) && Shielded(states[i], events[i], pid)
    {
      if i > 0 { assert states[i] == rest[i - 1] && states[i + 1] == rest[i] && events[i] == more[i - 1]; }
    }
  }

  lemma OneCall(c: Config, s: State, pid: nat) returns (ch: Choice)
    requires Lawful(c) && Safe(c, s) && Ready(s, pid) && !s.procs[pid].pc.Exited?
    ensures Allowed(c, s, Call(pid, ch))
    ensures var s' := Apply(c, s, Call(pid, ch));
      Safe(c, s') && Ready(s', pid) && Less(s'.procs[pid].pc, s.procs[pid].pc)
  {
    var p := s.procs[pid];
    ch := SomeChoice(s.disk, p.req, p.pc);
    SafeCall(c, s, pid, ch);
    EveryCallAdvances(c, s.disk, p.req, p.pc, ch);
  }

  /** From every safe state in which the lock is free or its own, a process can run to its exit by calls alone. */
  lemma {:induction false} RunsEnd(c: Config, s: State, pid: nat) returns (states: seq<State>, events: seq<Event>)
    requires Lawful(c) && Safe(c, s) && Ready(s, pid)
    ensures IsTurn(c, states, events, pid) && OnlyCalls(events, pid) && states[0] == s
    ensures pid in states[|events|].procs && states[|events|].procs[pid].pc.Exited?
    decreases Phase(s.procs[pid].pc), Remaining(s.procs[pid].pc), Left(s.procs[pid].pc)
  {
    if s.procs[pid].pc.Exited? {
      states, events := [s], [];
    } else {
      var ch := OneCall(c, s, pid);
      var rest, more := RunsEnd(c, Apply(c, s, Call(pid, ch)), pid);
      Prepend(c, s, pid, Call(pid, ch), rest, more);
      states, events := [s] + rest, [Call(pid, ch)] + more;
      assert states[|events|] == rest[|more|];
    }
  }

  // ---- contention ----

  /** No deadlock: while some process has not finished, some process can make its next call. */
  lemma SomeCallIsAllowed(c: Config, s: State, pid: nat) returns (e: Event)
    requires Lawful(c) && Safe(c, s) && pid in s.procs && !s.procs[pid].pc.Exited?
    ensures e.Call? && Allowed(c, s, e)
  {
    var next := if s.lock == None then pid else s.lock.value;
    var ch := OneCall(c, s, next);
    e := Call(next, ch);
  }

  /** The most calls one file can take when directories hold at most `n` entries. */
  function PerFile(n: nat): nat {
    n + MAX_FILE_BYTES + 18
  }

  function FileLeft(pc: Pc, n: nat): nat
    requires Working(pc)
  {
    match pc
    case Examine(_) => PerFile(n)
    case Sweeping(_, step) =>
      MAX_FILE_BYTES + (match step case Sweep(todo, _) => |todo| + 17 case SweepSync => 16 case Create => 15)
    case Staging(w, _, _, step) =>
      (match step
       case Chmod => MAX_FILE_BYTES + 14
       case Write(sent) => 13 + if sent <= |w.payload| then |w.payload| - sent else 0
       case SyncFile => 12
       case Link => 11)
    case Closing(_, _, _, step) =>
      (match step case SyncLink => 10 case Unstage => 9 case SyncUnstage => 8 case Confirm => 7 case Clean(_) => 6 case CleanSync(_) => 5)
    case Repairing(_, _, step) => (match step case Inspect => 4 case Detach(_) => 3 case DetachSync => 2 case Settle => 1)
  }

  /** The most calls a process can still make. */
  function CallsLeft(pc: Pc, n: nat): nat {
    match pc
    case Waiting => 2 * PerFile(n) + 3
    case Reading => 2 * PerFile(n) + 2
    case Leaving(_) => 1
    case Exited(_) => 0
    case _ => FileLeft(pc, n) + 1 + if pc.w.kind.Receipt? then PerFile(n) else 0
  }

  /** The most names a process can still add: a staging name and a final name for each file. */
  function NamesLeft(pc: Pc): nat {
    match pc
    case Waiting => 4
    case Reading => 4
    case Leaving(_) => 0
    case Exited(_) => 0
    case _ =>
      (if pc.w.kind.Receipt? then 2 else 0)
      + (if pc.Examine? || pc.Sweeping? then 2 else if pc.Staging? then 1 else 0)
  }

  lemma FinishSpends(c: Config, req: Request, w: Work, result: Bytes, n: nat)
    ensures CallsLeft(Finish(c, req, w, result), n) == 1 + if w.kind.Receipt? then PerFile(n) else 0
    ensures NamesLeft(Finish(c, req, w, result)) == if w.kind.Receipt? then 2 else 0
  {
  }

  lemma ExamineSpends(c: Config, d: Disk, req: Request, w: Work, n: nat)
    requires |d.names| <= n
    ensures CallsLeft(NextExamine(c, d, req, w), n) < CallsLeft(Examine(w), n)
    ensures NamesLeft(NextExamine(c, d, req, w)) <= NamesLeft(Examine(w))
  {
    EntriesFit(d, Home(TargetOf(req, w)));
  }

  lemma SweepingSpends(c: Config, d: Disk, t: Target, w: Work, step: SweepStep, ch: Choice, n: nat)
    requires step.Sweep? && step.todo != {} ==> ch.pick in step.todo
    requires step.Create? ==> ch.ino !in d.inodes
    ensures CallsLeft(NextSweeping(c, d, t, w, step, ch).1, n) < CallsLeft(Sweeping(w, step), n)
  {
    if step.Sweep? && step.todo != {} { assert |step.todo - {ch.pick}| < |step.todo|; }
  }

  lemma SweepNames(c: Config, d: Disk, t: Target, w: Work, step: SweepStep, ch: Choice)
    requires !step.Create? && (step.Sweep? && step.todo != {} ==> ch.pick in step.todo)
    ensures var (d', pc') := NextSweeping(c, d, t, w, step, ch);
      (d'.names == d.names || d'.names == d.names - {ch.pick}) && NamesLeft(pc') <= NamesLeft(Sweeping(w, step))
  {
  }

  lemma CreateNames(c: Config, d: Disk, t: Target, w: Work, ch: Choice)
    requires ch.ino !in d.inodes
    ensures var (d', pc') := NextSweeping(c, d, t, w, SweepStep.Create, ch);
      |d'.names| + NamesLeft(pc') <= |d.names| + NamesLeft(Sweeping(w, SweepStep.Create))
  {
    Named(d, Stage(t, ch.token), ch.ino);
  }

  lemma SweepingNames(c: Config, d: Disk, t: Target, w: Work, step: SweepStep, ch: Choice)
    requires step.Sweep? && step.todo != {} ==> ch.pick in step.todo
    requires step.Create? ==> ch.ino !in d.inodes
    ensures var (d', pc') := NextSweeping(c, d, t, w, step, ch);
      |d'.names| + NamesLeft(pc') <= |d.names| + NamesLeft(Sweeping(w, step))
  {
    if step.Create? {
      CreateNames(c, d, t, w, ch);
    } else {
      SweepNames(c, d, t, w, step, ch);
      Unnamed(d, ch.pick);
    }
  }

  lemma StagingSpends(d: Disk, t: Target, w: Work, token: string, ino: nat, step: StageStep, ch: Choice, n: nat)
    requires StagingOk(d, t, w.payload, token, ino, step) && |w.payload| <= MAX_FILE_BYTES
    requires step.Write? && step.sent < |w.payload| ==> 1 <= ch.chunk <= |w.payload| - step.sent
    ensures var (d', pc') := NextStaging(d, t, w, token, ino, step, ch);
      && CallsLeft(pc', n) < CallsLeft(Staging(w, token, ino, step), n)
      && |d'.names| + NamesLeft(pc') <= |d.names| + NamesLeft(Staging(w, token, ino, step))
  {
    Named(d, Final(t), ino);
  }

  lemma ClosingSpends(c: Config, d: Disk, req: Request, w: Work, token: string, ino: nat, step: CloseStep, n: nat)
    ensures var pc, pc' := Closing(w, token, ino, step), NextClosing(c, d, req, w, token, ino, step).1;
      CallsLeft(pc', n) < CallsLeft(pc, n) && NamesLeft(pc') <= NamesLeft(pc)
  {
    FinishSpends(c, req, w, w.payload, n);
  }

  lemma ClosingNames(c: Config, d: Disk, req: Request, w: Work, token: string, ino: nat, step: CloseStep)
    ensures |NextClosing(c, d, req, w, token, ino, step).0.names| <= |d.names|
  {
    Unnamed(d, Stage(TargetOf(req, w), token));
    var names := NextClosing(c, d, req, w, token, ino, step).0.names;
    assert names == d.names || names == d.names - {Stage(TargetOf(req, w), token)};
  }

  lemma RepairingSpends(c: Config, d: Disk, req: Request, w: Work, existing: Bytes, step: RepairStep, ch: Choice, n: nat)
    requires Enabled(d, req, Repairing(w, existing, step), ch)
    ensures var pc, pc' := Repairing(w, existing, step), NextRepairing(c, d, req, w, existing, step, ch).1;
      CallsLeft(pc', n) < CallsLeft(pc, n) && NamesLeft(pc') <= NamesLeft(pc)
  {
    FinishSpends(c, req, w, existing, n);
  }

  lemma RepairingNames(c: Config, d: Disk, req: Request, w: Work, existing: Bytes, step: RepairStep, ch: Choice)
    requires Enabled(d, req, Repairing(w, existing, step), ch)
    ensures |NextRepairing(c, d, req, w, existing, step, ch).0.names| <= |d.names|
  {
    if step.Detach? { Unnamed(d, Stage(TargetOf(req, w), step.token)); }
  }

  lemma CallSpends(c: Config, d: Disk, req: Request, pc: Pc, ch: Choice, n: nat)
    requires DiskOk(c, d) && PcOk(c, d, req, pc) && Enabled(d, req, pc, ch) && |d.names| <= n
    ensures var (d', pc') := Next(c, d, req, pc, ch);
      CallsLeft(pc', n) < CallsLeft(pc, n) && |d'.names| + NamesLeft(pc') <= |d.names| + NamesLeft(pc)
  {
    match pc
    case Examine(w) => ExamineSpends(c, d, req, w, n);
    case Sweeping(w, step) =>
      SweepingSpends(c, d, TargetOf(req, w), w, step, ch, n);
      SweepingNames(c, d, TargetOf(req, w), w, step, ch);
    case Staging(w, token, ino, step) => StagingSpends(d, TargetOf(req, w), w, token, ino, step, ch, n);
    case Closing(w, token, ino, step) =>
      ClosingSpends(c, d, req, w, token, ino, step, n);
      ClosingNames(c, d, req, w, token, ino, step);
    case Repairing(w, existing, step) =>
      RepairingSpends(c, d, req, w, existing, step, ch, n);
      RepairingNames(c, d, req, w, existing, step, ch);
    case _ =>
  }

  lemma Named(d: Disk, p: Path, ino: nat)
    ensures |d.names[p := ino]| <= |d.names| + 1
  {
    assert d.names[p := ino].Keys == d.names.Keys + {p};
  }

  lemma Unnamed(d: Disk, p: Path)
    ensures |d.names - {p}| <= |d.names|
  {
    assert (d.names - {p}).Keys == d.names.Keys - {p};
    Fits(d.names.Keys - {p}, d.names.Keys);
  }

  lemma EntriesFit(d: Disk, dir: Directory)
    ensures |d.Entries(dir)| <= |d.names|
  {
    assert d.Entries(dir) <= d.names.Keys;
    Fits(d.Entries(dir), d.names.Keys);
  }

  lemma {:induction false} Fits<T>(a: set<T>, b: set<T>)
    requires a <= b
    ensures |a| <= |b|
  {
    if a != {} {
      var x :| x in a;
      Fits(a - {x}, b - {x});
    }
  }

  function WaitingPids(s: State): set<nat> {
    set pid | pid in s.procs && s.procs[pid].pc.Waiting?
  }

  /** The names there are, and those that the processes may still add. */
  function Room(s: State): nat {
    |s.disk.names| + 4 * |WaitingPids(s)| + (if s.lock.Some? && s.lock.value in s.procs then NamesLeft(s.procs[s.lock.value].pc) else 0)
  }

  /** The most calls all processes together can still make. */
  function AllCallsLeft(s: State, n: nat): nat {
    |WaitingPids(s)| * (2 * PerFile(n) + 3)
    + (if s.lock.Some? && s.lock.value in s.procs then CallsLeft(s.procs[s.lock.value].pc, n) else 0)
  }

  function CallsIn(events: seq<Event>): nat {
    if events == [] then 0
    else CallsIn(events[..|events| - 1]) + if events[|events| - 1].Call? then 1 else 0
  }

  lemma TakesTheLock(s: State, s': State, pid: nat)
    requires pid in s.procs && s.procs[pid].pc.Waiting? && s'.procs == s.procs[pid := s.procs[pid].(pc := Reading)]
    ensures |WaitingPids(s)| == |WaitingPids(s')| + 1
  {
    assert pid in WaitingPids(s);
    assert WaitingPids(s') == WaitingPids(s) - {pid};
  }

  lemma StretchCall(c: Config, s: State, pid: nat, ch: Choice, n: nat)
    requires Lawful(c) && Safe(c, s) && Allowed(c, s, Call(pid, ch)) && Room(s) <= n
    ensures var s' := Apply(c, s, Call(pid, ch)); AllCallsLeft(s', n) < AllCallsLeft(s, n) && Room(s') <= Room(s)
  {
    var p := s.procs[pid];
    var s' := Apply(c, s, Call(pid, ch));
    CallSpends(c, s.disk, p.req, p.pc, ch, n);
    if p.pc.Waiting? {
      TakesTheLock(s, s', pid);
      Distribute(|WaitingPids(s')|, 2 * PerFile(n) + 3);
    } else {
      assert WaitingPids(s') == WaitingPids(s);
    }
  }

  lemma Distribute(k: nat, x: nat)
    ensures (k + 1) * x == k * x + x
  {
  }

  lemma StretchOther(c: Config, s: State, e: Event, n: nat)
    requires Safe(c, s) && Allowed(c, s, e) && (e.Kill? || e.Back?)
    ensures var s' := Apply(c, s, e); AllCallsLeft(s', n) <= AllCallsLeft(s, n) && Room(s') <= Room(s)
  {
    var s' := Apply(c, s, e);
    assert WaitingPids(s') <= WaitingPids(s);
    Fits(WaitingPids(s'), WaitingPids(s));
    Scale(|WaitingPids(s')|, |WaitingPids(s)|, 2 * PerFile(n) + 3);
  }

  lemma Scale(a: nat, b: nat, x: nat)
    requires a <= b
    ensures a * x <= b * x
  {
  }

  /** No livelock either: as long as nobody new starts and the power lasts, the calls that can still be made in any
      interleaving, with kills and write-backs anywhere, are bounded from the first state on. */
  lemma {:induction false} CallsAreBounded(c: Config, states: seq<State>, events: seq<Event>, i: nat)
    requires Lawful(c) && IsStretch(c, states, events) && Safe(c, states[0]) && i < |states|
    requires forall j :: 0 <= j < |events| ==> !events[j].Spawn? && !events[j].Outage?
    ensures Safe(c, states[i]) && Room(states[i]) <= Room(states[0])
    ensures CallsIn(events[..i]) + AllCallsLeft(states[i], Room(states[0])) <= AllCallsLeft(states[0], Room(states[0]))
  {
    if i > 0 {
      CallsAreBounded(c, states, events, i - 1);
      assert events[..i][..i - 1] == events[..i - 1];
      var s, e := states[i - 1], events[i - 1];
      SafeStep(c, s, e);
      if e.Call? { StretchCall(c, s, e.pid, e.ch, Room(states[0])); } else { StretchOther(c, s, e, Room(states[0])); }
    }
  }
}
