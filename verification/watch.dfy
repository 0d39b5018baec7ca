/** The bounded watch: run the same-cycle collection again and again until it yields exactly one Opportunity,
    the attempts run out, or the deadline comes (run_kr_same_cycle_opportunity_watch.py). Times are in
    microseconds since the epoch, in Korean time at nine hours ahead. */
module Watch {
  import opened CycleReport
  import opened Numerals
  import opened Wrappers

  const SECOND := 1_000_000
  const DAY := 86400 * SECOND
  const KST_OFFSET := 9 * 3600 * SECOND

  /** The Korean calendar day of an instant; rounds down, before the epoch too. */
  function DateOf(t: int): int {
    (t + KST_OFFSET) / DAY
  }

  /** In Seoul it is the day `date`, counted from 1970-01-01. */
  predicate OnDay(t: int, date: int) {
    date * 86_400_000_000 <= t + 32_400_000_000 < (date + 1) * 86_400_000_000
  }

  lemma DateIsDay(t: int, date: int)
    ensures DateOf(t) == date <==> OnDay(t, date)
  {
  }

  datatype Boundary = Boundary(prefix: string, date: int, deadline: int, poll: int, maxAttempts: int, fixture: bool)

  /** What `parse_args` lets through. */
  predicate Parsed(b: Boundary) {
    SECOND <= b.poll <= 3600 * SECOND && 1 <= b.maxAttempts <= 999
  }

  predicate IsAlnum(ch: char) {
    'A' <= ch <= 'Z' || 'a' <= ch <= 'z' || '0' <= ch <= '9'
  }

  /** `_SAFE_ID`. */
  predicate SafeId(s: string) {
    && 1 <= |s| <= 128 && IsAlnum(s[0])
    && forall i :: 1 <= i < |s| ==> IsAlnum(s[i]) || s[i] in "_.:-"
  }

  type Number = n: nat | n <= 999

  /** `f"{prefix}-{n:03d}"`. */
  datatype CycleId = CycleId(prefix: string, n: Number) {
    function Text(): string {
      prefix + "-" + [Digit(n / 100), Digit(n / 10 % 10), Digit(n % 10)]
    }
  }

  predicate Accepted(b: Boundary)
    requires Parsed(b)
  {
    DateOf(b.deadline) == b.date && SafeId(CycleId(b.prefix, b.maxAttempts).Text())
  }

  /** What the watch learns of a cycle: its exit code, and the result and the count in its report. */
  datatype Reading = Reading(exit: int, result: Verdict, count: int)

  /** What clock and cycle do in one attempt: the clock shows a time before the cycle and another before the
      sleep (`None` is a time without a zone); `None` for the cycle is an exception, from the cycle itself or
      from `_read_cycle_report`. */
  datatype Moment = Moment(observed: Option<int>, cycle: Option<Reading>, rechecked: Option<int>)

  /** What they would do in every attempt; the watch may stop before it comes to most of them. */
  type World = seq<Moment>

  datatype Attempt = Attempt(id: CycleId, result: Verdict)

  datatype Fault = BadBoundary | NaiveClock | BadCycle | Inconsistent | NotOneCandidate | UnexpectedOpportunity

  datatype Terminal = Selected | Exhausted | WrongSessionDate | DeadlineReached

  datatype Ending = Finished(terminal: Terminal, selected: Option<CycleId>) | Failed(fault: Fault)

  datatype Run = Run(attempts: seq<Attempt>, sleeps: seq<int>, ending: Ending)

  predicate Consistent(exit: int, result: Verdict) {
    (exit == 0 || exit == 1) && (exit == 0 <==> result != Blocked)
  }

  function Nap(b: Boundary, remaining: int): int {
    if b.poll <= remaining then b.poll else remaining
  }

  /** One turn of the loop: it ends the watch, with or without an attempt made, or sleeps before the next. */
  datatype Turn = End(attempts: seq<Attempt>, ending: Ending) | Again(attempt: Attempt, nap: int)

  /** The turn once the clock has let the cycle run. */
  function AfterCycle(b: Boundary, a: Attempt, last: bool, c: Reading, rechecked: Option<int>): Turn {
    if c.result == Ready then
      End([a], if c.count == 1 then Finished(Selected, Some(a.id)) else Failed(NotOneCandidate))
    else if c.count != 0 then End([a], Failed(UnexpectedOpportunity))
    else if last then End([a], Finished(Exhausted, None))
    else if rechecked == None then End([a], Failed(NaiveClock))
    else if b.deadline - rechecked.value <= 0 then End([a], Finished(DeadlineReached, None))
    else Again(a, Nap(b, b.deadline - rechecked.value))
  }

  function TurnAt(b: Boundary, m: Moment, n: nat): Turn
    requires n <= 999
  {
    if m.observed == None then End([], Failed(NaiveClock))
    else if !b.fixture && DateOf(m.observed.value) != b.date then End([], Finished(WrongSessionDate, None))
    else if !b.fixture && m.observed.value > b.deadline then End([], Finished(DeadlineReached, None))
    else if m.cycle == None then End([], Failed(BadCycle))
    else
      var c := m.cycle.value;
      if !Consistent(c.exit, c.result) then End([], Failed(Inconsistent))
      else AfterCycle(b, Attempt(CycleId(b.prefix, n), c.result), n == b.maxAttempts, c, m.rechecked)
  }

  predicate Range(b: Boundary, w: World, n: nat) {
    Parsed(b) && |w| == b.maxAttempts && 1 <= n <= b.maxAttempts
  }

  /** The watch from its nth attempt on. */
  function From(b: Boundary, w: World, n: nat): Run
    requires Range(b, w, n)
    decreases b.maxAttempts - n
  {
    match TurnAt(b, w[n - 1], n)
    case End(attempts, ending) => Run(attempts, [], ending)
    case Again(a, nap) =>
      var rest := From(b, w, n + 1);
      Run([a] + rest.attempts, [nap] + rest.sleeps, rest.ending)
  }

  function Join(attempts: seq<Attempt>, sleeps: seq<int>, rest: Run): Run {
    Run(attempts + rest.attempts, sleeps + rest.sleeps, rest.ending)
  }

  lemma JoinStep(b: Boundary, w: World, n: nat, attempts: seq<Attempt>, sleeps: seq<int>)
    requires Range(b, w, n)
    ensures var whole, t := Join(attempts, sleeps, From(b, w, n)), TurnAt(b, w[n - 1], n);
      match t
      case End(made, ending) => whole == Run(attempts + made, sleeps, ending)
      case Again(a, nap) => n < b.maxAttempts && whole == Join(attempts + [a], sleeps + [nap], From(b, w, n + 1))
  {
    match TurnAt(b, w[n - 1], n)
    case End(made, ending) => assert sleeps + [] == sleeps;
    case Again(a, nap) =>
      var rest := From(b, w, n + 1);
      assert attempts + ([a] + rest.attempts) == attempts + [a] + rest.attempts;
      assert sleeps + ([nap] + rest.sleeps) == sleeps + [nap] + rest.sleeps;
  }

  /** `main`: the loop does what the recursion says, and the exit code is 0 exactly when a cycle is selected. */
  method Watch(b: Boundary, w: World) returns (r: Run, exit: Option<int>)
    requires Parsed(b) && |w| == b.maxAttempts
    ensures r == if Accepted(b) then From(b, w, 1) else Run([], [], Failed(BadBoundary))
    ensures exit.None? <==> r.ending.Failed?
    ensures exit.Some? ==> exit.value == if r.ending.selected.Some? then 0 else 1
  {
    if DateOf(b.deadline) != b.date || !SafeId(CycleId(b.prefix, b.maxAttempts).Text()) {
      return Run([], [], Failed(BadBoundary)), None;
    }
    var attempts: seq<Attempt>, sleeps: seq<int> := [], [];
    var selected: Option<CycleId>, terminal := None, Exhausted;
    ghost var whole := From(b, w, 1);
    assert Join([], [], whole) == whole;
    var n := 1;
    while true
      invariant 1 <= n <= b.maxAttempts && selected == None && terminal == Exhausted
      invariant Join(attempts, sleeps, From(b, w, n)) == whole
      decreases b.maxAttempts - n
    {
      JoinStep(b, w, n, attempts, sleeps);
      assert attempts + [] == attempts;
      var observed := w[n - 1].observed;
      if observed == None { return Run(attempts, sleeps, Failed(NaiveClock)), None; }
      if !b.fixture && DateOf(observed.value) != b.date {
        terminal := WrongSessionDate;
        break;
      }
      if !b.fixture && observed.value > b.deadline {
        terminal := DeadlineReached;
        break;
      }
      var id, cycle := CycleId(b.prefix, n), w[n - 1].cycle;
      if cycle == None { return Run(attempts, sleeps, Failed(BadCycle)), None; }
      var Reading(code, result, count) := cycle.value;
      if !Consistent(code, result) { return Run(attempts, sleeps, Failed(Inconsistent)), None; }
      attempts := attempts + [Attempt(id, result)];
      if result == Ready {
        if count != 1 { return Run(attempts, sleeps, Failed(NotOneCandidate)), None; }
        selected, terminal := Some(id), Selected;
        break;
      }
      if count != 0 { return Run(attempts, sleeps, Failed(UnexpectedOpportunity)), None; }
      if n == b.maxAttempts { break; }
      var rechecked := w[n - 1].rechecked;
      if rechecked == None { return Run(attempts, sleeps, Failed(NaiveClock)), None; }
      var remaining := b.deadline - rechecked.value;
      if remaining <= 0 {
        terminal := DeadlineReached;
        break;
      }
      sleeps := sleeps + [Nap(b, remaining)];
      n := n + 1;
    }
    r, exit := Run(attempts, sleeps, Finished(terminal, selected)), Some(if selected == None then 1 else 0);
  }

  // ---- time ----

  function Sum(s: seq<int>): int {
    if s == [] then 0 else s[0] + Sum(s[1..])
  }

  function Max(a: int, b: int): int {
    if a < b then b else a
  }

  /** The clock does not go back during an attempt. */
  predicate Forward(m: Moment) {
    m.observed.Some? && m.rechecked.Some? ==> m.observed.value <= m.rechecked.value
  }

  /** The sleep between two moments lasted at least as long as was asked for. */
  predicate Slept(m: Moment, sleep: int, next: Moment) {
    m.rechecked.Some? && next.observed.Some? ==> m.rechecked.value + sleep <= next.observed.value
  }

  /** So it is throughout the watch from its nth attempt on. */
  predicate Steady(b: Boundary, w: World, n: nat)
    requires Range(b, w, n)
  {
    var sleeps := From(b, w, n).sleeps;
    && (forall k :: n - 1 <= k < n + |sleeps| && k < |w| ==> Forward(w[k]))
    && (forall k :: n - 1 <= k < n - 1 + |sleeps| && k + 1 < |w| ==> Slept(w[k], sleeps[k - n + 1], w[k + 1]))
  }

  lemma SteadyGoesOn(b: Boundary, w: World, n: nat)
    requires Range(b, w, n) && Steady(b, w, n) && TurnAt(b, w[n - 1], n).Again?
    ensures n < b.maxAttempts && Steady(b, w, n + 1) && Slept(w[n - 1], TurnAt(b, w[n - 1], n).nap, w[n])
  {
    var sleeps, rest := From(b, w, n).sleeps, From(b, w, n + 1).sleeps;
    assert sleeps == [TurnAt(b, w[n - 1], n).nap] + rest;
    forall k | n <= k < n + |rest| && k + 1 < |w| ensures Slept(w[k], rest[k - (n + 1) + 1], w[k + 1]) {
      assert sleeps[k - n + 1] == rest[k - n];
    }
  }

  /** How long each sleep is: the poll interval, or what is left until the deadline if that is less; and never nothing. */
  lemma {:induction false} SleepsAreSpelled(b: Boundary, w: World, n: nat, i: nat)
    requires Range(b, w, n) && i < |From(b, w, n).sleeps|
    ensures n + i < b.maxAttempts && w[n + i - 1].rechecked.Some?
    ensures var left, sleep := b.deadline - w[n + i - 1].rechecked.value, From(b, w, n).sleeps[i];
      sleep == (if b.poll <= left then b.poll else left) && sleep > 0
    decreases b.maxAttempts - n
  {
    if i > 0 { SleepsAreSpelled(b, w, n + 1, i - 1); }
  }

  /** The watch never sleeps past its deadline in all. */
  lemma {:induction false} SleepIsBounded(b: Boundary, w: World, n: nat)
    requires Range(b, w, n) && Steady(b, w, n) && w[n - 1].observed.Some?
    ensures Sum(From(b, w, n).sleeps) <= Max(0, b.deadline - w[n - 1].observed.value)
    decreases b.maxAttempts - n
  {
    var t := TurnAt(b, w[n - 1], n);
    assert Forward(w[n - 1]);
    if t.Again? {
      SteadyGoesOn(b, w, n);
      var rest := From(b, w, n + 1).sleeps;
      assert ([t.nap] + rest)[1..] == rest;
      if w[n].observed.Some? {
        SleepIsBounded(b, w, n + 1);
      } else {
        assert rest == [];
      }
    }
  }

  /** At most one attempt with no time left; with time left one for every full poll interval, and two more. */
  predicate Bounded(made: nat, left: int, poll: int) {
    (left <= 0 ==> made <= 1) && (made > 2 ==> (made - 2) * poll <= left)
  }

  lemma OneMore(made: nat, later: int, left: int, nap: int, poll: int)
    requires poll > 0 && Bounded(made, later, poll) && 0 < nap <= left && later <= left - nap
    requires nap == poll || later <= 0
    ensures Bounded(1 + made, left, poll)
  {
    if made > 1 {
      assert (1 + made - 2) * poll == (made - 2) * poll + poll;
    }
  }

  lemma {:induction false} AttemptsAreBounded(b: Boundary, w: World, n: nat)
    requires Range(b, w, n) && Steady(b, w, n) && w[n - 1].observed.Some?
    ensures Bounded(|From(b, w, n).attempts|, b.deadline - w[n - 1].observed.value, b.poll)
    decreases b.maxAttempts - n
  {
    var t := TurnAt(b, w[n - 1], n);
    assert Forward(w[n - 1]);
    if t.Again? { SteadyGoesOn(b, w, n); }
    if t.Again? && w[n].observed.Some? {
      var seen, next := w[n - 1].observed.value, w[n].observed.value;
      AttemptsAreBounded(b, w, n + 1);
      OneMore(|From(b, w, n + 1).attempts|, b.deadline - next, b.deadline - seen, t.nap, b.poll);
    }
  }

  /** A watch whose first observation is not past the deadline makes at most two attempts more than there are full
      poll intervals until then; one that begins at the deadline or later makes at most one. */
  lemma AttemptsFitTheDeadline(b: Boundary, w: World)
    requires Range(b, w, 1) && Steady(b, w, 1) && w[0].observed.Some?
    ensures var left, made := b.deadline - w[0].observed.value, |From(b, w, 1).attempts|;
      (left <= 0 ==> made <= 1) && (left >= 0 ==> made <= 2 + left / b.poll)
  {
    AttemptsAreBounded(b, w, 1);
    InPolls(|From(b, w, 1).attempts|, b.deadline - w[0].observed.value, b.poll);
  }

  lemma InPolls(made: nat, left: int, poll: int)
    requires poll > 0 && Bounded(made, left, poll)
    ensures (left <= 0 ==> made <= 1) && (left >= 0 ==> made <= 2 + left / poll)
  {
    if made > 2 { Divide(made - 2, left, poll); }
  }

  lemma Divide(k: nat, left: int, poll: int)
    requires poll > 0 && k * poll <= left
    ensures k <= left / poll
  {
    var q := left / poll;
    assert left < (q + 1) * poll;
    if k > q { Scale(q + 1, k, poll); }
  }

  lemma Scale(x: int, y: int, k: int)
    requires x <= y && k > 0
    ensures x * k <= y * k
  {
  }

  /** Outside fixture mode no attempt starts past the deadline or on another day. */
  lemma {:induction false} NoAttemptIsLate(b: Boundary, w: World, n: nat, i: nat)
    requires Range(b, w, n) && i < |From(b, w, n).attempts|
    ensures n + i <= b.maxAttempts
    ensures var seen := w[n + i - 1].observed;
      seen.Some? && (b.fixture || (seen.value <= b.deadline && OnDay(seen.value, b.date)))
    decreases b.maxAttempts - n
  {
    if w[n - 1].observed.Some? { DateIsDay(w[n - 1].observed.value, b.date); }
    if i > 0 { NoAttemptIsLate(b, w, n + 1, i - 1); }
  }

  // ---- endings ----

  function Last(r: Run): Attempt
    requires r.attempts != []
  {
    r.attempts[|r.attempts| - 1]
  }

  /** The numbers of the attempts run on from `n`, and each attempt carries its own id and its cycle's result. */
  lemma {:induction false} AttemptsAreNumbered(b: Boundary, w: World, n: nat, i: nat)
    requires Range(b, w, n) && i < |From(b, w, n).attempts|
    ensures n + i <= b.maxAttempts && w[n + i - 1].cycle.Some?
    ensures From(b, w, n).attempts[i] == Attempt(CycleId(b.prefix, n + i), w[n + i - 1].cycle.value.result)
    decreases b.maxAttempts - n
  {
    if i > 0 { AttemptsAreNumbered(b, w, n + 1, i - 1); }
  }

  /** A sleep follows every attempt but, perhaps, the last. */
  lemma {:induction false} SleepsFollowAttempts(b: Boundary, w: World, n: nat)
    requires Range(b, w, n)
    ensures var r := From(b, w, n); |r.attempts| - 1 <= |r.sleeps| <= |r.attempts|
    decreases b.maxAttempts - n
  {
    if TurnAt(b, w[n - 1], n).Again? { SleepsFollowAttempts(b, w, n + 1); }
  }

  /** An attempt that a sleep follows was blocked or empty, and had no Opportunity. */
  lemma {:induction false} OnlyTheLastIsReady(b: Boundary, w: World, n: nat, i: nat)
    requires Range(b, w, n) && i < |From(b, w, n).sleeps|
    ensures i < |From(b, w, n).attempts| && n + i < b.maxAttempts
    ensures From(b, w, n).attempts[i].result != Ready
    ensures w[n + i - 1].cycle.Some? && w[n + i - 1].cycle.value.count == 0
    decreases b.maxAttempts - n
  {
    if i > 0 { OnlyTheLastIsReady(b, w, n + 1, i - 1); }
  }

  /** How a finished watch relates to its attempts; `count` is the count of the last one. */
  predicate Exact(r: Run, due: int, count: int) {
    r.ending.Finished? ==>
      && (r.ending.selected.Some? <==> r.attempts != [] && Last(r).result == Ready)
      && (r.ending.terminal == Selected <==> r.ending.selected.Some?)
      && (r.ending.selected.Some? ==> r.ending.selected.value == Last(r).id && count == 1)
      && (r.ending.terminal == Exhausted <==> r.attempts != [] && |r.attempts| == due && Last(r).result != Ready)
  }

  lemma EndIsExact(b: Boundary, m: Moment, n: nat)
    requires n <= b.maxAttempts <= 999 && TurnAt(b, m, n).End?
    ensures var t := TurnAt(b, m, n);
      && |t.attempts| <= 1 && (t.attempts != [] ==> m.cycle.Some?)
      && Exact(Run(t.attempts, [], t.ending), b.maxAttempts - n + 1, if m.cycle.Some? then m.cycle.value.count else 0)
  {
  }

  lemma ExactBefore(r: Run, rest: Run, a: Attempt, nap: int, due: int, count: int)
    requires r == Run([a] + rest.attempts, [nap] + rest.sleeps, rest.ending)
    requires Exact(rest, due, count) && a.result != Ready && |rest.attempts| <= due && due > 0
    requires rest.ending.Finished? && rest.ending.terminal == Exhausted ==> rest.attempts != []
    ensures Exact(r, due + 1, count)
  {
    if rest.attempts != [] { assert Last(r) == Last(rest); }
  }

  function LastCount(b: Boundary, w: World, n: nat): int
    requires Range(b, w, n)
  {
    var k := n + |From(b, w, n).attempts| - 2;
    if 0 <= k < |w| && w[k].cycle.Some? then w[k].cycle.value.count else 0
  }

  /** A watch that finishes selects a cycle exactly when its last attempt was ready, and then that one, which
      had one Opportunity; it is exhausted exactly when every attempt was made and the last was not ready. */
  lemma {:induction false} EndingIsExact(b: Boundary, w: World, n: nat)
    requires Range(b, w, n)
    ensures Exact(From(b, w, n), b.maxAttempts - n + 1, LastCount(b, w, n))
    decreases b.maxAttempts - n
  {
    var t := TurnAt(b, w[n - 1], n);
    if t.End? {
      EndIsExact(b, w[n - 1], n);
    } else {
      EndingIsExact(b, w, n + 1);
      RestIsShorter(b, w, n + 1);
      assert LastCount(b, w, n) == LastCount(b, w, n + 1);
      ExactBefore(From(b, w, n), From(b, w, n + 1), t.attempt, t.nap, b.maxAttempts - n, LastCount(b, w, n));
    }
  }

  lemma {:induction false} RestIsShorter(b: Boundary, w: World, n: nat)
    requires Range(b, w, n)
    ensures |From(b, w, n).attempts| <= b.maxAttempts - n + 1
    decreases b.maxAttempts - n
  {
    if TurnAt(b, w[n - 1], n).Again? { RestIsShorter(b, w, n + 1); }
  }

  /** Why a watch stopped: `next` is the moment it came to, and `sleeps == attempts` says that it made no attempt
      there. The date is looked at before the deadline; the deadline itself is still in time for an attempt, and too
      late for a sleep. */
  predicate StoppedFor(r: Run, b: Boundary, due: int, next: Moment) {
    r.ending.Finished? ==>
      && (|r.sleeps| == |r.attempts| ==>
            && next.observed.Some? && !b.fixture
            && r.ending.terminal ==
                 (if !OnDay(next.observed.value, b.date) then WrongSessionDate else DeadlineReached)
            && (r.ending.terminal == DeadlineReached ==> next.observed.value > b.deadline))
      && (|r.sleeps| < |r.attempts| ==>
            && (r.ending.terminal == DeadlineReached <==> Last(r).result != Ready && |r.attempts| < due)
            && (r.ending.terminal == DeadlineReached ==> next.rechecked.Some? && next.rechecked.value >= b.deadline)
            && r.ending.terminal != WrongSessionDate)
  }

  lemma EndIsStopped(b: Boundary, m: Moment, n: nat)
    requires n <= b.maxAttempts <= 999 && TurnAt(b, m, n).End?
    ensures var t := TurnAt(b, m, n); StoppedFor(Run(t.attempts, [], t.ending), b, b.maxAttempts - n + 1, m)
  {
    if m.observed.Some? { DateIsDay(m.observed.value, b.date); }
  }

  lemma StoppedBefore(r: Run, rest: Run, a: Attempt, nap: int, b: Boundary, due: int, next: Moment)
    requires r == Run([a] + rest.attempts, [nap] + rest.sleeps, rest.ending)
    requires StoppedFor(rest, b, due, next)
    ensures StoppedFor(r, b, due + 1, next)
  {
    if rest.attempts != [] { assert Last(r) == Last(rest); }
  }

  /** The watch gives the right reason, at the moment numbered by its sleeps. */
  lemma {:induction false} StopIsExact(b: Boundary, w: World, n: nat)
    requires Range(b, w, n)
    ensures var r := From(b, w, n);
      n + |r.sleeps| <= b.maxAttempts && StoppedFor(r, b, b.maxAttempts - n + 1, w[n + |r.sleeps| - 1])
    decreases b.maxAttempts - n
  {
    var t := TurnAt(b, w[n - 1], n);
    if t.End? {
      EndIsStopped(b, w[n - 1], n);
    } else {
      StopIsExact(b, w, n + 1);
      var rest := From(b, w, n + 1);
      StoppedBefore(From(b, w, n), rest, t.attempt, t.nap, b, b.maxAttempts - n, w[n + |rest.sleeps|]);
    }
  }

  // ---- ids ----

  lemma DigitsDiffer(c: nat, d: nat)
    requires c < 10 && d < 10 && Digit(c) == Digit(d)
    ensures c == d
  {
    assert Digit(c) as int == 48 + c && Digit(d) as int == 48 + d;
  }

  lemma IdsDiffer(prefix: string, m: Number, n: Number)
    ensures CycleId(prefix, m).Text() == CycleId(prefix, n).Text() ==> m == n
  {
    var k, a, z := |prefix| + 1, CycleId(prefix, m).Text(), CycleId(prefix, n).Text();
    if a == z {
      assert a[k] == z[k] && a[k + 1] == z[k + 1] && a[k + 2] == z[k + 2];
      DigitsDiffer(m / 100, n / 100);
      DigitsDiffer(m / 10 % 10, n / 10 % 10);
      DigitsDiffer(m % 10, n % 10);
      ThreeDigits(m);
      ThreeDigits(n);
    }
  }

  lemma ThreeDigits(n: nat)
    ensures n == 100 * (n / 100) + 10 * (n / 10 % 10) + n % 10
  {
  }

  /** Only the last possible id is checked; all of them are as safe. */
  lemma IdsAreSafe(prefix: string, last: Number, n: Number)
    requires SafeId(CycleId(prefix, last).Text())
    ensures SafeId(CycleId(prefix, n).Text())
  {
    var a, z := CycleId(prefix, n).Text(), CycleId(prefix, last).Text();
    assert z == prefix + ("-" + z[|prefix| + 1..]);
    assert z[0] != '-';
    forall i | 0 <= i < |prefix| + 1 ensures a[i] == z[i] {}
    assert IsAlnum(Digit(n / 100)) && IsAlnum(Digit(n / 10 % 10)) && IsAlnum(Digit(n % 10));
  }

  /** So the ids of a watch that its boundary let start are safe and differ from each other. */
  lemma IdsOfOneWatch(b: Boundary, w: World, i: nat, j: nat)
    requires Range(b, w, 1) && Accepted(b) && i < |From(b, w, 1).attempts| && j < |From(b, w, 1).attempts|
    ensures var a := From(b, w, 1).attempts; SafeId(a[i].id.Text()) && (i != j ==> a[i].id.Text() != a[j].id.Text())
  {
    AttemptsAreNumbered(b, w, 1, i);
    AttemptsAreNumbered(b, w, 1, j);
    IdsAreSafe(b.prefix, b.maxAttempts, 1 + i);
    IdsDiffer(b.prefix, 1 + i, 1 + j);
  }

  predicate Alphanumeric(ch: char) {
    48 <= ch as int <= 57 || 65 <= ch as int <= 90 || 97 <= ch as int <= 122
  }

  /** An id is the prefix, a hyphen and the number in three digits. */
  lemma IdIsSpelled(prefix: string, n: Number)
    ensures var s := CycleId(prefix, n).Text();
      && |s| == |prefix| + 4 && s[..|prefix|] == prefix && s[|prefix|] as int == 45
      && (forall i :: |prefix| < i < |s| ==> IsDecimal(s[i])) && Numeral(s[|prefix| + 1..]) == n
  {
    var s := CycleId(prefix, n).Text();
    var d := s[|prefix| + 1..];
    assert d == [Digit(n / 100), Digit(n / 10 % 10), Digit(n % 10)];
    ThreeDigits(n);
    assert d[..2][..1][..0] == "" && d[..2][..1] == [d[0]] && d[..2] == [d[0], d[1]];
    assert Numeral(d[..2][..1]) == n / 100 && Numeral(d[..2]) == 10 * (n / 100) + n / 10 % 10;
  }

  /** With what the watch starts: a poll interval from a second to an hour, 1 to 999 attempts, a deadline on the day of the
      collection, and a prefix of 1 to 124 letters, digits and marks, the first of them no mark. */
  lemma AcceptedIsSpelled(b: Boundary)
    ensures Parsed(b) && Accepted(b) <==>
      && 1_000_000 <= b.poll <= 3_600_000_000 && 1 <= b.maxAttempts <= 999
      && OnDay(b.deadline, b.date) && 1 <= |b.prefix| <= 124 && Alphanumeric(b.prefix[0])
      && forall i :: 1 <= i < |b.prefix| ==> Alphanumeric(b.prefix[i]) || b.prefix[i] as int in {95, 46, 58, 45}
  {
    if !Parsed(b) { return; }
    var s := CycleId(b.prefix, b.maxAttempts).Text();
    DateIsDay(b.deadline, b.date);
    IdIsSpelled(b.prefix, b.maxAttempts);
    assert forall i :: 0 <= i < |b.prefix| ==> s[i] == b.prefix[i];
    assert forall i :: |b.prefix| < i < |s| ==> IsAlnum(s[i]);
    assert s[|b.prefix|] == '-';
    forall ch: char ensures IsAlnum(ch) <==> Alphanumeric(ch) {}
    forall ch: char ensures ch in "_.:-" <==> ch as int in {95, 46, 58, 45} { Marks(ch); }
  }

  lemma Marks(ch: char)
    ensures ch in "_.:-" <==> ch as int in {95, 46, 58, 45}
  {
    var marks := "_.:-";
    assert marks[0] == '_' && marks[1] == '.' && marks[2] == ':' && marks[3] == '-';
  }

  // ---- what makes the watch raise ----

  /** An attempt counts only if its cycle returned 0 and a result, or 1 and none. */
  lemma {:induction false} AttemptsAreConsistent(b: Boundary, w: World, n: nat, i: nat)
    requires Range(b, w, n) && i < |From(b, w, n).attempts|
    ensures n + i <= b.maxAttempts && w[n + i - 1].cycle.Some?
    ensures var c := w[n + i - 1].cycle.value;
      || (c.exit == 0 && (c.result == NoOpportunity || c.result == Ready))
      || (c.exit == 1 && c.result == Blocked)
    decreases b.maxAttempts - n
  {
    if i > 0 { AttemptsAreConsistent(b, w, n + 1, i - 1); }
  }

  /** Why the watch raised, at the moment it had come to; whether it had made its attempt there, the sleeps tell. */
  predicate RaisedFor(r: Run, m: Moment) {
    r.ending.Failed? ==>
      var attempted := |r.sleeps| < |r.attempts|;
      match r.ending.fault
      case BadBoundary => false
      case NaiveClock => if attempted then m.rechecked == None else m.observed == None
      case BadCycle => !attempted && m.cycle == None
      case Inconsistent =>
        && !attempted && m.cycle.Some?
        && !(m.cycle.value.exit == 0 && m.cycle.value.result != Blocked)
        && !(m.cycle.value.exit == 1 && m.cycle.value.result == Blocked)
      case NotOneCandidate => attempted && m.cycle.Some? && m.cycle.value.result == Ready && m.cycle.value.count != 1
      case UnexpectedOpportunity => attempted && m.cycle.Some? && m.cycle.value.result != Ready && m.cycle.value.count != 0
  }

  lemma {:induction false} FailureIsExact(b: Boundary, w: World, n: nat)
    requires Range(b, w, n)
    ensures var r := From(b, w, n); n + |r.sleeps| <= b.maxAttempts && RaisedFor(r, w[n + |r.sleeps| - 1])
    decreases b.maxAttempts - n
  {
    if TurnAt(b, w[n - 1], n).Again? { FailureIsExact(b, w, n + 1); }
  }

  // ---- together with the cycle ----

  /** The moment's cycle is one that `CycleReport.RunCycle` can end as, with its report read back by the watch. */
  ghost predicate FromCycle(m: Moment) {
    m.cycle.Some? && exists v, count: nat ::
      Honest(m.cycle.value.exit, v, count) && Read(Report(v, count)) == Some((m.cycle.value.result, m.cycle.value.count))
  }

  lemma HonestReading(m: Moment)
    requires FromCycle(m)
    ensures var c := m.cycle.value; Consistent(c.exit, c.result) && c.count >= 0 && (c.result == Ready <==> c.count > 0)
  {
    var c := m.cycle.value;
    var v, count: nat :| Honest(c.exit, v, count) && Read(Report(v, count)) == Some((c.result, c.count));
    RoundTrip(v, count);
  }

  /** The clock knows its zone, and the cycle is one that `HonestReading` speaks of. */
  predicate Usual(m: Moment) {
    && m.observed.Some? && m.rechecked.Some? && m.cycle.Some?
    && var c := m.cycle.value; Consistent(c.exit, c.result) && c.count >= 0 && (c.result == Ready <==> c.count > 0)
  }

  /** The watch raised, and it did because the last cycle had more than one Opportunity. */
  predicate RaisedForMany(r: Run, count: int) {
    && (r.ending.Failed? <==> r.attempts != [] && count > 1)
    && (r.ending.Failed? ==> r.ending.fault == NotOneCandidate && Last(r).result == Ready)
  }

  lemma EndIsUsual(b: Boundary, m: Moment, n: nat)
    requires n <= b.maxAttempts <= 999 && TurnAt(b, m, n).End? && Usual(m)
    ensures var t := TurnAt(b, m, n); |t.attempts| <= 1 && RaisedForMany(Run(t.attempts, [], t.ending), m.cycle.value.count)
  {
  }

  lemma {:induction false} UsualRun(b: Boundary, w: World, n: nat)
    requires Range(b, w, n) && forall i :: 0 <= i < |w| ==> Usual(w[i])
    ensures RaisedForMany(From(b, w, n), LastCount(b, w, n))
    decreases b.maxAttempts - n
  {
    var t := TurnAt(b, w[n - 1], n);
    assert Usual(w[n - 1]);
    if t.End? {
      EndIsUsual(b, w[n - 1], n);
    } else {
      UsualRun(b, w, n + 1);
      RestIsShorter(b, w, n + 1);
      var r, rest := From(b, w, n), From(b, w, n + 1);
      assert LastCount(b, w, n) == LastCount(b, w, n + 1);
      if rest.attempts != [] { assert Last(r) == Last(rest); }
    }
  }

  /** With the repository's own cycle and a clock that knows its zone, the one thing that makes the watch raise is a
      cycle with more than one Opportunity. */
  lemma OnlyManyOpportunitiesRaise(b: Boundary, w: World)
    requires Range(b, w, 1)
    requires forall i :: 0 <= i < |w| ==> FromCycle(w[i]) && w[i].observed.Some? && w[i].rechecked.Some?
    ensures RaisedForMany(From(b, w, 1), LastCount(b, w, 1))
  {
    forall i | 0 <= i < |w| ensures Usual(w[i]) { HonestReading(w[i]); }
    UsualRun(b, w, 1);
  }
}
