/** After a session: four phases in order, and one terminal record of a configured trial, unless the runner raises in
    a phase (run_kis_paper_watch.py). A command is its argument vector; a path is its text. */
module PostSession {
  import opened Wrappers

  type Argv = seq<string>

  datatype Lane = Lane(executionDatabase: string, registry: string, reviewLedger: string, outputDir: string)

  datatype Trial = Trial(ledger: string, lane: Lane)

  /** `StrategyMode`, as far as it matters here. */
  datatype Strategy = Orb | OtherStrategy(value: string)

  /** The arguments of `run_session_metrics`, and what it asks of the clock and the disk: the New York date of
      `observed_at`, whether the session is open then, and whether the database is there. `here` is the
      directory of the scripts. */
  datatype Session = Session(
    here: string, output: string, date: string, open: bool, database: bool,
    strategy: Strategy, lane: Option<Lane>, trial: Option<Trial>)

  datatype Phase = PaperMetrics | DailyResearchRecord | AdaptiveEvaluation | LaneForwardValidation

  function PhaseValue(p: Phase): string {
    match p
    case PaperMetrics => "paper_metrics"
    case DailyResearchRecord => "daily_research_record"
    case AdaptiveEvaluation => "adaptive_evaluation"
    case LaneForwardValidation => "lane_forward_validation"
  }

  function StrategyValue(s: Strategy): string {
    match s
    case Orb => "orb"
    case OtherStrategy(value) => value
  }

  // ---- commands ----

  function MetricsCommand(s: Session): Argv {
    [s.here + "/run_paper_metrics.py", s.output + "/paper_recommendations.sqlite3", "--output-dir", s.output + "/paper_metrics"]
  }

  function ResearchCommand(s: Session): Argv {
    [s.here + "/run_daily_research_record.py", s.output, "--session-date", s.date, "--strategy", StrategyValue(s.strategy)]
  }

  function AdaptiveCommand(s: Session): Argv {
    [s.here + "/run_adaptive_strategy_evaluation.py", s.output]
  }

  function LaneCommand(s: Session, l: Lane): Argv {
    [s.here + "/run_orb_lane_forward_validation.py", s.output, "--session-date", s.date,
     "--execution-database", l.executionDatabase, "--lane-registry", l.registry,
     "--review-ledger", l.reviewLedger, "--output-dir", l.outputDir]
  }

  function TrialScript(s: Session): string {
    s.here + "/run_orb_forward_trial.py"
  }

  function TrialOutput(s: Session, t: Trial, operation: string): string {
    t.lane.outputDir + "/trials/" + s.date + "/" + operation
  }

  function FinalizeCommand(s: Session, t: Trial): Argv {
    [TrialScript(s), "finalize", s.output, "--experiment-ledger", t.ledger, "--lane-registry", t.lane.registry,
     "--review-ledger", t.lane.reviewLedger, "--session-date", s.date, "--output-dir", TrialOutput(s, t, "finalize")]
  }

  function FailCommand(s: Session, t: Trial, p: Phase, audit: string): Argv {
    [TrialScript(s), "fail", "--experiment-ledger", t.ledger, "--session-date", s.date, "--phase", PhaseValue(p),
     "--audit", audit, "--output-dir", TrialOutput(s, t, "fail")]
  }

  function TerminalAudit(s: Session): string {
    s.output + "/post_session_orb_trial_terminal_cycles.csv"
  }

  function AuditOf(s: Session, p: Phase): string {
    match p
    case PaperMetrics => s.output + "/post_session_metrics_cycles.csv"
    case DailyResearchRecord => s.output + "/post_session_research_cycles.csv"
    case AdaptiveEvaluation => s.output + "/post_session_adaptive_evaluation_cycles.csv"
    case LaneForwardValidation => s.output + "/post_session_lane_forward_validation_cycles.csv"
  }

  // ---- the runner ----

  /** How the runner answers: with the command's exit code, or with an exception. An exception comes before the
      command has an exit code (it could not be started), or after, when the audit could not be written. */
  datatype Reply = Exit(code: int) | Raised(ran: Option<int>)

  /** One command that was given to the runner, the audit file that goes with it, and the answer. */
  datatype Issued = Issued(command: Argv, audit: string, reply: Reply)

  /** Any runner at all: it may raise, and the answer may depend on the command and on everything before it. */
  class Runner {
    const answer: (seq<Issued>, Argv) -> Reply
    var log: seq<Issued>

    constructor (answer: (seq<Issued>, Argv) -> Reply)
      ensures this.answer == answer && log == []
    {
      this.answer := answer;
      log := [];
    }

    /** `_run_and_audit`. */
    method Run(command: Argv, audit: string) returns (reply: Reply)
      modifies this
      ensures reply == answer(old(log), command) && log == old(log) + [Issued(command, audit, reply)]
    {
      reply := answer(log, command);
      log := log + [Issued(command, audit, reply)];
    }
  }

  /** The answers in `issued`, which came after `before`, are this runner's. */
  ghost predicate Answered(answer: (seq<Issued>, Argv) -> Reply, before: seq<Issued>, issued: seq<Issued>) {
    forall i :: 0 <= i < |issued| ==> issued[i].reply == answer(before + issued[..i], issued[i].command)
  }

  lemma AnsweredNext(answer: (seq<Issued>, Argv) -> Reply, before: seq<Issued>, issued: seq<Issued>, i: Issued)
    requires Answered(answer, before, issued) && i.reply == answer(before + issued, i.command)
    ensures Answered(answer, before, issued + [i])
  {
    var more := issued + [i];
    forall j | 0 <= j < |more| ensures more[j].reply == answer(before + more[..j], more[j].command) {
      assert more[..j] == issued[..j];
      if j == |issued| { assert issued[..j] == issued; }
    }
  }

  // ---- what is expected ----

  /** The two `ValueError`s. */
  predicate Guarded(s: Session) {
    && (s.lane.Some? ==> s.strategy.Orb?)
    && (s.trial.Some? ==> s.strategy.Orb? && s.lane == Some(s.trial.value.lane))
  }

  /** The chain of one session: the command and the audit file of every phase, and the terminals of its trial. */
  datatype Plan = Plan(lane: bool, trial: bool, command: Phase -> Argv, audit: Phase -> string,
                       finalize: Argv, fail: Phase -> Argv, terminal: string)

  function PlanOf(s: Session): Plan {
    Plan(
      s.lane.Some?, s.trial.Some?,
      (p: Phase) => match p {
        case PaperMetrics => MetricsCommand(s)
        case DailyResearchRecord => ResearchCommand(s)
        case AdaptiveEvaluation => AdaptiveCommand(s)
        case LaneForwardValidation => if s.lane.Some? then LaneCommand(s, s.lane.value) else [] },
      (p: Phase) => AuditOf(s, p),
      if s.trial.Some? then FinalizeCommand(s, s.trial.value) else [],
      (p: Phase) => if s.trial.Some? then FailCommand(s, s.trial.value, p, AuditOf(s, p)) else [],
      TerminalAudit(s))
  }

  function Phases(p: Plan): seq<Phase> {
    [PaperMetrics, DailyResearchRecord, AdaptiveEvaluation] + if p.lane then [LaneForwardValidation] else []
  }

  /** The record of a phase that was answered so. */
  function Record(p: Plan, phase: Phase, reply: Reply): Issued {
    Issued(p.command(phase), p.audit(phase), reply)
  }

  /** How `run_session_metrics` ends: a `ValueError`, `None`, a code, or the runner's exception, which nothing catches. */
  datatype Outcome = BadConfiguration | Nothing | Code(code: int) | RunnerRaised

  /** What is issued after `phase` has ended the chain with the answer `last`, and how the session then ends. After an
      exception nothing. Without a trial nothing either, and the code is returned. With one, a failure that names that
      phase and its audit, and the code again; or, when the last phase of all succeeded, the finalization, whose code is
      returned. An exception from that last command is the session's. */
  predicate Closed(p: Plan, phase: Phase, last: Reply, after: seq<Issued>, out: Outcome) {
    if last.Raised? then after == [] && out == RunnerRaised
    else if !p.trial then after == [] && out == Code(last.code)
    else
      && |after| == 1 && after[0].audit == p.terminal
      && after[0].command == (if last.code != 0 then p.fail(phase) else p.finalize)
      && out == (if after[0].reply.Raised? then RunnerRaised
                 else Code(if last.code != 0 then last.code else after[0].reply.code))
  }

  /** The first phases ran in order, and all but the last of them returned 0. */
  ghost predicate Chain(p: Plan, issued: seq<Issued>, last: Reply) {
    && 1 <= |issued| <= |Phases(p)|
    && (forall i :: 0 <= i < |issued| ==> issued[i] == Record(p, Phases(p)[i], if i == |issued| - 1 then last else Exit(0)))
  }

  /** `issued` is a chain of phases up to the first that does not return 0 or to the end, and its close. */
  ghost predicate RightAt(p: Plan, issued: seq<Issued>, out: Outcome, n: nat, last: Reply) {
    && 1 <= n <= |issued| && Chain(p, issued[..n], last) && (last != Exit(0) || n == |Phases(p)|)
    && Closed(p, Phases(p)[n - 1], last, issued[n..], out)
  }

  ghost predicate Right(p: Plan, issued: seq<Issued>, out: Outcome) {
    exists n: nat, last: Reply :: RightAt(p, issued, out, n, last)
  }

  lemma IsRight(p: Plan, chain: seq<Issued>, last: Reply, after: seq<Issued>, out: Outcome)
    requires Chain(p, chain, last) && (last != Exit(0) || |chain| == |Phases(p)|)
    requires Closed(p, Phases(p)[|chain| - 1], last, after, out)
    ensures Right(p, chain + after, out)
  {
    var n := |chain|;
    assert (chain + after)[..n] == chain && (chain + after)[n..] == after;
    assert RightAt(p, chain + after, out, n, last);
  }

  lemma NextPhase(p: Plan, chain: seq<Issued>, reply: Reply)
    requires |chain| < |Phases(p)| && (chain == [] || Chain(p, chain, Exit(0)))
    ensures Chain(p, chain + [Record(p, Phases(p)[|chain|], reply)], reply)
  {
  }

  /** `runner` has answered `issued` since `before`. */
  ghost predicate Since(runner: Runner, before: seq<Issued>, issued: seq<Issued>)
    reads runner
  {
    runner.log == before + issued && Answered(runner.answer, before, issued)
  }

  /** One command more. */
  method Issue(runner: Runner, command: Argv, audit: string, ghost before: seq<Issued>, ghost issued: seq<Issued>)
      returns (reply: Reply, ghost more: seq<Issued>)
    requires Since(runner, before, issued)
    modifies runner
    ensures more == issued + [Issued(command, audit, reply)] && Since(runner, before, more)
  {
    reply := runner.Run(command, audit);
    more := issued + [Issued(command, audit, reply)];
    AnsweredNext(runner.answer, before, issued, Issued(command, audit, reply));
    assert before + issued + [Issued(command, audit, reply)] == before + more;
  }

  /** `record_trial_failure`, after a chain that ended with `code`; then the return, unless the runner raises. */
  method RecordFailure(p: Plan, runner: Runner, phase: Phase, code: int, ghost before: seq<Issued>, ghost chain: seq<Issued>)
      returns (out: Outcome, ghost issued: seq<Issued>)
    requires code != 0 && Chain(p, chain, Exit(code)) && Phases(p)[|chain| - 1] == phase && Since(runner, before, chain)
    modifies runner
    ensures Since(runner, before, issued) && Right(p, issued, out)
  {
    out, issued := Code(code), chain;
    ghost var after := [];
    if p.trial {
      var ignored;
      ignored, issued := Issue(runner, p.fail(phase), p.terminal, before, chain);
      after := [Issued(p.fail(phase), p.terminal, ignored)];
      if ignored.Raised? { out := RunnerRaised; }
    }
    assert chain + [] == chain;
    IsRight(p, chain, Exit(code), after, out);
  }

  /** One phase of the chain: `None` when it returned 0, else how the session ends. */
  method RunPhase(p: Plan, runner: Runner, phase: Phase, ghost before: seq<Issued>, ghost chain: seq<Issued>)
      returns (end: Option<Outcome>, ghost issued: seq<Issued>)
    requires |chain| < |Phases(p)| && Phases(p)[|chain|] == phase && (chain == [] || Chain(p, chain, Exit(0)))
    requires Since(runner, before, chain)
    modifies runner
    ensures Since(runner, before, issued)
    ensures end.None? ==> |issued| == |chain| + 1 && Chain(p, issued, Exit(0))
    ensures end.Some? ==> Right(p, issued, end.value)
  {
    var reply;
    reply, issued := Issue(runner, p.command(phase), p.audit(phase), before, chain);
    NextPhase(p, chain, reply);
    if reply.Raised? {
      IsRight(p, issued, reply, [], RunnerRaised);
      assert issued + [] == issued;
      return Some(RunnerRaised), issued;
    }
    if reply.code == 0 { return None, issued; }
    var out;
    out, issued := RecordFailure(p, runner, phase, reply.code, before, issued);
    end := Some(out);
  }

  /** The terminal of a chain that went through. */
  method Close(p: Plan, runner: Runner, ghost before: seq<Issued>, ghost chain: seq<Issued>)
      returns (out: Outcome, ghost issued: seq<Issued>)
    requires Chain(p, chain, Exit(0)) && |chain| == |Phases(p)| && Since(runner, before, chain)
    modifies runner
    ensures Since(runner, before, issued) && Right(p, issued, out)
  {
    out, issued := Code(0), chain;
    ghost var after := [];
    if p.trial {
      var reply;
      reply, issued := Issue(runner, p.finalize, p.terminal, before, chain);
      after := [Issued(p.finalize, p.terminal, reply)];
      out := if reply.Raised? then RunnerRaised else Code(reply.code);
    }
    assert chain + [] == chain;
    IsRight(p, chain, Exit(0), after, out);
  }

  /** The phases and the terminal, once the session is known to be closed and to have a database. */
  method RunPlan(p: Plan, runner: Runner) returns (out: Outcome, ghost issued: seq<Issued>)
    requires p.trial ==> p.lane
    modifies runner
    ensures Since(runner, old(runner.log), issued) && Right(p, issued, out)
  {
    ghost var before := runner.log;
    assert before == before + [];
    var end;
    end, issued := RunPhase(p, runner, PaperMetrics, before, []);
    if end.Some? { return end.value, issued; }
    end, issued := RunPhase(p, runner, DailyResearchRecord, before, issued);
    if end.Some? { return end.value, issued; }
    end, issued := RunPhase(p, runner, AdaptiveEvaluation, before, issued);
    if end.Some? { return end.value, issued; }
    if p.lane {
      end, issued := RunPhase(p, runner, LaneForwardValidation, before, issued);
      if end.Some? { return end.value, issued; }
    }
    out, issued := Close(p, runner, before, issued);
  }

  /** What the session of `s` should issue, and how it should end. */
  ghost predicate RightSession(s: Session, issued: seq<Issued>, out: Outcome) {
    if !Guarded(s) then issued == [] && out == BadConfiguration
    else if s.open || !s.database then issued == [] && out == Nothing
    else Right(PlanOf(s), issued, out) && !out.BadConfiguration? && !out.Nothing?
  }

  lemma EndsItself(p: Plan, issued: seq<Issued>, out: Outcome)
    requires Right(p, issued, out)
    ensures out.Code? || out.RunnerRaised?
  {
  }

  /** `run_session_metrics`: refuses a wrong configuration and does nothing while the session is open or without a
      database; otherwise `issued` is what it gave to the runner, with the runner's answers, and that is right for the
      way it ends. */
  method RunSessionMetrics(s: Session, runner: Runner) returns (out: Outcome, ghost issued: seq<Issued>)
    modifies runner
    ensures Since(runner, old(runner.log), issued) && RightSession(s, issued, out)
    ensures out == BadConfiguration <==>
      || (s.lane.Some? && s.strategy != Orb)
      || (s.trial.Some? && (s.strategy != Orb || s.lane != Some(s.trial.value.lane)))
    ensures out == Nothing <==> out != BadConfiguration && (s.open || !s.database)
  {
    issued := [];
    assert runner.log == runner.log + [];
    if s.lane.Some? && !s.strategy.Orb? { return BadConfiguration, issued; }
    if s.trial.Some? && (!s.strategy.Orb? || Some(s.trial.value.lane) != s.lane) { return BadConfiguration, issued; }
    if s.open || !s.database { return Nothing, issued; }
    var p := PlanOf(s);
    out, issued := RunPlan(p, runner);
    EndsItself(p, issued, out);
  }

  // ---- the commands, word by word ----

  /** What is given to the runner for each phase, and the audit file that goes with it. */
  lemma PhasesAreSpelled(s: Session)
    ensures var p := PlanOf(s);
      && p.command(PaperMetrics)
         == [s.here + "/run_paper_metrics.py", s.output + "/paper_recommendations.sqlite3", "--output-dir", s.output + "/paper_metrics"]
      && p.command(DailyResearchRecord)
         == [s.here + "/run_daily_research_record.py", s.output, "--session-date", s.date,
             "--strategy", if s.strategy.Orb? then "orb" else s.strategy.value]
      && p.command(AdaptiveEvaluation) == [s.here + "/run_adaptive_strategy_evaluation.py", s.output]
    ensures s.lane.Some? ==>
      PlanOf(s).command(LaneForwardValidation)
         == [s.here + "/run_orb_lane_forward_validation.py", s.output, "--session-date", s.date,
             "--execution-database", s.lane.value.executionDatabase, "--lane-registry", s.lane.value.registry,
             "--review-ledger", s.lane.value.reviewLedger, "--output-dir", s.lane.value.outputDir]
  {
  }

  lemma AuditsAreSpelled(s: Session)
    ensures var p := PlanOf(s);
      && p.audit(PaperMetrics) == s.output + "/post_session_metrics_cycles.csv"
      && p.audit(DailyResearchRecord) == s.output + "/post_session_research_cycles.csv"
      && p.audit(AdaptiveEvaluation) == s.output + "/post_session_adaptive_evaluation_cycles.csv"
      && p.audit(LaneForwardValidation) == s.output + "/post_session_lane_forward_validation_cycles.csv"
      && p.terminal == s.output + "/post_session_orb_trial_terminal_cycles.csv"
  {
  }

  /** And for the terminals of a trial. */
  lemma TerminalsAreSpelled(s: Session, phase: Phase)
    requires s.trial.Some?
    ensures var p, t := PlanOf(s), s.trial.value;
      && p.finalize
         == [s.here + "/run_orb_forward_trial.py", "finalize", s.output, "--experiment-ledger", t.ledger,
             "--lane-registry", t.lane.registry, "--review-ledger", t.lane.reviewLedger, "--session-date", s.date,
             "--output-dir", t.lane.outputDir + "/trials/" + s.date + "/" + "finalize"]
      && p.fail(phase)
         == [s.here + "/run_orb_forward_trial.py", "fail", "--experiment-ledger", t.ledger, "--session-date", s.date,
             "--phase", PhaseValue(phase), "--audit", p.audit(phase),
             "--output-dir", t.lane.outputDir + "/trials/" + s.date + "/" + "fail"]
    ensures PhaseValue(PaperMetrics) == "paper_metrics" && PhaseValue(DailyResearchRecord) == "daily_research_record"
    ensures PhaseValue(AdaptiveEvaluation) == "adaptive_evaluation"
    ensures PhaseValue(LaneForwardValidation) == "lane_forward_validation"
  {
  }

  /** `i` is this phase of the plan. */
  predicate IsPhase(p: Plan, phase: Phase, i: Issued) {
    i.command == p.command(phase) && i.audit == p.audit(phase)
  }

  /** Metrics, research record, evaluation and validation come in this order, each as soon as all before it have returned
      0, and the validation only with a lane. */
  lemma PhasesAreInOrder(p: Plan, issued: seq<Issued>, out: Outcome)
    requires Right(p, issued, out)
    ensures var n := |issued|;
      && n >= 1 && IsPhase(p, PaperMetrics, issued[0])
      && (issued[0].reply == Exit(0) ==>
            n >= 2 && IsPhase(p, DailyResearchRecord, issued[1])
            && (issued[1].reply == Exit(0) ==>
                  n >= 3 && IsPhase(p, AdaptiveEvaluation, issued[2])
                  && (issued[2].reply == Exit(0) && p.lane ==> n >= 4 && IsPhase(p, LaneForwardValidation, issued[3]))
                  && (issued[2].reply == Exit(0) && !p.lane && !p.trial ==> n == 3 && out == Code(0))))
  {
    var n: nat, last: Reply :| RightAt(p, issued, out, n, last);
    assert issued == issued[..n] + issued[n..];
    forall i | 0 <= i < n
      ensures issued[i] == Record(p, Phases(p)[i], if i == n - 1 then last else Exit(0))
    {
      assert issued[i] == issued[..n][i];
    }
  }

  // ---- one terminal, or none ----

  /** A terminal: a command of the trial's own script that fails or finalizes. */
  predicate IsTerminal(s: Session, i: Issued) {
    |i.command| >= 2 && i.command[0] == TrialScript(s) && (i.command[1] == "finalize" || i.command[1] == "fail")
  }

  /** Where in `issued` the terminals are. */
  ghost function Terminals(s: Session, issued: seq<Issued>): set<nat> {
    set i: nat | i < |issued| && IsTerminal(s, issued[i])
  }

  lemma PhaseIsNoTerminal(s: Session, phase: Phase, reply: Reply)
    ensures !IsTerminal(s, Record(PlanOf(s), phase, reply))
  {
    var i := Record(PlanOf(s), phase, reply);
    match phase
    case PaperMetrics => assert i.command[0] == s.here + "/run_paper_metrics.py";
    case DailyResearchRecord => assert i.command[0] == s.here + "/run_daily_research_record.py";
    case AdaptiveEvaluation => assert i.command[0] == s.here + "/run_adaptive_strategy_evaluation.py";
    case LaneForwardValidation =>
      if s.lane.Some? { assert i.command[0] == s.here + "/run_orb_lane_forward_validation.py"; }
  }

  lemma TrialCommandsAreTerminals(s: Session, i: Issued, phase: Phase)
    requires s.trial.Some?
    requires i.command == PlanOf(s).finalize || i.command == PlanOf(s).fail(phase)
    ensures IsTerminal(s, i)
  {
  }

  lemma FinalizeIsNoFailure(s: Session, phase: Phase)
    requires s.trial.Some?
    ensures PlanOf(s).finalize != PlanOf(s).fail(phase)
  {
    assert PlanOf(s).finalize[1] == "finalize" && PlanOf(s).fail(phase)[1] == "fail";
  }

  /** The last command is a terminal and nothing before it raised. It is the failure of the phase just before it, with
      that phase's own audit, when that phase is the one that did not return 0; and it is the finalization exactly when
      all four phases returned 0. It stays the last command whatever it is answered; if it raises, so does the session. */
  ghost predicate OneTerminal(p: Plan, issued: seq<Issued>, out: Outcome) {
    var n := |issued| - 1;
    && p.lane && 1 <= n <= 4 && issued[n].audit == p.terminal
    && (forall i :: 0 <= i < n ==> issued[i] == Record(p, Phases(p)[i], issued[i].reply) && issued[i].reply.Exit?)
    && (forall i :: 0 <= i < n - 1 ==> issued[i].reply == Exit(0))
    && (issued[n - 1].reply != Exit(0) ==> issued[n].command == p.fail(Phases(p)[n - 1]))
    && (issued[n - 1].reply == Exit(0) ==> n == 4)
    && (issued[n].command == p.finalize <==> issued[n - 1].reply == Exit(0))
    && out == (if issued[n].reply.Raised? then RunnerRaised
               else if issued[n - 1].reply == Exit(0) then Code(issued[n].reply.code)
               else Code(issued[n - 1].reply.code))
  }

  /** The last command is a phase that raised; those before it returned 0. */
  ghost predicate CutShort(p: Plan, issued: seq<Issued>, out: Outcome) {
    && 1 <= |issued| <= |Phases(p)| && out == RunnerRaised && issued[|issued| - 1].reply.Raised?
    && Chain(p, issued, issued[|issued| - 1].reply)
  }

  /** What tells the terminals of the plan from its phases and from each other. */
  ghost predicate Recognised(s: Session, p: Plan) {
    && (forall phase, reply :: !IsTerminal(s, Record(p, phase, reply)))
    && (forall i: Issued :: i.command == p.finalize ==> IsTerminal(s, i))
    && (forall i: Issued, phase :: i.command == p.fail(phase) ==> IsTerminal(s, i))
    && (forall phase :: p.finalize != p.fail(phase))
  }

  lemma PlanIsRecognised(s: Session)
    requires s.trial.Some?
    ensures Recognised(s, PlanOf(s)) && PlanOf(s).trial && (Guarded(s) ==> PlanOf(s).lane)
  {
    var p := PlanOf(s);
    forall phase, reply ensures !IsTerminal(s, Record(p, phase, reply)) { PhaseIsNoTerminal(s, phase, reply); }
    forall i: Issued | i.command == p.finalize ensures IsTerminal(s, i) { TrialCommandsAreTerminals(s, i, PaperMetrics); }
    forall i: Issued, phase | i.command == p.fail(phase) ensures IsTerminal(s, i) { TrialCommandsAreTerminals(s, i, phase); }
    forall phase ensures p.finalize != p.fail(phase) { FinalizeIsNoFailure(s, phase); }
  }

  lemma EndsOnce(s: Session, p: Plan, issued: seq<Issued>, out: Outcome)
    requires Recognised(s, p) && p.trial && p.lane && Right(p, issued, out)
    ensures Terminals(s, issued) == {|issued| - 1} <==> OneTerminal(p, issued, out)
    ensures Terminals(s, issued) == {} <==> CutShort(p, issued, out)
    ensures OneTerminal(p, issued, out) <==> !CutShort(p, issued, out)
  {
    var n: nat, last: Reply :| RightAt(p, issued, out, n, last);
    OneOrNone(p, issued, out, n, last);
    WhereTerminalsAre(s, p, issued, out, n, last);
  }

  /** With a trial, a session that was run issued exactly one terminal, as its last command, unless a phase raised;
      then, and only then, it issued none. */
  lemma TrialEndsOnce(s: Session, issued: seq<Issued>, out: Outcome)
    requires Guarded(s) && s.trial.Some? && Right(PlanOf(s), issued, out)
    ensures Terminals(s, issued) == {|issued| - 1} <==> OneTerminal(PlanOf(s), issued, out)
    ensures Terminals(s, issued) == {} <==> CutShort(PlanOf(s), issued, out)
    ensures OneTerminal(PlanOf(s), issued, out) <==> !CutShort(PlanOf(s), issued, out)
  {
    PlanIsRecognised(s);
    EndsOnce(s, PlanOf(s), issued, out);
  }

  /** A close in which a phase did not raise ends with the one terminal, any other is cut short. */
  lemma OneOrNone(p: Plan, issued: seq<Issued>, out: Outcome, n: nat, last: Reply)
    requires RightAt(p, issued, out, n, last) && p.trial && p.lane && p.finalize != p.fail(Phases(p)[n - 1])
    ensures CutShort(p, issued, out) <==> last.Raised?
    ensures OneTerminal(p, issued, out) <==> !last.Raised?
    ensures |issued| == if last.Raised? then n else n + 1
  {
    assert issued == issued[..n] + issued[n..];
    assert |issued| == n + |issued[n..]|;
    forall i | 0 <= i < n
      ensures issued[i] == Record(p, Phases(p)[i], if i == n - 1 then last else Exit(0))
    {
      assert issued[i] == issued[..n][i];
    }
    if last.Raised? {
      assert issued == issued[..n];
    } else {
      assert issued[n] == issued[n..][0];
    }
  }

  lemma WhereTerminalsAre(s: Session, p: Plan, issued: seq<Issued>, out: Outcome, n: nat, last: Reply)
    requires Recognised(s, p) && p.trial && RightAt(p, issued, out, n, last)
    requires |issued| == if last.Raised? then n else n + 1
    ensures Terminals(s, issued) == if last.Raised? then {} else {n}
  {
    forall i | 0 <= i < n ensures !IsTerminal(s, issued[i]) {
      assert issued[i] == issued[..n][i];
      assert issued[i] == Record(p, Phases(p)[i], issued[i].reply);
    }
    if !last.Raised? { assert issued[n] == issued[n..][0]; }
  }

  /** The first `k` phases, each answered with 0. */
  ghost function Clean(p: Plan, k: nat): (r: seq<Issued>)
    requires k <= |Phases(p)|
    ensures |r| == k && forall i :: 0 <= i < k ==> r[i] == Record(p, Phases(p)[i], Exit(0))
  {
    seq(k, i requires 0 <= i < k => Record(p, Phases(p)[i], Exit(0)))
  }

  /** What this runner says to phase `k` when all phases before it have returned 0. */
  ghost function Said(p: Plan, answer: (seq<Issued>, Argv) -> Reply, before: seq<Issued>, k: nat): Reply
    requires k < |Phases(p)|
  {
    answer(before + Clean(p, k), p.command(Phases(p)[k]))
  }

  /** This runner raises in phase `k`, and returns 0 for the phases before. */
  ghost predicate RaisesIn(p: Plan, answer: (seq<Issued>, Argv) -> Reply, before: seq<Issued>, k: nat) {
    && k < |Phases(p)| && Said(p, answer, before, k).Raised?
    && forall i: nat :: i < k ==> Said(p, answer, before, i) == Exit(0)
  }

  lemma ChainIsSaid(p: Plan, answer: (seq<Issued>, Argv) -> Reply, before: seq<Issued>, issued: seq<Issued>,
                    out: Outcome, n: nat, last: Reply)
    requires RightAt(p, issued, out, n, last) && Answered(answer, before, issued)
    ensures last.Raised? <==> exists k: nat :: RaisesIn(p, answer, before, k)
    ensures forall k: nat :: RaisesIn(p, answer, before, k) ==> k == n - 1
  {
    SaidIs(p, answer, before, issued, out, n, last);
    if last.Raised? { assert RaisesIn(p, answer, before, n - 1); }
  }

  lemma SaidIs(p: Plan, answer: (seq<Issued>, Argv) -> Reply, before: seq<Issued>, issued: seq<Issued>,
               out: Outcome, n: nat, last: Reply)
    requires RightAt(p, issued, out, n, last) && Answered(answer, before, issued)
    ensures forall i: nat :: i < n - 1 ==> Said(p, answer, before, i) == Exit(0)
    ensures Said(p, answer, before, n - 1) == last
  {
    forall i: nat | i < n
      ensures Said(p, answer, before, i) == if i == n - 1 then last else Exit(0)
    {
      assert issued[i] == issued[..n][i];
      forall j | 0 <= j < i ensures issued[j] == Clean(p, i)[j] { assert issued[j] == issued[..n][j]; }
      assert issued[..i] == Clean(p, i);
    }
  }

  /** Which runners leave a trial without a terminal: exactly those that raise in a phase before any other has failed.
      The chain then stops at that phase, and nothing records that it did. */
  lemma NoTerminalIffAPhaseRaises(s: Session, answer: (seq<Issued>, Argv) -> Reply, before: seq<Issued>,
                                  issued: seq<Issued>, out: Outcome)
    requires Guarded(s) && s.trial.Some? && Right(PlanOf(s), issued, out) && Answered(answer, before, issued)
    ensures Terminals(s, issued) == {} <==> exists k: nat :: RaisesIn(PlanOf(s), answer, before, k)
    ensures forall k: nat :: RaisesIn(PlanOf(s), answer, before, k) ==> |issued| == k + 1 && out == RunnerRaised
  {
    var p := PlanOf(s);
    var n: nat, last: Reply :| RightAt(p, issued, out, n, last);
    TrialEndsOnce(s, issued, out);
    FinalizeIsNoFailure(s, Phases(p)[n - 1]);
    OneOrNone(p, issued, out, n, last);
    ChainIsSaid(p, answer, before, issued, out, n, last);
  }

  /** For instance a runner that cannot start the first command: it is the only one issued, and no terminal follows. */
  lemma RaisingAtOnce(s: Session, answer: (seq<Issued>, Argv) -> Reply, before: seq<Issued>,
                      issued: seq<Issued>, out: Outcome)
    requires Guarded(s) && s.trial.Some? && Right(PlanOf(s), issued, out) && Answered(answer, before, issued)
    requires answer(before, MetricsCommand(s)) == Raised(None)
    ensures issued == [Issued(MetricsCommand(s), AuditOf(s, PaperMetrics), Raised(None))] && out == RunnerRaised
    ensures Terminals(s, issued) == {}
  {
    var p := PlanOf(s);
    assert before + Clean(p, 0) == before;
    assert RaisesIn(p, answer, before, 0);
    NoTerminalIffAPhaseRaises(s, answer, before, issued, out);
    TrialEndsOnce(s, issued, out);
    assert issued[0] == Record(p, PaperMetrics, issued[0].reply);
    assert issued[..0] == [] && before + [] == before;
  }

  /** A session with a trial returns 0 only after it has issued the finalization. */
  lemma ZeroMeansFinalized(s: Session, issued: seq<Issued>)
    requires Guarded(s) && s.trial.Some? && Right(PlanOf(s), issued, Code(0))
    ensures issued != []
    ensures issued[|issued| - 1] == Issued(FinalizeCommand(s, s.trial.value), TerminalAudit(s), Exit(0))
  {
    var p := PlanOf(s);
    TrialEndsOnce(s, issued, Code(0));
    assert OneTerminal(p, issued, Code(0));
  }

  /** Without a trial no terminal is issued, whatever raises, and the last phase decides the outcome. */
  lemma NoTrialNoTerminal(s: Session, issued: seq<Issued>, out: Outcome)
    requires s.trial.None? && Right(PlanOf(s), issued, out)
    ensures Terminals(s, issued) == {} && issued != []
    ensures out == match issued[|issued| - 1].reply case Exit(code) => Code(code) case Raised(_) => RunnerRaised
  {
    var p := PlanOf(s);
    var n: nat, last: Reply :| RightAt(p, issued, out, n, last);
    assert issued == issued[..n] + issued[n..];
    forall i | 0 <= i < |issued| ensures !IsTerminal(s, issued[i]) {
      PhaseIsNoTerminal(s, Phases(p)[i], issued[i].reply);
    }
  }

  lemma PhaseValuesDiffer(a: Phase, b: Phase)
    ensures PhaseValue(a) == PhaseValue(b) ==> a == b
  {
    assert |PhaseValue(PaperMetrics)| == 13 && |PhaseValue(DailyResearchRecord)| == 21;
    assert |PhaseValue(AdaptiveEvaluation)| == 19 && |PhaseValue(LaneForwardValidation)| == 23;
  }

  /** The value that follows an option, where options come in pairs from index 2 on. */
  function OptionValue(argv: Argv, name: string, i: nat): Option<string>
    decreases |argv| - i
  {
    if i + 1 >= |argv| then None
    else if argv[i] == name then Some(argv[i + 1])
    else OptionValue(argv, name, i + 2)
  }

  /** Who reads a failure's options finds its phase and its audit, whatever the paths are called; so failures of two
      phases differ. */
  lemma FailureNamesItsPhase(s: Session, a: Phase, b: Phase)
    requires s.trial.Some?
    ensures OptionValue(PlanOf(s).fail(a), "--phase", 2) == Some(PhaseValue(a))
    ensures OptionValue(PlanOf(s).fail(a), "--audit", 2) == Some(AuditOf(s, a))
    ensures a != b ==> PlanOf(s).fail(a) != PlanOf(s).fail(b)
  {
    FailIs(s, a);
    FailIs(s, b);
    FailShape(s, s.trial.value, a, AuditOf(s, a));
    FailShape(s, s.trial.value, b, AuditOf(s, b));
    ReadsThrough(FailCommand(s, s.trial.value, a, AuditOf(s, a)));
    PhaseValuesDiffer(a, b);
  }

  lemma FailIs(s: Session, a: Phase)
    requires s.trial.Some?
    ensures PlanOf(s).fail(a) == FailCommand(s, s.trial.value, a, AuditOf(s, a))
  {
  }

  lemma FailShape(s: Session, t: Trial, a: Phase, audit: string)
    ensures var argv := FailCommand(s, t, a, audit);
      && |argv| == 12 && argv[2] == "--experiment-ledger" && argv[4] == "--session-date" && argv[6] == "--phase"
      && argv[7] == PhaseValue(a) && argv[8] == "--audit" && argv[9] == audit
  {
  }

  lemma ReadsThrough(argv: Argv)
    requires |argv| == 12 && argv[2] == "--experiment-ledger" && argv[4] == "--session-date" && argv[6] == "--phase"
    requires argv[8] == "--audit"
    ensures OptionValue(argv, "--phase", 2) == Some(argv[7]) && OptionValue(argv, "--audit", 2) == Some(argv[9])
  {
    assert OptionValue(argv, "--phase", 6) == Some(argv[7]);
    assert OptionValue(argv, "--phase", 4) == Some(argv[7]);
    assert OptionValue(argv, "--audit", 8) == Some(argv[9]);
    assert OptionValue(argv, "--audit", 6) == Some(argv[9]);
    assert OptionValue(argv, "--audit", 4) == Some(argv[9]);
  }

  // ---- where the configuration comes from ----

  /** `_lane_forward_validation_config`; the outer `None` is a bad parameter. */
  function LaneConfig(strategy: Strategy, execution: Option<string>, registry: Option<string>,
                      ledger: Option<string>, output: Option<string>): Option<Option<Lane>> {
    if execution.None? && registry.None? && ledger.None? && output.None? then Some(None)
    else if execution.None? || registry.None? || ledger.None? || output.None? then None
    else if !strategy.Orb? then None
    else Some(Some(Lane(execution.value, registry.value, ledger.value, output.value)))
  }

  /** `_orb_trial_config`. */
  function TrialConfig(strategy: Strategy, ledger: Option<string>, lane: Option<Lane>): Option<Option<Trial>> {
    if ledger.None? then Some(None)
    else if lane.None? then None
    else if !strategy.Orb? then None
    else Some(Some(Trial(ledger.value, lane.value)))
  }

  /** The four paths of a lane are given together or not at all, and only for the ORB strategy; a trial only with a lane. */
  lemma ConfigIsExact(strategy: Strategy, execution: Option<string>, registry: Option<string>, review: Option<string>,
                      output: Option<string>, ledger: Option<string>, lane: Option<Lane>)
    ensures LaneConfig(strategy, execution, registry, review, output) == Some(None) <==>
      execution == None && registry == None && review == None && output == None
    ensures forall l: Lane :: LaneConfig(strategy, execution, registry, review, output) == Some(Some(l)) <==>
      && strategy == Orb && execution == Some(l.executionDatabase) && registry == Some(l.registry)
      && review == Some(l.reviewLedger) && output == Some(l.outputDir)
    ensures TrialConfig(strategy, ledger, lane) == Some(None) <==> ledger == None
    ensures forall t: Trial :: TrialConfig(strategy, ledger, lane) == Some(Some(t)) <==>
      strategy == Orb && ledger == Some(t.ledger) && lane == Some(t.lane)
  {
  }

  /** What `main` builds always passes the guard, so its post-session chain never raises for its configuration. */
  lemma BuiltConfigurationsAreGuarded(s: Session, execution: Option<string>, registry: Option<string>,
                                      review: Option<string>, output: Option<string>, ledger: Option<string>)
    requires LaneConfig(s.strategy, execution, registry, review, output) == Some(s.lane)
    requires TrialConfig(s.strategy, ledger, s.lane) == Some(s.trial)
    ensures Guarded(s) && (s.trial.Some? <==> ledger.Some?)
  {
  }
}
