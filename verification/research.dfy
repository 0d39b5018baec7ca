/** The report of one autonomous research cycle and the loader that refuses it unless it is safe
    (run_autonomous_research_cycle.py). */
module ResearchReport {
  import opened Lines
  import opened Order
  import opened Wrappers

  type Pairs = seq<(string, string)>

  const HEADING := "# Autonomous generated" + " strategy research cycle"

  const RESULT := "result"
  const FEEDBACK := "next_feedback"

  const IDS: seq<string> := [
    "strategy_artifact_id", "trial_id", "experiment_artifact_id", "review_artifact_id", "reviewer_decision"]

  /** The authorities, each with the only value that is safe. */
  const AUTHORITIES: Pairs := [
    ("lifecycle authority", "false"), ("allocation authority", "false"), ("order authority", "false"),
    ("trading mutation", "0")]

  datatype Status = Complete | Blocked

  function Word(s: Status): string {
    match s
    case Complete => "complete"
    case Blocked => "blocked"
  }

  /** `AutonomousCycleCliResult`, whose authority fields can only be false and zero. */
  datatype CliResult = CliResult(status: Status, ids: seq<Option<string>>, reasons: seq<string>)

  /** `require_status_contract`. */
  predicate StatusContract(r: CliResult) {
    match r.status
    case Complete => (forall i :: 0 <= i < |r.ids| ==> r.ids[i].Some?) && r.reasons == []
    case Blocked => (forall i :: 0 <= i < |r.ids| ==> r.ids[i].None?) && r.reasons != []
  }

  // ---- writing ----

  function Items(details: seq<string>): seq<string> {
    if details == [] then [] else [Item(details[0])] + Items(details[1..])
  }

  function ReportLines(s: Status, details: seq<string>): seq<string> {
    [HEADING, ""] + FieldLines([(RESULT, Word(s))]) + Items(details) + FieldLines(AUTHORITIES)
  }

  /** `_report`. */
  function Report(s: Status, details: seq<string>): string {
    Unlines(ReportLines(s, details))
  }

  function Zip(keys: seq<string>, values: seq<string>): Pairs
    requires |keys| == |values|
  {
    seq(|keys|, i requires 0 <= i < |keys| => (keys[i], values[i]))
  }

  function Told(pairs: Pairs): seq<string> {
    if pairs == [] then [] else [pairs[0].0 + ": " + pairs[0].1] + Told(pairs[1..])
  }

  /** The details that `main` writes for a complete cycle. */
  function CompleteDetails(values: seq<string>, feedback: string): seq<string>
    requires |values| == |IDS|
  {
    Told(Zip(IDS, values) + [(FEEDBACK, feedback)])
  }

  // ---- loading ----

  datatype Scan = Kept(fields: map<string, string>, reasons: seq<string>) | Repeated

  predicate Keyed(line: string) {
    IsItem(line) && HasSep(line[2..])
  }

  predicate IsReason(line: string) {
    IsItem(line) && !HasSep(line[2..])
  }

  function ScanLine(s: Scan, line: string): Scan {
    if s.Repeated? then s
    else if IsReason(line) then s.(reasons := s.reasons + [line[2..]])
    else if !Keyed(line) then s
    else if KeyOf(line[2..]) in s.fields then Repeated
    else s.(fields := s.fields[KeyOf(line[2..]) := ValueOf(line[2..])])
  }

  function ScanLines(lines: seq<string>): Scan {
    if lines == [] then Kept(map[], []) else ScanLine(ScanLines(lines[..|lines| - 1]), lines[|lines| - 1])
  }

  predicate Has(fields: map<string, string>, key: string, value: string) {
    key in fields && fields[key] == value
  }

  function Picked(fields: map<string, string>): seq<Option<string>> {
    seq(|IDS|, i requires 0 <= i < |IDS| => if IDS[i] in fields then Some(fields[IDS[i]]) else None)
  }

  predicate Safe(fields: map<string, string>) {
    forall i :: 0 <= i < |AUTHORITIES| ==> Has(fields, AUTHORITIES[i].0, AUTHORITIES[i].1)
  }

  /** The checks after the loop. */
  function Conclude(fields: map<string, string>, reasons: seq<string>): Option<CliResult> {
    if !Safe(fields) || !(Has(fields, RESULT, Word(Complete)) || Has(fields, RESULT, Word(Blocked))) then None
    else
      var status := if fields[RESULT] == Word(Complete) then Complete else Blocked;
      var r := CliResult(status, Picked(fields), SortedSet(reasons));
      if StatusContract(r) then Some(r) else None
  }

  function Loaded(text: string): Option<CliResult> {
    match ScanLines(SplitLines(text))
    case Repeated => None
    case Kept(fields, reasons) => Conclude(fields, reasons)
  }

  lemma {:induction false} RepeatedStays(lines: seq<string>, n: nat)
    requires n <= |lines| && ScanLines(lines[..n]).Repeated?
    ensures ScanLines(lines).Repeated?
    decreases |lines| - n
  {
    if n < |lines| {
      assert lines[..n + 1][..n] == lines[..n];
      RepeatedStays(lines, n + 1);
    } else {
      assert lines[..n] == lines;
    }
  }

  /** `load_autonomous_cycle_cli_result` on the text of the report; `None` stands for its error. */
  method Load(text: string) returns (r: Option<CliResult>)
    ensures r == Loaded(text)
  {
    var lines := SplitLines(text);
    var fields: map<string, string>, reasons: seq<string> := map[], [];
    for n := 0 to |lines|
      invariant ScanLines(lines[..n]) == Kept(fields, reasons)
    {
      var line := lines[n];
      assert lines[..n + 1][..n] == lines[..n];
      if !IsItem(line) { continue; }
      var content := line[2..];
      if !HasSep(content) {
        reasons := reasons + [content];
        continue;
      }
      var key, value := KeyOf(content), ValueOf(content);
      if key in fields {
        RepeatedStays(lines, n + 1);
        return None;
      }
      fields := fields[key := value];
    }
    assert lines[..|lines|] == lines;
    return Conclude(fields, reasons);
  }

  // ---- what the scan keeps ----

  /** Line `i` says `key: value`. */
  predicate Says(lines: seq<string>, i: int, key: string, value: string) {
    0 <= i < |lines| && Keyed(lines[i]) && KeyOf(lines[i][2..]) == key && ValueOf(lines[i][2..]) == value
  }

  predicate SayKey(lines: seq<string>, i: int, key: string) {
    0 <= i < |lines| && Keyed(lines[i]) && KeyOf(lines[i][2..]) == key
  }

  predicate Gives(lines: seq<string>, i: int, reason: string) {
    0 <= i < |lines| && IsReason(lines[i]) && lines[i][2..] == reason
  }

  ghost predicate NoKeyTwice(lines: seq<string>) {
    forall i, j, key :: SayKey(lines, i, key) && SayKey(lines, j, key) ==> i == j
  }

  /** The fields are what the lines say. */
  ghost predicate MirrorsFields(lines: seq<string>, fields: map<string, string>) {
    && (forall key :: key in fields ==> exists i :: Says(lines, i, key, fields[key]))
    && (forall i, key, value :: Says(lines, i, key, value) ==> Has(fields, key, value))
  }

  /** The reasons are what the lines give. */
  ghost predicate MirrorsReasons(lines: seq<string>, reasons: seq<string>) {
    && (forall r :: r in reasons ==> exists i :: Gives(lines, i, r))
    && (forall i, r :: Gives(lines, i, r) ==> r in reasons)
  }

  ghost predicate Mirrors(lines: seq<string>, fields: map<string, string>, reasons: seq<string>) {
    MirrorsFields(lines, fields) && MirrorsReasons(lines, reasons)
  }

  ghost predicate SameUpTo(lines: seq<string>, longer: seq<string>) {
    && (forall i, key :: SayKey(lines, i, key) ==> SayKey(longer, i, key))
    && (forall i, key, value :: Says(lines, i, key, value) ==> Says(longer, i, key, value))
    && (forall i, r :: Gives(lines, i, r) ==> Gives(longer, i, r))
  }

  lemma FieldsMirrored(lines: seq<string>, line: string, s: Scan)
    requires s.Kept? && MirrorsFields(lines, s.fields) && ScanLine(s, line).Kept?
    ensures MirrorsFields(lines + [line], ScanLine(s, line).fields)
  {
    var longer, t, n := lines + [line], ScanLine(s, line), |lines|;
    assert longer[n] == line && SameUpTo(lines, longer);
    forall key | key in t.fields ensures exists i :: Says(longer, i, key, t.fields[key]) {
      if key in s.fields && t.fields[key] == s.fields[key] {
        var i :| Says(lines, i, key, s.fields[key]);
        assert Says(longer, i, key, t.fields[key]);
      } else {
        assert Says(longer, n, key, t.fields[key]);
      }
    }
    forall i, key, value | Says(longer, i, key, value) ensures Has(t.fields, key, value) {
      if i < n { assert Says(lines, i, key, value); }
    }
  }

  lemma ReasonsMirrored(lines: seq<string>, line: string, s: Scan)
    requires s.Kept? && MirrorsReasons(lines, s.reasons) && ScanLine(s, line).Kept?
    ensures MirrorsReasons(lines + [line], ScanLine(s, line).reasons)
  {
    var longer, t, n := lines + [line], ScanLine(s, line), |lines|;
    assert longer[n] == line && SameUpTo(lines, longer);
    forall r | r in t.reasons ensures exists i :: Gives(longer, i, r) {
      if r in s.reasons {
        var i :| Gives(lines, i, r);
        assert Gives(longer, i, r);
      } else {
        assert Gives(longer, n, r);
      }
    }
    forall i, r | Gives(longer, i, r) ensures r in t.reasons {
      if i < n { assert Gives(lines, i, r); }
    }
  }

  lemma OneMoreKey(lines: seq<string>, line: string, fields: map<string, string>, reasons: seq<string>)
    requires NoKeyTwice(lines) && Mirrors(lines, fields, reasons)
    ensures NoKeyTwice(lines + [line]) <==> !(Keyed(line) && KeyOf(line[2..]) in fields)
  {
    var longer, n := lines + [line], |lines|;
    assert longer[n] == line && SameUpTo(lines, longer);
    if Keyed(line) && KeyOf(line[2..]) in fields {
      var key := KeyOf(line[2..]);
      var i :| Says(lines, i, key, fields[key]);
      assert SayKey(longer, i, key) && SayKey(longer, n, key);
    } else {
      forall i, j, key | SayKey(longer, i, key) && SayKey(longer, j, key) ensures i == j {
        if i < n { assert Says(lines, i, key, ValueOf(lines[i][2..])) && SayKey(lines, i, key); }
        if j < n { assert Says(lines, j, key, ValueOf(lines[j][2..])) && SayKey(lines, j, key); }
      }
    }
  }

  /** The loop goes through exactly when no key comes twice, and then has every field and every reason. */
  lemma {:induction false} ScanIsExact(lines: seq<string>)
    ensures ScanLines(lines).Kept? <==> NoKeyTwice(lines)
    ensures ScanLines(lines).Kept? ==> Mirrors(lines, ScanLines(lines).fields, ScanLines(lines).reasons)
  {
    if lines != [] {
      var init, line := lines[..|lines| - 1], lines[|lines| - 1];
      assert lines == init + [line];
      ScanIsExact(init);
      var s := ScanLines(init);
      if s.Kept? {
        OneMoreKey(init, line, s.fields, s.reasons);
        if ScanLine(s, line).Kept? {
          FieldsMirrored(init, line, s);
          ReasonsMirrored(init, line, s);
        }
      } else {
        var i, j, key :| SayKey(init, i, key) && SayKey(init, j, key) && i != j;
        assert SayKey(lines, i, key) && SayKey(lines, j, key);
      }
    }
  }

  ghost predicate Said(lines: seq<string>, key: string, value: string) {
    exists i :: Says(lines, i, key, value)
  }

  lemma SaidIsHas(lines: seq<string>, fields: map<string, string>, reasons: seq<string>, key: string, value: string)
    requires Mirrors(lines, fields, reasons)
    ensures Said(lines, key, value) <==> Has(fields, key, value)
  {
  }

  lemma StatusesDiffer()
    ensures Word(Complete) != Word(Blocked)
  {
  }

  /** The result is what the lines of the report say, field by field. */
  ghost predicate Agrees(lines: seq<string>, r: CliResult) {
    && Said(lines, RESULT, Word(r.status))
    && |r.ids| == |IDS| && (forall k :: 0 <= k < |IDS| ==> IdAgrees(lines, IDS[k], r.ids[k]))
    && Ascending(r.reasons) && (forall x :: x in r.reasons <==> exists i :: Gives(lines, i, x))
  }

  ghost predicate IdAgrees(lines: seq<string>, key: string, id: Option<string>) {
    forall v :: id == Some(v) <==> Said(lines, key, v)
  }

  ghost predicate SaysSafe(lines: seq<string>) {
    forall k :: 0 <= k < |AUTHORITIES| ==> Said(lines, AUTHORITIES[k].0, AUTHORITIES[k].1)
  }

  /** A report is accepted with the result `r` exactly when no key comes twice, every authority is said with its
      safe value, `r` is what the lines say, and `r` keeps the status contract. */
  lemma LoadIsExact(text: string, r: CliResult)
    ensures var lines := SplitLines(text);
      Loaded(text) == Some(r) <==> NoKeyTwice(lines) && SaysSafe(lines) && Agrees(lines, r) && StatusContract(r)
  {
    var lines := SplitLines(text);
    ScanIsExact(lines);
    if NoKeyTwice(lines) {
      var Kept(fields, reasons) := ScanLines(lines);
      forall key, value ensures Said(lines, key, value) <==> Has(fields, key, value) {
        SaidIsHas(lines, fields, reasons, key, value);
      }
      ConcludeIsExact(lines, fields, reasons, r);
    }
  }

  lemma PickedAgrees(lines: seq<string>, fields: map<string, string>)
    requires forall key, value :: Said(lines, key, value) <==> Has(fields, key, value)
    ensures forall k :: 0 <= k < |IDS| ==> IdAgrees(lines, IDS[k], Picked(fields)[k])
  {
    forall k | 0 <= k < |IDS| ensures IdAgrees(lines, IDS[k], Picked(fields)[k]) {
      forall v ensures Picked(fields)[k] == Some(v) <==> Said(lines, IDS[k], v) {}
    }
  }

  lemma AgreesIsPicked(lines: seq<string>, fields: map<string, string>, reasons: seq<string>, r: CliResult)
    requires Mirrors(lines, fields, reasons) && Agrees(lines, r)
    requires forall key, value :: Said(lines, key, value) <==> Has(fields, key, value)
    ensures Has(fields, RESULT, Word(r.status)) && r.ids == Picked(fields) && r.reasons == SortedSet(reasons)
  {
    PickedAgrees(lines, fields);
    SortedSetIsSorted(reasons);
    AscendingIsUnique(r.reasons, SortedSet(reasons));
    forall k | 0 <= k < |IDS| ensures r.ids[k] == Picked(fields)[k] {
      SameId(lines, IDS[k], r.ids[k], Picked(fields)[k]);
    }
    assert r.ids == Picked(fields);
  }

  lemma WhatIsConcluded(fields: map<string, string>, reasons: seq<string>, r: CliResult)
    ensures Conclude(fields, reasons) == Some(r) <==>
      && Safe(fields) && Has(fields, RESULT, Word(r.status)) && StatusContract(r)
      && r.ids == Picked(fields) && r.reasons == SortedSet(reasons)
  {
    StatusesDiffer();
  }

  lemma PickedIsAgreed(lines: seq<string>, fields: map<string, string>, reasons: seq<string>, r: CliResult)
    requires Mirrors(lines, fields, reasons)
    requires forall key, value :: Said(lines, key, value) <==> Has(fields, key, value)
    requires Has(fields, RESULT, Word(r.status)) && r.ids == Picked(fields) && r.reasons == SortedSet(reasons)
    ensures Agrees(lines, r)
  {
    PickedAgrees(lines, fields);
    SortedSetIsSorted(reasons);
  }

  lemma ConcludeIsExact(lines: seq<string>, fields: map<string, string>, reasons: seq<string>, r: CliResult)
    requires Mirrors(lines, fields, reasons)
    requires forall key, value :: Said(lines, key, value) <==> Has(fields, key, value)
    ensures Conclude(fields, reasons) == Some(r) <==> SaysSafe(lines) && Agrees(lines, r) && StatusContract(r)
  {
    WhatIsConcluded(fields, reasons, r);
    assert SaysSafe(lines) <==> Safe(fields);
    if Agrees(lines, r) { AgreesIsPicked(lines, fields, reasons, r); }
    if Conclude(fields, reasons) == Some(r) { PickedIsAgreed(lines, fields, reasons, r); }
  }

  lemma SameId(lines: seq<string>, key: string, a: Option<string>, b: Option<string>)
    requires IdAgrees(lines, key, a) && IdAgrees(lines, key, b)
    ensures a == b
  {
    if a.Some? { assert Said(lines, key, a.value); }
    if b.Some? { assert Said(lines, key, b.value); }
  }

  /** One line, and no other, is about `key`. */
  ghost predicate SaidOnce(lines: seq<string>, key: string) {
    exists i :: SayKey(lines, i, key) && forall j :: SayKey(lines, j, key) ==> j == i
  }

  ghost predicate NeverSaid(lines: seq<string>, key: string) {
    forall i :: !SayKey(lines, i, key)
  }

  /** Both what is said, and that it is said once. */
  ghost predicate SaysOnly(lines: seq<string>, key: string, value: string) {
    SaidOnce(lines, key) && Said(lines, key, value)
  }

  ghost predicate GivesReason(lines: seq<string>) {
    exists i, x :: Gives(lines, i, x)
  }

  ghost predicate TellsAllIds(lines: seq<string>) {
    && SaidOnce(lines, "strategy_artifact_id") && SaidOnce(lines, "trial_id") && SaidOnce(lines, "experiment_artifact_id")
    && SaidOnce(lines, "review_artifact_id") && SaidOnce(lines, "reviewer_decision")
  }

  ghost predicate TellsNoId(lines: seq<string>) {
    && NeverSaid(lines, "strategy_artifact_id") && NeverSaid(lines, "trial_id") && NeverSaid(lines, "experiment_artifact_id")
    && NeverSaid(lines, "review_artifact_id") && NeverSaid(lines, "reviewer_decision")
  }

  lemma SaidIsSaidOnce(lines: seq<string>, key: string)
    requires NoKeyTwice(lines)
    ensures (exists v :: Said(lines, key, v)) <==> SaidOnce(lines, key)
    ensures (forall v :: !Said(lines, key, v)) <==> NeverSaid(lines, key)
  {
    forall i | SayKey(lines, i, key) ensures Said(lines, key, ValueOf(lines[i][2..])) {
      assert Says(lines, i, key, ValueOf(lines[i][2..]));
    }
    forall v | Said(lines, key, v) ensures exists i :: SayKey(lines, i, key) {
      var i :| Says(lines, i, key, v);
      assert SayKey(lines, i, key);
    }
  }

  lemma IdIsThere(lines: seq<string>, key: string, id: Option<string>)
    requires NoKeyTwice(lines) && IdAgrees(lines, key, id)
    ensures id.Some? <==> SaidOnce(lines, key)
    ensures id.None? <==> NeverSaid(lines, key)
  {
    SaidIsSaidOnce(lines, key);
    if id.Some? { assert Said(lines, key, id.value); }
  }

  lemma IdsAreThere(lines: seq<string>, r: CliResult)
    requires NoKeyTwice(lines) && Agrees(lines, r)
    ensures (forall i :: 0 <= i < |r.ids| ==> r.ids[i].Some?) <==> TellsAllIds(lines)
    ensures (forall i :: 0 <= i < |r.ids| ==> r.ids[i].None?) <==> TellsNoId(lines)
  {
    IdIsThere(lines, IDS[0], r.ids[0]);
    IdIsThere(lines, IDS[1], r.ids[1]);
    IdIsThere(lines, IDS[2], r.ids[2]);
    IdIsThere(lines, IDS[3], r.ids[3]);
    IdIsThere(lines, IDS[4], r.ids[4]);
  }

  lemma ReasonsAreThere(lines: seq<string>, r: CliResult)
    requires Agrees(lines, r)
    ensures r.reasons == [] <==> !GivesReason(lines)
  {
    SomeElement(r.reasons);
    if GivesReason(lines) {
      var i, x :| Gives(lines, i, x);
      assert x in r.reasons;
    }
  }

  ghost predicate SaysItIsSafe(lines: seq<string>) {
    && SaysOnly(lines, "lifecycle authority", "false") && SaysOnly(lines, "allocation authority", "false")
    && SaysOnly(lines, "order authority", "false") && SaysOnly(lines, "trading mutation", "0")
  }

  /** Whatever text loads says each authority in exactly one line, with the safe value. If it says it is complete, each
      of the five ids is said in exactly one line and no line gives a reason; if it says it is blocked, no id is said and
      some line gives a reason. The ids of the result are those. */
  lemma FailClosed(text: string)
    requires Loaded(text).Some?
    ensures var lines, r := SplitLines(text), Loaded(text).value;
      && SaysItIsSafe(lines) && |r.ids| == 5
      && (r.status.Complete? ==> SaysOnly(lines, "result", "complete") && TellsAllIds(lines) && !GivesReason(lines))
      && (r.status.Blocked? ==> SaysOnly(lines, "result", "blocked") && TellsNoId(lines) && GivesReason(lines))
      && (forall v :: r.ids[0] == Some(v) <==> Said(lines, "strategy_artifact_id", v))
      && (forall v :: r.ids[1] == Some(v) <==> Said(lines, "trial_id", v))
      && (forall v :: r.ids[2] == Some(v) <==> Said(lines, "experiment_artifact_id", v))
      && (forall v :: r.ids[3] == Some(v) <==> Said(lines, "review_artifact_id", v))
      && (forall v :: r.ids[4] == Some(v) <==> Said(lines, "reviewer_decision", v))
  {
    var lines, r := SplitLines(text), Loaded(text).value;
    LoadIsExact(text, r);
    IdsAreThere(lines, r);
    ReasonsAreThere(lines, r);
    SafeIsSaid(lines);
    assert Said(lines, "result", if r.status.Complete? then "complete" else "blocked");
    SaidIsSaidOnce(lines, "result");
    assert IdAgrees(lines, IDS[0], r.ids[0]) && IdAgrees(lines, IDS[1], r.ids[1]) && IdAgrees(lines, IDS[2], r.ids[2]);
    assert IdAgrees(lines, IDS[3], r.ids[3]) && IdAgrees(lines, IDS[4], r.ids[4]);
  }

  lemma SafeIsSaid(lines: seq<string>)
    requires NoKeyTwice(lines)
    ensures SaysSafe(lines) <==> SaysItIsSafe(lines)
  {
    SaidIsSaidOnce(lines, "lifecycle authority");
    SaidIsSaidOnce(lines, "allocation authority");
    SaidIsSaidOnce(lines, "order authority");
    SaidIsSaidOnce(lines, "trading mutation");
    if SaysSafe(lines) {
      assert Said(lines, AUTHORITIES[0].0, AUTHORITIES[0].1) && Said(lines, AUTHORITIES[1].0, AUTHORITIES[1].1);
      assert Said(lines, AUTHORITIES[2].0, AUTHORITIES[2].1) && Said(lines, AUTHORITIES[3].0, AUTHORITIES[3].1);
    }
  }

  /** And this is all that is asked of a text. */
  lemma LoadsExactlyWhen(text: string)
    ensures var lines := SplitLines(text);
      Loaded(text).Some? <==>
        && NoKeyTwice(lines) && SaysItIsSafe(lines)
        && ((SaysOnly(lines, "result", "complete") && TellsAllIds(lines) && !GivesReason(lines))
            || (SaysOnly(lines, "result", "blocked") && TellsNoId(lines) && GivesReason(lines)))
  {
    var lines := SplitLines(text);
    if Loaded(text).Some? {
      LoadIsExact(text, Loaded(text).value);
      FailClosed(text);
    }
    if NoKeyTwice(lines) && SaysItIsSafe(lines) {
      if SaysOnly(lines, "result", "complete") && TellsAllIds(lines) && !GivesReason(lines) {
        LoadsAs(text, Complete);
      }
      if SaysOnly(lines, "result", "blocked") && TellsNoId(lines) && GivesReason(lines) {
        LoadsAs(text, Blocked);
      }
    }
  }

  lemma LoadsAs(text: string, status: Status)
    requires var lines := SplitLines(text);
      && NoKeyTwice(lines) && SaysItIsSafe(lines) && Said(lines, RESULT, Word(status))
      && (if status.Complete? then TellsAllIds(lines) && !GivesReason(lines) else TellsNoId(lines) && GivesReason(lines))
    ensures Loaded(text).Some?
  {
    var lines := SplitLines(text);
    var r := WhatItSays(lines, status);
    SafeIsSaid(lines);
    IdsAreThere(lines, r);
    ReasonsAreThere(lines, r);
    LoadIsExact(text, r);
  }

  lemma WhatItSays(lines: seq<string>, status: Status) returns (r: CliResult)
    requires NoKeyTwice(lines) && Said(lines, RESULT, Word(status))
    ensures Agrees(lines, r) && r.status == status
  {
    ScanIsExact(lines);
    var Kept(fields, reasons) := ScanLines(lines);
    forall key, value ensures Said(lines, key, value) <==> Has(fields, key, value) {
      SaidIsHas(lines, fields, reasons, key, value);
    }
    r := CliResult(status, Picked(fields), SortedSet(reasons));
    PickedIsAgreed(lines, fields, reasons, r);
  }

  /** What `Says` means: the line is the key, a colon, a space and the value. */
  lemma SaysIsAField(lines: seq<string>, i: nat, key: string, value: string)
    requires i < |lines|
    ensures Says(lines, i, key, value) <==> lines[i] == Field(key, value) && !HasSep(key)
  {
    CutIsExact(key + ": " + value, key, value);
    if IsItem(lines[i]) {
      assert lines[i] == "- " + lines[i][2..];
      CutIsExact(lines[i][2..], key, value);
    }
  }

  /** And what `Gives` means: the line is the reason, which holds no separator. */
  lemma GivesIsAnItem(lines: seq<string>, i: nat, reason: string)
    requires i < |lines|
    ensures Gives(lines, i, reason) <==> lines[i] == "- " + reason && !HasSep(reason)
  {
    if IsItem(lines[i]) { assert lines[i] == "- " + lines[i][2..]; }
    if lines[i] == "- " + reason { assert lines[i][2..] == reason; }
  }

  // ---- what is written is loaded ----

  predicate Fresh(pairs: Pairs, fields: map<string, string>) {
    && (forall i :: 0 <= i < |pairs| ==> NoColon(pairs[i].0) && pairs[i].0 !in fields)
    && (forall i, j :: 0 <= i < j < |pairs| ==> pairs[i].0 != pairs[j].0)
  }

  lemma ScanField(lines: seq<string>, key: string, value: string)
    requires NoColon(key) && ScanLines(lines).Kept? && key !in ScanLines(lines).fields
    ensures var s := ScanLines(lines);
      ScanLines(lines + [Field(key, value)]) == Kept(s.fields[key := value], s.reasons)
  {
    FieldIsCut(key, value);
    assert (lines + [Field(key, value)])[..|lines|] == lines;
  }

  lemma {:induction false} ScanFields(lines: seq<string>, pairs: Pairs)
    requires ScanLines(lines).Kept? && Fresh(pairs, ScanLines(lines).fields)
    ensures var s := ScanLines(lines);
      ScanLines(lines + FieldLines(pairs)) == Kept(Assign(s.fields, pairs), s.reasons)
    decreases |pairs|
  {
    if pairs == [] {
      assert lines + FieldLines(pairs) == lines;
    } else {
      ScanField(lines, pairs[0].0, pairs[0].1);
      ScanFields(lines + [Field(pairs[0].0, pairs[0].1)], pairs[1..]);
      Regroup(lines, pairs);
    }
  }

  lemma ScanItem(lines: seq<string>, detail: string)
    requires ScanLines(lines).Kept? && !HasSep(detail)
    ensures var s := ScanLines(lines); ScanLines(lines + [Item(detail)]) == Kept(s.fields, s.reasons + [detail])
  {
    assert (lines + [Item(detail)])[..|lines|] == lines && Item(detail)[2..] == detail;
  }

  lemma Slide<T>(a: seq<T>, x: T, rest: seq<T>)
    ensures a + ([x] + rest) == a + [x] + rest
  {
  }

  lemma {:induction false} ScanItems(lines: seq<string>, details: seq<string>)
    requires ScanLines(lines).Kept? && forall d :: d in details ==> !HasSep(d)
    ensures var s := ScanLines(lines); ScanLines(lines + Items(details)) == Kept(s.fields, s.reasons + details)
    decreases |details|
  {
    var s := ScanLines(lines);
    if details == [] {
      assert lines + Items(details) == lines && s.reasons + details == s.reasons;
    } else {
      var first, rest := details[0], details[1..];
      ScanItem(lines, first);
      ScanItems(lines + [Item(first)], rest);
      Slide(lines, Item(first), Items(rest));
      Slide(s.reasons, first, rest);
      assert details == [first] + rest;
    }
  }

  lemma {:induction false} AssignAt(m: map<string, string>, pairs: Pairs, i: nat)
    requires i < |pairs| && forall j, k :: 0 <= j < k < |pairs| ==> pairs[j].0 != pairs[k].0
    ensures Has(Assign(m, pairs), pairs[i].0, pairs[i].1)
    decreases |pairs|
  {
    var first := m[pairs[0].0 := pairs[0].1];
    if i == 0 { OthersKept(first, pairs[1..], pairs[0].0); } else { AssignAt(first, pairs[1..], i - 1); }
  }

  const KEYS: seq<string> := [RESULT] + IDS + [FEEDBACK] + [
    AUTHORITIES[0].0, AUTHORITIES[1].0, AUTHORITIES[2].0, AUTHORITIES[3].0]

  lemma KeysDiffer()
    ensures |KEYS| == 11 && forall i, j :: 0 <= i < j < |KEYS| ==> KEYS[i] != KEYS[j]
  {
  }

  lemma ArtifactIdsAreTame()
    ensures Tame("strategy_artifact_id") && Tame("experiment_artifact_id")
  {
  }

  lemma OtherIdsAreTame()
    ensures Tame("trial_id") && Tame("review_artifact_id") && Tame("reviewer_decision")
  {
  }

  lemma IdsAreTame()
    ensures forall i :: 0 <= i < |IDS| ==> Tame(IDS[i])
  {
    ArtifactIdsAreTame();
    OtherIdsAreTame();
  }

  lemma LifecycleIsTame()
    ensures Tame("lifecycle authority") && Tame("allocation authority")
  {
  }

  lemma OrderIsTame()
    ensures Tame("order authority") && Tame("trading mutation") && Tame("false") && Tame("0")
  {
  }

  lemma AuthoritiesAreTame()
    ensures forall i :: 0 <= i < |AUTHORITIES| ==> Tame(AUTHORITIES[i].0) && Tame(AUTHORITIES[i].1)
  {
    LifecycleIsTame();
    OrderIsTame();
  }

  lemma KeysAreTame()
    ensures forall i :: 0 <= i < |KEYS| ==> Tame(KEYS[i])
  {
    IdsAreTame();
    AuthoritiesAreTame();
    assert Tame(RESULT) && Tame(FEEDBACK);
  }

  lemma KeysApart()
    ensures forall k :: 0 <= k < |IDS| ==> IDS[k] != RESULT && IDS[k] != FEEDBACK
    ensures forall k, j :: 0 <= k < |IDS| && 0 <= j < |AUTHORITIES| ==> IDS[k] != AUTHORITIES[j].0
    ensures forall j :: 0 <= j < |AUTHORITIES| ==> AUTHORITIES[j].0 != RESULT && AUTHORITIES[j].0 != FEEDBACK
    ensures forall j, k :: 0 <= j < k < |AUTHORITIES| ==> AUTHORITIES[j].0 != AUTHORITIES[k].0
    ensures forall j, k :: 0 <= j < k < |IDS| ==> IDS[j] != IDS[k]
    ensures RESULT != FEEDBACK
  {
    KeysDiffer();
    assert forall k :: 0 <= k < |IDS| ==> IDS[k] == KEYS[1 + k];
    assert RESULT == KEYS[0] && FEEDBACK == KEYS[6];
    assert forall j :: 0 <= j < |AUTHORITIES| ==> AUTHORITIES[j].0 == KEYS[7 + j];
  }

  lemma HeadingStartIsTame()
    ensures Tame("# Autonomous generated")
  {
  }

  lemma HeadingEndIsTame()
    ensures Tame(" strategy research cycle")
  {
  }

  lemma HeadingIsPlain()
    ensures NoBreak(HEADING) && !IsItem(HEADING)
  {
    HeadingStartIsTame();
    HeadingEndIsTame();
    TameIsWhole("# Autonomous generated");
    TameIsWhole(" strategy research cycle");
    NoBreakJoin("# Autonomous generated", " strategy research cycle");
    assert HEADING[0] == "# Autonomous generated"[0];
  }

  lemma ScanHead(value: string)
    ensures ScanLines([HEADING, ""] + FieldLines([(RESULT, value)])) == Kept(map[RESULT := value], [])
  {
    var none: seq<string> := [];
    HeadingIsPlain();
    assert [HEADING, ""][..1] == [HEADING] && [HEADING][..0] == none;
    assert ScanLines([HEADING]) == Kept(map[], []);
    assert ScanLines([HEADING, ""]) == Kept(map[], []);
    KeysAreTame();
    assert RESULT == KEYS[0];
    TameIsWhole(RESULT);
    ScanField([HEADING, ""], RESULT, value);
    assert FieldLines([(RESULT, value)]) == [Field(RESULT, value)];
  }

  lemma ScanAuthorities(lines: seq<string>)
    requires ScanLines(lines).Kept?
    requires forall j :: 0 <= j < |AUTHORITIES| ==> AUTHORITIES[j].0 !in ScanLines(lines).fields
    ensures var s := ScanLines(lines);
      ScanLines(lines + FieldLines(AUTHORITIES)) == Kept(Assign(s.fields, AUTHORITIES), s.reasons)
  {
    KeysApart();
    AuthoritiesAreTame();
    forall j | 0 <= j < |AUTHORITIES| ensures NoColon(AUTHORITIES[j].0) { TameIsWhole(AUTHORITIES[j].0); }
    ScanFields(lines, AUTHORITIES);
  }

  lemma {:induction false} WholeItems(details: seq<string>)
    requires forall d :: d in details ==> NoBreak(d)
    ensures forall l :: l in Items(details) ==> NoBreak(l)
  {
    if details != [] {
      NoBreakJoin("- ", details[0]);
      WholeItems(details[1..]);
    }
  }

  lemma WholeReport(s: Status, details: seq<string>)
    requires forall d :: d in details ==> NoBreak(d)
    ensures SplitLines(Report(s, details)) == ReportLines(s, details)
  {
    WholeHead(s);
    WholeItems(details);
    WholeAuthorities();
    SplitUnlines(ReportLines(s, details));
  }

  lemma WholeHead(s: Status)
    ensures NoBreak(HEADING) && NoBreak("") && forall l :: l in FieldLines([(RESULT, Word(s))]) ==> NoBreak(l)
  {
    HeadingIsPlain();
    KeysAreTame();
    assert RESULT == KEYS[0];
    assert NoBreak(Word(s));
    WholeFieldLines([(RESULT, Word(s))]);
  }

  lemma WholeAuthorities()
    ensures forall l :: l in FieldLines(AUTHORITIES) ==> NoBreak(l)
  {
    AuthoritiesAreTame();
    WholeFieldLines(AUTHORITIES);
  }

  /** The fields at the end hold what they held before, and the safe authorities. */
  lemma FieldsAtTheEnd(m: map<string, string>)
    ensures var f := Assign(m, AUTHORITIES);
      && Safe(f) && (RESULT in m ==> Has(f, RESULT, m[RESULT])) && Picked(f) == Picked(m)
  {
    KeysApart();
    forall k | 0 <= k < |AUTHORITIES| ensures Has(Assign(m, AUTHORITIES), AUTHORITIES[k].0, AUTHORITIES[k].1) {
      AssignAt(m, AUTHORITIES, k);
    }
    OthersKept(m, AUTHORITIES, RESULT);
    forall k | 0 <= k < |IDS| ensures Picked(Assign(m, AUTHORITIES))[k] == Picked(m)[k] {
      OthersKept(m, AUTHORITIES, IDS[k]);
    }
  }

  function NoIds(): seq<Option<string>> {
    seq(|IDS|, i => None)
  }

  lemma BlockedScan(details: seq<string>)
    requires forall d :: d in details ==> !HasSep(d)
    ensures ScanLines(ReportLines(Blocked, details)) == Kept(Assign(map[RESULT := Word(Blocked)], AUTHORITIES), details)
  {
    var head := [HEADING, ""] + FieldLines([(RESULT, Word(Blocked))]);
    ScanHead(Word(Blocked));
    ScanItems(head, details);
    assert [] + details == details;
    KeysApart();
    ScanAuthorities(head + Items(details));
  }

  lemma NothingPicked(s: Status)
    ensures Picked(map[RESULT := Word(s)]) == NoIds()
  {
    KeysApart();
  }

  lemma Concludes(m: map<string, string>, s: Status, reasons: seq<string>)
    requires Has(m, RESULT, Word(s)) && StatusContract(CliResult(s, Picked(m), SortedSet(reasons)))
    ensures Conclude(Assign(m, AUTHORITIES), reasons) == Some(CliResult(s, Picked(m), SortedSet(reasons)))
  {
    FieldsAtTheEnd(m);
    StatusesDiffer();
  }

  lemma BlockedLoads(details: seq<string>)
    requires details != [] && forall d :: d in details ==> NoBreak(d) && !HasSep(d)
    ensures Loaded(Report(Blocked, details)) == Some(CliResult(Blocked, NoIds(), SortedSet(details)))
  {
    WholeReport(Blocked, details);
    BlockedScan(details);
    NothingPicked(Blocked);
    SortedSetIsSorted(details);
    assert details[0] in SortedSet(details);
    Concludes(map[RESULT := Word(Blocked)], Blocked, details);
  }

  lemma GivenIsClean(lines: seq<string>, i: int, x: string)
    requires Gives(lines, i, x) && forall l :: l in lines ==> NoBreak(l)
    ensures NoBreak(x) && !HasSep(x)
  {
    assert lines[i] in lines && lines[i] == "- " + x;
    NoBreakJoin("- ", x);
  }

  /** Lines hold no break, so no reason does; and a reason holds no separator. */
  lemma ReasonsAreClean(text: string)
    requires Loaded(text).Some?
    ensures forall x :: x in Loaded(text).value.reasons ==> NoBreak(x) && !HasSep(x)
  {
    var lines, r := SplitLines(text), Loaded(text).value;
    LoadIsExact(text, r);
    forall x | x in r.reasons ensures NoBreak(x) && !HasSep(x) {
      var i :| Gives(lines, i, x);
      GivenIsClean(lines, i, x);
    }
  }

  /** A blocked report comes back with its details as reasons, sorted and without repetitions, exactly when there
      is a detail and none holds a line break or a separator. */
  lemma BlockedRoundTrip(details: seq<string>)
    ensures Loaded(Report(Blocked, details)) == Some(CliResult(Blocked, NoIds(), SortedSet(details)))
       <==> details != [] && forall d :: d in details ==> NoBreak(d) && !HasSep(d)
  {
    var r := CliResult(Blocked, NoIds(), SortedSet(details));
    if details != [] && forall d :: d in details ==> NoBreak(d) && !HasSep(d) {
      BlockedLoads(details);
    }
    if Loaded(Report(Blocked, details)) == Some(r) {
      LoadIsExact(Report(Blocked, details), r);
      ReasonsAreClean(Report(Blocked, details));
      SortedSetIsSorted(details);
    }
  }

  /** What stands in a report: the status in one of two words, the details, and that nothing is allowed. */
  lemma ReportIsSpelled(s: Status, details: seq<string>)
    ensures ReportLines(s, details)
      == ["# Autonomous generated" + " strategy research cycle", ""]
         + [Field("result", if s.Complete? then "complete" else "blocked")] + Items(details)
         + [Field("lifecycle authority", "false"), Field("allocation authority", "false"),
            Field("order authority", "false"), Field("trading mutation", "0")]
    ensures |Items(details)| == |details| && forall i :: 0 <= i < |details| ==> Items(details)[i] == "- " + details[i]
  {
    ItemsAt(details);
    assert FieldLines([(RESULT, Word(s))]) == [Field(RESULT, Word(s))];
    FieldLinesAt(AUTHORITIES, 0);
    FieldLinesAt(AUTHORITIES, 1);
    FieldLinesAt(AUTHORITIES, 2);
    FieldLinesAt(AUTHORITIES, 3);
    assert FieldLines(AUTHORITIES) == [Field("lifecycle authority", "false"), Field("allocation authority", "false"),
                                       Field("order authority", "false"), Field("trading mutation", "0")];
  }

  lemma {:induction false} ItemsAt(details: seq<string>)
    ensures |Items(details)| == |details| && forall i :: 0 <= i < |details| ==> Items(details)[i] == "- " + details[i]
  {
    if details != [] { ItemsAt(details[1..]); }
  }

  // ---- a complete report ----

  function CompletePairs(values: seq<string>, feedback: string): Pairs
    requires |values| == |IDS|
  {
    Zip(IDS, values) + [(FEEDBACK, feedback)]
  }

  function Present(values: seq<string>): seq<Option<string>> {
    seq(|values|, i requires 0 <= i < |values| => Some(values[i]))
  }

  lemma {:induction false} ToldItems(pairs: Pairs)
    ensures Items(Told(pairs)) == FieldLines(pairs)
  {
    if pairs != [] { ToldItems(pairs[1..]); }
  }

  lemma CompleteKeys(values: seq<string>, feedback: string)
    requires |values| == |IDS|
    ensures var p := CompletePairs(values, feedback);
      && Fresh(p, map[RESULT := Word(Complete)])
      && (forall i :: 0 <= i < |p| ==> NoBreak(p[i].0))
      && (forall i, j :: 0 <= i < |p| && 0 <= j < |AUTHORITIES| ==> AUTHORITIES[j].0 != p[i].0)
  {
    var p := CompletePairs(values, feedback);
    KeysApart();
    KeysAreTame();
    assert FEEDBACK == KEYS[6];
    forall i | 0 <= i < |p| ensures NoBreak(p[i].0) && NoColon(p[i].0) {
      assert p[i].0 == KEYS[1 + i];
      TameIsWhole(p[i].0);
    }
  }

  /** The details of a complete cycle: the five ids, each under its own name, and the feedback. */
  lemma DetailsAreSpelled(values: seq<string>, feedback: string)
    requires |values| == 5
    ensures CompleteDetails(values, feedback)
      == ["strategy_artifact_id" + ": " + values[0], "trial_id" + ": " + values[1], "experiment_artifact_id" + ": " + values[2],
          "review_artifact_id" + ": " + values[3], "reviewer_decision" + ": " + values[4], "next_feedback" + ": " + feedback]
  {
    var p := CompletePairs(values, feedback);
    ToldAt(p);
    assert p[0] == ("strategy_artifact_id", values[0]) && p[1] == ("trial_id", values[1]);
    assert p[2] == ("experiment_artifact_id", values[2]) && p[3] == ("review_artifact_id", values[3]);
    assert p[4] == ("reviewer_decision", values[4]) && p[5] == ("next_feedback", feedback);
  }

  lemma {:induction false} ToldAt(p: Pairs)
    ensures |Told(p)| == |p| && forall i :: 0 <= i < |p| ==> Told(p)[i] == p[i].0 + ": " + p[i].1
  {
    if p != [] { ToldAt(p[1..]); }
  }

  // The feedback is written as it is, and may itself hold line breaks.

  function FirstLine(feedback: string): string {
    SplitPrefix("", feedback + "\n");
    SplitLines(feedback + "\n")[0]
  }

  /** The lines that the feedback adds to the report after its own. */
  function MoreLines(feedback: string): seq<string> {
    SplitPrefix("", feedback + "\n");
    SplitLines(feedback + "\n")[1..]
  }

  /** Lines that the loader reads past: none is a reason, and none has a key that comes twice or is in use. */
  ghost predicate Harmless(lines: seq<string>) {
    && (forall l :: l in lines ==> !IsReason(l))
    && (forall i, key :: SayKey(lines, i, key) ==> key !in KEYS)
    && NoKeyTwice(lines)
  }

  function Above(values: seq<string>, feedback: string): seq<string>
    requires |values| == |IDS|
  {
    [HEADING, ""] + FieldLines([(RESULT, Word(Complete))]) + FieldLines(CompletePairs(values, feedback))
  }

  lemma {:induction false} FieldLinesAppend(p: Pairs, q: Pairs)
    ensures FieldLines(p + q) == FieldLines(p) + FieldLines(q)
  {
    if p == [] {
      assert p + q == q;
    } else {
      assert (p + q)[1..] == p[1..] + q;
      FieldLinesAppend(p[1..], q);
    }
  }

  lemma {:induction false} UnlinesThen(a: seq<string>, b: seq<string>)
    ensures Unlines(a + b) == Unlines(a) + Unlines(b)
  {
    if a == [] {
      assert a + b == b;
    } else {
      assert (a + b)[1..] == a[1..] + b;
      UnlinesThen(a[1..], b);
    }
  }

  lemma {:induction false} SplitThen(lines: seq<string>, rest: string)
    requires forall l :: l in lines ==> NoBreak(l)
    ensures SplitLines(Unlines(lines) + rest) == lines + SplitLines(rest)
  {
    if lines == [] {
      assert Unlines(lines) + rest == rest;
    } else {
      var more := Unlines(lines[1..]) + rest;
      assert Unlines(lines) + rest == lines[0] + "\n" + more;
      SplitFirst(lines[0], more);
      SplitThen(lines[1..], rest);
      Assoc([lines[0]], lines[1..], SplitLines(rest));
      assert lines == [lines[0]] + lines[1..];
    }
  }

  /** The lines above the feedback's own. */
  function TopLines(values: seq<string>): seq<string>
    requires |values| == |IDS|
  {
    [HEADING, ""] + FieldLines([(RESULT, Word(Complete))]) + FieldLines(Zip(IDS, values))
  }

  lemma AboveIsTop(values: seq<string>, feedback: string)
    requires |values| == |IDS|
    ensures Above(values, feedback) == TopLines(values) + [Field(FEEDBACK, feedback)]
  {
    FieldLinesAppend(Zip(IDS, values), [(FEEDBACK, feedback)]);
    assert FieldLines([(FEEDBACK, feedback)]) == [Field(FEEDBACK, feedback)];
    Assoc([HEADING, ""] + FieldLines([(RESULT, Word(Complete))]), FieldLines(Zip(IDS, values)), [Field(FEEDBACK, feedback)]);
  }

  lemma WholeTop(values: seq<string>)
    requires |values| == |IDS| && forall v :: v in values ==> NoBreak(v)
    ensures forall l :: l in TopLines(values) ==> NoBreak(l)
  {
    WholeHead(Complete);
    CompleteKeys(values, "");
    forall i | 0 <= i < |IDS| ensures NoBreak(Zip(IDS, values)[i].0) && NoBreak(Zip(IDS, values)[i].1) {
      assert CompletePairs(values, "")[i] == Zip(IDS, values)[i] && values[i] in values;
    }
    WholeFieldLines(Zip(IDS, values));
  }

  lemma FeedbackLines(feedback: string, rest: string)
    ensures SplitLines(Field(FEEDBACK, feedback) + ("\n" + rest))
      == [Field(FEEDBACK, FirstLine(feedback))] + (MoreLines(feedback) + SplitLines(rest))
  {
    var prefix := "- " + (FEEDBACK + ": ");
    KeysAreTame();
    assert FEEDBACK == KEYS[6];
    TameIsWhole(FEEDBACK);
    NoBreakJoin(FEEDBACK, ": ");
    NoBreakJoin("- ", FEEDBACK + ": ");
    assert forall x :: Field(FEEDBACK, x) == prefix + x by {
      forall x ensures Field(FEEDBACK, x) == prefix + x {
        assert "- " + (FEEDBACK + ": " + x) == "- " + (FEEDBACK + ": ") + x;
      }
    }
    SplitAppend(Field(FEEDBACK, feedback), rest);
    assert Field(FEEDBACK, feedback) + ("\n" + "") == prefix + (feedback + "\n");
    SplitPrefix(prefix, feedback + "\n");
    SplitPrefix("", feedback + "\n");
    Assoc([Field(FEEDBACK, FirstLine(feedback))], MoreLines(feedback), SplitLines(rest));
  }

  lemma CompleteReportLines(values: seq<string>, feedback: string)
    requires |values| == |IDS|
    ensures ReportLines(Complete, CompleteDetails(values, feedback)) == Above(values, feedback) + FieldLines(AUTHORITIES)
  {
    ToldItems(CompletePairs(values, feedback));
  }

  lemma OneUnline(line: string, rest: string)
    ensures Unlines([line]) + rest == line + ("\n" + rest)
  {
    assert [line][1..] == [] && Unlines([]) == "";
    assert Unlines([line]) == line + "\n";
  }

  lemma CompleteText(values: seq<string>, feedback: string)
    requires |values| == |IDS|
    ensures Report(Complete, CompleteDetails(values, feedback))
      == Unlines(TopLines(values)) + (Field(FEEDBACK, feedback) + ("\n" + Unlines(FieldLines(AUTHORITIES))))
  {
    var line, end := Field(FEEDBACK, feedback), FieldLines(AUTHORITIES);
    CompleteReportLines(values, feedback);
    AboveIsTop(values, feedback);
    UnlinesThen(TopLines(values) + [line], end);
    UnlinesThen(TopLines(values), [line]);
    OneUnline(line, Unlines(end));
    Regrouped(Unlines(TopLines(values)), Unlines([line]), Unlines(end));
  }

  lemma Regrouped(a: string, b: string, c: string)
    ensures a + b + c == a + (b + c)
  {
  }

  /** How the loader sees a complete report. */
  lemma CompleteLines(values: seq<string>, feedback: string)
    requires |values| == |IDS| && forall v :: v in values ==> NoBreak(v)
    ensures SplitLines(Report(Complete, CompleteDetails(values, feedback)))
      == Above(values, FirstLine(feedback)) + MoreLines(feedback) + FieldLines(AUTHORITIES)
  {
    var end := FieldLines(AUTHORITIES);
    CompleteText(values, feedback);
    WholeTop(values);
    WholeAuthorities();
    SplitThen(TopLines(values), Field(FEEDBACK, feedback) + ("\n" + Unlines(end)));
    FeedbackLines(feedback, Unlines(end));
    SplitUnlines(end);
    AboveIsTop(values, FirstLine(feedback));
    Assoc(TopLines(values), [Field(FEEDBACK, FirstLine(feedback))], MoreLines(feedback) + end);
    Assoc(Above(values, FirstLine(feedback)), MoreLines(feedback), end);
  }

  lemma AboveScan(values: seq<string>, feedback: string)
    requires |values| == |IDS|
    ensures ScanLines(Above(values, feedback)) == Kept(Assign(map[RESULT := Word(Complete)], CompletePairs(values, feedback)), [])
  {
    CompleteKeys(values, feedback);
    ScanHead(Word(Complete));
    ScanFields([HEADING, ""] + FieldLines([(RESULT, Word(Complete))]), CompletePairs(values, feedback));
  }

  /** What the scan makes of harmless lines: fields under keys that nobody asks for. */
  ghost predicate Past(s: Scan, t: Scan, more: seq<string>) {
    && s.Kept? && t.Kept? && t.reasons == s.reasons
    && (forall key :: key in t.fields ==> key in s.fields || exists i :: SayKey(more, i, key))
    && (forall key :: key in s.fields ==> Has(t.fields, key, s.fields[key]))
  }

  lemma {:induction false} ScanMore(lines: seq<string>, more: seq<string>)
    requires ScanLines(lines).Kept? && NoKeyTwice(more) && forall l :: l in more ==> !IsReason(l)
    requires forall i, key :: SayKey(more, i, key) ==> key !in ScanLines(lines).fields
    ensures Past(ScanLines(lines), ScanLines(lines + more), more)
  {
    if more == [] {
      assert lines + more == lines;
    } else {
      var init, last := more[..|more| - 1], more[|more| - 1];
      assert forall i, key :: SayKey(init, i, key) ==> SayKey(more, i, key);
      ScanMore(lines, init);
      assert lines + more == lines + init + [last] && (lines + more)[..|lines + init|] == lines + init;
      var s, t := ScanLines(lines), ScanLines(lines + init);
      if Keyed(last) {
        var key := KeyOf(last[2..]);
        assert SayKey(more, |more| - 1, key);
        assert forall i :: SayKey(init, i, key) ==> SayKey(more, i, key);
        assert key !in t.fields;
      }
      PastLast(s, t, init, last);
    }
  }

  lemma PastLast(s: Scan, t: Scan, init: seq<string>, last: string)
    requires Past(s, t, init) && !IsReason(last) && (Keyed(last) ==> KeyOf(last[2..]) !in t.fields)
    ensures Past(s, ScanLine(t, last), init + [last])
  {
    var more, u := init + [last], ScanLine(t, last);
    assert more[|init|] == last;
    forall key | key in u.fields ensures key in s.fields || exists i :: SayKey(more, i, key) {
      if key in t.fields {
        if key !in s.fields {
          var i :| SayKey(init, i, key);
          assert SayKey(more, i, key);
        }
      } else {
        assert SayKey(more, |init|, key);
      }
    }
  }

  lemma CompletePicked(values: seq<string>, feedback: string)
    requires |values| == |IDS|
    ensures var m := Assign(map[RESULT := Word(Complete)], CompletePairs(values, feedback));
      Picked(m) == Present(values) && Has(m, RESULT, Word(Complete))
  {
    var p, m := CompletePairs(values, feedback), map[RESULT := Word(Complete)];
    KeysApart();
    CompleteKeys(values, feedback);
    OthersKept(m, p, RESULT);
    forall k | 0 <= k < |IDS| ensures Picked(Assign(m, p))[k] == Some(values[k]) {
      AssignAt(m, p, k);
      assert p[k] == (IDS[k], values[k]);
    }
  }

  lemma KeysInUse(values: seq<string>, feedback: string, key: string)
    requires |values| == |IDS|
    ensures var m := Assign(map[RESULT := Word(Complete)], CompletePairs(values, feedback));
      && (key in m ==> key in KEYS)
      && (forall j :: 0 <= j < |AUTHORITIES| ==> AUTHORITIES[j].0 !in m && AUTHORITIES[j].0 in KEYS)
  {
    var p, m := CompletePairs(values, feedback), map[RESULT := Word(Complete)];
    KeysApart();
    CompleteKeys(values, feedback);
    assert RESULT == KEYS[0] && forall i :: 0 <= i < |p| ==> p[i].0 == KEYS[1 + i];
    if key !in KEYS { OthersKept(m, p, key); }
    forall j | 0 <= j < |AUTHORITIES| ensures AUTHORITIES[j].0 !in Assign(m, p) && AUTHORITIES[j].0 in KEYS {
      OthersKept(m, p, AUTHORITIES[j].0);
      assert AUTHORITIES[j].0 == KEYS[7 + j];
    }
  }

  /** The scan of a complete report whose feedback adds only harmless lines. */
  lemma CompleteScan(values: seq<string>, feedback: string, more: seq<string>)
    requires |values| == |IDS| && Harmless(more)
    ensures var t := ScanLines(Above(values, feedback) + more);
      && Past(Kept(Assign(map[RESULT := Word(Complete)], CompletePairs(values, feedback)), []), t, more)
      && ScanLines(Above(values, feedback) + more + FieldLines(AUTHORITIES)) == Kept(Assign(t.fields, AUTHORITIES), [])
  {
    var m := Assign(map[RESULT := Word(Complete)], CompletePairs(values, feedback));
    AboveScan(values, feedback);
    forall i, key | SayKey(more, i, key) ensures key !in m { KeysInUse(values, feedback, key); }
    ScanMore(Above(values, feedback), more);
    var t := ScanLines(Above(values, feedback) + more);
    forall j | 0 <= j < |AUTHORITIES| ensures AUTHORITIES[j].0 !in t.fields {
      KeysInUse(values, feedback, AUTHORITIES[j].0);
    }
    ScanAuthorities(Above(values, feedback) + more);
  }

  lemma PastPicked(values: seq<string>, feedback: string, t: Scan, more: seq<string>)
    requires |values| == |IDS|
    requires Past(Kept(Assign(map[RESULT := Word(Complete)], CompletePairs(values, feedback)), []), t, more)
    ensures Picked(t.fields) == Present(values) && Has(t.fields, RESULT, Word(Complete))
  {
    var m := Assign(map[RESULT := Word(Complete)], CompletePairs(values, feedback));
    CompletePicked(values, feedback);
    forall k | 0 <= k < |IDS| ensures Picked(t.fields)[k] == Present(values)[k] {
      assert Picked(m)[k] == Some(values[k]);
      assert Has(t.fields, IDS[k], m[IDS[k]]);
    }
  }

  lemma CompleteLoads(values: seq<string>, feedback: string)
    requires |values| == |IDS| && Harmless(MoreLines(feedback)) && forall v :: v in values ==> NoBreak(v)
    ensures Loaded(Report(Complete, CompleteDetails(values, feedback))) == Some(CliResult(Complete, Present(values), []))
  {
    var g, more := FirstLine(feedback), MoreLines(feedback);
    CompleteLines(values, feedback);
    CompleteScan(values, g, more);
    var t := ScanLines(Above(values, g) + more);
    PastPicked(values, g, t, more);
    Concludes(t.fields, Complete, []);
  }

  lemma {:induction false} FieldLinesAt(p: Pairs, i: nat)
    requires i < |p|
    ensures |FieldLines(p)| == |p| && FieldLines(p)[i] == Field(p[i].0, p[i].1)
  {
    if i == 0 {
      if |p| > 1 { FieldLinesAt(p[1..], 0); }
    } else {
      FieldLinesAt(p[1..], i - 1);
    }
  }

  lemma FieldSaysKey(lines: seq<string>, i: nat, key: string, value: string)
    requires i < |lines| && lines[i] == Field(key, value) && NoColon(key)
    ensures SayKey(lines, i, key)
  {
    FieldIsCut(key, value);
  }

  /** Every key in use is said outside the feedback's own lines. */
  lemma KeyIsSaid(values: seq<string>, feedback: string, more: seq<string>, k: nat) returns (j: nat)
    requires |values| == |IDS| && k < |KEYS|
    ensures var above := Above(values, feedback);
      SayKey(above + more + FieldLines(AUTHORITIES), j, KEYS[k]) && !(|above| <= j < |above| + |more|)
  {
    var above, p, end := Above(values, feedback), CompletePairs(values, feedback), FieldLines(AUTHORITIES);
    var lines := above + more + end;
    KeysAreTame();
    TameIsWhole(KEYS[k]);
    FieldLinesAt([(RESULT, Word(Complete))], 0);
    FieldLinesAt(p, 0);
    if k == 0 {
      j := 2;
      FieldSaysKey(lines, j, RESULT, Word(Complete));
    } else if k <= |p| {
      j := 2 + k;
      FieldLinesAt(p, k - 1);
      assert p[k - 1].0 == KEYS[k];
      FieldSaysKey(lines, j, p[k - 1].0, p[k - 1].1);
    } else {
      j := |above| + |more| + (k - 7);
      FieldLinesAt(AUTHORITIES, k - 7);
      assert AUTHORITIES[k - 7].0 == KEYS[k];
      FieldSaysKey(lines, j, AUTHORITIES[k - 7].0, AUTHORITIES[k - 7].1);
    }
  }

  lemma Shifted(above: seq<string>, more: seq<string>, end: seq<string>)
    ensures var lines := above + more + end;
      && (forall i, key :: SayKey(more, i, key) ==> SayKey(lines, |above| + i, key))
      && (forall i, x :: Gives(more, i, x) ==> Gives(lines, |above| + i, x))
  {
  }

  lemma MoreIsNoReason(above: seq<string>, more: seq<string>, end: seq<string>, i: nat)
    requires i < |more| && forall j, x :: !Gives(above + more + end, j, x)
    ensures !IsReason(more[i])
  {
    if IsReason(more[i]) {
      assert Gives(more, i, more[i][2..]);
      Shifted(above, more, end);
    }
  }

  lemma MoreKeyIsNew(values: seq<string>, feedback: string, more: seq<string>, i: int, key: string)
    requires |values| == |IDS| && SayKey(more, i, key)
    requires NoKeyTwice(Above(values, feedback) + more + FieldLines(AUTHORITIES))
    ensures key !in KEYS
  {
    if key in KEYS {
      var k :| 0 <= k < |KEYS| && KEYS[k] == key;
      Shifted(Above(values, feedback), more, FieldLines(AUTHORITIES));
      var j := KeyIsSaid(values, feedback, more, k);
    }
  }

  lemma LoadedIsHarmless(values: seq<string>, feedback: string)
    requires |values| == |IDS| && forall v :: v in values ==> NoBreak(v)
    requires Loaded(Report(Complete, CompleteDetails(values, feedback))) == Some(CliResult(Complete, Present(values), []))
    ensures Harmless(MoreLines(feedback))
  {
    var text, r := Report(Complete, CompleteDetails(values, feedback)), CliResult(Complete, Present(values), []);
    var above, more, end := Above(values, FirstLine(feedback)), MoreLines(feedback), FieldLines(AUTHORITIES);
    CompleteLines(values, feedback);
    LoadIsExact(text, r);
    assert forall j, x :: Gives(above + more + end, j, x) ==> x in r.reasons;
    forall l | l in more ensures !IsReason(l) {
      var i :| 0 <= i < |more| && more[i] == l;
      MoreIsNoReason(above, more, end, i);
    }
    forall i, key | SayKey(more, i, key) ensures key !in KEYS { MoreKeyIsNew(values, FirstLine(feedback), more, i, key); }
    Shifted(above, more, end);
  }

  /** No line holds a break, so no loaded id does. */
  lemma IdsAreWhole(text: string, k: nat)
    requires Loaded(text).Some? && k < |IDS| && |Loaded(text).value.ids| == |IDS| && Loaded(text).value.ids[k].Some?
    ensures NoBreak(Loaded(text).value.ids[k].value)
  {
    var lines, r := SplitLines(text), Loaded(text).value;
    LoadIsExact(text, r);
    var v := r.ids[k].value;
    assert IdAgrees(lines, IDS[k], r.ids[k]) && Said(lines, IDS[k], v);
    var i :| Says(lines, i, IDS[k], v);
    SaysIsAField(lines, i, IDS[k], v);
    assert lines[i] in lines;
    NoBreakJoin("- ", IDS[k] + ": " + v);
    NoBreakJoin(IDS[k] + ": ", v);
  }

  /** A complete report comes back with its five ids exactly when none of them holds a line break, whatever else they
      hold, and the feedback adds no line that the loader takes notice of: no reason, and no key that comes twice or
      is in use. A feedback without line breaks adds none. */
  lemma CompleteRoundTrip(values: seq<string>, feedback: string)
    requires |values| == |IDS|
    ensures Loaded(Report(Complete, CompleteDetails(values, feedback))) == Some(CliResult(Complete, Present(values), []))
       <==> (forall v :: v in values ==> NoBreak(v)) && Harmless(MoreLines(feedback))
    ensures NoBreak(feedback) ==> MoreLines(feedback) == []
  {
    var text := Report(Complete, CompleteDetails(values, feedback));
    if (forall v :: v in values ==> NoBreak(v)) && Harmless(MoreLines(feedback)) {
      CompleteLoads(values, feedback);
    }
    if Loaded(text) == Some(CliResult(Complete, Present(values), [])) {
      forall v | v in values ensures NoBreak(v) {
        var k :| 0 <= k < |values| && values[k] == v;
        IdsAreWhole(text, k);
      }
      LoadedIsHarmless(values, feedback);
    }
    if NoBreak(feedback) { OneLine(feedback); }
  }

  lemma OneLine(feedback: string)
    requires NoBreak(feedback)
    ensures MoreLines(feedback) == []
  {
    SplitFirst(feedback, "");
    assert feedback + "\n" + "" == feedback + "\n";
  }
}
