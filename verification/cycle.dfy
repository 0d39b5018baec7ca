/** The report that a same-cycle run prints and the watch reads back (run_kr_same_cycle_opportunity.py,
    run_kr_same_cycle_opportunity_watch.py). */
module CycleReport {
  import opened Lines
  import opened Numerals
  import opened Wrappers

  datatype Verdict = Blocked | NoOpportunity | Ready

  function Word(v: Verdict): string {
    match v
    case Blocked => "blocked"
    case NoOpportunity => "no_opportunity"
    case Ready => "ready"
  }

  /** The word must be one of `_CYCLE_RESULTS`. */
  function VerdictOf(word: string): Option<Verdict> {
    if word == Word(Blocked) then Some(Blocked)
    else if word == Word(NoOpportunity) then Some(NoOpportunity)
    else if word == Word(Ready) then Some(Ready)
    else None
  }

  const HEADING := "# KR same-cycle Opportunity cycle"
  const NOTE := "> KIS/OpenDART/LS read-only evidence" + "와 local projection만 실행합니다."

  // ---- printing ----

  /** The fields that never vary. */
  const SAFETY: seq<(string, string)> := [
    ("source cycle contract", "exact four-source terminal"),
    ("order authority", "false"),
    ("domestic account endpoint", "false"),
    ("external account/order mutation", "0")]

  function ReportFields(v: Verdict, count: nat): seq<(string, string)> {
    [("result", Word(v)), ("opportunity count", Decimal(count))] + SAFETY
  }

  function ReportLines(v: Verdict, count: nat): seq<string> {
    [HEADING, "", NOTE, ""] + FieldLines(ReportFields(v, count))
  }

  /** `_write_report`. */
  function Report(v: Verdict, count: nat): string {
    Unlines(ReportLines(v, count))
  }

  // ---- reading ----

  predicate IsWhitespace(ch: char) {
    || '\t' <= ch <= '\r' || '\U{1C}' <= ch <= ' ' || ch == '\U{85}' || ch == '\U{A0}' || ch == '\U{1680}'
    || '\U{2000}' <= ch <= '\U{200A}' || ch == '\U{2028}' || ch == '\U{2029}' || ch == '\U{202F}'
    || ch == '\U{205F}' || ch == '\U{3000}'
  }

  function Strip(s: string): string {
    if s == "" then s
    else if IsWhitespace(s[0]) then Strip(s[1..])
    else if IsWhitespace(s[|s| - 1]) then Strip(s[..|s| - 1])
    else s
  }

  /** Digits, with single underscores allowed between them. */
  function Digits(s: string, acc: nat): Option<nat> {
    if s == "" || !IsDecimal(s[0]) then None
    else
      var n := acc * 10 + (s[0] - '0') as int;
      if |s| == 1 then Some(n) else Digits(if s[1] == '_' then s[2..] else s[1..], n)
  }

  /** Python's `int` on ASCII text. */
  function IntOf(s: string): Option<int> {
    var t := Strip(s);
    var signed := t != "" && (t[0] == '-' || t[0] == '+');
    match Digits(if signed then t[1..] else t, 0)
    case None => None
    case Some(n) => if t[0] == '-' then Some(0 - n) else Some(n)
  }

  /** The fields of the report; of two lines with one key the later one wins. */
  function Fields(lines: seq<string>): map<string, string> {
    if lines == [] then map[]
    else
      var rest, last := Fields(lines[..|lines| - 1]), lines[|lines| - 1];
      if IsItem(last) && HasSep(last[2..])
      then rest[Strip(KeyOf(last[2..])) := Strip(ValueOf(last[2..]))]
      else rest
  }

  /** `_read_cycle_report` on the text of the report; `None` stands for its `ValueError`s. */
  function Read(text: string): Option<(Verdict, int)> {
    var fields := Fields(SplitLines(text));
    if "result" !in fields || "opportunity count" !in fields then None
    else
      match (VerdictOf(fields["result"]), IntOf(fields["opportunity count"]))
      case (Some(v), Some(n)) => Some((v, n))
      case _ => None
  }

  // ---- what the reader makes of any text ----

  /** What Python takes for white space. */
  predicate Blank(ch: char) {
    var n := ch as int;
    || 9 <= n <= 13 || 28 <= n <= 32 || n == 133 || n == 160 || n == 5760 || 8192 <= n <= 8202
    || n == 8232 || n == 8233 || n == 8239 || n == 8287 || n == 12288
  }

  predicate AllBlank(s: string) {
    forall i :: 0 <= i < |s| ==> Blank(s[i])
  }

  /** `t` with white space around it. */
  predicate Around(s: string, a: string, t: string, b: string) {
    && s == a + t + b && AllBlank(a) && AllBlank(b)
    && (t != "" ==> !Blank(t[0]) && !Blank(t[|t| - 1]))
  }

  lemma {:induction false} StrippedIsAround(s: string) returns (a: string, b: string)
    ensures Around(s, a, Strip(s), b)
    decreases |s|
  {
    a, b := "", "";
    if s == "" {
    } else if IsWhitespace(s[0]) {
      a, b := StrippedIsAround(s[1..]);
      AddFirst(s, a, Strip(s[1..]), b);
      a := [s[0]] + a;
    } else if IsWhitespace(s[|s| - 1]) {
      a, b := StrippedIsAround(s[..|s| - 1]);
      AddLast(s, a, Strip(s[..|s| - 1]), b);
      b := b + [s[|s| - 1]];
    }
  }

  lemma AddFirst(s: string, a: string, t: string, b: string)
    requires s != "" && IsWhitespace(s[0]) && Around(s[1..], a, t, b)
    ensures Around(s, [s[0]] + a, t, b)
  {
    assert s == [s[0]] + s[1..];
  }

  lemma AddLast(s: string, a: string, t: string, b: string)
    requires s != "" && IsWhitespace(s[|s| - 1]) && Around(s[..|s| - 1], a, t, b)
    ensures Around(s, a, t, b + [s[|s| - 1]])
  {
    assert s == s[..|s| - 1] + [s[|s| - 1]];
  }

  lemma DropFirst(s: string, a: string, t: string, b: string)
    requires Around(s, a, t, b) && a != ""
    ensures s != "" && IsWhitespace(s[0]) && Around(s[1..], a[1..], t, b)
  {
    assert s[0] == a[0] && s[1..] == a[1..] + t + b;
  }

  lemma DropLast(s: string, t: string, b: string)
    requires Around(s, "", t, b) && t != "" && b != ""
    ensures s != "" && !IsWhitespace(s[0]) && IsWhitespace(s[|s| - 1]) && Around(s[..|s| - 1], "", t, b[..|b| - 1])
  {
    assert s[0] == t[0] && s[|s| - 1] == b[|b| - 1] && s[..|s| - 1] == "" + t + b[..|b| - 1];
  }

  lemma {:induction false} AroundIsStripped(s: string, a: string, t: string, b: string)
    requires Around(s, a, t, b)
    ensures Strip(s) == t
    decreases |s|
  {
    if a != "" {
      DropFirst(s, a, t, b);
      AroundIsStripped(s[1..], a[1..], t, b);
    } else if t == "" {
      assert s == b;
      if b != "" {
        assert b[1..] == "" + "" + b[1..];
        AroundIsStripped(s[1..], "", "", b[1..]);
      }
    } else if b != "" {
      DropLast(s, t, b);
      AroundIsStripped(s[..|s| - 1], "", t, b[..|b| - 1]);
    } else {
      assert s == t;
    }
  }

  /** `strip`. */
  lemma StripIsExact(s: string, t: string)
    ensures Strip(s) == t <==> exists a, b :: Around(s, a, t, b)
  {
    if Strip(s) == t { var a, b := StrippedIsAround(s); }
    if a, b :| Around(s, a, t, b) { AroundIsStripped(s, a, t, b); }
  }

  /** Digits in groups, with one underscore between groups. */
  predicate Grouped(s: string) {
    && s != "" && IsDecimal(s[0]) && IsDecimal(s[|s| - 1])
    && (forall i :: 0 <= i < |s| ==> IsDecimal(s[i]) || s[i] == '_')
    && (forall i :: 0 <= i < |s| - 1 ==> !(s[i] == '_' && s[i + 1] == '_'))
  }

  function Ungrouped(s: string): (u: string)
    requires forall i :: 0 <= i < |s| ==> IsDecimal(s[i]) || s[i] == '_'
    ensures forall i :: 0 <= i < |u| ==> IsDecimal(u[i])
  {
    if s == "" then "" else (if s[0] == '_' then "" else [s[0]]) + Ungrouped(s[1..])
  }

  /** More digits after a number. */
  function Onward(acc: nat, u: string): nat
    requires forall i :: 0 <= i < |u| ==> IsDecimal(u[i])
    decreases |u|
  {
    if u == "" then acc
    else
      assert IsDecimal(u[0]);
      Onward(acc * 10 + (u[0] - '0') as nat, u[1..])
  }

  lemma {:induction false} OnwardLast(acc: nat, u: string)
    requires u != "" && forall i :: 0 <= i < |u| ==> IsDecimal(u[i])
    ensures IsDecimal(u[|u| - 1]) && Onward(acc, u) == 10 * Onward(acc, u[..|u| - 1]) + (u[|u| - 1] - '0') as nat
    decreases |u|
  {
    assert IsDecimal(u[0]);
    if |u| == 1 {
      assert u[1..] == "" && u[..0] == "";
    } else {
      OnwardLast(acc * 10 + (u[0] - '0') as nat, u[1..]);
      assert u[1..][..|u| - 2] == u[..|u| - 1][1..] && u[..|u| - 1][0] == u[0];
    }
  }

  lemma {:induction false} OnwardIsNumeral(u: string)
    requires forall i :: 0 <= i < |u| ==> IsDecimal(u[i])
    ensures Onward(0, u) == Numeral(u)
    decreases |u|
  {
    if u != "" {
      OnwardLast(0, u);
      OnwardIsNumeral(u[..|u| - 1]);
    }
  }

  /** The digits of a grouped numeral, read on from `acc`. */
  function Value(s: string, acc: nat): nat
    requires Grouped(s)
  {
    Onward(acc, Ungrouped(s))
  }

  lemma OneDigit(s: string, acc: nat)
    requires |s| == 1 && IsDecimal(s[0])
    ensures Grouped(s) && Value(s, acc) == acc * 10 + (s[0] - '0') as nat
  {
    var u, n := Ungrouped(s), acc * 10 + (s[0] - '0') as nat;
    assert Ungrouped(s[1..]) == "" && u == [s[0]] + Ungrouped(s[1..]);
    assert u == [s[0]] && u[1..] == "";
    assert Onward(n, "") == n;
  }

  lemma MoreDigits(s: string, rest: string, acc: nat)
    requires |s| > 1 && Grouped(s) && rest == (if s[1] == '_' then s[2..] else s[1..]) && Grouped(rest)
    ensures Value(s, acc) == Value(rest, acc * 10 + (s[0] - '0') as nat)
  {
    UngroupedRest(s, rest);
    var u := Ungrouped(rest);
    assert Ungrouped(s)[0] == s[0] && Ungrouped(s)[1..] == u;
  }

  lemma UngroupedRest(s: string, rest: string)
    requires |s| > 1 && IsDecimal(s[0]) && rest == if s[1] == '_' then s[2..] else s[1..]
    requires forall i :: 0 <= i < |s| ==> IsDecimal(s[i]) || s[i] == '_'
    requires forall i :: 0 <= i < |rest| ==> IsDecimal(rest[i]) || rest[i] == '_'
    ensures Ungrouped(s) == [s[0]] + Ungrouped(rest)
  {
    assert s[1..][1..] == s[2..];
    if s[1] == '_' { assert Ungrouped(s[1..]) == Ungrouped(s[2..]); }
  }

  lemma {:induction false} DigitsAreGrouped(s: string, acc: nat)
    ensures Digits(s, acc) == if Grouped(s) then Some(Value(s, acc)) else None
    decreases |s|
  {
    if s != "" && IsDecimal(s[0]) {
      if |s| == 1 {
        OneDigit(s, acc);
      } else {
        var rest := if s[1] == '_' then s[2..] else s[1..];
        DigitsAreGrouped(rest, acc * 10 + (s[0] - '0') as nat);
        GroupedRest(s, rest);
        if Grouped(s) { MoreDigits(s, rest, acc); }
      }
    }
  }

  lemma DigitsMean(u: string)
    ensures Digits(u, 0).Some? <==> Grouped(u)
    ensures Grouped(u) ==> Digits(u, 0) == Some(Numeral(Ungrouped(u)))
  {
    DigitsAreGrouped(u, 0);
    if Grouped(u) { OnwardIsNumeral(Ungrouped(u)); }
  }

  lemma GroupedRest(s: string, rest: string)
    requires |s| > 1 && IsDecimal(s[0]) && rest == if s[1] == '_' then s[2..] else s[1..]
    ensures Grouped(s) <==> Grouped(rest)
  {
    var k := |s| - |rest|;
    assert forall i :: 0 <= i < |rest| ==> rest[i] == s[i + k];
    if Grouped(rest) {
      assert s[|s| - 1] == rest[|rest| - 1];
      forall i | 0 <= i < |s| ensures IsDecimal(s[i]) || s[i] == '_' {
        if i >= k { assert rest[i - k] == s[i]; }
      }
      forall i | 0 <= i < |s| - 1 ensures !(s[i] == '_' && s[i + 1] == '_') {
        if i >= k { assert rest[i - k] == s[i] && rest[i - k + 1] == s[i + 1]; } else if i + 1 == k { assert s[i + 1] == rest[0]; }
      }
    }
  }

  /** `int`: digits, perhaps with single underscores between them, a sign before and white space around. */
  lemma IntIsExact(s: string, n: int)
    ensures var t := Strip(s);
      var u := if t != "" && (t[0] == '+' || t[0] == '-') then t[1..] else t;
      IntOf(s) == Some(n) <==> Grouped(u) && n == if t[0] == '-' then -(Numeral(Ungrouped(u)) as int) else Numeral(Ungrouped(u))
  {
    var t := Strip(s);
    var u := if t != "" && (t[0] == '+' || t[0] == '-') then t[1..] else t;
    DigitsMean(u);
  }

  predicate Tells(line: string, key: string, value: string) {
    IsItem(line) && HasSep(line[2..]) && Strip(KeyOf(line[2..])) == key && Strip(ValueOf(line[2..])) == value
  }

  /** The last line that tells `key` tells `value`. */
  ghost predicate LastTells(lines: seq<string>, key: string, value: string) {
    exists i :: 0 <= i < |lines| && Tells(lines[i], key, value) && forall j, v :: i < j < |lines| ==> !Tells(lines[j], key, v)
  }

  lemma LastIsNew(init: seq<string>, last: string, key: string, told: string, value: string)
    requires Tells(last, key, told)
    ensures LastTells(init + [last], key, value) <==> value == told
  {
    var lines := init + [last];
    assert lines[|init|] == last && Tells(lines[|init|], key, told);
  }

  lemma LastIsOld(init: seq<string>, last: string, key: string, value: string)
    requires forall v :: !Tells(last, key, v)
    ensures LastTells(init + [last], key, value) <==> LastTells(init, key, value)
  {
    var lines := init + [last];
    if LastTells(init, key, value) {
      var i :| 0 <= i < |init| && Tells(init[i], key, value) && forall j, v :: i < j < |init| ==> !Tells(init[j], key, v);
      assert Tells(lines[i], key, value);
    }
    if LastTells(lines, key, value) {
      var i :| 0 <= i < |lines| && Tells(lines[i], key, value) && forall j, v :: i < j < |lines| ==> !Tells(lines[j], key, v);
      assert Tells(init[i], key, value);
      forall j, v | i < j < |init| ensures !Tells(init[j], key, v) { assert lines[j] == init[j]; }
    }
  }

  lemma {:induction false} FieldsAreLast(lines: seq<string>, key: string, value: string)
    ensures key in Fields(lines) && Fields(lines)[key] == value <==> LastTells(lines, key, value)
  {
    if lines != [] {
      var init, last := lines[..|lines| - 1], lines[|lines| - 1];
      assert lines == init + [last];
      FieldsAreLast(init, key, value);
      if IsItem(last) && HasSep(last[2..]) && Strip(KeyOf(last[2..])) == key {
        LastIsNew(init, last, key, Strip(ValueOf(last[2..])), value);
      } else {
        LastIsOld(init, last, key, value);
      }
    }
  }

  /** A text is read as a result and a count exactly when the last line that tells the result tells one of the three
      words, and the last that tells the count a number. */
  lemma ReadIsExact(text: string, v: Verdict, n: int)
    ensures var lines := SplitLines(text);
      Read(text) == Some((v, n)) <==>
        && (v == Blocked ==> LastTells(lines, "result", "blocked"))
        && (v == NoOpportunity ==> LastTells(lines, "result", "no_opportunity"))
        && (v == Ready ==> LastTells(lines, "result", "ready"))
        && exists count :: LastTells(lines, "opportunity count", count) && IntOf(count) == Some(n)
  {
    var lines := SplitLines(text);
    var fields := Fields(lines);
    VerdictIsPlain(v);
    FieldsAreLast(lines, "result", Word(v));
    if "result" in fields && VerdictOf(fields["result"]).Some? { VerdictIsPlain(VerdictOf(fields["result"]).value); }
    if "opportunity count" in fields { FieldsAreLast(lines, "opportunity count", fields["opportunity count"]); }
    forall count | LastTells(lines, "opportunity count", count)
      ensures "opportunity count" in fields && fields["opportunity count"] == count
    {
      FieldsAreLast(lines, "opportunity count", count);
    }
  }

  // ---- what is printed is read back ----

  lemma {:induction false} DigitsAppend(s: string, d: nat, acc: nat)
    requires d < 10 && s != "" && forall i :: 0 <= i < |s| ==> IsDecimal(s[i])
    ensures Digits(s, acc).Some? && Digits(s + [Digit(d)], acc) == Some(Digits(s, acc).value * 10 + d)
  {
    var t := s + [Digit(d)];
    assert t[1] != '_';
    if |s| == 1 {
      assert t[1..] == [Digit(d)];
    } else {
      assert t[1..] == s[1..] + [Digit(d)] && s[1] != '_';
      DigitsAppend(s[1..], d, acc * 10 + (s[0] - '0') as int);
    }
  }

  lemma {:induction false} DecimalInverse(n: nat)
    ensures Digits(Decimal(n), 0) == Some(n)
  {
    if n >= 10 {
      DecimalInverse(n / 10);
      DecimalShape(n / 10);
      DigitsAppend(Decimal(n / 10), n % 10, 0);
    }
  }

  lemma IntInverse(n: nat)
    ensures Strip(Decimal(n)) == Decimal(n) && NoBreak(Decimal(n)) && IntOf(Decimal(n)) == Some(n)
  {
    DecimalShape(n);
    DecimalInverse(n);
  }

  /** A field that splitting and stripping leave as it is. */
  predicate PlainField(key: string, value: string) {
    NoColon(key) && Strip(key) == key && Strip(value) == value && NoBreak(key) && NoBreak(value)
  }

  predicate PlainFields(pairs: seq<(string, string)>) {
    forall i :: 0 <= i < |pairs| ==> PlainField(pairs[i].0, pairs[i].1)
  }

  predicate Bare(s: string) {
    Tame(s) && s != "" && s[0] != ' ' && s[|s| - 1] != ' '
  }

  lemma BareIsPlain(key: string, value: string)
    requires Bare(key) && Bare(value)
    ensures PlainField(key, value)
  {
  }

  lemma SourceIsTame()
    ensures Tame("source cycle contract") && Tame("exact four-source terminal")
  {
  }

  lemma AuthorityIsTame()
    ensures Tame("order authority") && Tame("domestic account endpoint")
  {
  }

  lemma MutationIsTame()
    ensures Tame("external account/order mutation")
  {
  }

  lemma SafetyIsPlain()
    ensures PlainFields(SAFETY)
  {
    SourceIsTame();
    AuthorityIsTame();
    MutationIsTame();
    BareIsPlain("source cycle contract", "exact four-source terminal");
    BareIsPlain("order authority", "false");
    BareIsPlain("domestic account endpoint", "false");
    BareIsPlain("external account/order mutation", "0");
  }

  lemma WordIsTame(v: Verdict)
    ensures Bare(Word(v)) && Bare("result")
  {
  }

  lemma VerdictIsPlain(v: Verdict)
    ensures PlainField("result", Word(v)) && VerdictOf(Word(v)) == Some(v)
  {
    WordIsTame(v);
    BareIsPlain("result", Word(v));
  }

  lemma CountIsPlain(count: nat)
    ensures PlainField("opportunity count", Decimal(count))
  {
    IntInverse(count);
  }

  lemma ReportIsPlain(v: Verdict, count: nat)
    ensures PlainFields(ReportFields(v, count))
  {
    VerdictIsPlain(v);
    CountIsPlain(count);
    SafetyIsPlain();
  }

  lemma FieldsStep(lines: seq<string>, key: string, value: string)
    requires PlainField(key, value)
    ensures Fields(lines + [Field(key, value)]) == Fields(lines)[key := value]
  {
    FieldIsCut(key, value);
    assert (lines + [Field(key, value)])[..|lines|] == lines;
  }

  lemma {:induction false} FieldsOfLines(lines: seq<string>, pairs: seq<(string, string)>)
    requires PlainFields(pairs)
    ensures Fields(lines + FieldLines(pairs)) == Assign(Fields(lines), pairs)
    decreases |pairs|
  {
    if pairs == [] {
      assert lines + FieldLines(pairs) == lines;
    } else {
      var key, value := pairs[0].0, pairs[0].1;
      var longer := lines + [Field(key, value)];
      FieldsStep(lines, key, value);
      FieldsOfLines(longer, pairs[1..]);
      Regroup(lines, pairs);
    }
  }

  lemma HeadingIsTame()
    ensures Tame(HEADING)
  {
  }

  lemma NoteIsTame()
    ensures Tame("> KIS/OpenDART/LS read-only evidence")
  {
  }

  lemma PromiseIsWhole()
    ensures NoBreak("와 local projection만 실행합니다.")
  {
  }

  lemma HeadIsWhole()
    ensures NoBreak(HEADING) && NoBreak("") && NoBreak(NOTE)
  {
    HeadingIsTame();
    NoteIsTame();
    PromiseIsWhole();
    TameIsWhole(HEADING);
    TameIsWhole("> KIS/OpenDART/LS read-only evidence");
    NoBreakJoin("> KIS/OpenDART/LS read-only evidence", "와 local projection만 실행합니다.");
  }

  lemma NoItem(lines: seq<string>, line: string)
    requires !IsItem(line)
    ensures Fields(lines + [line]) == Fields(lines)
  {
    assert (lines + [line])[..|lines|] == lines;
  }

  lemma HeadHasNoFields()
    ensures Fields([HEADING, "", NOTE, ""]) == map[]
  {
    assert HEADING[0] == '#' && NOTE[0] == '>';
    NoItem([], HEADING);
    NoItem([HEADING], "");
    NoItem([HEADING, ""], NOTE);
    NoItem([HEADING, "", NOTE], "");
    assert [] + [HEADING] == [HEADING] && [HEADING] + [""] == [HEADING, ""];
    assert [HEADING, ""] + [NOTE] == [HEADING, "", NOTE] && [HEADING, "", NOTE] + [""] == [HEADING, "", NOTE, ""];
  }

  /** The watch reads back what the cycle printed, whatever the result and the count. */
  lemma RoundTrip(v: Verdict, count: nat)
    ensures Read(Report(v, count)) == Some((v, count as int))
  {
    var head, pairs := [HEADING, "", NOTE, ""], ReportFields(v, count);
    HeadIsWhole();
    HeadHasNoFields();
    ReportIsPlain(v, count);
    WholeFieldLines(pairs);
    SplitUnlines(head + FieldLines(pairs));
    FieldsOfLines(head, pairs);
    AssignFirstTwo(v, count);
    VerdictIsPlain(v);
    IntInverse(count);
  }

  lemma AssignFirstTwo(v: Verdict, count: nat)
    ensures var f := Assign(map[], ReportFields(v, count));
      "result" in f && f["result"] == Word(v) && "opportunity count" in f && f["opportunity count"] == Decimal(count)
  {
    var pairs := ReportFields(v, count);
    assert pairs[1..][1..] == SAFETY;
    var m: map<string, string> := map[];
    OthersKept(m["result" := Word(v)]["opportunity count" := Decimal(count)], SAFETY, "result");
    OthersKept(m["result" := Word(v)]["opportunity count" := Decimal(count)], SAFETY, "opportunity count");
  }

  // ---- the report, line by line ----

  lemma FieldIsSpelled(key: string, value: string)
    ensures Field(key, value) == "- " + key + ": " + value
  {
    assert "- " + (key + ": " + value) == "- " + key + ": " + value;
  }

  lemma ReportHasLines(v: Verdict, count: nat)
    ensures SplitLines(Report(v, count)) == ReportLines(v, count)
  {
    HeadIsWhole();
    ReportIsPlain(v, count);
    WholeFieldLines(ReportFields(v, count));
    SplitUnlines([HEADING, "", NOTE, ""] + FieldLines(ReportFields(v, count)));
  }

  lemma {:induction false} FieldLinesAre(pairs: seq<(string, string)>)
    ensures |FieldLines(pairs)| == |pairs|
    ensures forall i :: 0 <= i < |pairs| ==> FieldLines(pairs)[i] == Field(pairs[i].0, pairs[i].1)
  {
    if pairs != [] { FieldLinesAre(pairs[1..]); }
  }

  /** What stands in the report: the result in one of three words, the count, and that nothing was traded. */
  lemma ReportIsSpelled(v: Verdict, count: nat)
    ensures var lines := SplitLines(Report(v, count));
      && |lines| == 10 && lines[0] == "# KR same-cycle Opportunity cycle" && lines[1] == "" && lines[3] == ""
      && lines[2] == "> KIS/OpenDART/LS read-only evidence" + "와 local projection만 실행합니다."
      && (v == Blocked ==> lines[4] == Field("result", "blocked"))
      && (v == NoOpportunity ==> lines[4] == Field("result", "no_opportunity"))
      && (v == Ready ==> lines[4] == Field("result", "ready"))
      && lines[5] == Field("opportunity count", Decimal(count))
      && lines[6] == Field("source cycle contract", "exact four-source terminal")
      && lines[7] == Field("order authority", "false")
      && lines[8] == Field("domestic account endpoint", "false")
      && lines[9] == Field("external account/order mutation", "0")
  {
    var head, pairs := [HEADING, "", NOTE, ""], ReportFields(v, count);
    ReportHasLines(v, count);
    FieldLinesAre(pairs);
    LinesAfter(head, FieldLines(pairs));
    assert pairs[2] == SAFETY[0] && pairs[3] == SAFETY[1] && pairs[4] == SAFETY[2] && pairs[5] == SAFETY[3];
  }

  lemma LinesAfter(head: seq<string>, rest: seq<string>)
    requires |head| == 4 && |rest| == 6
    ensures var lines := head + rest;
      && lines[0] == head[0] && lines[1] == head[1] && lines[2] == head[2] && lines[3] == head[3] && lines[4] == rest[0]
      && lines[5] == rest[1] && lines[6] == rest[2] && lines[7] == rest[3] && lines[8] == rest[4] && lines[9] == rest[5]
  {
  }

  // ---- the cycle ----

  /** What a step of the cycle does: return, or raise the preflight error, an error that `main` turns into a
      blocked report, or any other. */
  datatype Step = Fine | Preflight | Listed | Other

  /** Everything that `main` calls, in the order it calls it. */
  datatype Behaviour = Behaviour(
    targets: Step, policy: Step, version: string, date: Step, authority: Step,
    preflight: Step, collect: Step, prepare: Step, project: Step, read: Step, count: nat, deliver: Step,
    cycleIncident: Step, projected: bool, preflightIncident: Step, write: Step)

  /** `AskCycle` asks for an incident about the collected cycle, which exists only if there is such a cycle. */
  datatype Incident = AskCycle | PreflightIncident(version: string)

  /** A return leaves `Report(result, count)` behind. */
  datatype Outcome = Returned(exit: int, result: Verdict, count: nat) | Raised

  /** The steps inside `try`; in order. */
  function Steps(fixture: bool, b: Behaviour): seq<Step> {
    [b.targets, b.policy, b.date, b.authority] + (if fixture then [] else [b.preflight])
    + [b.collect, b.prepare, b.project, b.read, b.deliver]
  }

  /** The index of the first step that raises, or the number of steps. */
  function FirstRaise(steps: seq<Step>): (i: nat)
    ensures i <= |steps| && (i < |steps| ==> !steps[i].Fine?)
    ensures forall j :: 0 <= j < i ==> steps[j].Fine?
  {
    if steps == [] || !steps[0].Fine? then 0 else 1 + FirstRaise(steps[1..])
  }

  lemma {:induction false} FirstRaiseIs(steps: seq<Step>, i: nat)
    requires i <= |steps| && (i < |steps| ==> !steps[i].Fine?) && forall j :: 0 <= j < i ==> steps[j].Fine?
    ensures FirstRaise(steps) == i
  {
    if i > 0 { FirstRaiseIs(steps[1..], i - 1); }
  }

  lemma StepsAt(fixture: bool, b: Behaviour, k: nat)
    requires k == if fixture then 4 else 5
    ensures var s := Steps(fixture, b);
      && |s| == k + 5 && s[0] == b.targets && s[1] == b.policy && s[2] == b.date && s[3] == b.authority
      && (!fixture ==> s[4] == b.preflight) && s[k] == b.collect && s[k + 1] == b.prepare && s[k + 2] == b.project
      && s[k + 3] == b.read && s[k + 4] == b.deliver
  {
  }

  /** The `try` block: how it ended, and the three variables that the handlers read. */
  method Attempt(fixture: bool, b: Behaviour) returns (raised: Step, count: nat, enabled: bool, version: Option<string>)
    ensures var steps := Steps(fixture, b); var i := FirstRaise(steps);
      && raised == (if i < |steps| then steps[i] else Fine)
      && (enabled <==> b.targets.Fine? && b.policy.Fine? && b.date.Fine? && b.authority.Fine?)
      && version == (if enabled then Some(b.version) else None)
      && (i == |steps| ==> count == b.count)
  {
    raised, count, enabled, version := b.targets, 0, false, None;
    ghost var steps := Steps(fixture, b);
    ghost var k := if fixture then 4 else 5;
    StepsAt(fixture, b, k);
    if !raised.Fine? { FirstRaiseIs(steps, 0); return; }
    raised := b.policy;
    if !raised.Fine? { FirstRaiseIs(steps, 1); return; }
    raised := b.date;
    if !raised.Fine? { FirstRaiseIs(steps, 2); return; }
    raised := b.authority;
    if !raised.Fine? { FirstRaiseIs(steps, 3); return; }
    enabled, version := true, Some(b.version);
    if !fixture {
      raised := b.preflight;
      if !raised.Fine? { FirstRaiseIs(steps, 4); return; }
    }
    raised := b.collect;
    if !raised.Fine? { FirstRaiseIs(steps, k); return; }
    raised := b.prepare;
    if !raised.Fine? { FirstRaiseIs(steps, k + 1); return; }
    raised := b.project;
    if !raised.Fine? { FirstRaiseIs(steps, k + 2); return; }
    raised := b.read;
    if !raised.Fine? { FirstRaiseIs(steps, k + 3); return; }
    count := b.count;
    raised := b.deliver;
    FirstRaiseIs(steps, if raised.Fine? then k + 5 else k + 4);
  }

  /** What a cycle that returns can leave: a blocked report, or a report of the Opportunities it found. */
  predicate Honest(exit: int, result: Verdict, count: nat) {
    match result
    case Blocked => exit == 1 && count == 0
    case NoOpportunity => exit == 0 && count == 0
    case Ready => exit == 0 && count > 0
  }

  /** The step at which the `try` block ends, or `Fine`: the first that raises, in this order. */
  function Trouble(fixture: bool, b: Behaviour): (s: Step)
    ensures s ==
      if !b.targets.Fine? then b.targets
      else if !b.policy.Fine? then b.policy
      else if !b.date.Fine? then b.date
      else if !b.authority.Fine? then b.authority
      else if !fixture && !b.preflight.Fine? then b.preflight
      else if !b.collect.Fine? then b.collect
      else if !b.prepare.Fine? then b.prepare
      else if !b.project.Fine? then b.project
      else if !b.read.Fine? then b.read
      else b.deliver
  {
    var steps := Steps(fixture, b);
    var i := FirstRaise(steps);
    StepsAt(fixture, b, if fixture then 4 else 5);
    if i < |steps| then steps[i] else Fine
  }

  /** An incident is asked for when a step after the authority check raises an error that the handlers know. */
  predicate IncidentDue(fixture: bool, b: Behaviour) {
    && b.targets.Fine? && b.policy.Fine? && b.date.Fine? && b.authority.Fine?
    && (Trouble(fixture, b).Preflight? || Trouble(fixture, b).Listed?)
  }

  /** And one more, of the cycle's own, when it is the preflight's error and there is no cycle to report on. */
  predicate PreflightDue(fixture: bool, b: Behaviour) {
    IncidentDue(fixture, b) && b.cycleIncident.Fine? && Trouble(fixture, b).Preflight? && !b.projected
  }

  /** `main`. It raises exactly when a step raises an error it does not know, an incident that is due cannot be asked for,
      or the report cannot be written. Otherwise it returns: 0 exactly when no step raised, with a report of what it found;
      else 1, with a blocked report. Incidents are asked for exactly when due, whatever happens then. */
  method RunCycle(fixture: bool, b: Behaviour) returns (out: Outcome, incidents: seq<Incident>)
    ensures out.Raised? <==>
      || Trouble(fixture, b).Other? || !b.write.Fine?
      || (IncidentDue(fixture, b) && !b.cycleIncident.Fine?) || (PreflightDue(fixture, b) && !b.preflightIncident.Fine?)
    ensures out.Returned? ==>
      if !Trouble(fixture, b).Fine? then out == Returned(1, Blocked, 0)
      else if b.count > 0 then out == Returned(0, Ready, b.count)
      else out == Returned(0, NoOpportunity, 0)
    ensures out.Returned? ==> Honest(out.exit, out.result, out.count)
    ensures incidents ==
      (if IncidentDue(fixture, b) && b.cycleIncident.Fine? then [AskCycle] else [])
      + (if PreflightDue(fixture, b) && b.preflightIncident.Fine? then [PreflightIncident(b.version)] else [])
  {
    incidents := [];
    var raised, count, enabled, version := Attempt(fixture, b);
    assert raised == Trouble(fixture, b);
    if raised.Other? { return Raised, incidents; }
    if raised.Preflight? {
      if enabled && version.Some? {
        if !b.cycleIncident.Fine? { return Raised, incidents; }
        incidents := incidents + [AskCycle];
        if !b.projected {
          if !b.preflightIncident.Fine? { return Raised, incidents; }
          incidents := incidents + [PreflightIncident(version.value)];
        }
      }
    } else if raised.Listed? {
      if enabled {
        if !b.cycleIncident.Fine? { return Raised, incidents; }
        incidents := incidents + [AskCycle];
      }
    }
    if !b.write.Fine? { return Raised, incidents; }
    if !raised.Fine? { return Returned(1, Blocked, 0), incidents; }
    out := Returned(0, if count > 0 then Ready else NoOpportunity, count);
  }
}
