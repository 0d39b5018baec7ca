/** The text of the two files, letter by letter. */
module Payloads {
  import opened CanonicalJson
  import opened Numerals
  import opened Order
  import opened Receipts
  import opened Tree
  import opened Wrappers
  import Machine
  import Spelling

  /** Printable ASCII that JSON does not escape. */
  predicate Raw(s: string) {
    forall i :: 0 <= i < |s| ==> ' ' <= s[i] <= '~' && s[i] != '"' && s[i] != '\\'
  }

  function Quoted(s: string): string {
    "\"" + s + "\""
  }

  /** A member's name and the text of its value. */
  type Members = seq<(string, string)>

  function Joined(members: Members): string {
    if members == [] then ""
    else
      Quoted(members[0].0) + (":" + members[0].1)
      + (if |members| == 1 then "" else "," + Joined(members[1..]))
  }

  function Braced(members: Members): string {
    "{" + Joined(members) + "}\n"
  }

  // ---- how an object is printed ----

  lemma CodesJoin(a: string, b: string)
    ensures Codes(a + b) == Codes(a) + Codes(b)
  {
  }

  lemma CodesAreText(s: string)
    ensures T(s) == Codes(s)
  {
  }

  lemma {:induction false} RawIsNotEscaped(s: string)
    requires Raw(s)
    ensures EscapeAll(T(s)) == Codes(s)
  {
    if s != "" {
      assert T(s)[1..] == T(s[1..]);
      RawIsNotEscaped(s[1..]);
      assert Codes(s) == [s[0] as int] + Codes(s[1..]);
    }
  }

  lemma QuotedIsPrinted(s: string)
    requires Raw(s)
    ensures PrintText(T(s)) == Codes(Quoted(s))
  {
    RawIsNotEscaped(s);
    assert Codes("\"") == [34];
    CodesJoin("\"", s);
    CodesJoin("\"" + s, "\"");
  }

  lemma {:induction false} DecimalIsPrinted(n: nat)
    ensures PrintNat(n) == Codes(Decimal(n))
  {
    if n >= 10 {
      DecimalIsPrinted(n / 10);
      CodesJoin(Decimal(n / 10), [Digit(n % 10)]);
    }
  }

  /** Numbers are decimal numerals, the constants words. */
  lemma ValueIsSpelled(v: Value)
    ensures v.Int? ==> PrintValue(v) == Codes(if v.n < 0 then "-" + Decimal(-v.n) else Decimal(v.n))
    ensures v.Bool? ==> PrintValue(v) == Codes(if v.b then "true" else "false")
    ensures v.Null? ==> PrintValue(v) == Codes("null")
  {
    if v.Int? {
      DecimalIsPrinted(if v.n < 0 then -v.n else v.n);
      assert Codes("-") == [45];
      if v.n < 0 { CodesJoin("-", Decimal(-v.n)); }
    }
  }

  /** The members are those of `o`, under raw names in ascending order, each with the text of its value. */
  ghost predicate Tell(members: Members, o: Object) {
    && (forall i :: 0 <= i < |members| ==> Raw(members[i].0) && T(members[i].0) in o)
    && (forall i :: 0 <= i < |members| ==> PrintValue(o[T(members[i].0)]) == Codes(members[i].1))
    && (forall i, j :: 0 <= i < j < |members| ==> Before(members[i].0, members[j].0))
  }

  function Names(members: Members): (names: seq<Text>)
    ensures |names| == |members| && forall i :: 0 <= i < |members| ==> names[i] == T(members[i].0)
  {
    seq(|members|, i requires 0 <= i < |members| => T(members[i].0))
  }

  lemma MemberIsPrinted(name: string, text: string, v: Value, more: string)
    requires Raw(name) && PrintValue(v) == Codes(text)
    ensures PrintText(T(name)) + [COLON] + PrintValue(v) + Codes(more) == Codes(Quoted(name) + (":" + text) + more)
  {
    QuotedIsPrinted(name);
    assert Codes(":") == [58];
    CodesJoin(":", text);
    CodesJoin(Quoted(name), ":" + text);
    CodesJoin(Quoted(name) + (":" + text), more);
    CanonicalJson.Assoc(PrintText(T(name)), [COLON], PrintValue(v));
  }

  lemma {:induction false} MembersArePrinted(members: Members, o: Object)
    requires Tell(members, o)
    ensures (forall k :: k in Names(members) ==> k in o) && PrintMembers(Names(members), o) == Codes(Joined(members))
  {
    if members != [] {
      var rest := members[1..];
      assert Names(members)[1..] == Names(rest);
      MembersArePrinted(rest, o);
      var more := if |members| == 1 then "" else "," + Joined(rest);
      assert Codes(",") == [44];
      CodesJoin(",", Joined(rest));
      MemberIsPrinted(members[0].0, members[0].1, o[T(members[0].0)], more);
    }
  }

  lemma {:induction false} SortedIsUnique(a: seq<Text>, b: seq<Text>)
    requires forall i, j :: 0 <= i < j < |a| ==> a[i] != a[j] && Leq(a[i], a[j])
    requires forall i, j :: 0 <= i < j < |b| ==> b[i] != b[j] && Leq(b[i], b[j])
    requires forall k :: k in a <==> k in b
    ensures a == b
  {
    if a == [] {
      SomeElement(b);
    } else {
      assert a[0] in a;
      assert a[0] in b && b[0] in b;
      assert b[0] in a;
      var i, j :| 0 <= i < |b| && b[i] == a[0] && 0 <= j < |a| && a[j] == b[0];
      LeqTotal(a[0], b[0]);
      forall k ensures k in a[1..] <==> k in b[1..] {
        if k in a[1..] { assert k in a && k != a[0]; }
        if k in b[1..] { assert k in b && k != b[0]; }
      }
      SortedIsUnique(a[1..], b[1..]);
    }
  }

  lemma NamesAreSorted(members: Members, o: Object)
    requires Tell(members, o) && forall k :: k in o ==> k in Names(members)
    ensures SortedKeys(o.Keys) == Names(members)
  {
    var names := Names(members);
    forall i, j | 0 <= i < j < |names| ensures names[i] != names[j] && Leq(names[i], names[j]) {
      assert Before(members[i].0, members[j].0);
      CodesDiffer(members[i].0, members[j].0);
      CodesAreText(members[i].0);
      CodesAreText(members[j].0);
    }
    SortedIsUnique(SortedKeys(o.Keys), names);
  }

  lemma BracesAreCodes(s: string)
    ensures Codes("{" + s + "}\n") == [OPEN] + Codes(s) + [CLOSE, NEWLINE]
  {
    assert Codes("{") == [123] && Codes("}\n") == [125, 10];
    CodesJoin("{", s);
    CodesJoin("{" + s, "}\n");
  }

  /** How Python prints an object: in braces, members in ascending order of their names and parted by commas, name and
      value by a colon, no spaces, a line feed at the end. */
  lemma PrintIsBraced(o: Object, members: Members)
    requires Tell(members, o) && forall k :: k in o ==> k in Names(members)
    ensures Print(o) == Codes(Braced(members))
  {
    NamesAreSorted(members, o);
    MembersArePrinted(members, o);
    BracesAreCodes(Joined(members));
  }

  // ---- the names ----

  lemma BeforeAt(a: string, b: string, i: nat)
    requires i < |a| && i < |b| && a[i] < b[i] && forall j :: 0 <= j < i ==> a[j] == b[j]
    ensures Before(a, b)
  {
    BeforeIsLexicographic(a, b);
  }

  lemma {:induction false} NeighboursAscend(names: seq<string>)
    requires forall i :: 0 <= i < |names| - 1 ==> Before(names[i], names[i + 1])
    ensures Ascending(names)
  {
    if |names| > 1 {
      var init, n := names[..|names| - 1], |names| - 1;
      NeighboursAscend(init);
      forall i | 0 <= i < n ensures Before(names[i], names[n]) {
        if i < n - 1 {
          assert Before(init[i], init[n - 1]);
          BeforeTransitive(names[i], names[n - 1], names[n]);
        }
      }
    }
  }

  const RECEIPT_NAMES: seq<string> := [
    "completed_at_epoch", "manifest_sha256", "market", "plan_sha256", "reason", "request_sha256", "role",
    "runtime_commit_sha", "scheduler_main_sha", "schema_version", "target_session"]

  const POINTER_NAMES: seq<string> := ["incident_sha256", "market", "role", "schema_version", "target_session"]

  lemma FirstNames()
    ensures Before("completed_at_epoch", "manifest_sha256") && Before("manifest_sha256", "market")
    ensures Before("market", "plan_sha256") && Before("plan_sha256", "reason")
  {
    BeforeAt("completed_at_epoch", "manifest_sha256", 0);
    BeforeAt("manifest_sha256", "market", 2);
    BeforeAt("market", "plan_sha256", 0);
    BeforeAt("plan_sha256", "reason", 0);
  }

  lemma MiddleNames()
    ensures Before("reason", "request_sha256") && Before("request_sha256", "role") && Before("role", "runtime_commit_sha")
  {
    BeforeAt("reason", "request_sha256", 2);
    BeforeAt("request_sha256", "role", 1);
    BeforeAt("role", "runtime_commit_sha", 1);
  }

  lemma LastNames()
    ensures Before("runtime_commit_sha", "scheduler_main_sha") && Before("scheduler_main_sha", "schema_version")
    ensures Before("schema_version", "target_session")
  {
    BeforeAt("runtime_commit_sha", "scheduler_main_sha", 0);
    BeforeAt("scheduler_main_sha", "schema_version", 4);
    BeforeAt("schema_version", "target_session", 0);
  }

  lemma PointerNames()
    ensures Before("incident_sha256", "market") && Before("market", "role") && Before("role", "schema_version")
  {
    BeforeAt("incident_sha256", "market", 0);
    BeforeAt("market", "role", 0);
    BeforeAt("role", "schema_version", 0);
  }

  lemma NamesAscend()
    ensures Ascending(RECEIPT_NAMES) && Ascending(POINTER_NAMES)
  {
    FirstNames();
    MiddleNames();
    LastNames();
    PointerNames();
    NeighboursAscend(RECEIPT_NAMES);
    NeighboursAscend(POINTER_NAMES);
  }

  lemma ShaNamesAreRaw()
    ensures Raw("manifest_sha256") && Raw("plan_sha256") && Raw("request_sha256") && Raw("incident_sha256")
  {
  }

  lemma ShortNamesAreRaw()
    ensures Raw("market") && Raw("role") && Raw("reason") && Raw("schema_version") && Raw("target_session")
  {
  }

  lemma CommitNamesAreRaw()
    ensures Raw("runtime_commit_sha") && Raw("scheduler_main_sha") && Raw("completed_at_epoch")
  {
  }

  lemma NamesAreRaw()
    ensures forall i :: 0 <= i < |RECEIPT_NAMES| ==> Raw(RECEIPT_NAMES[i])
    ensures forall i :: 0 <= i < |POINTER_NAMES| ==> Raw(POINTER_NAMES[i])
  {
    ShaNamesAreRaw();
    ShortNamesAreRaw();
    CommitNamesAreRaw();
  }

  // ---- the receipt and the pointer ----

  predicate Says(o: Object, name: string, v: Value) {
    T(name) in o && o[T(name)] == v
  }

  lemma {:induction false} BuildCount(names: seq<string>, values: seq<Value>)
    requires |names| == |values| && Distinct(names)
    ensures |Build(names, values)| == |names|
  {
    if names != [] {
      var rest := Build(names[1..], values[1..]);
      BuildCount(names[1..], values[1..]);
      BuildLookup(names[1..], values[1..]);
      forall i | 0 <= i < |names[1..]| ensures T(names[1..][i]) != T(names[0]) {
        assert names[1..][i] == names[i + 1];
        TextsDiffer(names[0], names[1..][i]);
      }
      assert !Named(names[1..], T(names[0]));
      assert Build(names, values).Keys == rest.Keys + {T(names[0])};
    }
  }

  /** Whoever parses a receipt finds eleven fields, each with its own value. */
  lemma ReceiptSays(hash: Bytes -> string, r: Machine.Request, manifest: Bytes, completed: int)
    ensures var o := CanonicalObject(ReceiptBytes(hash, r, manifest, completed));
      && o.Some? && |o.value| == 11
      && Says(o.value, "completed_at_epoch", Int(completed)) && Says(o.value, "schema_version", Int(1))
      && Says(o.value, "market", Str(T(r.key.market))) && Says(o.value, "target_session", Str(T(r.key.session)))
      && Says(o.value, "role", Str(T(r.key.role))) && Says(o.value, "reason", Str(T("runtime_authority_invalid")))
      && Says(o.value, "manifest_sha256", Str(T(hash(manifest)))) && Says(o.value, "request_sha256", Str(T(r.requestSha)))
      && Says(o.value, "plan_sha256", Str(T(r.planSha))) && Says(o.value, "scheduler_main_sha", Str(T(r.schedulerSha)))
      && Says(o.value, "runtime_commit_sha", Str(T(r.runtimeSha)))
  {
    var values := ReceiptValues(hash, r, manifest, completed, Int(1));
    ReceiptIsCandidate(hash, r, manifest, completed);
    PrintThenCheck(ReceiptObject(hash, r, manifest, completed, Int(1)));
    FieldsDiffer();
    BuildCount(RECEIPT_FIELDS, values);
    BuildLookup(RECEIPT_FIELDS, values);
    ReceiptAt(Build(RECEIPT_FIELDS, values), values);
  }

  lemma ReceiptAt(o: Object, values: seq<Value>)
    requires |values| == 11 && forall i :: 0 <= i < 11 ==> Says(o, RECEIPT_FIELDS[i], values[i])
    ensures Says(o, "manifest_sha256", values[0]) && Says(o, "market", values[1]) && Says(o, "plan_sha256", values[2])
    ensures Says(o, "reason", values[3]) && Says(o, "request_sha256", values[4]) && Says(o, "role", values[5])
    ensures Says(o, "runtime_commit_sha", values[6]) && Says(o, "scheduler_main_sha", values[7])
    ensures Says(o, "target_session", values[8]) && Says(o, "completed_at_epoch", values[9])
    ensures Says(o, "schema_version", values[10])
  {
    assert Says(o, RECEIPT_FIELDS[0], values[0]) && Says(o, RECEIPT_FIELDS[1], values[1]) && Says(o, RECEIPT_FIELDS[2], values[2]);
    assert Says(o, RECEIPT_FIELDS[3], values[3]) && Says(o, RECEIPT_FIELDS[4], values[4]) && Says(o, RECEIPT_FIELDS[5], values[5]);
    assert Says(o, RECEIPT_FIELDS[6], values[6]) && Says(o, RECEIPT_FIELDS[7], values[7]) && Says(o, RECEIPT_FIELDS[8], values[8]);
    assert Says(o, RECEIPT_FIELDS[9], values[9]) && Says(o, RECEIPT_FIELDS[10], values[10]);
  }

  /** And in a pointer five. */
  lemma PointerSays(hash: Bytes -> string, k: Key, receipt: Bytes)
    ensures var o := CanonicalObject(PointerBytes(hash, k, receipt));
      && o.Some? && |o.value| == 5
      && Says(o.value, "incident_sha256", Str(T(hash(receipt)))) && Says(o.value, "schema_version", Int(1))
      && Says(o.value, "market", Str(T(k.market))) && Says(o.value, "target_session", Str(T(k.session)))
      && Says(o.value, "role", Str(T(k.role)))
  {
    var values := PointerValues(hash, k, receipt);
    PointerFieldsDiffer();
    TextsDiffer(hash(receipt), k.market);
    TextsDiffer(k.role, k.session);
    BuildPlain(POINTER_FIELDS, values);
    PrintThenCheck(PointerObject(hash, k, receipt));
    BuildCount(POINTER_FIELDS, values);
    BuildLookup(POINTER_FIELDS, values);
    PointerAt(Build(POINTER_FIELDS, values), values);
  }

  lemma PointerAt(o: Object, values: seq<Value>)
    requires |values| == 5 && forall i :: 0 <= i < 5 ==> Says(o, POINTER_FIELDS[i], values[i])
    ensures Says(o, "incident_sha256", values[0]) && Says(o, "market", values[1]) && Says(o, "role", values[2])
    ensures Says(o, "target_session", values[3]) && Says(o, "schema_version", values[4])
  {
    assert Says(o, POINTER_FIELDS[0], values[0]) && Says(o, POINTER_FIELDS[1], values[1]) && Says(o, POINTER_FIELDS[2], values[2]);
    assert Says(o, POINTER_FIELDS[3], values[3]) && Says(o, POINTER_FIELDS[4], values[4]);
  }

  /** A member with the JSON text of its value; strings are such that nothing in them is escaped. */
  predicate TellsOne(o: Object, name: string, text: string) {
    Raw(name) && T(name) in o && PrintValue(o[T(name)]) == Codes(text)
  }

  lemma StringTold(o: Object, name: string, s: string)
    requires Raw(name) && Raw(s) && Says(o, name, Str(T(s)))
    ensures TellsOne(o, name, Quoted(s))
  {
    QuotedIsPrinted(s);
  }

  lemma NumberTold(o: Object, name: string, n: nat)
    requires Raw(name) && Says(o, name, Int(n))
    ensures TellsOne(o, name, Decimal(n))
  {
    DecimalIsPrinted(n);
  }

  lemma AllNamesTold(o: Object, members: Members, names: seq<string>)
    requires |o| == |members| == |names| && Ascending(names)
    requires forall i :: 0 <= i < |names| ==> members[i].0 == names[i] && TellsOne(o, members[i].0, members[i].1)
    ensures Print(o) == Codes(Braced(members))
  {
    forall i, j | 0 <= i < j < |members| ensures Before(members[i].0, members[j].0) && Names(members)[i] != Names(members)[j] {
      assert Before(names[i], names[j]);
      TextsDiffer(names[i], names[j]);
    }
    CountDistinct(Names(members));
    var told := set k | k in Names(members);
    assert told <= o.Keys && |told| == |o.Keys|;
    SameSize(told, o.Keys);
    PrintIsBraced(o, members);
  }

  lemma {:induction false} CountDistinct(keys: seq<Text>)
    requires forall i, j :: 0 <= i < j < |keys| ==> keys[i] != keys[j]
    ensures |set k | k in keys| == |keys|
  {
    if keys != [] {
      CountDistinct(keys[1..]);
      assert (set k | k in keys) == (set k | k in keys[1..]) + {keys[0]};
    }
  }

  lemma SameSize(a: set<Text>, b: set<Text>)
    requires a <= b && |a| == |b|
    ensures a == b
  {
    assert |b - a| == 0;
    assert b == a + (b - a);
  }

  function FirstMembers(hash: Bytes -> string, r: Machine.Request, manifest: Bytes, completed: nat): Members {
    [("completed_at_epoch", Decimal(completed)), ("manifest_sha256", Quoted(hash(manifest))),
     ("market", Quoted(r.key.market)), ("plan_sha256", Quoted(r.planSha))]
  }

  function MiddleMembers(r: Machine.Request): Members {
    [("reason", Quoted("runtime_authority_invalid")), ("request_sha256", Quoted(r.requestSha)),
     ("role", Quoted(r.key.role)), ("runtime_commit_sha", Quoted(r.runtimeSha))]
  }

  function LastMembers(r: Machine.Request): Members {
    [("scheduler_main_sha", Quoted(r.schedulerSha)), ("schema_version", "1"), ("target_session", Quoted(r.key.session))]
  }

  function ReceiptMembers(hash: Bytes -> string, r: Machine.Request, manifest: Bytes, completed: nat): Members {
    FirstMembers(hash, r, manifest, completed) + MiddleMembers(r) + LastMembers(r)
  }

  function PointerMembers(hash: Bytes -> string, k: Key, receipt: Bytes): Members {
    [("incident_sha256", Quoted(hash(receipt))), ("market", Quoted(k.market)), ("role", Quoted(k.role))]
    + [("schema_version", "1"), ("target_session", Quoted(k.session))]
  }

  lemma HexIsRaw(s: string, n: nat)
    requires Spelling.HexOf(s, n)
    ensures Raw(s)
  {
  }

  lemma WatcherRolesAreRaw()
    ensures Raw("us_orb_watcher") && Raw("us_hermes_projection") && Raw("kr_supervisor")
  {
  }

  lemma ObserverRolesAreRaw()
    ensures Raw("us_day_preflight_observer") && Raw("us_day_arm_observer")
  {
  }

  lemma CloserRolesAreRaw()
    ensures Raw("us_day_close_finalizer") && Raw("us_research_post_close_swing")
  {
  }

  lemma KeyIsRaw(k: Key)
    requires Spelling.ValidKey(k)
    ensures Raw(k.market) && Raw(k.session) && Raw(k.role)
  {
    WatcherRolesAreRaw();
    ObserverRolesAreRaw();
    CloserRolesAreRaw();
  }

  lemma RequestIsRaw(r: Machine.Request)
    requires Spelling.ValidRequest(r)
    ensures Raw(r.key.market) && Raw(r.key.session) && Raw(r.key.role)
    ensures Raw(r.requestSha) && Raw(r.planSha) && Raw(r.schedulerSha) && Raw(r.runtimeSha)
  {
    KeyIsRaw(r.key);
    HexIsRaw(r.requestSha, 64);
    HexIsRaw(r.planSha, 64);
    HexIsRaw(r.schedulerSha, 40);
    HexIsRaw(r.runtimeSha, 40);
  }

  predicate TellsEvery(o: Object, members: Members) {
    forall i :: 0 <= i < |members| ==> TellsOne(o, members[i].0, members[i].1)
  }

  lemma FourTold(o: Object, a: (string, string), b: (string, string), c: (string, string), d: (string, string))
    requires TellsOne(o, a.0, a.1) && TellsOne(o, b.0, b.1) && TellsOne(o, c.0, c.1) && TellsOne(o, d.0, d.1)
    ensures TellsEvery(o, [a, b, c, d])
  {
  }

  lemma TwoTold(o: Object, a: (string, string), b: (string, string))
    requires TellsOne(o, a.0, a.1) && TellsOne(o, b.0, b.1)
    ensures TellsEvery(o, [a, b])
  {
  }

  lemma BothTold(o: Object, x: Members, y: Members)
    requires TellsEvery(o, x) && TellsEvery(o, y)
    ensures TellsEvery(o, x + y)
  {
  }

  lemma ThreeTold(o: Object, a: (string, string), b: (string, string), c: (string, string))
    requires TellsOne(o, a.0, a.1) && TellsOne(o, b.0, b.1) && TellsOne(o, c.0, c.1)
    ensures TellsEvery(o, [a, b, c])
  {
  }

  lemma FirstTold(hash: Bytes -> string, r: Machine.Request, manifest: Bytes, completed: nat, o: Object)
    requires Raw(hash(manifest)) && Raw(r.key.market) && Raw(r.planSha)
    requires Says(o, "completed_at_epoch", Int(completed)) && Says(o, "manifest_sha256", Str(T(hash(manifest))))
    requires Says(o, "market", Str(T(r.key.market))) && Says(o, "plan_sha256", Str(T(r.planSha)))
    ensures TellsEvery(o, FirstMembers(hash, r, manifest, completed))
  {
    ShaNamesAreRaw();
    ShortNamesAreRaw();
    CommitNamesAreRaw();
    NumberTold(o, "completed_at_epoch", completed);
    StringTold(o, "manifest_sha256", hash(manifest));
    StringTold(o, "market", r.key.market);
    StringTold(o, "plan_sha256", r.planSha);
    FourTold(o, ("completed_at_epoch", Decimal(completed)), ("manifest_sha256", Quoted(hash(manifest))),
             ("market", Quoted(r.key.market)), ("plan_sha256", Quoted(r.planSha)));
  }

  lemma MiddleTold(r: Machine.Request, o: Object)
    requires Raw(r.requestSha) && Raw(r.key.role) && Raw(r.runtimeSha)
    requires Says(o, "reason", Str(T("runtime_authority_invalid"))) && Says(o, "request_sha256", Str(T(r.requestSha)))
    requires Says(o, "role", Str(T(r.key.role))) && Says(o, "runtime_commit_sha", Str(T(r.runtimeSha)))
    ensures TellsEvery(o, MiddleMembers(r))
  {
    ShaNamesAreRaw();
    ShortNamesAreRaw();
    CommitNamesAreRaw();
    ReasonIsRaw();
    StringTold(o, "reason", "runtime_authority_invalid");
    StringTold(o, "request_sha256", r.requestSha);
    StringTold(o, "role", r.key.role);
    StringTold(o, "runtime_commit_sha", r.runtimeSha);
    FourTold(o, ("reason", Quoted("runtime_authority_invalid")), ("request_sha256", Quoted(r.requestSha)),
             ("role", Quoted(r.key.role)), ("runtime_commit_sha", Quoted(r.runtimeSha)));
  }

  lemma ReasonIsRaw()
    ensures Raw("runtime_authority_invalid")
  {
  }

  lemma LastTold(r: Machine.Request, o: Object)
    requires Raw(r.schedulerSha) && Raw(r.key.session)
    requires Says(o, "scheduler_main_sha", Str(T(r.schedulerSha))) && Says(o, "schema_version", Int(1))
    requires Says(o, "target_session", Str(T(r.key.session)))
    ensures TellsEvery(o, LastMembers(r))
  {
    ShortNamesAreRaw();
    CommitNamesAreRaw();
    NumberTold(o, "schema_version", 1);
    assert Decimal(1) == "1";
    StringTold(o, "scheduler_main_sha", r.schedulerSha);
    StringTold(o, "target_session", r.key.session);
    ThreeTold(o, ("scheduler_main_sha", Quoted(r.schedulerSha)), ("schema_version", "1"), ("target_session", Quoted(r.key.session)));
  }

  lemma Spelled(bytes: Bytes, o: Object, members: Members, names: seq<string>)
    requires CanonicalObject(bytes) == Some(o) && |o| == |members| == |names| && Ascending(names)
    requires TellsEvery(o, members) && forall i :: 0 <= i < |members| ==> members[i].0 == names[i]
    ensures bytes == Codes(Braced(members))
  {
    AllNamesTold(o, members, names);
  }

  lemma ReceiptTold(hash: Bytes -> string, r: Machine.Request, manifest: Bytes, completed: nat, o: Object)
    requires Spelling.ValidRequest(r) && Spelling.HexOf(hash(manifest), 64)
    requires CanonicalObject(ReceiptBytes(hash, r, manifest, completed)) == Some(o)
    ensures TellsEvery(o, ReceiptMembers(hash, r, manifest, completed))
  {
    ReceiptSays(hash, r, manifest, completed);
    RequestIsRaw(r);
    HexIsRaw(hash(manifest), 64);
    FirstTold(hash, r, manifest, completed, o);
    MiddleTold(r, o);
    LastTold(r, o);
    BothTold(o, FirstMembers(hash, r, manifest, completed), MiddleMembers(r));
    BothTold(o, FirstMembers(hash, r, manifest, completed) + MiddleMembers(r), LastMembers(r));
  }

  lemma ReceiptNamed(hash: Bytes -> string, r: Machine.Request, manifest: Bytes, completed: nat)
    ensures var m := ReceiptMembers(hash, r, manifest, completed);
      |m| == |RECEIPT_NAMES| == 11 && forall i :: 0 <= i < 11 ==> m[i].0 == RECEIPT_NAMES[i]
  {
  }

  /** The receipt of an admitted request, letter by letter. */
  lemma ReceiptIsSpelled(hash: Bytes -> string, r: Machine.Request, manifest: Bytes, completed: nat)
    requires Spelling.ValidRequest(r) && Spelling.HexOf(hash(manifest), 64)
    ensures ReceiptBytes(hash, r, manifest, completed) == Codes(Braced(ReceiptMembers(hash, r, manifest, completed)))
  {
    var bytes := ReceiptBytes(hash, r, manifest, completed);
    ReceiptSays(hash, r, manifest, completed);
    var o := CanonicalObject(bytes).value;
    ReceiptTold(hash, r, manifest, completed, o);
    NamesAscend();
    ReceiptNamed(hash, r, manifest, completed);
    Spelled(bytes, o, ReceiptMembers(hash, r, manifest, completed), RECEIPT_NAMES);
  }

  lemma IncidentTold(hash: Bytes -> string, k: Key, receipt: Bytes, o: Object)
    requires Raw(hash(receipt)) && Raw(k.market) && Raw(k.role) && Raw(k.session)
    requires Says(o, "incident_sha256", Str(T(hash(receipt)))) && Says(o, "market", Str(T(k.market)))
    requires Says(o, "role", Str(T(k.role)))
    ensures TellsEvery(o, [("incident_sha256", Quoted(hash(receipt))), ("market", Quoted(k.market)), ("role", Quoted(k.role))])
  {
    ShaNamesAreRaw();
    ShortNamesAreRaw();
    StringTold(o, "incident_sha256", hash(receipt));
    StringTold(o, "market", k.market);
    StringTold(o, "role", k.role);
    ThreeTold(o, ("incident_sha256", Quoted(hash(receipt))), ("market", Quoted(k.market)), ("role", Quoted(k.role)));
  }

  lemma SessionTold(k: Key, o: Object)
    requires Raw(k.session) && Says(o, "target_session", Str(T(k.session))) && Says(o, "schema_version", Int(1))
    ensures TellsEvery(o, [("schema_version", "1"), ("target_session", Quoted(k.session))])
  {
    ShortNamesAreRaw();
    NumberTold(o, "schema_version", 1);
    assert Decimal(1) == "1";
    StringTold(o, "target_session", k.session);
    TwoTold(o, ("schema_version", "1"), ("target_session", Quoted(k.session)));
  }

  lemma PointerNamed(hash: Bytes -> string, k: Key, receipt: Bytes)
    ensures var m := PointerMembers(hash, k, receipt);
      |m| == |POINTER_NAMES| == 5 && forall i :: 0 <= i < 5 ==> m[i].0 == POINTER_NAMES[i]
  {
  }

  /** And the pointer of any receipt. */
  lemma PointerIsSpelled(hash: Bytes -> string, k: Key, receipt: Bytes)
    requires Spelling.ValidKey(k) && Spelling.HexOf(hash(receipt), 64)
    ensures PointerBytes(hash, k, receipt) == Codes(Braced(PointerMembers(hash, k, receipt)))
  {
    var bytes := PointerBytes(hash, k, receipt);
    PointerSays(hash, k, receipt);
    var o := CanonicalObject(bytes).value;
    KeyIsRaw(k);
    HexIsRaw(hash(receipt), 64);
    IncidentTold(hash, k, receipt, o);
    SessionTold(k, o);
    BothTold(o, [("incident_sha256", Quoted(hash(receipt))), ("market", Quoted(k.market)), ("role", Quoted(k.role))],
             [("schema_version", "1"), ("target_session", Quoted(k.session))]);
    NamesAscend();
    PointerNamed(hash, k, receipt);
    Spelled(bytes, o, PointerMembers(hash, k, receipt), POINTER_NAMES);
  }
}
