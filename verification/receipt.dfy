/** The two payloads and the comparison of a stored receipt with a new candidate. SHA-256 is a parameter. */
module Receipts {
  import opened Tree
  import opened Wrappers
  import opened CanonicalJson
  import Machine

  function T(s: string): (t: Text)
    ensures |t| == |s| && forall i :: 0 <= i < |s| ==> t[i] == s[i] as int
  {
    seq(|s|, i requires 0 <= i < |s| => s[i] as int)
  }

  lemma TextsDiffer(a: string, b: string)
    ensures T(a) == T(b) <==> a == b
    ensures Plain(T(a))
  {
    if T(a) == T(b) {
      forall i | 0 <= i < |a| ensures a[i] == b[i] { assert T(a)[i] == T(b)[i]; }
    }
  }

  // ---- objects built from named values ----

  function Build(names: seq<string>, values: seq<Value>): Object
    requires |names| == |values|
  {
    if names == [] then map[] else Build(names[1..], values[1..])[T(names[0]) := values[0]]
  }

  predicate Distinct(names: seq<string>) {
    forall i, j :: 0 <= i < j < |names| ==> names[i] != names[j]
  }

  lemma {:induction false} BuildLookup(names: seq<string>, values: seq<Value>)
    requires |names| == |values| && Distinct(names)
    ensures forall i :: 0 <= i < |names| ==> T(names[i]) in Build(names, values) && Build(names, values)[T(names[i])] == values[i]
    ensures forall k :: k in Build(names, values) ==> Named(names, k)
  {
    if names != [] {
      BuildLookup(names[1..], values[1..]);
      forall i | 0 <= i < |names|
        ensures T(names[i]) in Build(names, values) && Build(names, values)[T(names[i])] == values[i]
      {
        if i > 0 {
          assert names[i] == names[1..][i - 1];
          TextsDiffer(names[i], names[0]);
        }
      }
      forall k | k in Build(names, values) ensures Named(names, k) {
        if k == T(names[0]) {
          assert Named(names, k);
        } else {
          assert Named(names[1..], k);
          var i :| 0 <= i < |names[1..]| && k == T(names[1..][i]);
          assert names[i + 1] == names[1..][i];
        }
      }
    }
  }

  ghost predicate Named(names: seq<string>, k: Text) {
    exists i :: 0 <= i < |names| && k == T(names[i])
  }

  /** Setting one named value is building with that value. */
  lemma BuildUpdate(names: seq<string>, values: seq<Value>, i: nat, v: Value)
    requires |names| == |values| && Distinct(names) && i < |names|
    ensures Build(names, values[i := v]) == Build(names, values)[T(names[i]) := v]
  {
    var a, b := Build(names, values[i := v]), Build(names, values)[T(names[i]) := v];
    BuildLookup(names, values);
    BuildLookup(names, values[i := v]);
    forall k ensures k in a <==> k in b {
      if k in a { assert Named(names, k); }
      if k in b && k != T(names[i]) { assert Named(names, k); }
    }
    forall k | k in a ensures a[k] == b[k] {
      var j :| 0 <= j < |names| && k == T(names[j]);
      TextsDiffer(names[i], names[j]);
    }
  }

  lemma BuildPlain(names: seq<string>, values: seq<Value>)
    requires |names| == |values| && Distinct(names) && forall i :: 0 <= i < |values| ==> PlainValue(values[i])
    ensures PlainObject(Build(names, values))
  {
    BuildLookup(names, values);
    forall k | k in Build(names, values) ensures Plain(k) && PlainValue(Build(names, values)[k]) {
      var i :| 0 <= i < |names| && k == T(names[i]);
      TextsDiffer(names[i], names[i]);
    }
  }

  // ---- the payloads ----

  /** The bound fields, then the time and the schema version. */
  const RECEIPT_FIELDS: seq<string> := [
    "manifest_sha256", "market", "plan_sha256", "reason", "request_sha256", "role",
    "runtime_commit_sha", "scheduler_main_sha", "target_session", "completed_at_epoch", "schema_version"]

  const POINTER_FIELDS: seq<string> := ["incident_sha256", "market", "role", "target_session", "schema_version"]

  function S(s: string): Value {
    Str(T(s))
  }

  function ReceiptValues(hash: Bytes -> string, r: Machine.Request, manifest: Bytes, completed: int, version: Value): (v: seq<Value>)
    ensures |v| == |RECEIPT_FIELDS|
  {
    [S(hash(manifest)), S(r.key.market), S(r.planSha), S("runtime_authority_invalid"), S(r.requestSha), S(r.key.role),
     S(r.runtimeSha), S(r.schedulerSha), S(r.key.session), Int(completed), version]
  }

  function ReceiptObject(hash: Bytes -> string, r: Machine.Request, manifest: Bytes, completed: int, version: Value): Object {
    Build(RECEIPT_FIELDS, ReceiptValues(hash, r, manifest, completed, version))
  }

  function ReceiptBytes(hash: Bytes -> string, r: Machine.Request, manifest: Bytes, completed: int): Bytes {
    Print(ReceiptObject(hash, r, manifest, completed, Int(1)))
  }

  function PointerValues(hash: Bytes -> string, k: Key, receipt: Bytes): seq<Value> {
    [S(hash(receipt)), S(k.market), S(k.role), S(k.session), Int(1)]
  }

  function PointerObject(hash: Bytes -> string, k: Key, receipt: Bytes): Object {
    Build(POINTER_FIELDS, PointerValues(hash, k, receipt))
  }

  function PointerBytes(hash: Bytes -> string, k: Key, receipt: Bytes): Bytes {
    Print(PointerObject(hash, k, receipt))
  }

  lemma FieldsDiffer()
    ensures Distinct(RECEIPT_FIELDS)
  {
    var f := RECEIPT_FIELDS;
    assert |f[0]| == 15 && |f[1]| == 6 && |f[2]| == 11 && |f[3]| == 6 && |f[4]| == 14 && |f[5]| == 4;
    assert |f[6]| == 18 && |f[7]| == 18 && |f[8]| == 14 && |f[9]| == 18 && |f[10]| == 14;
    assert f[1][0] == 'm' && f[3][0] == 'r' && f[4][0] == 'r' && f[8][0] == 't' && f[10][0] == 's';
    assert f[6][0] == 'r' && f[7][0] == 's' && f[9][0] == 'c';
  }

  lemma PointerFieldsDiffer()
    ensures Distinct(POINTER_FIELDS)
  {
    var f := POINTER_FIELDS;
    assert |f[0]| == 15 && |f[1]| == 6 && |f[2]| == 4 && |f[3]| == 14 && |f[4]| == 14;
    assert f[3][0] == 't' && f[4][0] == 's';
  }

  // ---- Python's equality, in which True is 1 ----

  function Number(v: Value): Option<int> {
    match v
    case Int(n) => Some(n)
    case Bool(b) => Some(if b then 1 else 0)
    case _ => None
  }

  predicate PyEqual(a: Value, b: Value) {
    a == b || (Number(a).Some? && Number(a) == Number(b))
  }

  predicate ObjectsEqual(a: Object, b: Object) {
    a.Keys == b.Keys && forall k :: k in a ==> PyEqual(a[k], b[k])
  }

  /** The comparison in `_publish_receipt`: canonical, completed (`epoch`) at some non-negative integer time, and
      equal to the candidate in everything else. */
  predicate AcceptsObject(candidate: Object, epoch: Text, existing: Bytes) {
    match CanonicalObject(existing)
    case None => false
    case Some(stored) =>
      && epoch in stored && stored[epoch].Int? && stored[epoch].n >= 0
      && ObjectsEqual(stored - {epoch}, candidate - {epoch})
  }

  predicate Accepts(hash: Bytes -> string, r: Machine.Request, manifest: Bytes, existing: Bytes) {
    AcceptsObject(ReceiptObject(hash, r, manifest, 0, Int(1)), T(RECEIPT_FIELDS[9]), existing)
  }

  ghost predicate IsCandidate(o: Object, epoch: Text, version: Text) {
    && epoch != version && epoch in o && version in o && o[version] == Int(1)
    && (forall k :: k in o && k != epoch && k != version ==> o[k].Str?)
    && PlainObject(o)
  }

  lemma StoredIsStamped(o: Object, epoch: Text, version: Text, stored: Object)
    requires IsCandidate(o, epoch, version) && epoch in stored
    requires ObjectsEqual(stored - {epoch}, o - {epoch})
    ensures version in stored && stored[version] in {Int(1), Bool(true)}
    ensures stored == o[epoch := stored[epoch]][version := stored[version]]
  {
    var a, b := stored - {epoch}, o - {epoch};
    assert version in b;
    assert version in a && PyEqual(a[version], b[version]);
    forall k ensures k in stored <==> k in o { assert k in a <==> k in b; }
    forall k | k in stored && k != epoch && k != version ensures stored[k] == o[k] {
      assert k in a && PyEqual(a[k], b[k]);
    }
  }

  lemma StampedIsEqual(o: Object, epoch: Text, version: Text, completed: int, v: Value)
    requires IsCandidate(o, epoch, version) && v in {Int(1), Bool(true)}
    ensures var stored := o[epoch := Int(completed)][version := v];
      ObjectsEqual(stored - {epoch}, o - {epoch}) && PlainObject(stored)
  {
    var stored := o[epoch := Int(completed)][version := v];
    var a, b := stored - {epoch}, o - {epoch};
    forall k ensures k in a <==> k in b { }
    forall k | k in a ensures PyEqual(a[k], b[k]) {
      if k != version { assert stored[k] == o[k]; }
    }
  }

  lemma StampedIsAccepted(o: Object, epoch: Text, version: Text, completed: nat, v: Value)
    requires IsCandidate(o, epoch, version) && v in {Int(1), Bool(true)}
    ensures AcceptsObject(o, epoch, Print(o[epoch := Int(completed)][version := v]))
  {
    var stored := o[epoch := Int(completed)][version := v];
    StampedIsEqual(o, epoch, version, completed, v);
    PrintThenCheck(stored);
    assert stored[epoch] == Int(completed);
  }

  lemma BuiltIsCandidate(names: seq<string>, values: seq<Value>)
    requires |names| == |values| == 11 && Distinct(names) && values[9].Int? && values[10] == Int(1)
    requires forall i :: 0 <= i < 9 ==> values[i].Str? && Plain(values[i].text)
    ensures IsCandidate(Build(names, values), T(names[9]), T(names[10]))
  {
    var o := Build(names, values);
    BuildLookup(names, values);
    TextsDiffer(names[9], names[10]);
    BuildPlain(names, values);
    forall k | k in o && k != T(names[9]) && k != T(names[10]) ensures o[k].Str? {
      assert Named(names, k);
      var i :| 0 <= i < |names| && k == T(names[i]);
      assert o[k] == values[i];
    }
  }

  lemma ReceiptIsCandidate(hash: Bytes -> string, r: Machine.Request, manifest: Bytes, completed: int)
    ensures IsCandidate(ReceiptObject(hash, r, manifest, completed, Int(1)), T(RECEIPT_FIELDS[9]), T(RECEIPT_FIELDS[10]))
  {
    FieldsDiffer();
    StringsArePlain(hash, r, manifest);
    BuiltIsCandidate(RECEIPT_FIELDS, ReceiptValues(hash, r, manifest, completed, Int(1)));
  }

  lemma StringsArePlain(hash: Bytes -> string, r: Machine.Request, manifest: Bytes)
    ensures PlainValue(S(hash(manifest))) && PlainValue(S(r.key.market)) && PlainValue(S(r.planSha))
    ensures PlainValue(S("runtime_authority_invalid")) && PlainValue(S(r.requestSha)) && PlainValue(S(r.key.role))
    ensures PlainValue(S(r.runtimeSha)) && PlainValue(S(r.schedulerSha)) && PlainValue(S(r.key.session))
  {
  }

  /** The candidate at another time, or with another way of writing its version. */
  lemma Restamp(hash: Bytes -> string, r: Machine.Request, manifest: Bytes, completed: int, version: Value)
    ensures ReceiptObject(hash, r, manifest, completed, version)
      == ReceiptObject(hash, r, manifest, 0, Int(1))[T(RECEIPT_FIELDS[9]) := Int(completed)][T(RECEIPT_FIELDS[10]) := version]
  {
    var v0 := ReceiptValues(hash, r, manifest, 0, Int(1));
    FieldsDiffer();
    BuildUpdate(RECEIPT_FIELDS, v0, 9, Int(completed));
    BuildUpdate(RECEIPT_FIELDS, v0[9 := Int(completed)], 10, version);
    assert v0[9 := Int(completed)][10 := version] == ReceiptValues(hash, r, manifest, completed, version);
  }

  /** A stored receipt is accepted exactly when it is the canonical encoding of the candidate at some
      non-negative time, with the schema version written as 1 or as true. */
  lemma AcceptanceIsExact(hash: Bytes -> string, r: Machine.Request, manifest: Bytes, existing: Bytes)
    ensures Accepts(hash, r, manifest, existing) <==>
      exists completed: nat, version: Value ::
        version in {Int(1), Bool(true)} && existing == Print(ReceiptObject(hash, r, manifest, completed, version))
  {
    var o, epoch, version := ReceiptObject(hash, r, manifest, 0, Int(1)), T(RECEIPT_FIELDS[9]), T(RECEIPT_FIELDS[10]);
    ReceiptIsCandidate(hash, r, manifest, 0);
    if Accepts(hash, r, manifest, existing) {
      var stored := CanonicalObject(existing).value;
      StoredIsStamped(o, epoch, version, stored);
      var t: nat := stored[epoch].n;
      Restamp(hash, r, manifest, t, stored[version]);
      assert existing == Print(ReceiptObject(hash, r, manifest, t, stored[version]));
    }
    if t: nat, v: Value :| v in {Int(1), Bool(true)} && existing == Print(ReceiptObject(hash, r, manifest, t, v)) {
      Restamp(hash, r, manifest, t, v);
      StampedIsAccepted(o, epoch, version, t, v);
    }
  }

  lemma SameValues(hash: Bytes -> string, r: Machine.Request, m: Bytes, q: Machine.Request, n: Bytes, t: int, t': int, version: Value)
    requires ReceiptObject(hash, r, m, t, Int(1)) == ReceiptObject(hash, q, n, t', version)
    ensures t == t' && r == q && hash(m) == hash(n)
  {
    var a, b := ReceiptValues(hash, r, m, t, Int(1)), ReceiptValues(hash, q, n, t', version);
    FieldsDiffer();
    BuildLookup(RECEIPT_FIELDS, a);
    BuildLookup(RECEIPT_FIELDS, b);
    forall i | 0 <= i < |a| ensures a[i] == b[i] {
      assert T(RECEIPT_FIELDS[i]) in ReceiptObject(hash, r, m, t, Int(1));
    }
    FromValues(hash, r, m, q, n, t, t', version);
  }

  lemma FromValues(hash: Bytes -> string, r: Machine.Request, m: Bytes, q: Machine.Request, n: Bytes, t: int, t': int, version: Value)
    requires var a, b := ReceiptValues(hash, r, m, t, Int(1)), ReceiptValues(hash, q, n, t', version);
      forall i :: 0 <= i < |a| ==> a[i] == b[i]
    ensures t == t' && r == q && hash(m) == hash(n)
  {
    var a, b := ReceiptValues(hash, r, m, t, Int(1)), ReceiptValues(hash, q, n, t', version);
    assert a[0] == b[0] && a[1] == b[1] && a[2] == b[2] && a[4] == b[4] && a[5] == b[5];
    assert a[6] == b[6] && a[7] == b[7] && a[8] == b[8] && a[9] == b[9];
    TextsDiffer(hash(m), hash(n));
    TextsDiffer(r.key.market, q.key.market);
    TextsDiffer(r.planSha, q.planSha);
    TextsDiffer(r.requestSha, q.requestSha);
    TextsDiffer(r.key.role, q.key.role);
    TextsDiffer(r.runtimeSha, q.runtimeSha);
    TextsDiffer(r.schedulerSha, q.schedulerSha);
    TextsDiffer(r.key.session, q.key.session);
  }

  lemma AcceptedMeansSame(hash: Bytes -> string, r: Machine.Request, m: Bytes, q: Machine.Request, n: Bytes, t: int)
    requires Accepts(hash, q, n, ReceiptBytes(hash, r, m, t))
    ensures t >= 0 && r == q && hash(m) == hash(n)
  {
    var bytes := ReceiptBytes(hash, r, m, t);
    AcceptanceIsExact(hash, q, n, bytes);
    var t': nat, v: Value :| v in {Int(1), Bool(true)} && bytes == Print(ReceiptObject(hash, q, n, t', v));
    var o := ReceiptObject(hash, q, n, 0, Int(1));
    ReceiptIsCandidate(hash, r, m, t);
    ReceiptIsCandidate(hash, q, n, 0);
    Restamp(hash, q, n, t', v);
    StampedIsEqual(o, T(RECEIPT_FIELDS[9]), T(RECEIPT_FIELDS[10]), t', v);
    PrintIsInjective(ReceiptObject(hash, r, m, t, Int(1)), ReceiptObject(hash, q, n, t', v));
    SameValues(hash, r, m, q, n, t, t', v);
  }

  lemma SameIsAccepted(hash: Bytes -> string, r: Machine.Request, m: Bytes, n: Bytes, t: nat)
    requires hash(m) == hash(n)
    ensures Accepts(hash, r, n, ReceiptBytes(hash, r, m, t))
  {
    assert ReceiptValues(hash, r, m, t, Int(1)) == ReceiptValues(hash, r, n, t, Int(1));
    ReceiptIsCandidate(hash, r, n, 0);
    Restamp(hash, r, n, t, Int(1));
    StampedIsAccepted(ReceiptObject(hash, r, n, 0, Int(1)), T(RECEIPT_FIELDS[9]), T(RECEIPT_FIELDS[10]), t, Int(1));
  }

  /** A receipt written for one request is accepted for another exactly when its time was not negative and all
      bound fields agree: the incident, the four hashes and the manifest's hash. */
  lemma AcceptedForItsRequestOnly(hash: Bytes -> string, r: Machine.Request, m: Bytes, q: Machine.Request, n: Bytes, t: int)
    ensures Accepts(hash, q, n, ReceiptBytes(hash, r, m, t)) <==> t >= 0 && r == q && hash(m) == hash(n)
  {
    if Accepts(hash, q, n, ReceiptBytes(hash, r, m, t)) {
      AcceptedMeansSame(hash, r, m, q, n, t);
    } else if t >= 0 && r == q && hash(m) == hash(n) {
      SameIsAccepted(hash, r, m, n, t);
    }
  }

  /** The comparison is looser than the bytes: a receipt whose version is written `true` is not the one any
      publisher writes, and is accepted all the same. */
  lemma BooleanVersionIsAccepted(hash: Bytes -> string, r: Machine.Request, m: Bytes, t: nat)
    ensures var other := Print(ReceiptObject(hash, r, m, t, Bool(true)));
      Accepts(hash, r, m, other) && other != ReceiptBytes(hash, r, m, t)
  {
    var o := ReceiptObject(hash, r, m, 0, Int(1));
    var epoch, version := T(RECEIPT_FIELDS[9]), T(RECEIPT_FIELDS[10]);
    ReceiptIsCandidate(hash, r, m, 0);
    ReceiptIsCandidate(hash, r, m, t);
    Restamp(hash, r, m, t, Bool(true));
    StampedIsAccepted(o, epoch, version, t, Bool(true));
    StampedIsEqual(o, epoch, version, t, Bool(true));
    PrintIsInjective(ReceiptObject(hash, r, m, t, Bool(true)), ReceiptObject(hash, r, m, t, Int(1)));
  }
}
