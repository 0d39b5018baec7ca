/** The machine with the real payloads: what the protocol proofs ask of them holds. */
module Concrete {
  import opened Tree
  import opened Wrappers
  import opened CanonicalJson
  import opened Receipts
  import opened Machine
  import opened Vouching
  import opened Recovery
  import opened Aftermath
  import opened PowerLoss
  import opened Payloads
  import opened Order
  import Spelling

  /** The publisher's configuration for a hash function and a creation mode. */
  function RealConfig(hash: Bytes -> string, createMode: nat): Config {
    Config(
      (r: Request) => Spelling.ValidRequest(r),
      (r: Request, m: Bytes, now: Instant) => ReceiptBytes(hash, r, m, now),
      (k: Key, x: Bytes) => PointerBytes(hash, k, x),
      (r: Request, m: Bytes, existing: Bytes) => Accepts(hash, r, m, existing),
      createMode)
  }

  ghost predicate IsDigest(hash: Bytes -> string) {
    forall x :: Spelling.HexOf(hash(x), 64)
  }

  // ---- the payloads are far below the size bound ----

  lemma {:induction false} EscapeSize(t: Text)
    ensures |EscapeAll(t)| <= 12 * |t|
  {
    if t != [] { EscapeSize(t[1..]); }
  }

  lemma {:induction false} NatSize(n: nat, limit: nat, digits: nat)
    requires n < limit && digits > 0 && limit == Power10(digits)
    ensures |PrintNat(n)| <= digits
  {
    if n >= 10 { NatSize(n / 10, Power10(digits - 1), digits - 1); }
  }

  function Power10(n: nat): nat {
    if n == 0 then 1 else 10 * Power10(n - 1)
  }

  predicate Short(v: Value) {
    match v
    case Str(t) => |t| <= 64
    case Int(n) => 0 <= n < 0x8000_0000_0000_0000
    case _ => true
  }

  lemma ValueSize(v: Value)
    requires Short(v)
    ensures |PrintValue(v)| <= 800
  {
    match v
    case Str(t) => EscapeSize(t);
    case Int(n) =>
      assert Power10(2) == 100 && Power10(4) == 10000 && Power10(6) == 1000000 && Power10(8) == 100000000;
      assert Power10(10) == 10000000000 && Power10(12) == 1000000000000 && Power10(14) == 100000000000000;
      assert Power10(16) == 10000000000000000 && Power10(18) == 1000000000000000000;
      NatSize(n, Power10(19), 19);
    case _ =>
  }

  lemma {:induction false} MembersSize(keys: seq<Text>, o: Object)
    requires forall k :: k in keys ==> k in o && |k| <= 64 && Short(o[k])
    ensures |PrintMembers(keys, o)| <= 2000 * |keys|
  {
    if keys != [] {
      EscapeSize(keys[0]);
      ValueSize(o[keys[0]]);
      MembersSize(keys[1..], o);
    }
  }

  lemma {:induction false} BuildSize(names: seq<string>, values: seq<Value>)
    requires |names| == |values| && (forall i :: 0 <= i < |names| ==> |names[i]| <= 64 && Short(values[i]))
    ensures |Build(names, values)| <= |names|
    ensures forall k :: k in Build(names, values) ==> |k| <= 64 && Short(Build(names, values)[k])
  {
    if names != [] {
      BuildSize(names[1..], values[1..]);
      var rest := Build(names[1..], values[1..]);
      assert Build(names, values).Keys == rest.Keys + {T(names[0])};
    }
  }

  lemma BuiltSize(names: seq<string>, values: seq<Value>)
    requires |names| == |values| <= 20 && (forall i :: 0 <= i < |names| ==> |names[i]| <= 64 && Short(values[i]))
    ensures |Print(Build(names, values))| <= MAX_FILE_BYTES
  {
    var o := Build(names, values);
    BuildSize(names, values);
    var keys := SortedKeys(o.Keys);
    assert |keys| == |o.Keys| == |o|;
    MembersSize(keys, o);
  }

  lemma RolesAreShort(k: Key)
    requires Spelling.ValidKey(k)
    ensures |k.role| <= 64 && |k.market| <= 64 && |k.session| == 10
  {
    assert k.market == "us" || k.market == "kr";
  }

  lemma NamesAreShort()
    ensures forall i :: 0 <= i < |RECEIPT_FIELDS| ==> |RECEIPT_FIELDS[i]| <= 64
    ensures forall i :: 0 <= i < |POINTER_FIELDS| ==> |POINTER_FIELDS[i]| <= 64
  {
  }

  lemma ReceiptSize(hash: Bytes -> string, r: Request, m: Bytes, now: Instant)
    requires IsDigest(hash) && Spelling.ValidRequest(r)
    ensures |ReceiptBytes(hash, r, m, now)| <= MAX_FILE_BYTES
  {
    NamesAreShort();
    RolesAreShort(r.key);
    assert Spelling.HexOf(hash(m), 64);
    BuiltSize(RECEIPT_FIELDS, ReceiptValues(hash, r, m, now, Int(1)));
  }

  lemma PointerSize(hash: Bytes -> string, r: Request, x: Bytes)
    requires IsDigest(hash) && Spelling.ValidRequest(r)
    ensures |PointerBytes(hash, r.key, x)| <= MAX_FILE_BYTES
  {
    NamesAreShort();
    RolesAreShort(r.key);
    assert Spelling.HexOf(hash(x), 64);
    BuiltSize(POINTER_FIELDS, [S(hash(x)), S(r.key.market), S(r.key.role), S(r.key.session), Int(1)]);
  }

  /** Every theorem about a lawful configuration is a theorem about the publisher. */
  lemma RealConfigIsLawful(hash: Bytes -> string, createMode: nat)
    requires IsDigest(hash)
    ensures Lawful(RealConfig(hash, createMode))
  {
    forall r: Request, m: Bytes, now: Instant | Spelling.ValidRequest(r)
      ensures Accepts(hash, r, m, ReceiptBytes(hash, r, m, now)) && |ReceiptBytes(hash, r, m, now)| <= MAX_FILE_BYTES
    {
      SameIsAccepted(hash, r, m, m, now);
      ReceiptSize(hash, r, m, now);
    }
    forall r: Request, x: Bytes | Spelling.ValidRequest(r) ensures |PointerBytes(hash, r.key, x)| <= MAX_FILE_BYTES {
      PointerSize(hash, r, x);
    }
  }

  /** When a receipt of some earlier request is there, the next request is acceptable exactly if it agrees with
      the earlier one in every bound field; so by `Recovery.RerunOutcome` any difference raises and leaves the
      whole tree as it was, while the time of day never matters. */
  lemma AcceptableMeansSameRequest(hash: Bytes -> string, mode: nat, d: Disk, req: Request, first: Request, m: Bytes, t: Instant)
    requires var r := Final(Target(Receipt, req.key)); r in d.names && d.names[r] in d.inodes && d.Data(r) == ReceiptBytes(hash, first, m, t)
    ensures Acceptable(RealConfig(hash, mode), d, req) <==>
      && d.Readable(ManifestPath(req.key), {1})
      && first == req && hash(m) == hash(d.Data(ManifestPath(req.key)))
  {
    if d.Readable(ManifestPath(req.key), {1}) {
      AcceptedForItsRequestOnly(hash, first, m, req, d.Data(ManifestPath(req.key)), t);
    }
  }

  /** So over a receipt of another request, or of another manifest, a turn fails and nothing changes. */
  lemma DifferingRequestChangesNothing(hash: Bytes -> string, states: seq<State>, events: seq<Event>, pid: nat, now: Instant,
                                       first: Request, m: Bytes, t: Instant)
    requires IsDigest(hash) && Ends(RealConfig(hash, FILE_MODE), states, events, pid, now)
    requires var d, req := states[0].disk, states[0].procs[pid].req;
      var r, p := Final(Target(Receipt, req.key)), ManifestPath(req.key);
      && r in d.names && d.names[r] in d.inodes && d.Data(r) == ReceiptBytes(hash, first, m, t)
      && (first != req || (p in d.names && d.names[p] in d.inodes && hash(m) != hash(d.Data(p))))
    ensures states[|events|].procs[pid].pc.fault != None && Same(states[0].disk, states[|events|].disk, Backs(events))
  {
    RealConfigIsLawful(hash, FILE_MODE);
    AcceptableMeansSameRequest(hash, FILE_MODE, states[0].disk, states[0].procs[pid].req, first, m, t);
    RerunOutcome(RealConfig(hash, FILE_MODE), states, events, pid, now);
  }

  /** A pointer fits a receipt exactly when it names that receipt's hash. */
  lemma PointersDifferByHash(hash: Bytes -> string, k: Key, x: Bytes, y: Bytes)
    ensures PointerBytes(hash, k, x) == PointerBytes(hash, k, y) <==> hash(x) == hash(y)
  {
    PointerLookup(hash, k, x);
    PointerLookup(hash, k, y);
    var a, b := PointerObject(hash, k, x), PointerObject(hash, k, y);
    PrintIsInjective(a, b);
    TextsDiffer(hash(x), hash(y));
  }

  /** After the receipt `x` was lost and only its pointer is left, a turn succeeds exactly if the receipt it builds has
      the same hash; otherwise it leaves a receipt and a pointer that contradict each other, for good. */
  lemma LostForGood(hash: Bytes -> string, states: seq<State>, events: seq<Event>, pid: nat, now: Instant, x: Bytes)
    requires IsDigest(hash) && Ends(RealConfig(hash, FILE_MODE), states, events, pid, now)
    requires var d, req := states[0].disk, states[0].procs[pid].req;
      var p, m := Final(Target(Pointer, req.key)), ManifestPath(req.key);
      && d.Readable(m, {1}) && Final(Target(Receipt, req.key)) !in d.names
      && p in d.durable && p in d.names && d.names[p] in d.inodes && d.Data(p) == PointerBytes(hash, req.key, x)
    ensures var d, req, fault := states[0].disk, states[0].procs[pid].req, states[|events|].procs[pid].pc.fault;
      && (fault == None <==> hash(ReceiptBytes(hash, req, d.Data(ManifestPath(req.key)), now)) == hash(x))
      && (fault != None ==>
            Contradicted(RealConfig(hash, FILE_MODE), states[|events|].disk, req.key) && BothDurable(states[|events|].disk, req.key))
  {
    var d, req := states[0].disk, states[0].procs[pid].req;
    RealConfigIsLawful(hash, FILE_MODE);
    TurnAfterTheLoss(RealConfig(hash, FILE_MODE), states, events, pid, now);
    PointersDifferByHash(hash, req.key, x, ReceiptBytes(hash, req, d.Data(ManifestPath(req.key)), now));
  }

  lemma PointerLookup(hash: Bytes -> string, k: Key, x: Bytes)
    ensures var o := PointerObject(hash, k, x);
      PlainObject(o) && T(POINTER_FIELDS[0]) in o && o[T(POINTER_FIELDS[0])] == S(hash(x))
  {
    var values := PointerValues(hash, k, x);
    PointerFieldsDiffer();
    TextsDiffer(hash(x), k.market);
    TextsDiffer(k.role, k.session);
    BuildPlain(POINTER_FIELDS, values);
    BuildLookup(POINTER_FIELDS, values);
  }

  // ---- what is published in the end ----

  /** The receipt is the text of the request, its manifest and the time, the pointer the text of its hash. */
  ghost predicate Publishes(hash: Bytes -> string, d: Disk, req: Request, manifest: Bytes, now: Instant) {
    var r, p := Final(Target(Receipt, req.key)), Final(Target(Pointer, req.key));
    && r in d.names && d.names[r] in d.inodes && p in d.names && d.names[p] in d.inodes
    && d.Data(r) == Codes(Braced(ReceiptMembers(hash, req, manifest, now)))
    && d.Data(p) == Codes(Braced(PointerMembers(hash, req.key, d.Data(r))))
  }

  /** A turn that succeeds where there was no receipt publishes these two texts. */
  lemma PublishedIsSpelled(hash: Bytes -> string, states: seq<State>, events: seq<Event>, pid: nat, now: Instant)
    requires IsDigest(hash) && Ends(RealConfig(hash, FILE_MODE), states, events, pid, now)
    requires states[|events|].procs[pid].pc.fault == None
    requires Final(Target(Receipt, states[0].procs[pid].req.key)) !in states[0].disk.names
    ensures var d0, d, req := states[0].disk, states[|events|].disk, states[0].procs[pid].req;
      var m := Other(Session(req.key.market, req.key.session), "preparation-manifest.json");
      m in d0.names && d0.names[m] in d0.inodes && Publishes(hash, d, req, d0.Data(m), now)
  {
    var c, d0, d, req := RealConfig(hash, FILE_MODE), states[0].disk, states[|events|].disk, states[0].procs[pid].req;
    RealConfigIsLawful(hash, FILE_MODE);
    RerunOutcome(c, states, events, pid, now);
    var manifest := d0.Data(ManifestPath(req.key));
    assert c.admits(req) && Spelling.HexOf(hash(manifest), 64);
    var receipt := d.Data(Final(Target(Receipt, req.key)));
    assert receipt == ReceiptBytes(hash, req, manifest, now);
    ReceiptIsSpelled(hash, req, manifest, now);
    assert Spelling.HexOf(hash(receipt), 64);
    PointerIsSpelled(hash, req.key, receipt);
  }

  /** For all arguments that are accepted, and any manifest within the bound, such a turn exists: run from the first
      state, where nothing but the manifest is there, it leaves the two texts. */
  lemma AcceptedIsPublished(hash: Bytes -> string, a: Spelling.Arguments, manifest: Bytes)
      returns (states: seq<State>, events: seq<Event>, pid: nat, now: Instant)
    requires IsDigest(hash) && Spelling.ValidateInputs(a).Some? && |manifest| <= 67108864
    ensures Ends(RealConfig(hash, FILE_MODE), states, events, pid, now) && Reachable(RealConfig(hash, FILE_MODE), states[0])
    ensures states[0].procs[pid].req == Spelling.RequestOf(a) && states[|events|].procs[pid].pc.fault == None
    ensures Publishes(hash, states[|events|].disk, Spelling.RequestOf(a), manifest, now)
  {
    var c, req := RealConfig(hash, FILE_MODE), Spelling.RequestOf(a);
    Spelling.ValidatedMeansPlaced(a, Spelling.ValidateInputs(a).value);
    RealConfigIsLawful(hash, FILE_MODE);
    var s := FirstStateIsIdle(c, req, manifest);
    states, events, pid, now := FreshTurn(c, s, req);
    RerunOutcome(c, states, events, pid, now);
    PublishedIsSpelled(hash, states, events, pid, now);
  }
}
