/** The text of paths and entry names: input validation, and why the staging tests of two incidents never
    meet. */
module Spelling {
  import opened Tree
  import opened Wrappers
  import opened Machine

  predicate StartsWith(s: string, prefix: string) {
    |prefix| <= |s| && s[..|prefix|] == prefix
  }

  predicate EndsWith(s: string, suffix: string) {
    |suffix| <= |s| && s[|s| - |suffix|..] == suffix
  }

  predicate DotFree(s: string) {
    '.' !in s
  }

  predicate IsDigit(ch: char) {
    '0' <= ch <= '9'
  }

  predicate IsHex(ch: char) {
    IsDigit(ch) || 'a' <= ch <= 'f'
  }

  /** `[0-9a-f]{n}`, matched in full. */
  predicate HexOf(s: string, n: nat) {
    |s| == n && forall i :: 0 <= i < |s| ==> IsHex(s[i])
  }

  /** The shape of `date.isoformat()`. */
  predicate IsIsoDate(s: string) {
    && |s| == 10 && s[4] == '-' && s[7] == '-'
    && (forall i :: 0 <= i < 10 && i != 4 && i != 7 ==> IsDigit(s[i]))
  }

  type IsoDate = s: string | IsIsoDate(s) witness "2026-08-17"

  function Roles(market: string): set<string> {
    if market == "us" then
      {"us_orb_watcher", "us_hermes_projection", "us_day_preflight_observer", "us_day_close_finalizer",
       "us_day_arm_observer", "us_research_post_close_swing"}
    else if market == "kr" then {"kr_supervisor"}
    else {}
  }

  predicate ValidKey(k: Key) {
    k.role in Roles(k.market) && IsIsoDate(k.session)
  }

  predicate ValidRequest(r: Request) {
    && ValidKey(r.key)
    && HexOf(r.requestSha, 64) && HexOf(r.planSha, 64) && HexOf(r.schedulerSha, 40) && HexOf(r.runtimeSha, 40)
  }

  // ---- entry names ----

  function Stem(t: Target): string {
    match t.kind
    case Receipt => t.key.role
    case Pointer => t.key.market + "--" + t.key.session + "--" + t.key.role
  }

  function FinalName(t: Target): string {
    Stem(t) + ".json"
  }

  function EntryName(p: Path): string {
    match p
    case Final(t) => FinalName(t)
    case Stage(t, token) => "." + FinalName(t) + "." + token + ".staging"
    case Other(_, text) => text
  }

  /** The test both clean-up functions apply to a directory listing. */
  predicate LooksStaged(t: Target, entry: string) {
    StartsWith(entry, "." + FinalName(t) + ".") && EndsWith(entry, ".staging")
  }

  lemma WatcherRolesArePlain()
    ensures DotFree("us_orb_watcher") && DotFree("us_hermes_projection") && DotFree("kr_supervisor")
  {
  }

  lemma ObserverRolesArePlain()
    ensures DotFree("us_day_preflight_observer") && DotFree("us_day_arm_observer")
  {
  }

  lemma CloserRolesArePlain()
    ensures DotFree("us_day_close_finalizer") && DotFree("us_research_post_close_swing")
  {
  }

  lemma ValidKeyIsPlain(k: Key)
    requires ValidKey(k)
    ensures |k.market| == 2 && DotFree(k.market) && DotFree(k.session) && |k.session| == 10
    ensures DotFree(k.role) && |k.role| > 0
  {
    WatcherRolesArePlain();
    ObserverRolesArePlain();
    CloserRolesArePlain();
  }

  lemma StemIsPlain(t: Target)
    requires ValidKey(t.key)
    ensures DotFree(Stem(t)) && |Stem(t)| > 0
  {
    ValidKeyIsPlain(t.key);
  }

  /** What precedes the first dot is determined by the text. */
  lemma FirstDot(a: string, x: string, b: string, y: string)
    requires DotFree(a) && DotFree(b) && a + "." + x == b + "." + y
    ensures a == b && x == y
  {
    var s, s' := a + "." + x, b + "." + y;
    assert s[|a|] == '.' && s'[|b|] == '.';
    if |a| < |b| {
      assert false;
    } else if |b| < |a| {
      assert false;
    }
    assert a == s[..|a|] && b == s'[..|b|];
    assert x == s[|a| + 1..] && y == s'[|b| + 1..];
  }

  lemma QueueStem(k: Key)
    requires ValidKey(k)
    ensures var s := Stem(Target(Pointer, k));
      |s| >= 16 && s[..2] == k.market && s[4..14] == k.session && s[16..] == k.role
  {
    ValidKeyIsPlain(k);
    var s := Stem(Target(Pointer, k));
    assert s[4..14] == k.session;
  }

  lemma StemsDiffer(t: Target, u: Target)
    requires ValidKey(t.key) && ValidKey(u.key) && Home(t) == Home(u) && Stem(t) == Stem(u)
    ensures t == u
  {
    if t.kind.Pointer? {
      QueueStem(t.key);
      QueueStem(u.key);
    }
  }

  lemma Regroup(stem: string, x: string)
    ensures ("." + (stem + ".json") + "." + x)[1..] == stem + "." + ("json." + x)
  {
    var e := "." + (stem + ".json") + "." + x;
    var f := stem + "." + ("json." + x);
    assert |e| == |f| + 1;
    forall i | 0 <= i < |f| ensures e[1..][i] == f[i] {
      if i < |stem| {
      } else if i < |stem| + 6 {
        assert e[i + 1] == (".json" + ".")[i - |stem|];
        assert f[i] == ("." + "json.")[i - |stem|];
        assert ".json" + "." == "." + "json.";
      }
    }
  }

  /** A name that starts with a target's staging prefix belongs to that very target. */
  lemma PrefixOwner(t: Target, u: Target, tail: string)
    requires ValidKey(t.key) && ValidKey(u.key) && Home(t) == Home(u)
    requires StartsWith("." + FinalName(u) + "." + tail, "." + FinalName(t) + ".")
    ensures t == u
  {
    var prefix, e := "." + FinalName(t) + ".", "." + FinalName(u) + "." + tail;
    var rest := e[|prefix|..];
    StemIsPlain(t);
    StemIsPlain(u);
    assert e == prefix + rest;
    Regroup(Stem(t), rest);
    Regroup(Stem(u), tail);
    FirstDot(Stem(t), "json." + rest, Stem(u), "json." + tail);
    StemsDiffer(t, u);
  }

  /** Among the entries of all valid incidents in one directory, the text tests of `_remove_orphan_staging` and
      `_repair_stage_alias` select exactly the staging names of the target itself, whatever the tokens. */
  lemma StageTestIsExact(t: Target, p: Path)
    requires ValidKey(t.key) && !p.Other? && ValidKey(p.target.key) && DirectoryOf(p) == Home(t)
    ensures LooksStaged(t, EntryName(p)) <==> p.Stage? && p.target == t
  {
    var prefix, e := "." + FinalName(t) + ".", EntryName(p);
    StemIsPlain(p.target);
    if p.Final? {
      assert e[0] == Stem(p.target)[0];
      assert prefix[0] == '.';
    } else {
      var tail := p.token + ".staging";
      assert e == "." + FinalName(p.target) + "." + tail;
      assert e[|e| - 8..] == ".staging";
      if p.target == t {
        assert e[..|prefix|] == prefix;
      } else if StartsWith(e, prefix) {
        PrefixOwner(t, p.target, tail);
      }
    }
  }

  /** So two entries of one directory are the same entry exactly when they are spelled the same. */
  lemma EntryNamesDiffer(p: Path, q: Path)
    requires !p.Other? && !q.Other? && ValidKey(p.target.key) && ValidKey(q.target.key)
    requires DirectoryOf(p) == DirectoryOf(q) && EntryName(p) == EntryName(q)
    ensures p == q
  {
    StageTestIsExact(p.target, p);
    StageTestIsExact(p.target, q);
    StemIsPlain(p.target);
    StemIsPlain(q.target);
    if p.Stage? {
      var e := EntryName(p);
      var n := |"." + FinalName(p.target) + "."|;
      assert p.token == e[n..|e| - 8] && q.token == e[n..|e| - 8];
    } else if q.Stage? {
      StageTestIsExact(q.target, p);
      StageTestIsExact(q.target, q);
    } else {
      var e := EntryName(p);
      assert Stem(p.target) == e[..|e| - 5] && Stem(q.target) == e[..|e| - 5];
      StemsDiffer(p.target, q.target);
    }
  }

  /** The entries of an incident by name. */
  lemma NamesAreSpelled(k: Key, token: string)
    ensures EntryName(Final(Target(Receipt, k))) == k.role + ".json"
    ensures EntryName(Final(Target(Pointer, k))) == k.market + "--" + k.session + "--" + k.role + ".json"
    ensures forall kind :: EntryName(Stage(Target(kind, k), token)) == "." + EntryName(Final(Target(kind, k))) + "." + token + ".staging"
    ensures EntryName(ManifestPath(k)) == "preparation-manifest.json"
  {
  }

  // ---- `_validate_inputs` ----

  // ---- paths as arguments ----

  /** A path as `pathlib` keeps it: what it starts with (nothing, `/` or `//`), and its components. */
  datatype FilePath = FilePath(anchor: string, parts: seq<string>) {
    function Below(more: seq<string>): FilePath {
      FilePath(anchor, parts + more)
    }
  }

  /** The components left by `os.path.normpath` on an absolute path, which resolves `.` and `..` by the text alone. */
  function NormalParts(parts: seq<string>): seq<string> {
    if parts == [] then []
    else
      var before, last := NormalParts(parts[..|parts| - 1]), parts[|parts| - 1];
      if last == "" || last == "." then before
      else if last != ".." then before + [last]
      else if before == [] then [] else before[..|before| - 1]
  }

  /** `os.path.abspath` of an absolute path. */
  function AbsPath(p: FilePath): FilePath {
    FilePath(p.anchor, NormalParts(p.parts))
  }

  predicate IsAbsolute(p: FilePath) {
    p.anchor != ""
  }

  predicate IsName(part: string) {
    part != "" && part != "." && part != ".."
  }

  lemma {:induction false} NormalPartsAreFewer(parts: seq<string>)
    ensures |NormalParts(parts)| <= |parts|
    ensures |NormalParts(parts)| == |parts| ==> NormalParts(parts) == parts && forall x :: x in parts ==> IsName(x)
    ensures (forall x :: x in parts ==> IsName(x)) ==> NormalParts(parts) == parts
  {
    if parts != [] {
      NormalPartsAreFewer(parts[..|parts| - 1]);
      assert parts == parts[..|parts| - 1] + [parts[|parts| - 1]];
      assert parts[|parts| - 1] in parts;
    }
  }

  /** A path is its own absolute form exactly when none of its components is empty or stands for another. */
  lemma NormalIsPlain(p: FilePath)
    ensures AbsPath(p) == p <==> forall x :: x in p.parts ==> IsName(x)
  {
    NormalPartsAreFewer(p.parts);
  }

  datatype Arguments = Arguments(
    receipt: FilePath, queue: FilePath, manifest: FilePath,
    market: string, session: IsoDate, role: string,
    requestSha: string, planSha: string, schedulerSha: string, runtimeSha: string)

  function RequestOf(a: Arguments): Request {
    Request(Key(a.market, a.session, a.role), a.requestSha, a.planSha, a.schedulerSha, a.runtimeSha)
  }

  function Where(root: FilePath, dir: Directory): FilePath {
    match dir
    case Session(market, session) => root.Below(["artifacts", market, session])
    case Incidents(market, session) => root.Below(["artifacts", market, session, "execution-incidents"])
    case Queue => root.Below(["pending-execution-incidents"])
  }

  /** Where an entry lies. */
  function PlaceOf(root: FilePath, p: Path): FilePath {
    Where(root, DirectoryOf(p)).Below([EntryName(p)])
  }

  /** The state root, when the arguments are in order. */
  function ValidateInputs(a: Arguments): (root: Option<FilePath>) {
    if !IsAbsolute(a.receipt) || AbsPath(a.receipt) != a.receipt
       || !IsAbsolute(a.queue) || AbsPath(a.queue) != a.queue
       || !IsAbsolute(a.manifest) || AbsPath(a.manifest) != a.manifest
       || |a.receipt.parts| < 5
    then None
    else
      var n := |a.receipt.parts|;
      var root := FilePath(a.receipt.anchor, a.receipt.parts[..n - 5]);
      if a.role !in Roles(a.market)
         || !HexOf(a.requestSha, 64) || !HexOf(a.planSha, 64) || !HexOf(a.schedulerSha, 40) || !HexOf(a.runtimeSha, 40)
         || a.receipt != root.Below(["artifacts", a.market, a.session, "execution-incidents", a.role + ".json"])
         || a.manifest != FilePath(a.receipt.anchor, a.receipt.parts[..n - 2]).Below(["preparation-manifest.json"])
         || a.queue != root.Below(["pending-execution-incidents", a.market + "--" + a.session + "--" + a.role + ".json"])
      then None else Some(root)
  }

  lemma PlacesSpelled(root: FilePath, k: Key)
    ensures PlaceOf(root, Final(Target(Receipt, k))).parts
      == root.parts + ["artifacts", k.market, k.session, "execution-incidents", k.role + ".json"]
    ensures PlaceOf(root, Final(Target(Pointer, k))).parts
      == root.parts + ["pending-execution-incidents", k.market + "--" + k.session + "--" + k.role + ".json"]
    ensures var r := PlaceOf(root, Final(Target(Receipt, k))).parts;
      && r[..|r| - 5] == root.parts
      && r[..|r| - 2] + ["preparation-manifest.json"] == PlaceOf(root, ManifestPath(k)).parts
    ensures PlaceOf(root, ManifestPath(k)).parts == root.parts + ["artifacts", k.market, k.session, "preparation-manifest.json"]
  {
    var r := PlaceOf(root, Final(Target(Receipt, k))).parts;
    assert r[..|r| - 2] == root.parts + ["artifacts", k.market, k.session];
    assert FinalName(Target(Pointer, k)) == k.market + "--" + k.session + "--" + k.role + ".json";
  }

  /** The components that the program itself adds stand for themselves. */
  lemma AddedPartsAreNames(k: Key)
    requires ValidKey(k)
    ensures IsName("artifacts") && IsName("execution-incidents") && IsName("pending-execution-incidents")
    ensures IsName("preparation-manifest.json") && IsName(k.market) && IsName(k.session)
    ensures IsName(k.role + ".json") && IsName(k.market + "--" + k.session + "--" + k.role + ".json")
  {
    ValidKeyIsPlain(k);
    assert |k.role + ".json"| > 5 && |k.market + "--" + k.session + "--" + k.role + ".json"| > 5;
  }

  lemma PlacedIsNormal(root: FilePath, k: Key)
    requires ValidKey(k)
    ensures var names := forall x :: x in root.parts ==> IsName(x);
      && (AbsPath(PlaceOf(root, Final(Target(Receipt, k)))) == PlaceOf(root, Final(Target(Receipt, k))) <==> names)
      && (AbsPath(PlaceOf(root, Final(Target(Pointer, k)))) == PlaceOf(root, Final(Target(Pointer, k))) <==> names)
      && (AbsPath(PlaceOf(root, ManifestPath(k))) == PlaceOf(root, ManifestPath(k)) <==> names)
  {
    AddedPartsAreNames(k);
    PlacesSpelled(root, k);
    BelowIsNormal(root, ["artifacts", k.market, k.session, "execution-incidents", k.role + ".json"]);
    BelowIsNormal(root, ["pending-execution-incidents", k.market + "--" + k.session + "--" + k.role + ".json"]);
    BelowIsNormal(root, ["artifacts", k.market, k.session, "preparation-manifest.json"]);
  }

  lemma BelowIsNormal(root: FilePath, more: seq<string>)
    requires forall x :: x in more ==> IsName(x)
    ensures var p := root.Below(more); AbsPath(p) == p <==> forall x :: x in root.parts ==> IsName(x)
  {
    NormalIsPlain(root.Below(more));
  }

  /** Accepted arguments are exactly a valid request with its three files at their places under one absolute root
      whose components stand for themselves. */
  lemma ValidatedMeansPlaced(a: Arguments, root: FilePath)
    ensures ValidateInputs(a) == Some(root) <==>
      && IsAbsolute(root) && (forall x :: x in root.parts ==> IsName(x))
      && ValidRequest(RequestOf(a))
      && a.receipt == PlaceOf(root, Final(Target(Receipt, RequestOf(a).key)))
      && a.queue == PlaceOf(root, Final(Target(Pointer, RequestOf(a).key)))
      && a.manifest == PlaceOf(root, ManifestPath(RequestOf(a).key))
  {
    var k := RequestOf(a).key;
    PlacesSpelled(root, k);
    if ValidKey(k) { PlacedIsNormal(root, k); }
    if ValidateInputs(a) == Some(root) {
      assert a.receipt.parts[..|a.receipt.parts| - 5] == root.parts;
    }
  }

  predicate LowerHex(s: string, n: nat) {
    |s| == n && forall i :: 0 <= i < n ==> s[i] in "0123456789abcdef"
  }

  predicate KnownRole(market: string, role: string) {
    || (market == "us" && (role == "us_orb_watcher" || role == "us_hermes_projection" || role == "us_research_post_close_swing"
          || role == "us_day_preflight_observer" || role == "us_day_arm_observer" || role == "us_day_close_finalizer"))
    || (market == "kr" && role == "kr_supervisor")
  }

  lemma HexIsLower(s: string, n: nat)
    ensures HexOf(s, n) <==> LowerHex(s, n)
  {
    var digits := "0123456789abcdef";
    forall i | 0 <= i < |s| ensures IsHex(s[i]) <==> s[i] in digits {
      HexDigits(s[i]);
    }
  }

  lemma HexDigits(ch: char)
    ensures IsHex(ch) <==> ch in "0123456789abcdef"
  {
    var digits := "0123456789abcdef";
    assert forall i :: 0 <= i < 16 ==> digits[i] == (if i < 10 then '0' + i as char else 'a' + (i - 10) as char);
    if '0' <= ch <= '9' { assert digits[(ch - '0') as int] == ch; }
    if 'a' <= ch <= 'f' { assert digits[(ch - 'a') as int + 10] == ch; }
  }

  /** The same, spelled out: what a caller has to give. */
  lemma AcceptedIsSpelled(a: Arguments, root: FilePath)
    ensures ValidateInputs(a) == Some(root) <==>
      && root.anchor != "" && (forall x :: x in root.parts ==> x != "" && x != "." && x != "..")
      && KnownRole(a.market, a.role) && LowerHex(a.requestSha, 64) && LowerHex(a.planSha, 64)
      && LowerHex(a.schedulerSha, 40) && LowerHex(a.runtimeSha, 40)
      && a.receipt == root.Below(["artifacts", a.market, a.session, "execution-incidents", a.role + ".json"])
      && a.queue == root.Below(["pending-execution-incidents", a.market + "--" + a.session + "--" + a.role + ".json"])
      && a.manifest == root.Below(["artifacts", a.market, a.session, "preparation-manifest.json"])
  {
    ValidatedMeansPlaced(a, root);
    PlacesSpelled(root, RequestOf(a).key);
    HexIsLower(a.requestSha, 64);
    HexIsLower(a.planSha, 64);
    HexIsLower(a.schedulerSha, 40);
    HexIsLower(a.runtimeSha, 40);
    RolesAreKnown(a.market, a.role);
  }

  lemma RolesAreKnown(market: string, role: string)
    ensures role in Roles(market) <==> KnownRole(market, role)
  {
  }

  /** Two accepted argument lists that share a receipt path or a queue path are about the same incident. */
  lemma PlacesAreInjective(a: Arguments, b: Arguments)
    requires ValidateInputs(a).Some? && ValidateInputs(b).Some?
    requires a.receipt == b.receipt || a.queue == b.queue
    ensures ValidateInputs(a) == ValidateInputs(b) && RequestOf(a).key == RequestOf(b).key
    ensures a.receipt == b.receipt && a.queue == b.queue && a.manifest == b.manifest
  {
    var ra, rb := ValidateInputs(a).value, ValidateInputs(b).value;
    ValidatedMeansPlaced(a, ra);
    ValidatedMeansPlaced(b, rb);
    if a.receipt == b.receipt { SameReceiptPlace(ra, RequestOf(a).key, rb, RequestOf(b).key); }
    else { SameQueuePlace(ra, RequestOf(a).key, rb, RequestOf(b).key); }
  }

  lemma SameReceiptPlace(ra: FilePath, ka: Key, rb: FilePath, kb: Key)
    requires PlaceOf(ra, Final(Target(Receipt, ka))) == PlaceOf(rb, Final(Target(Receipt, kb)))
    ensures ra == rb && ka == kb
  {
    PlacesSpelled(ra, ka);
    PlacesSpelled(rb, kb);
    var p := PlaceOf(ra, Final(Target(Receipt, ka))).parts;
    var n := |p|;
    assert p[n - 4] == ka.market == kb.market && p[n - 3] == ka.session == kb.session;
    assert p[n - 1] == ka.role + ".json" == kb.role + ".json";
    assert ka.role == p[n - 1][..|p[n - 1]| - 5] && kb.role == p[n - 1][..|p[n - 1]| - 5];
  }

  lemma SameQueuePlace(ra: FilePath, ka: Key, rb: FilePath, kb: Key)
    requires ValidKey(ka) && ValidKey(kb) && PlaceOf(ra, Final(Target(Pointer, ka))) == PlaceOf(rb, Final(Target(Pointer, kb)))
    ensures ra == rb && ka == kb
  {
    PlacesSpelled(ra, ka);
    PlacesSpelled(rb, kb);
    var p := PlaceOf(ra, Final(Target(Pointer, ka))).parts;
    var e := p[|p| - 1];
    assert e == FinalName(Target(Pointer, ka)) == FinalName(Target(Pointer, kb));
    assert Stem(Target(Pointer, ka)) == e[..|e| - 5] && Stem(Target(Pointer, kb)) == e[..|e| - 5];
    assert ra.parts == p[..|p| - 2] && rb.parts == p[..|p| - 2];
    StemsDiffer(Target(Pointer, ka), Target(Pointer, kb));
  }
}
