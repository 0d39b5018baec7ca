/** A published incident stays published: what any later events leave of it, and what later turns make of it. */
module Completion {
  import opened Tree
  import opened Wrappers
  import opened Machine
  import opened Invariant
  import opened Runs
  import opened Vouching
  import opened Recovery
  import opened PowerLoss

  // ---- without power losses ----

  /** A settled file stays settled: no call gives it a second name. */
  lemma SingleKept(c: Config, d: Disk, req: Request, pc: Pc, ch: Choice, t: Target)
    requires DiskOk(c, d) && PcOk(c, d, req, pc) && Enabled(d, req, pc, ch) && Single(d, t)
    ensures Single(Next(c, d, req, pc, ch).0, t)
  {
    NextFrame(c, d, req, pc, ch);
    var d' := Next(c, d, req, pc, ch).0;
    assert SameFile(d, d', t);
    assert d.At(Final(t), d.names[Final(t)]);
  }

  /** The manifest, the receipt and the pointer of an incident are the same files with the same contents. */
  ghost predicate SameIncident(d: Disk, d': Disk, k: Key) {
    SameFile(d, d', Target(Receipt, k)) && SameFile(d, d', Target(Pointer, k))
    && forall manifest :: ManifestIs(d, k, manifest) ==> ManifestIs(d', k, manifest)
  }

  lemma SameManifest(d: Disk, d': Disk, k: Key, manifest: Bytes)
    requires SameOther(d, d', ManifestPath(k)) && ManifestIs(d, k, manifest)
    ensures ManifestIs(d', k, manifest)
  {
  }

  lemma IncidentKept(c: Config, s: State, e: Event, k: Key)
    requires Safe(c, s) && Allowed(c, s, e) && !e.Outage?
    requires Final(Target(Receipt, k)) in s.disk.names && Final(Target(Pointer, k)) in s.disk.names
    ensures SameIncident(s.disk, Apply(c, s, e).disk, k)
  {
    var d, d' := s.disk, Apply(c, s, e).disk;
    FileKept(c, s, e, Target(Receipt, k));
    FileKept(c, s, e, Target(Pointer, k));
    forall manifest | ManifestIs(d, k, manifest) ensures ManifestIs(d', k, manifest) {
      if e.Call? {
        OthersKept(c, d, s.procs[e.pid].req, s.procs[e.pid].pc, e.ch, ManifestPath(k));
        SameManifest(d, d', k, manifest);
      } else {
        SameTreeReads(d, d', ManifestPath(k), {1});
      }
    }
  }

  lemma CompletedKept(c: Config, s: State, e: Event, req: Request)
    requires Safe(c, s) && Allowed(c, s, e) && !e.Outage? && Completed(c, s.disk, req)
    ensures Completed(c, Apply(c, s, e).disk, req)
  {
    IncidentKept(c, s, e, req.key);
    assert ManifestIs(s.disk, req.key, s.disk.Data(ManifestPath(req.key)));
    if e.Call? {
      var p := s.procs[e.pid];
      SingleKept(c, s.disk, p.req, p.pc, e.ch, Target(Receipt, req.key));
      SingleKept(c, s.disk, p.req, p.pc, e.ch, Target(Pointer, req.key));
    }
  }

  /** Whatever any number of processes do after that, for this request or others, and wherever they are killed. */
  lemma {:induction false} CompletedForever(c: Config, states: seq<State>, events: seq<Event>, i: nat, req: Request)
    requires Lawful(c) && IsStretch(c, states, events) && Safe(c, states[0]) && i < |states|
    requires NoOutage(events) && Completed(c, states[0].disk, req)
    ensures Safe(c, states[i]) && Completed(c, states[i].disk, req) && SameIncident(states[0].disk, states[i].disk, req.key)
  {
    if i > 0 {
      CompletedForever(c, states, events, i - 1, req);
      SafeStep(c, states[i - 1], events[i - 1]);
      CompletedKept(c, states[i - 1], events[i - 1], req);
      IncidentKept(c, states[i - 1], events[i - 1], req.key);
    }
  }

  /** A request that has succeeded once succeeds at every later turn, however many there are and whatever happens
      between them but a power loss. The receipt is the first one's, and no later turn changes anything. */
  lemma OncePublished(c: Config, first: seq<State>, its: seq<Event>, p: nat, before: Instant,
                      states: seq<State>, events: seq<Event>,
                      again: seq<State>, more: seq<Event>, q: nat, now: Instant, i: nat)
    requires Lawful(c) && c.createMode == FILE_MODE
    requires Ends(c, first, its, p, before) && first[|its|].procs[p].pc.fault == None
    requires IsStretch(c, states, events) && NoOutage(events) && states[0] == first[|its|]
    requires Ends(c, again, more, q, now) && again[0] == states[|events|] && i < |again|
    requires again[0].procs[q].req == first[0].procs[p].req
    ensures again[|more|].procs[q].pc.fault == None
    ensures Same(states[|events|].disk, again[i].disk, Backs(more[..i]))
    ensures SameIncident(first[|its|].disk, again[i].disk, first[0].procs[p].req.key)
  {
    var req := first[0].procs[p].req;
    SuccessIsCompletion(c, first, its, p, before);
    TurnIsSafe(c, first, its, p, before, |its|);
    CompletedForever(c, states, events, |events|, req);
    CompletedRerunChangesNothing(c, again, more, q, now, i);
    forall manifest | ManifestIs(states[|events|].disk, req.key, manifest)
      ensures ManifestIs(again[i].disk, req.key, manifest)
    {
      SameTreeReads(states[|events|].disk, again[i].disk, ManifestPath(req.key), {1});
    }
  }

  // ---- with power losses ----

  /** The incident is published, and all of it is on the disk: both files' entries, those of the files the publisher
      does not own as they stand, and the manifest's contents. */
  ghost predicate Rooted(c: Config, d: Disk, req: Request) {
    && Acceptable(c, d, req) && PointerMatches(c, d, req.key)
    && BothDurable(d, req.key) && OthersDurable(d) && d.inodes[d.names[ManifestPath(req.key)]].synced
  }

  /** What is the same incident is as acceptable, and its pointer fits as well. */
  lemma SameIncidentFits(c: Config, d: Disk, d': Disk, req: Request)
    requires SameIncident(d, d', req.key) && Acceptable(c, d, req) && PointerMatches(c, d, req.key)
    ensures Acceptable(c, d', req) && PointerMatches(c, d', req.key)
  {
    assert ManifestIs(d, req.key, d.Data(ManifestPath(req.key)));
  }

  lemma RootsKept(c: Config, d: Disk, req: Request, pc: Pc, ch: Choice, m: Path)
    requires DiskOk(c, d) && PcOk(c, d, req, pc) && Enabled(d, req, pc, ch) && OthersDurable(d)
    requires m.Other? && m in d.names && d.names[m] in d.inodes && d.inodes[d.names[m]].synced
    ensures var d' := Next(c, d, req, pc, ch).0;
      OthersDurable(d') && m in d'.names && d'.names[m] in d'.inodes && d'.inodes[d'.names[m]].synced
  {
    OthersDurableCall(c, d, req, pc, ch);
    OthersKept(c, d, req, pc, ch, m);
  }

  lemma DurableKept(c: Config, s: State, e: Event, k: Key)
    requires Safe(c, s) && Allowed(c, s, e) && BothDurable(s.disk, k)
    ensures BothDurable(Apply(c, s, e).disk, k)
  {
    FileKept(c, s, e, Target(Receipt, k));
    FileKept(c, s, e, Target(Pointer, k));
  }

  lemma RootedCall(c: Config, s: State, pid: nat, ch: Choice, req: Request)
    requires Safe(c, s) && Allowed(c, s, Call(pid, ch)) && Rooted(c, s.disk, req)
    ensures Rooted(c, Apply(c, s, Call(pid, ch)).disk, req)
  {
    var p := s.procs[pid];
    DurableKept(c, s, Call(pid, ch), req.key);
    IncidentKept(c, s, Call(pid, ch), req.key);
    RootsKept(c, s.disk, p.req, p.pc, ch, ManifestPath(req.key));
    SameIncidentFits(c, s.disk, Apply(c, s, Call(pid, ch)).disk, req);
  }

  lemma RootedOutage(c: Config, s: State, left: Disk, req: Request)
    requires Safe(c, s) && Allowed(c, s, Outage(left)) && Rooted(c, s.disk, req)
    ensures Rooted(c, left, req) && SameIncident(s.disk, left, req.key)
  {
    var d, m := s.disk, ManifestPath(req.key);
    FileKept(c, s, Outage(left), Target(Receipt, req.key));
    FileKept(c, s, Outage(left), Target(Pointer, req.key));
    ReadableAfterPowerFails(c, d, m);
    assert Entry(d.durable, m) == Entry(d.names, m);
    var fails := d.(names := d.durable);
    assert left.Links(d.names[m]) == fails.Links(d.names[m]);
  }

  lemma RootedStep(c: Config, s: State, e: Event, req: Request)
    requires Safe(c, s) && Allowed(c, s, e) && Rooted(c, s.disk, req)
    ensures Rooted(c, Apply(c, s, e).disk, req) && SameIncident(s.disk, Apply(c, s, e).disk, req.key)
  {
    match e
    case Outage(left) => RootedOutage(c, s, left, req);
    case Call(pid, ch) =>
      RootedCall(c, s, pid, ch, req);
      IncidentKept(c, s, e, req.key);
    case _ =>
      IncidentKept(c, s, e, req.key);
      assert ManifestIs(s.disk, req.key, s.disk.Data(ManifestPath(req.key)));
  }

  lemma {:induction false} RootedForever(c: Config, states: seq<State>, events: seq<Event>, i: nat, req: Request)
    requires Lawful(c) && IsStretch(c, states, events) && Safe(c, states[0]) && i < |states|
    requires Rooted(c, states[0].disk, req)
    ensures Safe(c, states[i]) && Rooted(c, states[i].disk, req) && SameIncident(states[0].disk, states[i].disk, req.key)
  {
    if i > 0 {
      RootedForever(c, states, events, i - 1, req);
      SafeStep(c, states[i - 1], events[i - 1]);
      RootedStep(c, states[i - 1], events[i - 1], req);
    }
  }

  lemma {:induction false} RootsStay(c: Config, states: seq<State>, events: seq<Event>, pid: nat, now: Instant, m: Path, i: nat)
    requires Lawful(c) && c.createMode == FILE_MODE && Ends(c, states, events, pid, now) && i < |states|
    requires var d := states[0].disk; OthersDurable(d) && m.Other? && m in d.names && d.names[m] in d.inodes && d.inodes[d.names[m]].synced
    ensures var d := states[i].disk; OthersDurable(d) && m in d.names && d.names[m] in d.inodes && d.inodes[d.names[m]].synced
  {
    if i > 0 {
      RootsStay(c, states, events, pid, now, m, i - 1);
      TurnIsSafe(c, states, events, pid, now, i - 1);
      var s, e := states[i - 1], events[i - 1];
      if e.Call? && e.pid == pid {
        RootsKept(c, s.disk, s.procs[pid].req, s.procs[pid].pc, e.ch, m);
      } else {
        OtherEvent(c, s, e, pid);
      }
    }
  }

  ghost predicate LeftUnanchored(d0: Disk, backs: set<Path>, t: Target) {
    Unanchored(d0, t) && Final(t) !in backs
  }

  /** Where the manifest is on the disk, a turn that succeeds leaves its incident there too, exactly unless it found one
      of the two files with one link and no durable entry and that entry was not written back meanwhile. */
  lemma SuccessRoots(c: Config, states: seq<State>, events: seq<Event>, pid: nat, now: Instant)
    requires Lawful(c) && c.createMode == FILE_MODE && Ends(c, states, events, pid, now)
    requires states[|events|].procs[pid].pc.fault == None && OthersDurable(states[0].disk)
    requires var d, m := states[0].disk, ManifestPath(states[0].procs[pid].req.key);
      m in d.names && d.names[m] in d.inodes && d.inodes[d.names[m]].synced
    ensures var d0, d, req := states[0].disk, states[|events|].disk, states[0].procs[pid].req;
      Rooted(c, d, req) <==>
      && !LeftUnanchored(d0, Backs(events), Target(Receipt, req.key))
      && !LeftUnanchored(d0, Backs(events), Target(Pointer, req.key))
  {
    var d0, req := states[0].disk, states[0].procs[pid].req;
    SuccessIsCompletion(c, states, events, pid, now);
    RerunOutcome(c, states, events, pid, now);
    RootsStay(c, states, events, pid, now, ManifestPath(req.key), |events|);
    RerunAnchors(c, states, events, pid, now, Receipt);
    RerunAnchors(c, states, events, pid, now, Pointer);
    ReadsUnanchored(c, states[0], Target(Receipt, req.key));
    ReadsUnanchored(c, states[0], Target(Pointer, req.key));
  }

  lemma ReadsUnanchored(c: Config, s: State, t: Target)
    requires Safe(c, s)
    ensures var d := s.disk; Unanchored(d, t) <==> Final(t) in d.names && d.Links(d.names[Final(t)]) == 1 && Final(t) !in d.durable
  {
    if Final(t) in s.disk.names { LinksOfFinal(c, s.disk, t); }
  }

  /** Such a request succeeds at every later turn whatever happens in between, power losses included, and the receipt
      is the same. (A turn may have to remove an alias that a power loss has brought back.) */
  lemma PublishedForGood(c: Config, states: seq<State>, events: seq<Event>, req: Request,
                         again: seq<State>, more: seq<Event>, q: nat, now: Instant)
    requires Lawful(c) && c.createMode == FILE_MODE
    requires IsStretch(c, states, events) && Safe(c, states[0]) && Rooted(c, states[0].disk, req)
    requires Ends(c, again, more, q, now) && again[0] == states[|events|] && again[0].procs[q].req == req
    ensures again[|more|].procs[q].pc.fault == None && Completed(c, again[|more|].disk, req)
    ensures Holds(again[|more|].disk, Target(Receipt, req.key), states[0].disk.Data(Final(Target(Receipt, req.key))))
  {
    RootedForever(c, states, events, |events|, req);
    RerunOutcome(c, again, more, q, now);
    SuccessIsCompletion(c, again, more, q, now);
  }
}
