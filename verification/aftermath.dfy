/** What becomes of an incident whose pointer has outlived its receipt. */
module Aftermath {
  import opened Tree
  import opened Wrappers
  import opened Machine
  import opened Invariant
  import opened Runs
  import opened Vouching
  import opened Recovery

  /** Both files are there, and the hash in the queue pointer is that of other receipt bytes. */
  ghost predicate Contradicted(c: Config, d: Disk, k: Key) {
    var r, p := Final(Target(Receipt, k)), Final(Target(Pointer, k));
    && r in d.names && d.names[r] in d.inodes && p in d.names && d.names[p] in d.inodes
    && d.Data(p) != c.pointer(k, d.Data(r))
  }

  /** A pointer without its receipt: a turn succeeds exactly at a time at which it would publish the receipt that
      was lost. At any other time it fails, but not before it has published another receipt, durably. */
  lemma TurnAfterTheLoss(c: Config, states: seq<State>, events: seq<Event>, pid: nat, now: Instant)
    requires Lawful(c) && c.createMode == FILE_MODE && Ends(c, states, events, pid, now)
    requires var d, req := states[0].disk, states[0].procs[pid].req;
      && Acceptable(c, d, req) && Final(Target(Receipt, req.key)) !in d.names && Final(Target(Pointer, req.key)) in d.names
    ensures var d0, d, req, fault := states[0].disk, states[|events|].disk, states[0].procs[pid].req, states[|events|].procs[pid].pc.fault;
      var r, p := Target(Receipt, req.key), Target(Pointer, req.key);
      var receipt := c.receipt(req, d0.Data(ManifestPath(req.key)), now);
      && d0.names[Final(p)] in d0.inodes
      && (fault == None <==> d0.Data(Final(p)) == c.pointer(req.key, receipt))
      && Holds(d, r, receipt) && Final(r) in d.durable
      && (fault != None ==> fault == Some(Mismatch) && Contradicted(c, d, req.key))
      && (fault != None && Final(p) in d0.durable ==> BothDurable(d, req.key))
  {
    var d0, d, req := states[0].disk, states[|events|].disk, states[0].procs[pid].req;
    var r, p := Target(Receipt, req.key), Target(Pointer, req.key);
    assert d0.At(Final(p), d0.names[Final(p)]);
    RerunOutcome(c, states, events, pid, now);
    RerunAnchors(c, states, events, pid, now, Receipt);
    if states[|events|].procs[pid].pc.fault != None {
      assert SameFile(d0, d, p);
      if Final(p) in d0.durable { TurnKeepsDurable(c, states, events, pid, now, |events|, p); }
    }
  }

  lemma {:induction false} TurnKeepsDurable(c: Config, states: seq<State>, events: seq<Event>, pid: nat, now: Instant, i: nat, t: Target)
    requires Lawful(c) && c.createMode == FILE_MODE && Ends(c, states, events, pid, now) && i < |states|
    requires Final(t) in states[0].disk.durable
    ensures Final(t) in states[i].disk.durable
  {
    if i > 0 {
      TurnKeepsDurable(c, states, events, pid, now, i - 1, t);
      TurnIsSafe(c, states, events, pid, now, i - 1);
      FileKept(c, states[i - 1], events[i - 1], t);
    }
  }

  /** The contradiction stays: through kills in any case, and through power losses if both entries are durable. */
  lemma {:induction false} ContradictedForever(c: Config, states: seq<State>, events: seq<Event>, i: nat, k: Key)
    requires Lawful(c) && IsStretch(c, states, events) && Safe(c, states[0]) && i < |states|
    requires Contradicted(c, states[0].disk, k)
    requires BothDurable(states[0].disk, k) || forall j :: 0 <= j < |events| ==> !events[j].Outage?
    ensures Safe(c, states[i]) && Contradicted(c, states[i].disk, k)
    ensures BothDurable(states[0].disk, k) ==> BothDurable(states[i].disk, k)
  {
    if i > 0 {
      ContradictedForever(c, states, events, i - 1, k);
      SafeStep(c, states[i - 1], events[i - 1]);
      FileKept(c, states[i - 1], events[i - 1], Target(Receipt, k));
      FileKept(c, states[i - 1], events[i - 1], Target(Pointer, k));
    }
  }

  /** So from then on no turn of any request for the incident succeeds, at any time, in any interleaving with others. */
  lemma NoTurnSucceeds(c: Config, states: seq<State>, events: seq<Event>,
                       turn: seq<State>, its: seq<Event>, pid: nat, now: Instant)
    requires Lawful(c) && c.createMode == FILE_MODE && IsStretch(c, states, events) && Safe(c, states[0])
    requires Ends(c, turn, its, pid, now) && turn[0] == states[|events|]
    requires var k := turn[0].procs[pid].req.key;
      && Contradicted(c, states[0].disk, k)
      && (BothDurable(states[0].disk, k) || forall j :: 0 <= j < |events| ==> !events[j].Outage?)
    ensures turn[|its|].procs[pid].pc.fault != None
  {
    ContradictedForever(c, states, events, |events|, turn[0].procs[pid].req.key);
    RerunOutcome(c, turn, its, pid, now);
  }
}
