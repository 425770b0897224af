/**
 * The protocol seen from one memory block: `hs[k]` is the flags the k-th cache
 * of the peer list holds for the block (Invalid when it misses). An access by
 * the cache at position `me` moves this vector by `Step`; `Coherent` is the
 * single-owner invariant the Dragon protocol keeps.
 */
module Protocol {
  import opened Coherence

  datatype Outcome = Outcome(states: seq<Flags>, snoop: bool)

  /**
   * The first n answers of a broadcast (busRd/busUpd over the peer list): each
   * peer's responder runs, in list order, and the answers are OR-ed into a flag
   * seeded with false.
   */
  function Run(hs: seq<Flags>, n: nat, kind: Snoop): (o: Outcome)
    requires n <= |hs|
    ensures |o.states| == n
  {
    if n == 0 then Outcome([], false)
    else
      var o := Run(hs, n - 1, kind);
      var r := Respond(kind, hs[n - 1]);
      Outcome(o.states + [r.next], r.ack || o.snoop)
  }

  /** A whole broadcast: every peer of the list answers. */
  function Broadcast(hs: seq<Flags>, kind: Snoop): (o: Outcome)
    ensures |o.states| == |hs|
  {
    Run(hs, |hs|, kind)
  }

  /**
   * After n answers, each of the first n responders has run exactly once on its
   * own copy, and the flag is set exactly when one of them answered.
   */
  lemma {:induction false} RunSpec(hs: seq<Flags>, n: nat, kind: Snoop)
    requires n <= |hs|
    ensures forall k :: 0 <= k < n ==> Run(hs, n, kind).states[k] == Respond(kind, hs[k]).next
    ensures Run(hs, n, kind).snoop <==> exists k :: 0 <= k < n && Respond(kind, hs[k]).ack
  {
    if n > 0 {
      RunSpec(hs, n - 1, kind);
    }
  }

  /**
   * Every responder runs exactly once on its own copy, and the broadcast is
   * answered exactly when some responder answers.
   */
  lemma BroadcastSpec(hs: seq<Flags>, kind: Snoop)
    ensures forall k :: 0 <= k < |hs| ==> Broadcast(hs, kind).states[k] == Respond(kind, hs[k]).next
    ensures Broadcast(hs, kind).snoop <==> exists k :: 0 <= k < |hs| && Respond(kind, hs[k]).ack
  {
    RunSpec(hs, |hs|, kind);
  }

  /**
   * The flag of busRd/busUpd as the loops write it: `snoop = answer || snoop`
   * over the first n peers, starting from whatever the uninitialised variable
   * holds, here `seed`.
   */
  function SeededFlag(hs: seq<Flags>, n: nat, kind: Snoop, seed: bool): (r: bool)
    requires n <= |hs|
    ensures r <==> seed || exists k :: 0 <= k < n && Respond(kind, hs[k]).ack
  {
    if n == 0 then seed else Respond(kind, hs[n - 1]).ack || SeededFlag(hs, n - 1, kind, seed)
  }

  /** Seeded with false, the loops' flag is the broadcast's answer. */
  lemma {:induction false} SeededFalse(hs: seq<Flags>, n: nat, kind: Snoop)
    requires n <= |hs|
    ensures SeededFlag(hs, n, kind, false) == Run(hs, n, kind).snoop
  {
    RunSpec(hs, n, kind);
  }

  /** Seeded with true, the loops' flag is true whatever the peers answer. */
  lemma {:induction false} SeededTrue(hs: seq<Flags>, n: nat, kind: Snoop)
    requires n <= |hs|
    ensures SeededFlag(hs, n, kind, true)
  {
  }

  /** Some cache other than `me` holds the block. */
  predicate Shared(hs: seq<Flags>, me: nat)
  {
    exists k :: 0 <= k < |hs| && k != me && Holds(hs[k])
  }

  /**
   * The effect of one access by cache `me` (Cache::Access) on the block it
   * touches. A miss installs the placeholder before the busRd broadcast, so the
   * caller's own responder answers false; a write hit on a shared line snoops
   * the caller's own copy too, which answers true.
   */
  function Step(hs: seq<Flags>, me: nat, write: bool): (r: seq<Flags>)
    requires me < |hs|
    ensures |r| == |hs|
  {
    if hs[me] == Invalid then
      var rd := Broadcast(hs[me := Valid], ReadSnoop);
      if write then
        if rd.snoop then Broadcast(rd.states, UpdateSnoop).states[me := SharedModified]
        else rd.states[me := Modified]
      else rd.states[me := if rd.snoop then SharedClean else Exclusive]
    else if !write then hs
    else if hs[me] == Exclusive then hs[me := Modified]
    else if hs[me] == Modified then hs
    else
      var upd := Broadcast(hs, UpdateSnoop);
      upd.states[me := if upd.snoop then SharedModified else Modified]
  }

  /** On a miss the busRd broadcast is answered exactly when another cache holds the block. */
  lemma MissSnoop(hs: seq<Flags>, me: nat)
    requires me < |hs| && hs[me] == Invalid
    ensures Broadcast(hs[me := Valid], ReadSnoop).snoop <==> Shared(hs, me)
  {
    var hv := hs[me := Valid];
    BroadcastSpec(hv, ReadSnoop);
    if Shared(hs, me) {
      var k :| 0 <= k < |hs| && k != me && Holds(hs[k]);
      assert Respond(ReadSnoop, hv[k]).ack;
    }
    if Broadcast(hv, ReadSnoop).snoop {
      var k :| 0 <= k < |hv| && Respond(ReadSnoop, hv[k]).ack;
      assert k != me && Holds(hs[k]);
    }
  }

  /**
   * A miss on a block no other cache holds: the busRd broadcast with the flag
   * seeded false answers false, but with the uninitialised flag holding true it
   * answers true, and the miss would end SharedClean (or SharedModified) and
   * count a cache-to-cache transfer.
   */
  lemma UnseededMiss(hs: seq<Flags>, me: nat)
    requires me < |hs| && hs[me] == Invalid && !Shared(hs, me)
    ensures !Broadcast(hs[me := Valid], ReadSnoop).snoop
    ensures SeededFlag(hs[me := Valid], |hs|, ReadSnoop, true)
  {
    MissSnoop(hs, me);
    SeededTrue(hs[me := Valid], |hs|, ReadSnoop);
  }

  /** What the accessing cache itself ends up holding. */
  lemma StepLocal(hs: seq<Flags>, me: nat, write: bool)
    requires me < |hs|
    ensures write ==> Dirty(Step(hs, me, write)[me])
    ensures !write && hs[me] != Invalid ==> Step(hs, me, write) == hs
    ensures !write && hs[me] == Invalid ==>
      Step(hs, me, write)[me] == (if Shared(hs, me) then SharedClean else Exclusive)
    ensures write && hs[me] == Invalid ==>
      Step(hs, me, write)[me] == (if Shared(hs, me) then SharedModified else Modified)
    ensures write && (hs[me] == SharedClean || hs[me] == SharedModified) ==>
      Step(hs, me, write)[me] == SharedModified
    ensures write && (hs[me] == Exclusive || hs[me] == Modified) ==>
      Step(hs, me, write) == hs[me := Modified]
  {
    if hs[me] == Invalid {
      MissSnoop(hs, me);
    } else if write && (hs[me] == SharedClean || hs[me] == SharedModified) {
      BroadcastSpec(hs, UpdateSnoop);
      assert Respond(UpdateSnoop, hs[me]).ack;
    }
  }

  /** The other caches keep or lose nothing: each still holds a copy exactly when it held one. */
  lemma StepOthers(hs: seq<Flags>, me: nat, write: bool, k: nat)
    requires me < |hs| && k < |hs| && k != me
    ensures Present(Step(hs, me, write)[k]) <==> Present(hs[k])
  {
    if hs[me] == Invalid {
      var rd := Broadcast(hs[me := Valid], ReadSnoop);
      BroadcastSpec(hs[me := Valid], ReadSnoop);
      BroadcastSpec(rd.states, UpdateSnoop);
    } else {
      BroadcastSpec(hs, UpdateSnoop);
    }
  }

  /**
   * At most one cache owns the block; a Modified or Exclusive copy is the only
   * copy; no placeholder survives an access.
   */
  ghost predicate Coherent(hs: seq<Flags>)
  {
    (forall k :: 0 <= k < |hs| ==> hs[k] != Valid) &&
    (forall i, j :: 0 <= i < |hs| && 0 <= j < |hs| && i != j && Owner(hs[i]) ==> !Owner(hs[j])) &&
    (forall i, j :: 0 <= i < |hs| && 0 <= j < |hs| && i != j && Sole(hs[i]) ==> !Holds(hs[j]))
  }

  /** Only `me` may hold the block, in any state but the placeholder. */
  lemma AloneCoherent(r: seq<Flags>, me: nat)
    requires me < |r| && r[me] != Valid
    requires forall k :: 0 <= k < |r| && k != me ==> r[k] == Invalid
    ensures Coherent(r)
  {
  }

  /** `me` holds the block SharedModified and every other copy is SharedClean. */
  lemma SingleWriterCoherent(r: seq<Flags>, me: nat)
    requires me < |r| && r[me] == SharedModified
    requires forall k :: 0 <= k < |r| && k != me ==> r[k] == Invalid || r[k] == SharedClean
    ensures Coherent(r)
  {
  }

  /** Copies that only lose ownership and never claim to be alone stay coherent. */
  lemma DowngradeCoherent(r: seq<Flags>, hs: seq<Flags>)
    requires |r| == |hs| && Coherent(hs)
    requires forall k :: 0 <= k < |r| ==> r[k] != Valid && !Sole(r[k]) && (Owner(r[k]) ==> Owner(hs[k]))
    ensures Coherent(r)
  {
  }

  /** A miss keeps the block coherent. */
  lemma {:induction false} MissCoherent(hs: seq<Flags>, me: nat, write: bool)
    requires me < |hs| && Coherent(hs) && hs[me] == Invalid
    ensures Coherent(Step(hs, me, write))
  {
    MissSnoop(hs, me);
    var rd := Broadcast(hs[me := Valid], ReadSnoop);
    BroadcastSpec(hs[me := Valid], ReadSnoop);
    if !rd.snoop {
      assert forall k :: 0 <= k < |hs| && k != me ==> !Holds(hs[k]);
      var r := rd.states[me := if write then Modified else Exclusive];
      assert forall k :: 0 <= k < |hs| && k != me ==> r[k] == Invalid;
      AloneCoherent(r, me);
    } else if write {
      BroadcastSpec(rd.states, UpdateSnoop);
      var r := Broadcast(rd.states, UpdateSnoop).states[me := SharedModified];
      SingleWriterCoherent(r, me);
    } else {
      var r := rd.states[me := SharedClean];
      DowngradeCoherent(r, hs);
    }
  }

  /** A write hit keeps the block coherent. */
  lemma {:induction false} WriteHitCoherent(hs: seq<Flags>, me: nat)
    requires me < |hs| && Coherent(hs) && hs[me] != Invalid
    ensures Coherent(Step(hs, me, true))
  {
    assert forall k :: 0 <= k < |hs| && k != me ==> !Sole(hs[k]);
    if hs[me] == Exclusive {
      var r := hs[me := Modified];
      assert forall k :: 0 <= k < |hs| && k != me ==> r[k] == Invalid;
      AloneCoherent(r, me);
    } else if hs[me] != Modified {
      var upd := Broadcast(hs, UpdateSnoop);
      BroadcastSpec(hs, UpdateSnoop);
      assert upd.snoop by { assert Respond(UpdateSnoop, hs[me]).ack; }
      var r := upd.states[me := SharedModified];
      SingleWriterCoherent(r, me);
    }
  }

  /** Every access keeps the block coherent across the peer list. */
  lemma StepCoherent(hs: seq<Flags>, me: nat, write: bool)
    requires me < |hs| && Coherent(hs)
    ensures Coherent(Step(hs, me, write))
  {
    if hs[me] == Invalid {
      MissCoherent(hs, me, write);
    } else if write {
      WriteHitCoherent(hs, me);
    }
  }

  /** `lo` is `hs` with some copies dropped (an eviction, or nothing at all). */
  predicate Shrinks(lo: seq<Flags>, hs: seq<Flags>)
  {
    |lo| == |hs| && forall k :: 0 <= k < |hs| ==> lo[k] == hs[k] || lo[k] == Invalid
  }

  /** Dropping copies keeps a block coherent. */
  lemma ShrinkCoherent(lo: seq<Flags>, hs: seq<Flags>)
    requires Shrinks(lo, hs) && Coherent(hs)
    ensures Coherent(lo)
  {
  }
}
