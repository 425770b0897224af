/**
 * One processor's cache (cache.cc, class Cache): a sets x assoc grid of lines
 * updated in place, the statistics counters, the local access state machine of
 * the Dragon protocol and the snoop responders peers call on it.
 */
module CacheSim {
  import opened Wrappers
  import opened Coherence
  import Addressing
  import opened Storage
  import opened Lru
  import Protocol

  class Cache {
    const size: nat
    const assoc: nat
    const lineSize: nat
    const sets: nat
    /** cache[sets][assoc]; the grid itself is never reallocated. */
    const lines: array2<Line>

    var numReads: nat
    var readMisses: nat
    var numWrites: nat
    var writeMisses: nat
    var writeBacks: nat
    var memoryTransactions: nat
    var cacheToCacheTransfers: nat
    /** The per-cache LRU clock, advanced once per access. */
    var currentCycle: nat

    predicate Geometry()
    {
      lines.Length0 == sets && lines.Length1 == assoc && sets > 0 && lineSize > 0
    }

    function CalcTag(addr: nat): (t: nat)
      requires Geometry()
      ensures addr / lineSize == t * sets + CalcIndex(addr)
    {
      Addressing.Tag(addr, lineSize, sets)
    }

    function CalcIndex(addr: nat): (i: nat)
      requires Geometry()
      ensures i < sets
    {
      Addressing.Index(addr, lineSize, sets)
    }

    /** Two addresses fall in the same memory block: same set, same tag. */
    predicate SameBlock(a: nat, b: nat)
      requires Geometry()
    {
      CalcIndex(a) == CalcIndex(b) && CalcTag(a) == CalcTag(b)
    }

    /** The grid as a value. */
    ghost function Grid(): (g: seq<seq<Line>>)
      reads lines
      requires Geometry()
      ensures |g| == sets
      ensures forall i :: 0 <= i < sets ==> |g[i]| == assoc
      ensures forall i, w :: 0 <= i < sets && 0 <= w < assoc ==> g[i][w] == lines[i, w]
    {
      seq(sets, i requires 0 <= i < sets reads lines =>
        seq(assoc, w requires 0 <= w < assoc reads lines => lines[i, w]))
    }

    /** The flags this cache holds for the block of `addr` (Invalid on a miss). */
    ghost function Held(addr: nat): Flags
      reads lines
      requires Geometry()
    {
      Storage.Held(Grid(), CalcIndex(addr), CalcTag(addr))
    }

    /** The counters agree with each other and with the clock. */
    predicate Counted()
      reads this
    {
      Geometry() && assoc > 0 &&
      readMisses <= numReads && writeMisses <= numWrites && numReads + numWrites == currentCycle
    }

    ghost predicate Valid()
      reads this, lines
      ensures Valid() ==> Geometry()
    {
      Counted() && GridOk(Grid(), currentCycle)
    }

    /** Cache(s, a, b): `s` bytes in lines of `b` bytes, `a` ways per set; every line invalid. */
    constructor (s: nat, a: nat, b: nat)
      requires a > 0 && b > 0 && s / b / a > 0
      ensures size == s && assoc == a && lineSize == b && sets == s / b / a
      ensures Valid() && fresh(lines)
      ensures forall i, w :: 0 <= i < sets && 0 <= w < assoc ==> lines[i, w].flags == Invalid
      ensures numReads == 0 && readMisses == 0 && numWrites == 0 && writeMisses == 0
      ensures writeBacks == 0 && memoryTransactions == 0 && cacheToCacheTransfers == 0 && currentCycle == 0
    {
      size, assoc, lineSize := s, a, b;
      sets := s / b / a;
      lines := new Line[s / b / a, a]((i, w) => Line(Invalid, 0, 0));
      numReads, readMisses, numWrites, writeMisses := 0, 0, 0, 0;
      writeBacks, memoryTransactions, cacheToCacheTransfers, currentCycle := 0, 0, 0, 0;
      new;
      assert forall i :: 0 <= i < sets ==> RowOk(Grid()[i], 0) by {
        forall i | 0 <= i < sets ensures RowOk(Grid()[i], 0) {
          assert forall w :: 0 <= w < assoc ==> !Present(Grid()[i][w].flags);
        }
      }
    }

    /** The line accessors (setFlags, setTag, setSeq) overwrite one slot of the grid. */
    method SetLine(i: nat, w: nat, l: Line)
      requires Geometry() && i < sets && w < assoc
      modifies lines
      ensures Grid() == old(Grid())[i := old(Grid())[i][w := l]]
    {
      lines[i, w] := l;
      assert forall r :: 0 <= r < sets ==> Grid()[r] == old(Grid())[i := old(Grid())[i][w := l]][r];
    }

    /** findLine: the lowest valid way of set calcIndex(addr) with tag calcTag(addr); changes nothing. */
    method FindLine(addr: nat) returns (way: Option<nat>)
      requires Geometry()
      ensures way == FirstMatch(Grid()[CalcIndex(addr)], CalcTag(addr))
    {
      var tag := CalcTag(addr);
      var i := CalcIndex(addr);
      var pos := assoc;
      var j := 0;
      while j < assoc
        invariant 0 <= j <= assoc && pos == assoc
        invariant forall k :: 0 <= k < j ==> !Matches(Grid()[i][k], tag)
      {
        if lines[i, j].flags != Invalid && lines[i, j].tag == tag {
          pos := j;
          break;
        }
        j := j + 1;
      }
      if pos == assoc {
        way := None;
      } else {
        way := Some(pos);
      }
    }

    /** updateLRU: the line becomes the most recently used one. */
    method UpdateLRU(i: nat, w: nat)
      requires Valid() && i < sets && w < assoc
      modifies lines
      ensures Valid()
      ensures Grid() == old(Grid())[i := old(Grid())[i][w := old(Grid())[i][w].(stamp := currentCycle)]]
    {
      RestampOk(Grid(), i, w, currentCycle);
      SetLine(i, w, lines[i, w].(stamp := currentCycle));
    }

    /** getLRU: the replacement victim of the set of `addr`; the source's assert never fails. */
    method GetLRU(addr: nat) returns (victim: nat)
      requires Valid()
      ensures victim < assoc && IsVictim(Grid()[CalcIndex(addr)], currentCycle, victim)
    {
      var i := CalcIndex(addr);
      ghost var row := Grid()[i];
      var j := 0;
      while j < assoc
        invariant 0 <= j <= assoc
        invariant forall k :: 0 <= k < j ==> Present(row[k].flags)
      {
        assert row[j] == lines[i, j];
        if lines[i, j].flags == Invalid {
          assert HasInvalid(row);
          return j;
        }
        j := j + 1;
      }
      assert !HasInvalid(row);
      victim := assoc;
      var min := currentCycle;
      j := 0;
      while j < assoc
        invariant 0 <= j <= assoc && min <= currentCycle
        invariant victim == assoc || (victim < j && min == row[victim].stamp)
        invariant forall k :: 0 <= k < j ==> min <= row[k].stamp
        invariant forall k :: victim < k < j ==> min < row[k].stamp
        invariant victim == assoc ==> min == currentCycle && forall k :: 0 <= k < j ==> row[k].stamp > currentCycle
      {
        assert row[j] == lines[i, j];
        if lines[i, j].stamp <= min {
          victim := j;
          min := lines[i, j].stamp;
        }
        j := j + 1;
      }
      assert victim != assoc by {
        assert RowOk(row, currentCycle);
        assert row[0].stamp <= currentCycle;
      }
    }

    /** findLineToReplace: the victim, already stamped as most recently used. */
    method FindLineToReplace(addr: nat) returns (victim: nat)
      requires Valid()
      modifies lines
      ensures Valid()
      ensures victim < assoc && IsVictim(old(Grid())[CalcIndex(addr)], currentCycle, victim)
      ensures var i := CalcIndex(addr);
              Grid() == old(Grid())[i := old(Grid())[i][victim := old(Grid())[i][victim].(stamp := currentCycle)]]
    {
      victim := GetLRU(addr);
      UpdateLRU(CalcIndex(addr), victim);
    }

    /** writeBack (cache.h): counts one writeback; no data moves. */
    method WriteBack(addr: nat)
      requires Valid()
      modifies this`writeBacks
      ensures Valid() && writeBacks == old(writeBacks) + 1
      ensures Grid() == old(Grid()) && currentCycle == old(currentCycle)
    {
      writeBacks := writeBacks + 1;
    }

    /**
     * fillLine, called on a miss: the LRU victim is stamped, written back if
     * dirty, and takes the new tag with the placeholder flags.
     */
    method FillLine(addr: nat) returns (victim: nat)
      requires Valid() && Held(addr) == Invalid
      modifies this`writeBacks, lines
      ensures Valid()
      ensures victim < assoc && IsVictim(old(Grid())[CalcIndex(addr)], currentCycle, victim)
      ensures writeBacks == old(writeBacks) + if Dirty(old(Grid())[CalcIndex(addr)][victim].flags) then 1 else 0
      ensures var i := CalcIndex(addr);
              Grid() == old(Grid())[i := old(Grid())[i][victim := Line(Flags.Valid, CalcTag(addr), currentCycle)]]
      ensures FirstMatch(Grid()[CalcIndex(addr)], CalcTag(addr)) == Some(victim)
    {
      var i := CalcIndex(addr);
      ghost var g0 := Grid();
      victim := FindLineToReplace(addr);
      var f := lines[i, victim].flags;
      if f == Modified || f == SharedModified {
        WriteBack(addr);
      }
      var tag := CalcTag(addr);
      ghost var g1 := Grid();
      StampKeepsLookup(g0[i], victim, currentCycle, tag);
      InstallOk(g1, i, victim, Line(Flags.Valid, tag, currentCycle), currentCycle);
      SetLine(i, victim, Line(Flags.Valid, tag, currentCycle));
      assert g1[i][victim := Line(Flags.Valid, tag, currentCycle)] == g0[i][victim := Line(Flags.Valid, tag, currentCycle)];
    }

    /** The line for `addr` gets flags f (a responder's or the access's own setFlags). */
    method SetFlags(addr: nat, w: nat, f: Flags)
      requires Geometry() && Present(f) && FirstMatch(Grid()[CalcIndex(addr)], CalcTag(addr)) == Some(w)
      modifies lines
      ensures old(Valid()) ==> Valid()
      ensures Grid() == Relabel(old(Grid()), CalcIndex(addr), CalcTag(addr), f)
    {
      if Valid() {
        RelabelOk(Grid(), CalcIndex(addr), CalcTag(addr), f, currentCycle);
      }
      SetLine(CalcIndex(addr), w, lines[CalcIndex(addr), w].(flags := f));
    }

    /** The grid changed as a snoop of `kind` on `addr` changes it. */
    twostate predicate Snooped(addr: nat, kind: Snoop)
      reads lines
      requires Geometry()
    {
      Grid() == Answered(old(Grid()), this, addr, kind)
    }

    /** busRd(addr): this cache's answer to a peer's read snoop. */
    method SnoopBusRd(addr: nat) returns (ack: bool)
      requires Geometry()
      modifies lines
      ensures old(Valid()) ==> Valid()
      ensures Snooped(addr, ReadSnoop)
      ensures ack == BusRdReply(old(Held(addr))).ack
    {
      var line := FindLine(addr);
      RelabelSame(Grid(), CalcIndex(addr), CalcTag(addr));
      if line == None {
        return false;
      }
      var w := line.value;
      var f := lines[CalcIndex(addr), w].flags;
      if f == Exclusive {
        SetFlags(addr, w, SharedClean);
        return true;
      } else if f == Modified || f == SharedModified {
        SetFlags(addr, w, SharedModified);
        return true;
      } else if f == SharedClean {
        return true;
      } else {
        return false;
      }
    }

    /** busUpd(addr): this cache's answer to a peer's update snoop. */
    method SnoopBusUpd(addr: nat) returns (ack: bool)
      requires Geometry()
      modifies lines
      ensures old(Valid()) ==> Valid()
      ensures Snooped(addr, UpdateSnoop)
      ensures ack == BusUpdReply(old(Held(addr))).ack
    {
      var line := FindLine(addr);
      RelabelSame(Grid(), CalcIndex(addr), CalcTag(addr));
      if line == None {
        return false;
      }
      var w := line.value;
      var f := lines[CalcIndex(addr), w].flags;
      if f == SharedClean || f == SharedModified {
        SetFlags(addr, w, SharedClean);
        return true;
      } else {
        return false;
      }
    }

    /**
     * busRd(addr, cachesArray): every cache of the list answers, in list order
     * and without short-circuit; the answers are OR-ed into a flag seeded with false.
     */
    method BusRd(addr: nat, peers: seq<Cache>) returns (snoop: bool)
      requires forall k :: 0 <= k < |peers| ==> peers[k].Geometry()
      requires Disjoint(peers)
      modifies set k | 0 <= k < |peers| :: peers[k].lines
      ensures Grids(peers) == Snoops(old(Grids(peers)), peers, addr, ReadSnoop)
      ensures unchanged(this)
      ensures snoop == Protocol.Broadcast(HeldOf(old(Grids(peers)), peers, addr), ReadSnoop).snoop
    {
      ghost var before := Grids(peers);
      snoop := false;
      var i := 0;
      while i < |peers|
        invariant 0 <= i <= |peers|
        invariant Reached(peers, addr, ReadSnoop, before, i, snoop)
      {
        snoop := Visit(addr, peers, ReadSnoop, i, before, snoop);
        i := i + 1;
      }
      Broadcasted(peers, addr, ReadSnoop, before);
    }

    /** busUpd(addr, cachesArray): the same broadcast for the update snoop. */
    method BusUpd(addr: nat, peers: seq<Cache>) returns (snoop: bool)
      requires forall k :: 0 <= k < |peers| ==> peers[k].Geometry()
      requires Disjoint(peers)
      modifies set k | 0 <= k < |peers| :: peers[k].lines
      ensures Grids(peers) == Snoops(old(Grids(peers)), peers, addr, UpdateSnoop)
      ensures unchanged(this)
      ensures snoop == Protocol.Broadcast(HeldOf(old(Grids(peers)), peers, addr), UpdateSnoop).snoop
    {
      ghost var before := Grids(peers);
      snoop := false;
      var i := 0;
      while i < |peers|
        invariant 0 <= i <= |peers|
        invariant Reached(peers, addr, UpdateSnoop, before, i, snoop)
      {
        snoop := Visit(addr, peers, UpdateSnoop, i, before, snoop);
        i := i + 1;
      }
      Broadcasted(peers, addr, UpdateSnoop, before);
    }

    /**
     * Access(addr, op, cachesArray): one read or write ('w') by this cache,
     * entry `me` of the peer list, at the next tick of its clock.
     */
    method Access(addr: nat, op: char, peers: seq<Cache>, ghost me: nat) returns (ghost v: nat)
      requires Valid()
      requires forall k :: 0 <= k < |peers| ==> peers[k].Geometry()
      requires Disjoint(peers) && me < |peers| && peers[me] == this
      modifies this, set k | 0 <= k < |peers| :: peers[k].lines
      ensures Valid()
      ensures currentCycle == old(currentCycle) + 1
      ensures numWrites == old(numWrites) + (if op == 'w' then 1 else 0)
      ensures numReads == old(numReads) + (if op == 'w' then 0 else 1)
      ensures var miss := HeldOf(old(Grids(peers)), peers, addr)[me] == Invalid;
        writeMisses == old(writeMisses) + (if miss && op == 'w' then 1 else 0) &&
        readMisses == old(readMisses) + (if miss && op != 'w' then 1 else 0)
      ensures var hs := HeldOf(old(Grids(peers)), peers, addr);
        var miss, shared := hs[me] == Invalid, Protocol.Shared(hs, me);
        cacheToCacheTransfers == old(cacheToCacheTransfers) + (if miss && shared then 1 else 0) &&
        memoryTransactions == old(memoryTransactions) + (if miss && !shared then 1 else 0)
      ensures Serves(old(Grids(peers)), Grids(peers), peers, me, addr, op == 'w')
      ensures v < assoc
      ensures var row := old(Grids(peers))[me][CalcIndex(addr)];
        if HeldOf(old(Grids(peers)), peers, addr)[me] == Invalid then
          IsVictim(row, currentCycle, v) && writeBacks == old(writeBacks) + (if Dirty(row[v].flags) then 1 else 0) &&
          Grids(peers) == MissGrids(old(Grids(peers)), peers, me, addr, op == 'w', currentCycle, v)
        else
          FirstMatch(row, CalcTag(addr)) == Some(v) && writeBacks == old(writeBacks) &&
          Grids(peers) == HitGrids(old(Grids(peers)), peers, me, addr, op == 'w', currentCycle, v)
    {
      ghost var gs: seq<seq<seq<Line>>> := Grids(peers);
      assert forall k :: 0 <= k < |peers| ==> peers[k].lines as object != this;
      var line := FindLine(addr);
      var miss := line == None;
      assert miss <==> HeldOf(gs, peers, addr)[me] == Invalid;
      Count(op == 'w', miss, peers);
      if miss {
        v := Miss(addr, op == 'w', peers, me);
      } else {
        v := line.value;
        Hit(addr, line.value, op == 'w', peers, me);
      }
    }

    /**
     * The miss branch of Access: fillLine, busRd, on a shared write busUpd,
     * the traffic counter, then setFlags on the new line.
     */
    method Miss(addr: nat, write: bool, peers: seq<Cache>, ghost me: nat) returns (victim: nat)
      requires Valid() && Held(addr) == Invalid
      requires forall k :: 0 <= k < |peers| ==> peers[k].Geometry()
      requires Disjoint(peers) && me < |peers| && peers[me] == this
      modifies this`writeBacks, this`cacheToCacheTransfers, this`memoryTransactions
      modifies set k | 0 <= k < |peers| :: peers[k].lines
      ensures Valid()
      ensures victim < assoc && IsVictim(old(Grids(peers))[me][CalcIndex(addr)], currentCycle, victim)
      ensures writeBacks == old(writeBacks) + if Dirty(old(Grids(peers))[me][CalcIndex(addr)][victim].flags) then 1 else 0
      ensures currentCycle == old(currentCycle) && numReads == old(numReads) && numWrites == old(numWrites) &&
        readMisses == old(readMisses) && writeMisses == old(writeMisses)
      ensures Grids(peers) == MissGrids(old(Grids(peers)), peers, me, addr, write, currentCycle, victim)
      ensures Serves(old(Grids(peers)), Grids(peers), peers, me, addr, write)
      ensures var shared := Protocol.Shared(HeldOf(old(Grids(peers)), peers, addr), me);
        cacheToCacheTransfers == old(cacheToCacheTransfers) + (if shared then 1 else 0) &&
        memoryTransactions == old(memoryTransactions) + (if shared then 0 else 1)
    {
      var snoop;
      victim, snoop := MissIn(peers, me, this, addr, write);
      Tally(snoop, peers);
    }

    /**
     * The bookkeeping at the head of Access: the clock ticks, the access is
     * counted as a read or a write, and a miss as a read or write miss.
     */
    method Count(write: bool, miss: bool, ghost peers: seq<Cache>)
      requires Valid()
      requires forall k :: 0 <= k < |peers| ==> peers[k].Geometry()
      modifies this`currentCycle, this`numWrites, this`numReads, this`writeMisses, this`readMisses
      ensures Valid() && Grids(peers) == old(Grids(peers))
      ensures writeBacks == old(writeBacks) && cacheToCacheTransfers == old(cacheToCacheTransfers) &&
        memoryTransactions == old(memoryTransactions)
      ensures currentCycle == old(currentCycle) + 1
      ensures numWrites == old(numWrites) + (if write then 1 else 0)
      ensures numReads == old(numReads) + (if write then 0 else 1)
      ensures writeMisses == old(writeMisses) + (if miss && write then 1 else 0)
      ensures readMisses == old(readMisses) + (if miss && !write then 1 else 0)
    {
      currentCycle, numWrites, numReads, writeMisses, readMisses :=
        currentCycle + 1, numWrites + (if write then 1 else 0), numReads + (if write then 0 else 1),
        writeMisses + (if miss && write then 1 else 0), readMisses + (if miss && !write then 1 else 0);
      LaterOk(Grid(), old(currentCycle), currentCycle);
    }

    /** The traffic counter a miss feeds: a cache-to-cache transfer when another cache answered the busRd, else a memory transaction. */
    method Tally(snoop: bool, ghost peers: seq<Cache>)
      requires Valid()
      requires forall k :: 0 <= k < |peers| ==> peers[k].Geometry()
      modifies this`cacheToCacheTransfers, this`memoryTransactions
      ensures Valid() && Grids(peers) == old(Grids(peers))
      ensures currentCycle == old(currentCycle) && writeBacks == old(writeBacks)
      ensures numReads == old(numReads) && numWrites == old(numWrites) &&
        readMisses == old(readMisses) && writeMisses == old(writeMisses)
      ensures cacheToCacheTransfers == old(cacheToCacheTransfers) + (if snoop then 1 else 0)
      ensures memoryTransactions == old(memoryTransactions) + (if snoop then 0 else 1)
    {
      if snoop {
        cacheToCacheTransfers := cacheToCacheTransfers + 1;
      } else {
        memoryTransactions := memoryTransactions + 1;
      }
    }

    /**
     * The hit branch of Access: updateLRU, and on a write the line becomes
     * Modified, after a busUpd unless it was Exclusive or Modified already.
     */
    method Hit(addr: nat, w: nat, write: bool, peers: seq<Cache>, ghost me: nat)
      requires Valid() && FirstMatch(Grid()[CalcIndex(addr)], CalcTag(addr)) == Some(w)
      requires forall k :: 0 <= k < |peers| ==> peers[k].Geometry()
      requires Disjoint(peers) && me < |peers| && peers[me] == this
      modifies set k | 0 <= k < |peers| :: peers[k].lines
      ensures Valid()
      ensures writeBacks == old(writeBacks) && cacheToCacheTransfers == old(cacheToCacheTransfers) &&
        memoryTransactions == old(memoryTransactions)
      ensures currentCycle == old(currentCycle) && numReads == old(numReads) && numWrites == old(numWrites) &&
        readMisses == old(readMisses) && writeMisses == old(writeMisses)
      ensures Grids(peers) == HitGrids(old(Grids(peers)), peers, me, addr, write, currentCycle, w)
      ensures Serves(old(Grids(peers)), Grids(peers), peers, me, addr, write)
    {
      ghost var gs := Grids(peers);
      var i := CalcIndex(addr);
      StampKeepsLookup(gs[me][i], w, currentCycle, CalcTag(addr));
      StampIn(peers, me, this, addr, w);
      if write {
        var f := lines[i, w].flags;
        if f == Exclusive {
          SettleIn(peers, me, this, addr, w, Modified);
        } else if f != Modified {
          UpgradeIn(peers, me, this, addr, w);
        }
      }
      HitServes(gs, Grids(peers), peers, me, addr, write, currentCycle, w);
    }

    /** The responder a broadcast of `kind` calls: snoopBusRd or snoopBusUpd. */
    method Answer(addr: nat, kind: Snoop) returns (ack: bool)
      requires Geometry()
      modifies lines
      ensures Snooped(addr, kind)
      ensures ack == Respond(kind, old(Held(addr))).ack
    {
      if kind == ReadSnoop {
        ack := SnoopBusRd(addr);
      } else {
        ack := SnoopBusUpd(addr);
      }
    }
  }

  /**
   * A broadcast of `kind` that started on the grids `before` has reached
   * position i: the first i caches have answered, the others are untouched,
   * and `snoop` is the OR of the first i answers.
   */
  ghost predicate Reached(peers: seq<Cache>, addr: nat, kind: Snoop, before: seq<seq<seq<Line>>>, i: nat, snoop: bool)
    reads set k | 0 <= k < |peers| :: peers[k].lines
  {
    Shaped(before, peers) && i <= |peers| &&
    Grids(peers) == Partial(before, peers, addr, kind, i) &&
    snoop == Protocol.Run(HeldOf(before, peers, addr), i, kind).snoop
  }

  /** One step of a broadcast: cache i answers the snoop and its answer is OR-ed in. */
  method Visit(addr: nat, peers: seq<Cache>, kind: Snoop, i: nat, ghost before: seq<seq<seq<Line>>>, snoop: bool) returns (snoop': bool)
    requires Disjoint(peers) && i < |peers| && Reached(peers, addr, kind, before, i, snoop)
    modifies peers[i].lines
    ensures Reached(peers, addr, kind, before, i + 1, snoop')
  {
    ghost var now := Grids(peers);
    var ack := peers[i].Answer(addr, kind);
    snoop' := ack || snoop;
    forall k | 0 <= k < |peers| && k != i ensures peers[k].Grid() == now[k] {
      assert peers[k].lines != peers[i].lines;
    }
    assert Grids(peers) == now[i := Answered(now[i], peers[i], addr, kind)];
    PartialStep(before, peers, addr, kind, i);
  }

  /** The peer list holds each cache once: no two entries share a grid. */
  predicate Disjoint(peers: seq<Cache>)
  {
    forall j, k :: 0 <= j < |peers| && 0 <= k < |peers| && j != k ==> peers[j].lines != peers[k].lines
  }

  /** Every cache's grid, in list order. */
  ghost function Grids(peers: seq<Cache>): (gs: seq<seq<seq<Line>>>)
    reads set k | 0 <= k < |peers| :: peers[k].lines
    requires forall k :: 0 <= k < |peers| ==> peers[k].Geometry()
    ensures Shaped(gs, peers)
    ensures forall k :: 0 <= k < |peers| ==> gs[k] == peers[k].Grid()
  {
    seq(|peers|, k requires 0 <= k < |peers| && peers[k].Geometry() reads set j | 0 <= j < |peers| :: peers[j].lines =>
      peers[k].Grid())
  }

  /** `gs` holds one grid per cache of the list, of that cache's shape. */
  predicate Shaped(gs: seq<seq<seq<Line>>>, peers: seq<Cache>)
  {
    |gs| == |peers| &&
    forall k :: 0 <= k < |peers| ==> peers[k].Geometry() && |gs[k]| == peers[k].sets
  }

  /** What every cache of the list holds for the block of `addr`, given their grids. */
  function HeldOf(gs: seq<seq<seq<Line>>>, peers: seq<Cache>, addr: nat): (hs: seq<Flags>)
    requires Shaped(gs, peers)
    ensures |hs| == |peers|
    ensures forall k :: 0 <= k < |peers| ==> hs[k] == Storage.Held(gs[k], peers[k].CalcIndex(addr), peers[k].CalcTag(addr))
  {
    seq(|peers|, k requires 0 <= k < |peers| && Shaped(gs, peers) =>
      Storage.Held(gs[k], peers[k].CalcIndex(addr), peers[k].CalcTag(addr)))
  }

  /** Grid g of cache c after it answered a snoop of `kind` on `addr`. */
  function Answered(g: seq<seq<Line>>, c: Cache, addr: nat, kind: Snoop): (r: seq<seq<Line>>)
    requires c.Geometry() && |g| == c.sets
    ensures |r| == |g|
  {
    Relabel(g, c.CalcIndex(addr), c.CalcTag(addr), Respond(kind, Storage.Held(g, c.CalcIndex(addr), c.CalcTag(addr))).next)
  }

  /** Every cache's grid after the first n of the list have answered a snoop of `kind` on `addr`. */
  function Partial(gs: seq<seq<seq<Line>>>, peers: seq<Cache>, addr: nat, kind: Snoop, n: nat): (r: seq<seq<seq<Line>>>)
    requires Shaped(gs, peers) && n <= |peers|
    ensures Shaped(r, peers)
    ensures forall k :: 0 <= k < |peers| ==> r[k] == if k < n then Answered(gs[k], peers[k], addr, kind) else gs[k]
  {
    seq(|peers|, k requires 0 <= k < |peers| && Shaped(gs, peers) =>
      if k < n then Answered(gs[k], peers[k], addr, kind) else gs[k])
  }

  /** One more answer updates exactly the grid of the next cache of the list. */
  lemma PartialStep(gs: seq<seq<seq<Line>>>, peers: seq<Cache>, addr: nat, kind: Snoop, n: nat)
    requires Shaped(gs, peers) && n < |peers|
    ensures Partial(gs, peers, addr, kind, n + 1) ==
      Partial(gs, peers, addr, kind, n)[n := Answered(gs[n], peers[n], addr, kind)]
  {
  }

  /** Every cache's grid after each has answered a snoop of `kind` on `addr`. */
  function Snoops(gs: seq<seq<seq<Line>>>, peers: seq<Cache>, addr: nat, kind: Snoop): (r: seq<seq<seq<Line>>>)
    requires Shaped(gs, peers)
    ensures Shaped(r, peers)
    ensures forall k :: 0 <= k < |peers| ==> r[k] == Answered(gs[k], peers[k], addr, kind)
  {
    seq(|peers|, k requires 0 <= k < |peers| && Shaped(gs, peers) => Answered(gs[k], peers[k], addr, kind))
  }

  /**
   * After a broadcast each cache holds the block as its responder says (the
   * broadcast's outcome) and every other block as before.
   */
  lemma SnoopsHeld(gs: seq<seq<seq<Line>>>, peers: seq<Cache>, addr: nat, kind: Snoop)
    requires Shaped(gs, peers)
    ensures HeldOf(Snoops(gs, peers, addr, kind), peers, addr) == Protocol.Broadcast(HeldOf(gs, peers, addr), kind).states
    ensures forall a, k :: 0 <= k < |peers| && !peers[k].SameBlock(a, addr) ==>
      HeldOf(Snoops(gs, peers, addr, kind), peers, a)[k] == HeldOf(gs, peers, a)[k]
  {
    var hs := HeldOf(gs, peers, addr);
    var r := Snoops(gs, peers, addr, kind);
    Protocol.BroadcastSpec(hs, kind);
    forall a, k | 0 <= k < |peers|
      ensures HeldOf(r, peers, a)[k] == if peers[k].SameBlock(a, addr) then Respond(kind, hs[k]).next else HeldOf(gs, peers, a)[k]
    {
      var c := peers[k];
      RelabelHeld(gs[k], c.CalcIndex(addr), c.CalcTag(addr), Respond(kind, hs[k]).next, c.CalcIndex(a), c.CalcTag(a));
    }
  }

  /** A broadcast that has reached the end of the list has left every cache with its snooped grid. */
  lemma Broadcasted(peers: seq<Cache>, addr: nat, kind: Snoop, before: seq<seq<seq<Line>>>)
    requires Shaped(before, peers)
    requires Reached(peers, addr, kind, before, |peers|, Protocol.Broadcast(HeldOf(before, peers, addr), kind).snoop)
    ensures Grids(peers) == Snoops(before, peers, addr, kind)
  {
  }

  /** Answering a snoop keeps every grid invariant: still one line per block, no stamp from the future. */
  lemma SnoopsOk(gs: seq<seq<seq<Line>>>, peers: seq<Cache>, addr: nat, kind: Snoop, k: nat, now: nat)
    requires Shaped(gs, peers) && k < |peers| && GridOk(gs[k], now)
    ensures GridOk(Snoops(gs, peers, addr, kind)[k], now)
  {
    var c := peers[k];
    var i, t := c.CalcIndex(addr), c.CalcTag(addr);
    RelabelOk(gs[k], i, t, Respond(kind, Storage.Held(gs[k], i, t)).next, now);
  }

  /** A snoop of `kind` on `addr` changes the block of `addr` as the responder says, and no other block. */
  lemma AnsweredHeld(g: seq<seq<Line>>, c: Cache, addr: nat, kind: Snoop, i2: nat, t2: nat)
    requires c.Geometry() && |g| == c.sets && i2 < |g|
    ensures Storage.Held(Answered(g, c, addr, kind), i2, t2) ==
      if i2 == c.CalcIndex(addr) && t2 == c.CalcTag(addr) then Respond(kind, Storage.Held(g, i2, t2)).next
      else Storage.Held(g, i2, t2)
  {
    var i, t := c.CalcIndex(addr), c.CalcTag(addr);
    RelabelHeld(g, i, t, Respond(kind, Storage.Held(g, i, t)).next, i2, t2);
  }

  /** Relabelling a block to the flags it ends up holding is the same relabelling. */
  lemma RelabelToHeld(g: seq<seq<Line>>, i: nat, t: nat, f: Flags)
    requires i < |g| && (Present(f) || Storage.Held(g, i, t) == Invalid)
    ensures Relabel(g, i, t, f) == Relabel(g, i, t, Storage.Held(Relabel(g, i, t, f), i, t))
  {
    RelabelHeld(g, i, t, f, i, t);
  }

  /** All caches of the list split addresses into sets and tags alike. */
  ghost predicate SameGeometry(peers: seq<Cache>)
  {
    forall j, k :: 0 <= j < |peers| && 0 <= k < |peers| ==>
      peers[j].sets == peers[k].sets && peers[j].lineSize == peers[k].lineSize
  }

  /** Every block is coherent across the caches of the list, given their grids. */
  ghost predicate CoherentGrids(gs: seq<seq<seq<Line>>>, peers: seq<Cache>)
    requires Shaped(gs, peers)
  {
    forall a: nat :: Protocol.Coherent(HeldOf(gs, peers, a))
  }

  /**
   * Caches as the constructor leaves them, every line invalid, hold no block
   * and so are coherent: AccessCoherent then keeps every later state coherent.
   */
  lemma InitCoherent(gs: seq<seq<seq<Line>>>, peers: seq<Cache>)
    requires Shaped(gs, peers)
    requires forall k, i, w :: 0 <= k < |gs| && 0 <= i < |gs[k]| && 0 <= w < |gs[k][i]| ==> gs[k][i][w].flags == Invalid
    ensures forall a: nat, k :: 0 <= k < |peers| ==> HeldOf(gs, peers, a)[k] == Invalid
    ensures CoherentGrids(gs, peers)
  {
    forall a: nat, k | 0 <= k < |peers| ensures HeldOf(gs, peers, a)[k] == Invalid {
      var c := peers[k];
      assert FirstMatch(gs[k][c.CalcIndex(a)], c.CalcTag(a)).None?;
    }
  }

  /** Replacing one cache's grid changes only that cache's entry of the block's vector. */
  lemma HeldOfPut(gs: seq<seq<seq<Line>>>, peers: seq<Cache>, addr: nat, me: nat, g: seq<seq<Line>>)
    requires Shaped(gs, peers) && me < |peers| && |g| == peers[me].sets
    ensures Shaped(gs[me := g], peers)
    ensures HeldOf(gs[me := g], peers, addr) ==
      HeldOf(gs, peers, addr)[me := Storage.Held(g, peers[me].CalcIndex(addr), peers[me].CalcTag(addr))]
  {
  }

  /** fillLine in cache `me`: way v of the set of `addr` takes the block with the placeholder flags. */
  function Fill(gs: seq<seq<seq<Line>>>, peers: seq<Cache>, me: nat, addr: nat, now: nat, v: nat): (r: seq<seq<seq<Line>>>)
    requires Shaped(gs, peers) && me < |peers| && v < |gs[me][peers[me].CalcIndex(addr)]|
    ensures Shaped(r, peers)
  {
    var c := peers[me];
    var i := c.CalcIndex(addr);
    gs[me := gs[me][i := gs[me][i][v := Line(Flags.Valid, c.CalcTag(addr), now)]]]
  }

  /** updateLRU in cache `me`: way w of the set of `addr` gets the stamp `now`. */
  function Stamp(gs: seq<seq<seq<Line>>>, peers: seq<Cache>, me: nat, addr: nat, now: nat, w: nat): (r: seq<seq<seq<Line>>>)
    requires Shaped(gs, peers) && me < |peers| && w < |gs[me][peers[me].CalcIndex(addr)]|
    ensures Shaped(r, peers)
  {
    var i := peers[me].CalcIndex(addr);
    gs[me := gs[me][i := gs[me][i][w := gs[me][i][w].(stamp := now)]]]
  }

  /** setFlags by cache `me` on its own line for `addr`. */
  function Settle(gs: seq<seq<seq<Line>>>, peers: seq<Cache>, me: nat, addr: nat, f: Flags): (r: seq<seq<seq<Line>>>)
    requires Shaped(gs, peers) && me < |peers|
    ensures Shaped(r, peers)
  {
    var c := peers[me];
    gs[me := Relabel(gs[me], c.CalcIndex(addr), c.CalcTag(addr), f)]
  }

  /** After fillLine the accessing cache holds the placeholder for the block; nobody else changes. */
  lemma FillHeld(gs: seq<seq<seq<Line>>>, peers: seq<Cache>, me: nat, addr: nat, now: nat, v: nat)
    requires Shaped(gs, peers) && me < |peers|
    requires var i := peers[me].CalcIndex(addr); v < |gs[me][i]| && UniqueTags(gs[me][i])
    requires HeldOf(gs, peers, addr)[me] == Invalid
    ensures HeldOf(Fill(gs, peers, me, addr, now, v), peers, addr) == HeldOf(gs, peers, addr)[me := Flags.Valid]
  {
    var c := peers[me];
    var i, t := c.CalcIndex(addr), c.CalcTag(addr);
    var l := Line(Flags.Valid, t, now);
    InstallHeld(gs[me], i, v, l, i, t);
    HeldOfPut(gs, peers, addr, me, gs[me][i := gs[me][i][v := l]]);
  }

  /** updateLRU changes no cache's state for any block. */
  lemma StampHeld(gs: seq<seq<seq<Line>>>, peers: seq<Cache>, me: nat, addr: nat, now: nat, w: nat, b: nat)
    requires Shaped(gs, peers) && me < |peers| && w < |gs[me][peers[me].CalcIndex(addr)]|
    ensures HeldOf(Stamp(gs, peers, me, addr, now, w), peers, b) == HeldOf(gs, peers, b)
  {
    var c := peers[me];
    var i := c.CalcIndex(addr);
    RestampHeld(gs[me], i, w, now, c.CalcIndex(b), c.CalcTag(b));
    HeldOfPut(gs, peers, b, me, gs[me][i := gs[me][i][w := gs[me][i][w].(stamp := now)]]);
  }

  /** setFlags gives the accessing cache's copy the flags f; nobody else changes. */
  lemma SettleHeld(gs: seq<seq<seq<Line>>>, peers: seq<Cache>, me: nat, addr: nat, f: Flags)
    requires Shaped(gs, peers) && me < |peers| && Present(f) && HeldOf(gs, peers, addr)[me] != Invalid
    ensures HeldOf(Settle(gs, peers, me, addr, f), peers, addr) == HeldOf(gs, peers, addr)[me := f]
  {
    var c := peers[me];
    var i, t := c.CalcIndex(addr), c.CalcTag(addr);
    RelabelHeld(gs[me], i, t, f, i, t);
    HeldOfPut(gs, peers, addr, me, Relabel(gs[me], i, t, f));
  }

  /** The flags an access's own setFlags gives the line on a miss, from the busRd answer. */
  function MissFlags(write: bool, snoop: bool): (f: Flags)
    ensures Holds(f) && (Dirty(f) <==> write) && (Sole(f) <==> !snoop)
  {
    if write then (if snoop then SharedModified else Modified) else (if snoop then SharedClean else Exclusive)
  }

  /**
   * The grids after the broadcasts of a miss of cache `me` on `addr`: busRd,
   * and on a write that another cache answered, busUpd.
   */
  function Fetched(gs: seq<seq<seq<Line>>>, peers: seq<Cache>, addr: nat, write: bool): (r: seq<seq<seq<Line>>>)
    requires Shaped(gs, peers)
    ensures Shaped(r, peers)
  {
    var rd := Snoops(gs, peers, addr, ReadSnoop);
    if write && Protocol.Broadcast(HeldOf(gs, peers, addr), ReadSnoop).snoop then Snoops(rd, peers, addr, UpdateSnoop)
    else rd
  }

  /** The grids after a write hit on a shared line of cache `me`: busUpd, then the line becomes SharedModified or Modified. */
  function Upgraded(gs: seq<seq<seq<Line>>>, peers: seq<Cache>, me: nat, addr: nat): (r: seq<seq<seq<Line>>>)
    requires Shaped(gs, peers) && me < |peers|
    ensures Shaped(r, peers)
  {
    var upd := Protocol.Broadcast(HeldOf(gs, peers, addr), UpdateSnoop).snoop;
    Settle(Snoops(gs, peers, addr, UpdateSnoop), peers, me, addr, if upd then SharedModified else Modified)
  }

  /**
   * The grids of the peer list after a miss of cache `me` on `addr` at clock
   * `now`: way v of the set takes the placeholder, the broadcasts run, and
   * the line gets the flags the busRd answer decides.
   */
  ghost function MissGrids(gs: seq<seq<seq<Line>>>, peers: seq<Cache>, me: nat, addr: nat, write: bool, now: nat, v: nat): (r: seq<seq<seq<Line>>>)
    requires Shaped(gs, peers) && me < |peers| && v < |gs[me][peers[me].CalcIndex(addr)]|
    ensures Shaped(r, peers)
  {
    var filled := Fill(gs, peers, me, addr, now, v);
    var rd := Protocol.Broadcast(HeldOf(filled, peers, addr), ReadSnoop).snoop;
    Settle(Fetched(filled, peers, addr, write), peers, me, addr, MissFlags(write, rd))
  }

  /**
   * The grids of the peer list after a hit of cache `me` on way w: the line
   * is stamped, and a write makes it Modified, broadcasting busUpd first
   * unless it was Exclusive or Modified already.
   */
  ghost function HitGrids(gs: seq<seq<seq<Line>>>, peers: seq<Cache>, me: nat, addr: nat, write: bool, now: nat, w: nat): (r: seq<seq<seq<Line>>>)
    requires Shaped(gs, peers) && me < |peers| && w < |gs[me][peers[me].CalcIndex(addr)]|
    ensures Shaped(r, peers)
  {
    var f := gs[me][peers[me].CalcIndex(addr)][w].flags;
    var stamped := Stamp(gs, peers, me, addr, now, w);
    if !write || f == Modified then stamped
    else if f == Exclusive then Settle(stamped, peers, me, addr, Modified)
    else Upgraded(stamped, peers, me, addr)
  }

  /**
   * The grids of the peer list after cache `me` accesses `addr` at clock `now`
   * (Cache::Access); v is the way a miss fills.
   */
  ghost function AccessGrids(gs: seq<seq<seq<Line>>>, peers: seq<Cache>, me: nat, addr: nat, write: bool, now: nat, v: nat): (r: seq<seq<seq<Line>>>)
    requires Shaped(gs, peers) && me < |peers| && v < |gs[me][peers[me].CalcIndex(addr)]|
    ensures Shaped(r, peers)
  {
    var c := peers[me];
    match FirstMatch(gs[me][c.CalcIndex(addr)], c.CalcTag(addr))
    case None => MissGrids(gs, peers, me, addr, write, now, v)
    case Some(w) => HitGrids(gs, peers, me, addr, write, now, w)
  }

  /** On a miss the block moves across the caches exactly as the protocol's step says. */
  lemma MissHeld(gs: seq<seq<seq<Line>>>, peers: seq<Cache>, me: nat, addr: nat, write: bool, now: nat, v: nat)
    requires Shaped(gs, peers) && me < |peers|
    requires var i := peers[me].CalcIndex(addr); v < |gs[me][i]| && UniqueTags(gs[me][i])
    requires HeldOf(gs, peers, addr)[me] == Invalid
    ensures HeldOf(AccessGrids(gs, peers, me, addr, write, now, v), peers, addr) ==
      Protocol.Step(HeldOf(gs, peers, addr), me, write)
  {
    var hs := HeldOf(gs, peers, addr);
    var filled := Fill(gs, peers, me, addr, now, v);
    FillHeld(gs, peers, me, addr, now, v);
    var rd := Protocol.Broadcast(hs[me := Flags.Valid], ReadSnoop);
    Protocol.BroadcastSpec(hs[me := Flags.Valid], ReadSnoop);
    var s1 := Snoops(filled, peers, addr, ReadSnoop);
    SnoopsHeld(filled, peers, addr, ReadSnoop);
    if write && rd.snoop {
      var s2 := Snoops(s1, peers, addr, UpdateSnoop);
      SnoopsHeld(s1, peers, addr, UpdateSnoop);
      Protocol.BroadcastSpec(rd.states, UpdateSnoop);
      SettleHeld(s2, peers, me, addr, MissFlags(write, rd.snoop));
    } else {
      SettleHeld(s1, peers, me, addr, MissFlags(write, rd.snoop));
    }
  }

  /** On a hit the block moves across the caches exactly as the protocol's step says. */
  lemma HitHeld(gs: seq<seq<seq<Line>>>, peers: seq<Cache>, me: nat, addr: nat, write: bool, now: nat, v: nat)
    requires Shaped(gs, peers) && me < |peers| && v < |gs[me][peers[me].CalcIndex(addr)]|
    requires HeldOf(gs, peers, addr)[me] != Invalid
    ensures HeldOf(AccessGrids(gs, peers, me, addr, write, now, v), peers, addr) ==
      Protocol.Step(HeldOf(gs, peers, addr), me, write)
  {
    var c := peers[me];
    var i, t := c.CalcIndex(addr), c.CalcTag(addr);
    var hs := HeldOf(gs, peers, addr);
    var w := FirstMatch(gs[me][i], t).value;
    var stamped := Stamp(gs, peers, me, addr, now, w);
    StampHeld(gs, peers, me, addr, now, w, addr);
    if write && hs[me] == Exclusive {
      SettleHeld(stamped, peers, me, addr, Modified);
    } else if write && hs[me] != Modified {
      var upd := Protocol.Broadcast(hs, UpdateSnoop);
      var s := Snoops(stamped, peers, addr, UpdateSnoop);
      SnoopsHeld(stamped, peers, addr, UpdateSnoop);
      Protocol.BroadcastSpec(hs, UpdateSnoop);
      SettleHeld(s, peers, me, addr, if upd.snoop then SharedModified else Modified);
    }
  }

  /** Every access moves the block of `addr` as the protocol's step says. */
  lemma AccessHeld(gs: seq<seq<seq<Line>>>, peers: seq<Cache>, me: nat, addr: nat, write: bool, now: nat, v: nat)
    requires Shaped(gs, peers) && me < |peers|
    requires var i := peers[me].CalcIndex(addr); v < |gs[me][i]| && UniqueTags(gs[me][i])
    ensures HeldOf(AccessGrids(gs, peers, me, addr, write, now, v), peers, addr) ==
      Protocol.Step(HeldOf(gs, peers, addr), me, write)
  {
    if HeldOf(gs, peers, addr)[me] == Invalid {
      MissHeld(gs, peers, me, addr, write, now, v);
    } else {
      HitHeld(gs, peers, me, addr, write, now, v);
    }
  }

  /**
   * Block `a` is the one way v of the set of `addr` held in cache `me` before
   * fillLine: the block a fill of `addr` into way v evicts.
   */
  ghost predicate Evicted(gs: seq<seq<seq<Line>>>, peers: seq<Cache>, me: nat, addr: nat, v: nat, a: nat)
    requires Shaped(gs, peers) && me < |peers|
  {
    var c := peers[me];
    c.CalcIndex(a) == c.CalcIndex(addr) && FirstMatch(gs[me][c.CalcIndex(addr)], c.CalcTag(a)) == Some(v)
  }

  /** A fill evicts at most one block: any two evicted addresses lie in the same block. */
  lemma EvictedUnique(gs: seq<seq<seq<Line>>>, peers: seq<Cache>, me: nat, addr: nat, v: nat, a1: nat, a2: nat)
    requires Shaped(gs, peers) && me < |peers|
    requires Evicted(gs, peers, me, addr, v, a1) && Evicted(gs, peers, me, addr, v, a2)
    ensures peers[me].SameBlock(a1, a2)
  {
    var c := peers[me];
    var row := gs[me][c.CalcIndex(addr)];
    assert row[v].tag == c.CalcTag(a1) && row[v].tag == c.CalcTag(a2);
  }

  /** fillLine may evict one other block from the accessing cache, and touches no other cache. */
  lemma FillElsewhere(gs: seq<seq<seq<Line>>>, peers: seq<Cache>, me: nat, addr: nat, now: nat, v: nat, a: nat, k: nat)
    requires Shaped(gs, peers) && me < |peers| && k < |peers|
    requires var i := peers[me].CalcIndex(addr); v < |gs[me][i]| && UniqueTags(gs[me][i])
    requires HeldOf(gs, peers, addr)[me] == Invalid && !peers[k].SameBlock(a, addr)
    ensures var h := HeldOf(Fill(gs, peers, me, addr, now, v), peers, a)[k];
      h == HeldOf(gs, peers, a)[k] || (k == me && h == Invalid && Evicted(gs, peers, me, addr, v, a))
  {
    var c := peers[me];
    var i, t := c.CalcIndex(addr), c.CalcTag(addr);
    InstallHeld(gs[me], i, v, Line(Flags.Valid, t, now), c.CalcIndex(a), c.CalcTag(a));
  }

  /** The accessing cache's setFlags changes no other block. */
  lemma SettleElsewhere(gs: seq<seq<seq<Line>>>, peers: seq<Cache>, me: nat, addr: nat, f: Flags, a: nat, k: nat)
    requires Shaped(gs, peers) && me < |peers| && k < |peers| && Present(f) && !peers[k].SameBlock(a, addr)
    ensures HeldOf(Settle(gs, peers, me, addr, f), peers, a)[k] == HeldOf(gs, peers, a)[k]
  {
    var c := peers[me];
    RelabelHeld(gs[me], c.CalcIndex(addr), c.CalcTag(addr), f, c.CalcIndex(a), c.CalcTag(a));
  }

  /** A miss changes no other block in the other caches and at most evicts one from the accessing cache. */
  lemma MissElsewhere(gs: seq<seq<seq<Line>>>, peers: seq<Cache>, me: nat, addr: nat, write: bool, now: nat, v: nat, a: nat, k: nat)
    requires Shaped(gs, peers) && me < |peers| && k < |peers|
    requires var i := peers[me].CalcIndex(addr); v < |gs[me][i]| && UniqueTags(gs[me][i])
    requires HeldOf(gs, peers, addr)[me] == Invalid && !peers[k].SameBlock(a, addr)
    ensures var h := HeldOf(AccessGrids(gs, peers, me, addr, write, now, v), peers, a)[k];
      h == HeldOf(gs, peers, a)[k] || (k == me && h == Invalid && Evicted(gs, peers, me, addr, v, a))
  {
    var filled := Fill(gs, peers, me, addr, now, v);
    FillElsewhere(gs, peers, me, addr, now, v, a, k);
    var rd := Protocol.Broadcast(HeldOf(filled, peers, addr), ReadSnoop).snoop;
    var s1 := Snoops(filled, peers, addr, ReadSnoop);
    SnoopsHeld(filled, peers, addr, ReadSnoop);
    if write && rd {
      SnoopsHeld(s1, peers, addr, UpdateSnoop);
      SettleElsewhere(Snoops(s1, peers, addr, UpdateSnoop), peers, me, addr, MissFlags(write, rd), a, k);
    } else {
      SettleElsewhere(s1, peers, me, addr, MissFlags(write, rd), a, k);
    }
  }

  /** A hit changes no other block in any cache. */
  lemma HitElsewhere(gs: seq<seq<seq<Line>>>, peers: seq<Cache>, me: nat, addr: nat, write: bool, now: nat, v: nat, a: nat, k: nat)
    requires Shaped(gs, peers) && me < |peers| && k < |peers| && v < |gs[me][peers[me].CalcIndex(addr)]|
    requires HeldOf(gs, peers, addr)[me] != Invalid && !peers[k].SameBlock(a, addr)
    ensures HeldOf(AccessGrids(gs, peers, me, addr, write, now, v), peers, a)[k] == HeldOf(gs, peers, a)[k]
  {
    var c := peers[me];
    var i, t := c.CalcIndex(addr), c.CalcTag(addr);
    var hs := HeldOf(gs, peers, addr);
    var w := FirstMatch(gs[me][i], t).value;
    var stamped := Stamp(gs, peers, me, addr, now, w);
    StampHeld(gs, peers, me, addr, now, w, a);
    if write && hs[me] == Exclusive {
      SettleElsewhere(stamped, peers, me, addr, Modified, a, k);
    } else if write && hs[me] != Modified {
      var upd := Protocol.Broadcast(HeldOf(stamped, peers, addr), UpdateSnoop).snoop;
      SnoopsHeld(stamped, peers, addr, UpdateSnoop);
      SettleElsewhere(Snoops(stamped, peers, addr, UpdateSnoop), peers, me, addr, if upd then SharedModified else Modified, a, k);
    }
  }

  /**
   * An access changes no other block in the other caches, and at most evicts
   * one (on a miss) from the accessing cache.
   */
  lemma AccessElsewhere(gs: seq<seq<seq<Line>>>, peers: seq<Cache>, me: nat, addr: nat, write: bool, now: nat, v: nat, a: nat, k: nat)
    requires Shaped(gs, peers) && me < |peers| && k < |peers|
    requires var i := peers[me].CalcIndex(addr); v < |gs[me][i]| && UniqueTags(gs[me][i])
    requires !peers[k].SameBlock(a, addr)
    ensures var h := HeldOf(AccessGrids(gs, peers, me, addr, write, now, v), peers, a)[k];
      h == HeldOf(gs, peers, a)[k] || (k == me && h == Invalid && Evicted(gs, peers, me, addr, v, a))
  {
    if HeldOf(gs, peers, addr)[me] == Invalid {
      MissElsewhere(gs, peers, me, addr, write, now, v, a, k);
    } else {
      HitElsewhere(gs, peers, me, addr, write, now, v, a, k);
    }
  }

  /** One snoop leaves the grid relabelled to what it now holds for the block. */
  lemma AnsweredOnce(g: seq<seq<Line>>, c: Cache, addr: nat, kind: Snoop)
    requires c.Geometry() && |g| == c.sets
    ensures var i, t := c.CalcIndex(addr), c.CalcTag(addr);
      Answered(g, c, addr, kind) == Relabel(g, i, t, Storage.Held(Answered(g, c, addr, kind), i, t))
  {
    var i, t := c.CalcIndex(addr), c.CalcTag(addr);
    RelabelToHeld(g, i, t, Respond(kind, Storage.Held(g, i, t)).next);
  }

  /** Two snoops leave the grid relabelled to what it finally holds for the block. */
  lemma AnsweredTwice(g: seq<seq<Line>>, c: Cache, addr: nat, k1: Snoop, k2: Snoop)
    requires c.Geometry() && |g| == c.sets
    ensures var i, t := c.CalcIndex(addr), c.CalcTag(addr);
      var r := Answered(Answered(g, c, addr, k1), c, addr, k2);
      r == Relabel(g, i, t, Storage.Held(r, i, t))
  {
    var i, t := c.CalcIndex(addr), c.CalcTag(addr);
    var f1 := Respond(k1, Storage.Held(g, i, t)).next;
    var g1 := Answered(g, c, addr, k1);
    AnsweredHeld(g, c, addr, k1, i, t);
    var f2 := Respond(k2, Storage.Held(g1, i, t)).next;
    RelabelTwice(g, i, t, f1, f2);
    RelabelToHeld(g, i, t, f2);
  }

  /** Every other cache's grid changes only in the flags of the block's line, to what the vector says. */
  lemma AccessRelabel(gs: seq<seq<seq<Line>>>, peers: seq<Cache>, me: nat, addr: nat, write: bool, now: nat, v: nat, k: nat)
    requires Shaped(gs, peers) && me < |peers| && k < |peers| && k != me
    requires v < |gs[me][peers[me].CalcIndex(addr)]|
    ensures var r := AccessGrids(gs, peers, me, addr, write, now, v);
      r[k] == Relabel(gs[k], peers[k].CalcIndex(addr), peers[k].CalcTag(addr), HeldOf(r, peers, addr)[k])
  {
    var c := peers[me];
    var i, t := c.CalcIndex(addr), c.CalcTag(addr);
    var hs := HeldOf(gs, peers, addr);
    if hs[me] == Invalid {
      var filled := Fill(gs, peers, me, addr, now, v);
      var rd := Protocol.Broadcast(HeldOf(filled, peers, addr), ReadSnoop).snoop;
      if write && rd {
        AnsweredTwice(gs[k], peers[k], addr, ReadSnoop, UpdateSnoop);
      } else {
        AnsweredOnce(gs[k], peers[k], addr, ReadSnoop);
      }
    } else {
      var w := FirstMatch(gs[me][i], t).value;
      AnsweredOnce(gs[k], peers[k], addr, UpdateSnoop);
      RelabelSame(gs[k], peers[k].CalcIndex(addr), peers[k].CalcTag(addr));
    }
  }

  /** Every other cache keeps its grid invariant through an access. */
  lemma AccessOk(gs: seq<seq<seq<Line>>>, peers: seq<Cache>, me: nat, addr: nat, write: bool, now: nat, v: nat, k: nat, n: nat)
    requires Shaped(gs, peers) && me < |peers| && k < |peers| && k != me
    requires var i := peers[me].CalcIndex(addr); v < |gs[me][i]| && UniqueTags(gs[me][i])
    requires GridOk(gs[k], n)
    ensures GridOk(AccessGrids(gs, peers, me, addr, write, now, v)[k], n)
  {
    var r := AccessGrids(gs, peers, me, addr, write, now, v);
    AccessHeld(gs, peers, me, addr, write, now, v);
    Protocol.StepOthers(HeldOf(gs, peers, addr), me, write, k);
    AccessRelabel(gs, peers, me, addr, write, now, v, k);
    RelabelOk(gs[k], peers[k].CalcIndex(addr), peers[k].CalcTag(addr), HeldOf(r, peers, addr)[k], n);
  }

  /**
   * Caches that split addresses alike stay coherent through an access: the
   * accessed block moves by the protocol's step, which keeps it coherent, and
   * every other block at most loses a copy.
   */
  lemma AccessCoherent(gs: seq<seq<seq<Line>>>, peers: seq<Cache>, me: nat, addr: nat, write: bool, now: nat, v: nat)
    requires Shaped(gs, peers) && me < |peers| && SameGeometry(peers)
    requires var i := peers[me].CalcIndex(addr); v < |gs[me][i]| && UniqueTags(gs[me][i])
    requires CoherentGrids(gs, peers)
    ensures CoherentGrids(AccessGrids(gs, peers, me, addr, write, now, v), peers)
  {
    var r := AccessGrids(gs, peers, me, addr, write, now, v);
    forall a: nat ensures Protocol.Coherent(HeldOf(r, peers, a)) {
      var before, after := HeldOf(gs, peers, a), HeldOf(r, peers, a);
      if peers[me].SameBlock(a, addr) {
        assert after == HeldOf(r, peers, addr);
        assert before == HeldOf(gs, peers, addr);
        AccessHeld(gs, peers, me, addr, write, now, v);
        Protocol.StepCoherent(before, me, write);
      } else {
        forall k | 0 <= k < |peers| ensures after[k] == before[k] || after[k] == Invalid {
          AccessElsewhere(gs, peers, me, addr, write, now, v, a, k);
        }
        Protocol.ShrinkCoherent(after, before);
      }
    }
  }

  /**
   * What an access does, seen from the protocol: the block's vector moves by
   * one protocol step, every other cache keeps its grid invariant, and caches
   * that split addresses alike stay coherent.
   */
  lemma AccessFacts(gs: seq<seq<seq<Line>>>, r: seq<seq<seq<Line>>>, peers: seq<Cache>, me: nat, addr: nat, write: bool, now: nat, v: nat)
    requires Shaped(gs, peers) && me < |peers|
    requires var i := peers[me].CalcIndex(addr); v < |gs[me][i]| && UniqueTags(gs[me][i])
    requires r == AccessGrids(gs, peers, me, addr, write, now, v)
    ensures Shaped(r, peers)
    ensures HeldOf(r, peers, addr) == Protocol.Step(HeldOf(gs, peers, addr), me, write)
    ensures forall k, n :: 0 <= k < |peers| && k != me && GridOk(gs[k], n) ==> GridOk(r[k], n)
    ensures SameGeometry(peers) && CoherentGrids(gs, peers) ==> CoherentGrids(r, peers)
  {
    AccessHeld(gs, peers, me, addr, write, now, v);
    forall k, n | 0 <= k < |peers| && k != me && GridOk(gs[k], n) ensures GridOk(r[k], n) {
      AccessOk(gs, peers, me, addr, write, now, v, k, n);
    }
    if SameGeometry(peers) && CoherentGrids(gs, peers) {
      AccessCoherent(gs, peers, me, addr, write, now, v);
    }
  }

  /** A snoop finds the placeholder of an access in progress and leaves it as it is. */
  lemma AnsweredPlaceholder(g: seq<seq<Line>>, c: Cache, addr: nat, kind: Snoop)
    requires c.Geometry() && |g| == c.sets && Storage.Held(g, c.CalcIndex(addr), c.CalcTag(addr)) == Flags.Valid
    ensures Answered(g, c, addr, kind) == g
  {
    RelabelSame(g, c.CalcIndex(addr), c.CalcTag(addr));
  }

  /**
   * Grids `before` became `after` as cache `me` served an access to `addr`:
   * the block moved by one protocol step, every other cache kept its grid
   * invariant, and a list of caches that split addresses alike stayed coherent.
   */
  ghost predicate Serves(before: seq<seq<seq<Line>>>, after: seq<seq<seq<Line>>>, peers: seq<Cache>, me: nat, addr: nat, write: bool)
  {
    Shaped(before, peers) && Shaped(after, peers) && me < |peers| &&
    HeldOf(after, peers, addr) == Protocol.Step(HeldOf(before, peers, addr), me, write) &&
    (forall k, n :: 0 <= k < |peers| && k != me && GridOk(before[k], n) ==> GridOk(after[k], n)) &&
    (SameGeometry(peers) && CoherentGrids(before, peers) ==> CoherentGrids(after, peers))
  }

  /** The grids a miss leaves behind serve the access. */
  lemma MissServes(gs: seq<seq<seq<Line>>>, after: seq<seq<seq<Line>>>, peers: seq<Cache>, me: nat, addr: nat, write: bool, now: nat, v: nat)
    requires Shaped(gs, peers) && me < |peers| && HeldOf(gs, peers, addr)[me] == Invalid
    requires var i := peers[me].CalcIndex(addr); v < |gs[me][i]| && UniqueTags(gs[me][i])
    requires after == MissGrids(gs, peers, me, addr, write, now, v)
    ensures Serves(gs, after, peers, me, addr, write)
  {
    AccessFacts(gs, after, peers, me, addr, write, now, v);
  }

  /** The grids a hit on way w leaves behind serve the access. */
  lemma HitServes(gs: seq<seq<seq<Line>>>, after: seq<seq<seq<Line>>>, peers: seq<Cache>, me: nat, addr: nat, write: bool, now: nat, w: nat)
    requires Shaped(gs, peers) && me < |peers|
    requires var i := peers[me].CalcIndex(addr); FirstMatch(gs[me][i], peers[me].CalcTag(addr)) == Some(w) && UniqueTags(gs[me][i])
    requires after == HitGrids(gs, peers, me, addr, write, now, w)
    ensures Serves(gs, after, peers, me, addr, write)
  {
    AccessFacts(gs, after, peers, me, addr, write, now, w);
  }

  /**
   * The accessing cache's own copy after an access it served: dirty after any
   * write; on a miss SharedClean/SharedModified exactly when another cache held
   * the block, else Exclusive/Modified; a read hit changes no cache's state.
   */
  lemma ServesLocal(before: seq<seq<seq<Line>>>, after: seq<seq<seq<Line>>>, peers: seq<Cache>, me: nat, addr: nat, write: bool)
    requires Serves(before, after, peers, me, addr, write)
    ensures var h, h' := HeldOf(before, peers, addr), HeldOf(after, peers, addr);
      (write ==> Dirty(h'[me])) &&
      (!write && h[me] != Invalid ==> h' == h) &&
      (h[me] == Invalid ==> h'[me] == MissFlags(write, Protocol.Shared(h, me))) &&
      (write && (h[me] == SharedClean || h[me] == SharedModified) ==> h'[me] == SharedModified)
  {
    Protocol.StepLocal(HeldOf(before, peers, addr), me, write);
  }

  /** setFlags by cache `me` on its line for `addr`, seen from the whole list. */
  method SettleIn(peers: seq<Cache>, ghost me: nat, c: Cache, addr: nat, w: nat, f: Flags)
    requires forall k :: 0 <= k < |peers| ==> peers[k].Geometry()
    requires Disjoint(peers) && me < |peers| && peers[me] == c && Present(f)
    requires FirstMatch(c.Grid()[c.CalcIndex(addr)], c.CalcTag(addr)) == Some(w)
    modifies c.lines
    ensures old(c.Valid()) ==> c.Valid()
    ensures unchanged(c)
    ensures Grids(peers) == Settle(old(Grids(peers)), peers, me, addr, f)
  {
    ghost var gs := Grids(peers);
    c.SetFlags(addr, w, f);
    forall k | 0 <= k < |peers| && k != me ensures peers[k].Grid() == gs[k] {
      assert peers[k].lines != c.lines;
    }
    assert Grids(peers) == Settle(gs, peers, me, addr, f);
  }

  /** fillLine by cache `me`, seen from the whole list. */
  method FillIn(peers: seq<Cache>, ghost me: nat, c: Cache, addr: nat) returns (victim: nat)
    requires forall k :: 0 <= k < |peers| ==> peers[k].Geometry()
    requires Disjoint(peers) && me < |peers| && peers[me] == c && c.Valid() && c.Held(addr) == Invalid
    modifies c`writeBacks, c.lines
    ensures c.Valid()
    ensures c.cacheToCacheTransfers == old(c.cacheToCacheTransfers) && c.memoryTransactions == old(c.memoryTransactions)
    ensures c.currentCycle == old(c.currentCycle) && c.numReads == old(c.numReads) && c.numWrites == old(c.numWrites) &&
      c.readMisses == old(c.readMisses) && c.writeMisses == old(c.writeMisses)
    ensures victim < c.assoc && IsVictim(old(c.Grid())[c.CalcIndex(addr)], c.currentCycle, victim)
    ensures FirstMatch(c.Grid()[c.CalcIndex(addr)], c.CalcTag(addr)) == Some(victim)
    ensures c.writeBacks == old(c.writeBacks) + if Dirty(old(c.Grid())[c.CalcIndex(addr)][victim].flags) then 1 else 0
    ensures Grids(peers) == Fill(old(Grids(peers)), peers, me, addr, c.currentCycle, victim)
  {
    ghost var gs := Grids(peers);
    victim := c.FillLine(addr);
    forall k | 0 <= k < |peers| && k != me ensures peers[k].Grid() == gs[k] {
      assert peers[k].lines != peers[me].lines;
    }
    assert Grids(peers) == Fill(gs, peers, me, addr, peers[me].currentCycle, victim);
  }

  /** updateLRU by cache `me` on its line for `addr`, seen from the whole list. */
  method StampIn(peers: seq<Cache>, ghost me: nat, c: Cache, addr: nat, w: nat)
    requires forall k :: 0 <= k < |peers| ==> peers[k].Geometry()
    requires Disjoint(peers) && me < |peers| && peers[me] == c && c.Valid() && w < c.assoc
    modifies c.lines
    ensures c.Valid()
    ensures unchanged(c)
    ensures Grids(peers) == Stamp(old(Grids(peers)), peers, me, addr, c.currentCycle, w)
  {
    ghost var gs := Grids(peers);
    c.UpdateLRU(c.CalcIndex(addr), w);
    forall k | 0 <= k < |peers| && k != me ensures peers[k].Grid() == gs[k] {
      assert peers[k].lines != c.lines;
    }
    assert Grids(peers) == Stamp(gs, peers, me, addr, c.currentCycle, w);
  }

  /** busUpd by cache `me` for its line for `addr`, then setFlags on that line with the answer. */
  method UpgradeIn(peers: seq<Cache>, ghost me: nat, c: Cache, addr: nat, w: nat)
    requires forall k :: 0 <= k < |peers| ==> peers[k].Geometry()
    requires Disjoint(peers) && me < |peers| && peers[me] == c && c.Valid()
    requires FirstMatch(c.Grid()[c.CalcIndex(addr)], c.CalcTag(addr)) == Some(w)
    modifies set k | 0 <= k < |peers| :: peers[k].lines
    ensures c.Valid()
    ensures unchanged(c)
    ensures Grids(peers) == Upgraded(old(Grids(peers)), peers, me, addr)
  {
    ghost var gs: seq<seq<seq<Line>>> := Grids(peers);
    ghost var i: nat, t: nat := c.CalcIndex(addr), c.CalcTag(addr);
    var snoop := c.BusUpd(addr, peers);
    SnoopsOk(gs, peers, addr, UpdateSnoop, me, c.currentCycle);
    FlagsKeepLookup(gs[me][i], w, Respond(UpdateSnoop, gs[me][i][w].flags).next, t);
    assert FirstMatch(c.Grid()[i], t) == Some(w);
    SettleIn(peers, me, c, addr, w, if snoop then SharedModified else Modified);
  }

  /** busRd by cache `me`, which holds the placeholder for `addr`, and on a shared write busUpd. */
  method FetchIn(peers: seq<Cache>, ghost me: nat, c: Cache, addr: nat, write: bool) returns (snoop: bool)
    requires forall k :: 0 <= k < |peers| ==> peers[k].Geometry()
    requires Disjoint(peers) && me < |peers| && peers[me] == c && c.Held(addr) == Flags.Valid
    modifies set k | 0 <= k < |peers| :: peers[k].lines
    ensures c.Grid() == old(c.Grid())
    ensures unchanged(c)
    ensures Grids(peers) == Fetched(old(Grids(peers)), peers, addr, write)
    ensures snoop == Protocol.Broadcast(HeldOf(old(Grids(peers)), peers, addr), ReadSnoop).snoop
  {
    ghost var gs := Grids(peers);
    assert forall k :: 0 <= k < |peers| ==> peers[k].lines as object != c;
    snoop := c.BusRd(addr, peers);
    AnsweredPlaceholder(gs[me], c, addr, ReadSnoop);
    if write && snoop {
      ghost var rd := Grids(peers);
      var _ := c.BusUpd(addr, peers);
      AnsweredPlaceholder(rd[me], c, addr, UpdateSnoop);
    }
  }

  /** The grid side of a miss by cache `me`: fillLine, the broadcasts, and setFlags on the new line. */
  method MissIn(peers: seq<Cache>, ghost me: nat, c: Cache, addr: nat, write: bool) returns (victim: nat, snoop: bool)
    requires forall k :: 0 <= k < |peers| ==> peers[k].Geometry()
    requires Disjoint(peers) && me < |peers| && peers[me] == c && c.Valid() && c.Held(addr) == Invalid
    modifies c`writeBacks, set k | 0 <= k < |peers| :: peers[k].lines
    ensures c.Valid()
    ensures victim < c.assoc && IsVictim(old(Grids(peers))[me][c.CalcIndex(addr)], c.currentCycle, victim)
    ensures c.writeBacks == old(c.writeBacks) + if Dirty(old(Grids(peers))[me][c.CalcIndex(addr)][victim].flags) then 1 else 0
    ensures c.cacheToCacheTransfers == old(c.cacheToCacheTransfers) && c.memoryTransactions == old(c.memoryTransactions)
    ensures c.currentCycle == old(c.currentCycle) && c.numReads == old(c.numReads) && c.numWrites == old(c.numWrites) &&
      c.readMisses == old(c.readMisses) && c.writeMisses == old(c.writeMisses)
    ensures Grids(peers) == MissGrids(old(Grids(peers)), peers, me, addr, write, c.currentCycle, victim)
    ensures Serves(old(Grids(peers)), Grids(peers), peers, me, addr, write)
    ensures snoop <==> Protocol.Shared(HeldOf(old(Grids(peers)), peers, addr), me)
  {
    ghost var gs: seq<seq<seq<Line>>> := Grids(peers);
    ghost var hs := HeldOf(gs, peers, addr);
    victim := FillIn(peers, me, c, addr);
    FillHeld(gs, peers, me, addr, c.currentCycle, victim);
    Protocol.MissSnoop(hs, me);
    snoop := FetchIn(peers, me, c, addr, write);
    SettleIn(peers, me, c, addr, victim, MissFlags(write, snoop));
    MissServes(gs, Grids(peers), peers, me, addr, write, c.currentCycle, victim);
  }
}
