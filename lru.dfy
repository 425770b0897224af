/**
 * The LRU victim of a set (Cache::getLRU): the first invalid way if there is
 * one; otherwise the way with the smallest stamp not ahead of the clock, the
 * highest such way among equal stamps (the scan replaces on `<=`).
 */
module Lru {
  import opened Coherence

  ghost predicate HasInvalid(row: seq<Line>)
  {
    exists j :: 0 <= j < |row| && !Present(row[j].flags)
  }

  /** getLRU picks way v of the set at clock `now`. */
  ghost predicate IsVictim(row: seq<Line>, now: nat, v: nat): (b: bool)
    ensures b ==> v < |row| && (HasInvalid(row) <==> !Present(row[v].flags))
  {
    v < |row| &&
    if HasInvalid(row) then
      !Present(row[v].flags) && forall j :: 0 <= j < v ==> Present(row[j].flags)
    else
      row[v].stamp <= now &&
      (forall j :: 0 <= j < |row| ==> row[v].stamp <= row[j].stamp) &&
      (forall j :: v < j < |row| ==> row[v].stamp < row[j].stamp)
  }

  /** The victim is determined by the set and the clock. */
  lemma VictimUnique(row: seq<Line>, now: nat, v1: nat, v2: nat)
    requires IsVictim(row, now, v1) && IsVictim(row, now, v2)
    ensures v1 == v2
  {
  }

  /** Way v holds the smallest stamp of the first n ways, and is the last way that does. */
  ghost predicate LastMinimum(row: seq<Line>, n: nat, v: nat)
    requires n <= |row|
  {
    v < n &&
    (forall j :: 0 <= j < n ==> row[v].stamp <= row[j].stamp) &&
    (forall j :: v < j < n ==> row[v].stamp < row[j].stamp)
  }

  lemma {:induction false} PrefixMinimum(row: seq<Line>, n: nat)
    requires 0 < n <= |row|
    ensures exists v :: LastMinimum(row, n, v)
  {
    if n > 1 {
      PrefixMinimum(row, n - 1);
      var v: nat :| LastMinimum(row, n - 1, v);
      if row[n - 1].stamp <= row[v].stamp {
        assert LastMinimum(row, n, n - 1);
      } else {
        assert LastMinimum(row, n, v);
      }
    } else {
      assert LastMinimum(row, n, 0);
    }
  }

  /** With at least one way and no stamp ahead of the clock, a victim always exists. */
  lemma VictimExists(row: seq<Line>, now: nat)
    requires |row| > 0
    requires forall j :: 0 <= j < |row| ==> row[j].stamp <= now
    ensures exists v :: IsVictim(row, now, v)
  {
    if HasInvalid(row) {
      var j :| 0 <= j < |row| && !Present(row[j].flags);
      var v := 0;
      while Present(row[v].flags)
        invariant v <= j
        invariant forall k :: 0 <= k < v ==> Present(row[k].flags)
        decreases j - v
      {
        v := v + 1;
      }
      assert IsVictim(row, now, v);
    } else {
      PrefixMinimum(row, |row|);
      var v: nat :| LastMinimum(row, |row|, v);
      assert IsVictim(row, now, v);
    }
  }
}
