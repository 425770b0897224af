/**
 * The grid of lines as a value: `g[i]` is set i, `g[i][w]` its way w.
 * Lookup (Cache::findLine), the per-block state a grid holds, and the
 * point updates the cache makes to it.
 */
module Storage {
  import opened Wrappers
  import opened Coherence

  /** A valid line carrying the tag. */
  predicate Matches(l: Line, t: nat) { Present(l.flags) && l.tag == t }

  /** The lowest way at or after `j` whose line matches the tag. */
  function FindFrom(row: seq<Line>, t: nat, j: nat): (r: Option<nat>)
    requires j <= |row|
    decreases |row| - j
    ensures r.Some? ==> j <= r.value < |row| && Matches(row[r.value], t)
    ensures r.Some? ==> forall k :: j <= k < r.value ==> !Matches(row[k], t)
    ensures r.None? <==> forall k :: j <= k < |row| ==> !Matches(row[k], t)
  {
    if j == |row| then None
    else if Matches(row[j], t) then Some(j)
    else FindFrom(row, t, j + 1)
  }

  /** findLine within one set: the lowest matching way, None exactly when there is none. */
  function FirstMatch(row: seq<Line>, t: nat): (r: Option<nat>)
    ensures r.Some? ==> r.value < |row| && Matches(row[r.value], t)
    ensures r.Some? ==> forall k :: 0 <= k < r.value ==> !Matches(row[k], t)
    ensures r.None? <==> forall k :: 0 <= k < |row| ==> !Matches(row[k], t)
  {
    FindFrom(row, t, 0)
  }

  /** No two valid lines of a set carry the same tag. */
  ghost predicate UniqueTags(row: seq<Line>)
  {
    forall i, j :: 0 <= i < |row| && 0 <= j < |row| && Matches(row[i], row[j].tag) && Present(row[j].flags) ==> i == j
  }

  /** The invariant every set keeps: unique tags, no stamp ahead of the clock. */
  ghost predicate RowOk(row: seq<Line>, now: nat)
  {
    UniqueTags(row) && forall w :: 0 <= w < |row| ==> row[w].stamp <= now
  }

  ghost predicate GridOk(g: seq<seq<Line>>, now: nat)
  {
    forall i :: 0 <= i < |g| ==> RowOk(g[i], now)
  }

  /** The flags set i holds for tag t: those of its matching line, Invalid on a miss. */
  function Held(g: seq<seq<Line>>, i: nat, t: nat): (f: Flags)
    requires i < |g|
    ensures f == Invalid <==> FirstMatch(g[i], t).None?
  {
    match FirstMatch(g[i], t)
    case None => Invalid
    case Some(w) => g[i][w].flags
  }

  /** A snoop's effect on a grid: the line matching (i, t), if any, gets flags f. */
  function Relabel(g: seq<seq<Line>>, i: nat, t: nat, f: Flags): (r: seq<seq<Line>>)
    requires i < |g|
    ensures |r| == |g|
  {
    match FirstMatch(g[i], t)
    case None => g
    case Some(w) => g[i := g[i][w := g[i][w].(flags := f)]]
  }

  /**
   * A snoop touches at most one line, the one matching (i, t): it gets flags f
   * and keeps its tag and stamp; every other line and every other set is unchanged.
   */
  lemma RelabelKeeps(g: seq<seq<Line>>, i: nat, t: nat, f: Flags)
    requires i < |g|
    ensures forall i2 :: 0 <= i2 < |g| && i2 != i ==> Relabel(g, i, t, f)[i2] == g[i2]
    ensures |Relabel(g, i, t, f)[i]| == |g[i]|
    ensures forall w :: 0 <= w < |g[i]| ==>
              Relabel(g, i, t, f)[i][w].tag == g[i][w].tag && Relabel(g, i, t, f)[i][w].stamp == g[i][w].stamp
    ensures forall w :: 0 <= w < |g[i]| ==>
              Relabel(g, i, t, f)[i][w].flags == if FirstMatch(g[i], t) == Some(w) then f else g[i][w].flags
  {
  }

  /** Two rows that agree on validity and tags find the same line for every tag. */
  lemma SameKeys(a: seq<Line>, b: seq<Line>, t: nat)
    requires |a| == |b|
    requires forall k :: 0 <= k < |a| ==> Present(a[k].flags) == Present(b[k].flags) && a[k].tag == b[k].tag
    ensures FirstMatch(a, t) == FirstMatch(b, t)
  {
    assert forall k :: 0 <= k < |a| ==> Matches(a[k], t) == Matches(b[k], t);
  }

  /** Changing one valid line's flags to other valid flags keeps every lookup. */
  lemma FlagsKeepLookup(row: seq<Line>, w: nat, f: Flags, t: nat)
    requires w < |row| && Present(row[w].flags) && Present(f)
    ensures FirstMatch(row[w := row[w].(flags := f)], t) == FirstMatch(row, t)
  {
    SameKeys(row, row[w := row[w].(flags := f)], t);
  }

  /** Re-stamping a line keeps every lookup. */
  lemma StampKeepsLookup(row: seq<Line>, w: nat, s: nat, t: nat)
    requires w < |row|
    ensures FirstMatch(row[w := row[w].(stamp := s)], t) == FirstMatch(row, t)
  {
    SameKeys(row, row[w := row[w].(stamp := s)], t);
  }

  /** Rows that agree on which ways match t find the same line for t. */
  lemma SameMatches(a: seq<Line>, b: seq<Line>, t: nat)
    requires |a| == |b|
    requires forall k :: 0 <= k < |a| ==> Matches(a[k], t) == Matches(b[k], t)
    ensures FirstMatch(a, t) == FirstMatch(b, t)
  {
    if FirstMatch(a, t).Some? {
      assert Matches(b[FirstMatch(a, t).value], t);
    }
  }

  /**
   * A snoop changes the state held for its own (i, t), to f when the line is
   * there, and nothing else held in the grid.
   */
  lemma RelabelHeld(g: seq<seq<Line>>, i: nat, t: nat, f: Flags, i2: nat, t2: nat)
    requires i < |g| && i2 < |g|
    requires Present(f) || Held(g, i, t) == Invalid
    ensures |Relabel(g, i, t, f)| == |g|
    ensures Held(Relabel(g, i, t, f), i2, t2) ==
      if i2 == i && t2 == t && Held(g, i, t) != Invalid then f else Held(g, i2, t2)
  {
    var m := FirstMatch(g[i], t);
    if m.Some? && i2 == i {
      var row := g[i][m.value := g[i][m.value].(flags := f)];
      if t2 == t {
        FlagsKeepLookup(g[i], m.value, f, t2);
      } else {
        SameMatches(g[i], row, t2);
        var m2 := FirstMatch(g[i], t2);
        if m2.Some? {
          assert m2.value != m.value;
        }
      }
    }
  }

  /** A snoop keeps validity, tags and stamps, so the grid invariant holds on. */
  lemma RelabelOk(g: seq<seq<Line>>, i: nat, t: nat, f: Flags, now: nat)
    requires i < |g| && (Present(f) || Held(g, i, t) == Invalid) && GridOk(g, now)
    ensures GridOk(Relabel(g, i, t, f), now)
  {
    var m := FirstMatch(g[i], t);
    if m.Some? {
      var row := g[i][m.value := g[i][m.value].(flags := f)];
      assert RowOk(row, now) by {
        assert forall k :: 0 <= k < |row| ==> Present(row[k].flags) == Present(g[i][k].flags) && row[k].tag == g[i][k].tag;
      }
    }
  }

  /** Two snoops on the same line act as the second alone. */
  lemma RelabelTwice(g: seq<seq<Line>>, i: nat, t: nat, f1: Flags, f2: Flags)
    requires i < |g| && (Present(f1) || Held(g, i, t) == Invalid)
    ensures Relabel(Relabel(g, i, t, f1), i, t, f2) == Relabel(g, i, t, f2)
  {
    var m := FirstMatch(g[i], t);
    if m.Some? {
      var w := m.value;
      FlagsKeepLookup(g[i], w, f1, t);
      var g1: seq<seq<Line>> := g[i := g[i][w := g[i][w].(flags := f1)]];
      assert g1[i][w := g1[i][w].(flags := f2)] == g[i][w := g[i][w].(flags := f2)];
    }
  }

  /** Relabelling a line with the flags it already has changes nothing. */
  lemma RelabelSame(g: seq<seq<Line>>, i: nat, t: nat)
    requires i < |g|
    ensures Relabel(g, i, t, Held(g, i, t)) == g
  {
    var m := FirstMatch(g[i], t);
    if m.Some? {
      assert g[i][m.value := g[i][m.value].(flags := Held(g, i, t))] == g[i];
    }
  }

  /**
   * Installing tag t in way v of a set that misses on t (fillLine): the set now
   * finds t at v, keeps unique tags, and every other tag is found as before,
   * unless its line was the one overwritten.
   */
  lemma Install(row: seq<Line>, v: nat, l: Line, t2: nat)
    requires v < |row| && UniqueTags(row) && Present(l.flags)
    requires FirstMatch(row, l.tag).None?
    ensures FirstMatch(row[v := l], l.tag) == Some(v)
    ensures UniqueTags(row[v := l])
    ensures t2 != l.tag ==>
              FirstMatch(row[v := l], t2) == (if FirstMatch(row, t2) == Some(v) then None else FirstMatch(row, t2))
  {
    var nr := row[v := l];
    assert Matches(nr[v], l.tag);
    if t2 != l.tag {
      var m := FirstMatch(row, t2);
      if m == Some(v) {
        assert forall k :: 0 <= k < |nr| ==> !Matches(nr[k], t2);
      } else if m.Some? {
        assert Matches(nr[m.value], t2);
        assert forall k :: 0 <= k < m.value ==> !Matches(nr[k], t2);
      } else {
        assert forall k :: 0 <= k < |nr| ==> !Matches(nr[k], t2);
      }
    }
  }

  /** Installing a line for a block the set lacks (fillLine) keeps the grid invariant. */
  lemma InstallOk(g: seq<seq<Line>>, i: nat, v: nat, l: Line, now: nat)
    requires i < |g| && v < |g[i]| && GridOk(g, now) && Present(l.flags) && l.stamp <= now
    requires FirstMatch(g[i], l.tag).None?
    ensures GridOk(g[i := g[i][v := l]], now)
    ensures FirstMatch(g[i := g[i][v := l]][i], l.tag) == Some(v)
  {
    Install(g[i], v, l, 0);
    assert RowOk(g[i][v := l], now);
  }

  /** Stamping a line with the clock keeps the grid invariant. */
  lemma RestampOk(g: seq<seq<Line>>, i: nat, w: nat, now: nat)
    requires i < |g| && w < |g[i]| && GridOk(g, now)
    ensures GridOk(g[i := g[i][w := g[i][w].(stamp := now)]], now)
  {
    var row := g[i][w := g[i][w].(stamp := now)];
    assert forall k :: 0 <= k < |row| ==> Present(row[k].flags) == Present(g[i][k].flags) && row[k].tag == g[i][k].tag;
    assert RowOk(row, now);
  }

  /** Installing a line (fillLine) as seen by every lookup of the grid: only the evicted block is lost. */
  lemma InstallHeld(g: seq<seq<Line>>, i: nat, v: nat, l: Line, i2: nat, t2: nat)
    requires i < |g| && v < |g[i]| && i2 < |g| && UniqueTags(g[i]) && Present(l.flags)
    requires FirstMatch(g[i], l.tag).None?
    ensures Held(g[i := g[i][v := l]], i2, t2) ==
      if i2 == i && t2 == l.tag then l.flags
      else if i2 == i && FirstMatch(g[i], t2) == Some(v) then Invalid
      else Held(g, i2, t2)
  {
    if i2 == i {
      Install(g[i], v, l, t2);
    }
  }

  /** Re-stamping a line (updateLRU) changes no lookup of the grid. */
  lemma RestampHeld(g: seq<seq<Line>>, i: nat, w: nat, s: nat, i2: nat, t2: nat)
    requires i < |g| && w < |g[i]| && i2 < |g|
    ensures Held(g[i := g[i][w := g[i][w].(stamp := s)]], i2, t2) == Held(g, i2, t2)
  {
    if i2 == i {
      StampKeepsLookup(g[i], w, s, t2);
    }
  }

  /** Advancing the clock keeps the grid invariant. */
  lemma LaterOk(g: seq<seq<Line>>, now: nat, later: nat)
    requires GridOk(g, now) && now <= later
    ensures GridOk(g, later)
  {
    forall i | 0 <= i < |g| ensures RowOk(g[i], later) {
      assert RowOk(g[i], now);
    }
  }
}
