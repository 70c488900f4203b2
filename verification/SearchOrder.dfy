/** The order in which a breadth-first search with fixed neighbour order takes the tiles: by the
    place of the first tile that leads to them, then east, south, west, north.  There is exactly
    one such order. */
module SearchOrder {
  import opened Model
  import opened Indexes
  import opened Paths

  /** Which side of tile `i` its neighbour `j` is on. */
  function Side(s: State, i: nat, j: nat): (r: nat)
    requires i < |s.tiles| && j < |s.tiles|
    ensures r < 4
  {
    var (a, b) := (s.tiles[i], s.tiles[j]);
    if b.x == a.x + 1 then 0 else if b.y == a.y + 1 then 1 else if b.x + 1 == a.x then 2 else 3
  }

  /** The first place in the list, from `k` on, from which one move leads to the tile. */
  ghost function ParentFrom(s: State, q: seq<nat>, tile: nat, k: nat): (r: nat)
    requires k <= |q|
    ensures k <= r <= |q| && (r < |q| ==> Step(s, q[r], tile))
    ensures forall i :: k <= i < r ==> !Step(s, q[i], tile)
    decreases |q| - k
  {
    if k == |q| || Step(s, q[k], tile) then k else ParentFrom(s, q, tile, k + 1)
  }

  /** What tiles are ranked by: the place they are first seen from, then the side. */
  ghost function Rank(s: State, q: seq<nat>, tile: nat): nat {
    var p := ParentFrom(s, q, tile, 0);
    if p < |q| then 4 * p + Side(s, q[p], tile) else 4 * |q|
  }

  /** Each tile after the start is seen from one before it, and ranks ascend. */
  ghost predicate Ranked(s: State, start: nat, q: seq<nat>) {
    && q != [] && q[0] == start && Distinct(q)
    && (forall b :: 0 < b < |q| ==> Rank(s, q, q[b]) < 4 * b)
    && (forall a, b :: 0 < a < b < |q| ==> Rank(s, q, q[a]) < Rank(s, q, q[b]))
  }

  /** Nothing is one move away from a listed tile and not listed. */
  ghost predicate Full(s: State, q: seq<nat>) {
    forall i: nat, j: nat :: i in q && Step(s, i, j) ==> j in q
  }

  ghost predicate IsOrder(s: State, start: nat, q: seq<nat>) {
    Ranked(s, start, q) && Full(s, q)
  }

  lemma SamePlaces(q: seq<nat>, r: seq<nat>, k: nat)
    requires k <= |q| && k <= |r| && q[..k] == r[..k]
    ensures forall i :: 0 <= i < k ==> q[i] == r[i]
  {
    forall i | 0 <= i < k ensures q[i] == r[i] {
      assert q[..k][i] == r[..k][i];
    }
  }

  /** A tile seen from the common beginning of two lists has the same rank in both. */
  lemma SameRank(s: State, q: seq<nat>, r: seq<nat>, k: nat, tile: nat)
    requires k <= |q| && k <= |r| && q[..k] == r[..k] && Rank(s, q, tile) < 4 * k
    ensures Rank(s, r, tile) == Rank(s, q, tile)
  {
    hide Step;
    hide Side;
    var p := ParentFrom(s, q, tile, 0);
    SamePlaces(q, r, k);
    assert p < k;
    var p' := ParentFrom(s, r, tile, 0);
    assert p' == p;
  }

  /** What is listed is what can be reached. */
  lemma OrderIsConnected(s: State, start: nat, q: seq<nat>, tile: nat)
    requires IsOrder(s, start, q)
    ensures tile in q <==> Connected(s, start, tile)
  {
    hide Rank;
    hide Step;
    if tile in q {
      var k :| 0 <= k < |q| && q[k] == tile;
      ListedIsConnected(s, start, q, k);
    }
    if moves: nat :| Reaches(s, start, tile, moves) {
      ClosedSetBound(s, Elements(q), start, tile, moves);
    }
  }

  lemma {:induction false} ListedIsConnected(s: State, start: nat, q: seq<nat>, k: nat)
    requires Ranked(s, start, q) && k < |q|
    ensures Connected(s, start, q[k])
  {
    hide Step;
    hide Side;
    if k == 0 {
      StayPut(s, start);
    } else {
      var p := ParentFrom(s, q, q[k], 0);
      assert Rank(s, q, q[k]) < 4 * k;
      ListedIsConnected(s, start, q, p);
      var moves: nat :| Reaches(s, start, q[p], moves);
      OneMoreMove(s, start, q[p], q[k], moves);
    }
  }

  lemma {:induction false} SameBeginning(s: State, start: nat, q: seq<nat>, r: seq<nat>, k: nat)
    requires IsOrder(s, start, q) && IsOrder(s, start, r) && k <= |q| && k <= |r|
    ensures q[..k] == r[..k]
  {
    hide Full;
    hide Rank;
    hide Connected;
    if k > 0 {
      SameBeginning(s, start, q, r, k - 1);
      if k > 1 {
        OrderIsConnected(s, start, q, q[k - 1]);
        OrderIsConnected(s, start, r, q[k - 1]);
        OrderIsConnected(s, start, q, r[k - 1]);
        OrderIsConnected(s, start, r, r[k - 1]);
        assert q[k - 1] in q && r[k - 1] in r;
        SameRank(s, q, r, k - 1, q[k - 1]);
        SameRank(s, r, q, k - 1, r[k - 1]);
        NextIsLeast(s, start, q, r, k - 1);
        NextIsLeast(s, start, r, q, k - 1);
      }
      assert q[..k] == q[..k - 1] + [q[k - 1]] && r[..k] == r[..k - 1] + [r[k - 1]];
    }
  }

  /** The next tile has the least rank of all that are still to come. */
  lemma NextIsLeast(s: State, start: nat, q: seq<nat>, r: seq<nat>, k: nat)
    requires Ranked(s, start, q) && Ranked(s, start, r) && 0 < k < |q| && k < |r| && q[..k] == r[..k] && r[k] in q
    ensures r[k] == q[k] || Rank(s, q, q[k]) < Rank(s, q, r[k])
  {
    hide Rank;
    SamePlaces(q, r, k);
    var m :| 0 <= m < |q| && q[m] == r[k];
    assert m >= k;
  }

  /** There is only one such order. */
  lemma OrderIsUnique(s: State, start: nat, q: seq<nat>, r: seq<nat>)
    requires IsOrder(s, start, q) && IsOrder(s, start, r)
    ensures q == r
  {
    if |q| <= |r| {
      NoLonger(s, start, q, r);
    } else {
      NoLonger(s, start, r, q);
    }
  }

  lemma NoLonger(s: State, start: nat, q: seq<nat>, r: seq<nat>)
    requires IsOrder(s, start, q) && IsOrder(s, start, r) && |q| <= |r|
    ensures q == r
  {
    hide Rank;
    hide Full;
    hide Connected;
    SameBeginning(s, start, q, r, |q|);
    SamePlaces(q, r, |q|);
    if |q| < |r| {
      OrderIsConnected(s, start, q, r[|q|]);
      OrderIsConnected(s, start, r, r[|q|]);
    }
  }
}
