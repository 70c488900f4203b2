/** The independent shortest-path oracle (the embedded module `navigation_oracle.rue`): repeated
    relaxation of every edge, in place, until a pass changes nothing.  It is proved to compute
    the same true distances as the breadth-first search. */
module NavigationOracle {
  import opened Model
  import opened Indexes
  import opened Paths
  import Navigation

  // ----- invariants -----

  /** A finite distance is the length of a path that visits no tile twice, along which no tile
      is recorded as farther than its position. */
  ghost predicate IsWitness(s: State, start: nat, distances: seq<nat>, i: nat, p: seq<nat>)
    requires i < |distances|
  {
    && IsPath(s, p, start, i) && |p| == distances[i] + 1
    && Distinct(p) && Below(p, |distances|)
    && forall k :: 0 <= k < |p| ==> distances[p[k]] <= k
  }

  ghost predicate Witnessed(s: State, start: nat, distances: seq<nat>, i: nat)
    requires i < |distances|
  {
    exists p: seq<nat> :: IsWitness(s, start, distances, i, p)
  }

  ghost predicate Sound(s: State, start: nat, distances: seq<nat>) {
    && |distances| == |s.tiles| < NONE && start < |distances| && distances[start] == 0
    && forall i :: 0 <= i < |distances| ==>
         distances[i] <= NONE && (distances[i] != NONE ==> Witnessed(s, start, distances, i))
  }

  /** Every path of at most `moves` moves is accounted for. */
  ghost predicate Settled(s: State, start: nat, distances: seq<nat>, moves: nat) {
    forall t: nat, k: nat :: k <= moves && Reaches(s, start, t, k) ==> t < |distances| && distances[t] <= k
  }

  /** The distances before a pass, plus one, have reached the neighbours of the first `count` tiles. */
  ghost predicate Passed(s: State, before: seq<nat>, after: seq<nat>, count: nat)
    requires |before| == |after| == |s.tiles| && count <= |before|
  {
    forall i: nat, j: nat :: i < count && Step(s, i, j) ==> after[j] <= before[i] + 1
  }

  ghost predicate NoFarther(before: seq<nat>, after: seq<nat>) {
    |before| == |after| && forall i :: 0 <= i < |before| ==> after[i] <= before[i]
  }

  lemma NoFartherChain(a: seq<nat>, b: seq<nat>, c: seq<nat>)
    requires NoFarther(a, b) && NoFarther(b, c)
    ensures NoFarther(a, c)
    ensures a == c ==> a == b && b == c
  {
    if a == c {
      forall i | 0 <= i < |a| ensures a[i] == b[i] {
      }
    }
  }

  // ----- one relaxation -----

  function Relaxed(distances: seq<nat>, from: nat, target: nat): seq<nat>
    requires from < |distances|
  {
    if target < |distances| && distances[from] != NONE && distances[from] + 1 < distances[target] then
      distances[target := distances[from] + 1]
    else distances
  }

  lemma WitnessBound(s: State, start: nat, distances: seq<nat>, i: nat)
    requires i < |distances| && Witnessed(s, start, distances, i)
    ensures Reaches(s, start, i, distances[i]) && distances[i] < |distances|
  {
    var p: seq<nat> :| IsWitness(s, start, distances, i, p);
    PigeonHole(p, |distances|);
  }

  lemma WitnessKept(s: State, start: nat, before: seq<nat>, after: seq<nat>, i: nat)
    requires NoFarther(before, after) && i < |before| && after[i] == before[i]
    requires Witnessed(s, start, before, i)
    ensures Witnessed(s, start, after, i)
  {
    var p: seq<nat> :| IsWitness(s, start, before, i, p);
    assert IsWitness(s, start, after, i, p);
  }

  /** The witness of a shortened tile extends the witness of its neighbour: the target cannot
      already lie on that path, or its distance would be no larger than the neighbour's. */
  lemma WitnessExtended(s: State, start: nat, distances: seq<nat>, from: nat, j: nat)
    requires from < |distances| && j < |distances| && Step(s, from, j)
    requires Witnessed(s, start, distances, from) && distances[from] + 1 < distances[j]
    ensures Witnessed(s, start, distances[j := distances[from] + 1], j)
  {
    var p: seq<nat> :| IsWitness(s, start, distances, from, p);
    var after := distances[j := distances[from] + 1];
    assert j !in p;
    assert IsWitness(s, start, after, j, p + [j]);
  }

  lemma RelaxKeepsSound(s: State, start: nat, distances: seq<nat>, from: nat, j: nat)
    requires Sound(s, start, distances) && from < |distances|
    requires j == NONE || Step(s, from, j)
    ensures Sound(s, start, Relaxed(distances, from, j))
    ensures NoFarther(distances, Relaxed(distances, from, j))
    ensures j != NONE ==> j < |distances| && Relaxed(distances, from, j)[j] <= distances[from] + 1
  {
    var after := Relaxed(distances, from, j);
    if after != distances {
      WitnessExtended(s, start, distances, from, j);
      WitnessBound(s, start, distances, from);
      forall i | 0 <= i < |after| && i != j && after[i] != NONE ensures Witnessed(s, start, after, i) {
        WitnessKept(s, start, distances, after, i);
      }
    }
  }

  method Relax(s: State, distances: seq<nat>, from: nat, x: int, y: int)
    returns (distances': seq<nat>, changed: bool)
    requires |distances| == |s.tiles| < NONE && from < |distances|
    requires distances[from] == NONE || distances[from] + 1 < NONE
    requires forall i :: 0 <= i < |distances| ==> distances[i] <= NONE
    requires x >= 0 && y >= 0 ==> IndexFits(s, x, y)
    ensures distances' == Relaxed(distances, from, Target(s, x, y))
    ensures changed <==> distances' != distances
  {
    distances', changed := distances, false;
    if x < 0 || y < 0 {
      return;
    }
    var target := TileIndex(s, x, y);
    if target == NONE || !s.tiles[target].walkable {
      return;
    }
    var sourceDistance, targetDistance := distances[from], distances[target];
    if sourceDistance != NONE && (targetDistance == NONE || sourceDistance + 1 < targetDistance) {
      distances', changed := distances[target := sourceDistance + 1], true;
      assert distances'[target] != distances[target];
    }
  }

  /** The target, if there is one, is at most `limit` away. */
  ghost predicate Nearer(target: nat, distances: seq<nat>, limit: nat) {
    target != NONE ==> target < |distances| && distances[target] <= limit
  }

  lemma NearerKept(target: nat, before: seq<nat>, after: seq<nat>, limit: nat, limit': nat)
    requires Nearer(target, before, limit) && NoFarther(before, after) && limit <= limit'
    ensures Nearer(target, after, limit')
  {
  }

  /** One relaxation of an edge out of tile `from`, with what it keeps. */
  method RelaxOne(s: State, distances: seq<nat>, from: nat, x: int, y: int, ghost start: nat)
    returns (distances': seq<nat>, changed: bool)
    requires Grid(s) && Sound(s, start, distances) && from < |distances|
    requires Target(s, x, y) == NONE || Step(s, from, Target(s, x, y))
    ensures Sound(s, start, distances') && NoFarther(distances, distances')
    ensures |distances'| == |distances| && Nearer(Target(s, x, y), distances', distances[from] + 1)
    ensures changed <==> distances' != distances
  {
    if distances[from] != NONE {
      WitnessBound(s, start, distances, from);
    }
    distances', changed := Relax(s, distances, from, x, y);
    RelaxKeepsSound(s, start, distances, from, Target(s, x, y));
  }

  lemma FourChain(a: seq<nat>, b: seq<nat>, c: seq<nat>, d: seq<nat>, e: seq<nat>)
    requires NoFarther(a, b) && NoFarther(b, c) && NoFarther(c, d) && NoFarther(d, e)
    ensures NoFarther(a, c) && NoFarther(a, d) && NoFarther(a, e)
    ensures NoFarther(b, e) && NoFarther(c, e)
    ensures a == e ==> a == b && b == c && c == d && d == e
  {
    hide NoFarther;
    NoFartherChain(c, d, e);
    NoFartherChain(b, c, e);
    NoFartherChain(a, b, c);
    NoFartherChain(a, c, d);
    NoFartherChain(a, b, e);
  }

  lemma NoFartherAt(before: seq<nat>, after: seq<nat>, i: nat)
    requires NoFarther(before, after) && i < |before|
    ensures |after| == |before| && after[i] <= before[i]
  {
  }

  lemma SoundSize(s: State, start: nat, distances: seq<nat>)
    requires Sound(s, start, distances)
    ensures |distances| == |s.tiles| < NONE
  {
  }

  /** Relaxes the four edges out of tile `i`. */
  method RelaxNeighbours(s: State, distances: seq<nat>, i: nat, ghost start: nat)
    returns (distances': seq<nat>, changed: bool)
    requires Grid(s) && Sound(s, start, distances) && i < |distances|
    ensures Sound(s, start, distances') && NoFarther(distances, distances')
    ensures forall j: nat :: Step(s, i, j) ==> j < |distances| && distances'[j] <= distances[i] + 1
    ensures changed <==> distances' != distances
  {
    hide Grid;
    hide Step;
    hide Target;
    hide Sound;
    hide NoFarther;
    hide Nearer;
    SoundSize(s, start, distances);
    TargetsAround(s, i);
    var tile := s.tiles[i];
    var d1, c1 := RelaxOne(s, distances, i, tile.x + 1, tile.y, start);
    var d2, c2 := RelaxOne(s, d1, i, tile.x, tile.y + 1, start);
    var d3, c3 := RelaxOne(s, d2, i, tile.x - 1, tile.y, start);
    var d4, c4 := RelaxOne(s, d3, i, tile.x, tile.y - 1, start);
    distances', changed := d4, c1 || c2 || c3 || c4;
    FourRelaxed(s, i, Targets(s, i), distances, d1, d2, d3, d4);
  }

  lemma FourRelaxed(s: State, i: nat, t: seq<nat>, d0: seq<nat>, d1: seq<nat>, d2: seq<nat>, d3: seq<nat>, d4: seq<nat>)
    requires |t| == 4 && |s.tiles| == |d0| == |d1| == |d2| == |d3| < NONE && i < |d0|
    requires NoFarther(d0, d1) && NoFarther(d1, d2) && NoFarther(d2, d3) && NoFarther(d3, d4)
    requires Nearer(t[0], d1, d0[i] + 1) && Nearer(t[1], d2, d1[i] + 1)
    requires Nearer(t[2], d3, d2[i] + 1) && Nearer(t[3], d4, d3[i] + 1)
    requires forall j: nat :: Step(s, i, j) ==> j < |s.tiles| && (j == t[0] || j == t[1] || j == t[2] || j == t[3])
    ensures NoFarther(d0, d4) && (d0 == d4 ==> d0 == d1 && d1 == d2 && d2 == d3 && d3 == d4)
    ensures forall j: nat :: Step(s, i, j) ==> j < |d0| && j < |d4| && d4[j] <= d0[i] + 1
  {
    hide Step;
    hide Nearer;
    hide NoFarther;
    FourChain(d0, d1, d2, d3, d4);
    NoFartherAt(d0, d1, i);
    NoFartherAt(d0, d2, i);
    NoFartherAt(d0, d3, i);
    NoFartherAt(d0, d4, i);
    NearerKept(t[0], d1, d4, d0[i] + 1, d0[i] + 1);
    NearerKept(t[1], d2, d4, d1[i] + 1, d0[i] + 1);
    NearerKept(t[2], d3, d4, d2[i] + 1, d0[i] + 1);
    AllNearer(s, i, t, d4, d3[i] + 1, d0[i] + 1);
  }

  lemma AllNearer(s: State, i: nat, t: seq<nat>, distances: seq<nat>, last: nat, limit: nat)
    requires |t| == 4 && |s.tiles| == |distances| < NONE && last <= limit
    requires forall j: nat :: Step(s, i, j) ==> j < |s.tiles| && (j == t[0] || j == t[1] || j == t[2] || j == t[3])
    requires Nearer(t[0], distances, limit) && Nearer(t[1], distances, limit) && Nearer(t[2], distances, limit)
    requires Nearer(t[3], distances, last)
    ensures forall j: nat :: Step(s, i, j) ==> j < |distances| && distances[j] <= limit
  {
    hide Step;
  }

  // ----- passes -----

  lemma PassedOneMore(s: State, before: seq<nat>, mid: seq<nat>, after: seq<nat>, i: nat)
    requires NoFarther(before, mid) && NoFarther(mid, after) && |before| == |s.tiles| && i < |before|
    requires Passed(s, before, mid, i)
    requires forall j: nat :: Step(s, i, j) ==> j < |after| && after[j] <= mid[i] + 1
    ensures Passed(s, before, after, i + 1)
  {
  }

  lemma {:induction false} SettledByPass(s: State, start: nat, before: seq<nat>, after: seq<nat>, moves: nat)
    requires Sound(s, start, after) && |before| == |after|
    requires Settled(s, start, before, moves) && Passed(s, before, after, |before|)
    ensures Settled(s, start, after, moves + 1)
  {
    forall t: nat, k: nat | k <= moves + 1 && Reaches(s, start, t, k) ensures t < |after| && after[t] <= k {
      if k == 0 {
        var p: seq<nat> :| IsPath(s, p, start, t) && |p| == 1;
      } else {
        var i := OneMoveLess(s, start, t, k);
        assert before[i] <= k - 1;
      }
    }
  }

  /** After as many passes as there are tiles, no edge can be relaxed any more. */
  lemma SettledIsStable(s: State, start: nat, distances: seq<nat>)
    requires Sound(s, start, distances) && Settled(s, start, distances, |s.tiles|)
    ensures Passed(s, distances, distances, |distances|)
  {
    forall i: nat, j: nat | i < |distances| && Step(s, i, j) ensures distances[j] <= distances[i] + 1 {
      if distances[i] != NONE {
        WitnessBound(s, start, distances, i);
        OneMoreMove(s, start, i, j, distances[i]);
      }
    }
  }

  /** When no edge can be relaxed, every recorded distance is the true one. */
  lemma StableIsDistance(s: State, start: nat, distances: seq<nat>, t: nat)
    requires Sound(s, start, distances) && Passed(s, distances, distances, |distances|) && t < |distances|
    ensures IsDistance(s, start, t, distances[t])
    ensures Connected(s, start, t) ==> distances[t] < |s.tiles| < NONE
  {
    if distances[t] != NONE {
      WitnessBound(s, start, distances, t);
    }
    forall moves: nat | Reaches(s, start, t, moves) ensures distances[t] <= moves && distances[t] != NONE {
      PotentialBound(s, distances, start, t, moves);
      if distances[t] == NONE {
        FiniteAlongPaths(s, start, distances, t, moves);
      }
    }
  }

  lemma {:induction false} FiniteAlongPaths(s: State, start: nat, distances: seq<nat>, t: nat, moves: nat)
    requires Sound(s, start, distances) && Passed(s, distances, distances, |distances|)
    requires Reaches(s, start, t, moves)
    ensures t < |distances| && distances[t] != NONE
    decreases moves
  {
    if moves == 0 {
      var p: seq<nat> :| IsPath(s, p, start, t) && |p| == 1;
    } else {
      var i := OneMoveLess(s, start, t, moves);
      FiniteAlongPaths(s, start, distances, i, moves - 1);
      WitnessBound(s, start, distances, i);
    }
  }

  /** One pass over all tiles.  Relaxation works in place, so a tile may already see distances
      found earlier in the same pass. */
  method Pass(s: State, distances: seq<nat>, ghost start: nat)
    returns (distances': seq<nat>, changed: bool)
    requires Grid(s) && Sound(s, start, distances)
    ensures Sound(s, start, distances') && NoFarther(distances, distances')
    ensures Passed(s, distances, distances', |distances|)
    ensures changed <==> distances' != distances
  {
    distances', changed := distances, false;
    assert Passed(s, distances, distances', 0);
    assert |distances| == |s.tiles|;
    var i := 0;
    hide Grid;
    hide Step;
    hide Sound;
    hide Passed;
    while i < |s.tiles|
      invariant i <= |s.tiles|
      invariant Sound(s, start, distances') && NoFarther(distances, distances')
      invariant Passed(s, distances, distances', i)
      invariant changed <==> distances' != distances
    {
      var next, relaxed := RelaxNeighbours(s, distances', i, start);
      NoFartherChain(distances, distances', next);
      PassedOneMore(s, distances, distances', next, i);
      distances', changed := next, changed || relaxed;
      i := i + 1;
    }
  }

  /** The distance between two positions by relaxation. */
  method Distance(s: State, sx: nat, sy: nat, gx: nat, gy: nat) returns (d: nat)
    requires RowMajor(s)
    ensures var start, goal := TileIndex(s, sx, sy), TileIndex(s, gx, gy);
      if start == NONE || goal == NONE then d == NONE
      else IsDistance(s, start, goal, d) && (Connected(s, start, goal) ==> d < |s.tiles| < NONE)
  {
    hide RowMajor;
    hide Grid;
    hide Sound;
    hide Settled;
    hide Passed;
    hide IsDistance;
    hide Connected;
    var start, goal := TileIndex(s, sx, sy), TileIndex(s, gx, gy);
    if start == NONE || goal == NONE {
      return NONE;
    }
    RowMajorIsGrid(s);
    TileAt(s, sx, sy);
    TileAt(s, gx, gy);
    d := DistanceInGrid(s, start, goal);
  }

  method DistanceInGrid(s: State, start: nat, goal: nat) returns (d: nat)
    requires Grid(s) && start < |s.tiles| && goal < |s.tiles|
    ensures IsDistance(s, start, goal, d) && (Connected(s, start, goal) ==> d < |s.tiles| < NONE)
  {
    var distances: seq<nat> := seq(|s.tiles|, _ => NONE);
    distances := distances[start := 0];
    StartIsSound(s, start, distances);
    hide Grid;
    hide Settled;
    hide Passed;
    hide IsDistance;
    hide Connected;
    var pass := 0;
    while pass < |s.tiles|
      invariant pass <= |s.tiles|
      invariant Sound(s, start, distances) && Settled(s, start, distances, pass)
    {
      var relaxed, changed := Pass(s, distances, start);
      SettledByPass(s, start, distances, relaxed, pass);
      if !changed {
        StableIsDistance(s, start, distances, goal);
        return distances[goal];
      }
      distances := relaxed;
      pass := pass + 1;
    }
    SettledIsStable(s, start, distances);
    StableIsDistance(s, start, distances, goal);
    d := distances[goal];
  }

  lemma StartIsSound(s: State, start: nat, distances: seq<nat>)
    requires Grid(s) && start < |s.tiles|
    requires |distances| == |s.tiles| && distances[start] == 0
    requires forall i :: 0 <= i < |distances| && i != start ==> distances[i] == NONE
    ensures Sound(s, start, distances) && Settled(s, start, distances, 0)
  {
    assert IsWitness(s, start, distances, start, [start]);
  }

  /** True for every answer the search can give.  Exactly: a reached answer must carry the value
      the oracle computes, an unreached one needs the goal to be out of reach. */
  method Agrees(s: State, sx: nat, sy: nat, gx: nat, gy: nat, actual: Navigation.Path) returns (ok: bool)
    requires RowMajor(s)
    ensures var start, goal := TileIndex(s, sx, sy), TileIndex(s, gx, gy);
      if start == NONE || goal == NONE then ok <==> (actual.reached ==> actual.distance == NONE)
      else if actual.reached then ok <==> IsDistance(s, start, goal, actual.distance)
      else ok <==> !Connected(s, start, goal)
  {
    var expected := Distance(s, sx, sy, gx, gy);
    ok := (actual.reached && actual.distance == expected) || (!actual.reached && expected == NONE);
  }

  /** The self-test's check: the search and the oracle never disagree, whatever the grid. */
  method CrossCheck(s: State, sx: nat, sy: nat, gx: nat, gy: nat) returns (ok: bool, path: Navigation.Path)
    requires RowMajor(s)
    ensures ok
    ensures path.valid <==> TileIndex(s, sx, sy) != NONE && TileIndex(s, gx, gy) != NONE
  {
    path := Navigation.Find(s, sx, sy, gx, gy);
    ok := Agrees(s, sx, sy, gx, gy, path);
  }
}
