/** Shortest paths on the walkable grid: what the breadth-first search of `navigation.rue`
    and the relaxation oracle of `navigation_oracle.rue` are both meant to compute. */
module Paths {
  import opened Model

  /** The tile list holds one tile for each cell, row by row. */
  ghost predicate RowMajor(s: State) {
    && |s.tiles| == s.width * s.height
    && |s.tiles| < NONE
    && forall i :: 0 <= i < |s.tiles| ==>
         s.tiles[i].x < s.width && s.tiles[i].y < s.height && i == s.tiles[i].y * s.width + s.tiles[i].x
  }

  function Abs(n: int): nat {
    if n < 0 then -n else n
  }

  /** One move: to a walkable tile that shares an edge with the present one. */
  predicate Step(s: State, i: nat, j: nat) {
    && i < |s.tiles| && j < |s.tiles|
    && s.tiles[j].walkable
    && Abs(s.tiles[i].x - s.tiles[j].x) + Abs(s.tiles[i].y - s.tiles[j].y) == 1
  }

  ghost predicate IsPath(s: State, p: seq<nat>, from: nat, to: nat) {
    && |p| > 0 && p[0] == from && p[|p| - 1] == to
    && forall k :: 0 < k < |p| ==> Step(s, p[k - 1], p[k])
  }

  ghost predicate Reaches(s: State, from: nat, to: nat, moves: nat) {
    exists p :: IsPath(s, p, from, to) && |p| == moves + 1
  }

  ghost predicate Connected(s: State, from: nat, to: nat) {
    exists moves: nat :: Reaches(s, from, to, moves)
  }

  /** `d` is the least number of moves between two tiles, or NONE when no path connects them. */
  ghost predicate IsDistance(s: State, from: nat, to: nat, d: nat) {
    if Connected(s, from, to) then
      Reaches(s, from, to, d) && forall moves: nat :: Reaches(s, from, to, moves) ==> d <= moves
    else
      d == NONE
  }

  /** The tile at a signed position, or NONE when there is no walkable tile there. */
  function Target(s: State, x: int, y: int): nat {
    if x < 0 || y < 0 then NONE
    else
      var j := TileIndex(s, x, y);
      if j < |s.tiles| && s.tiles[j].walkable then j else NONE
  }

  // ----- the grid -----

  lemma {:induction false} LaterRow(w: nat, y: nat, y': nat)
    requires y < y'
    ensures y * w + w <= y' * w
  {
    assert (y' - 1) * w + w == y' * w;
    if y < y' - 1 {
      LaterRow(w, y, y' - 1);
    }
  }

  lemma RowsDoNotOverlap(w: nat, x: nat, y: nat, x': nat, y': nat)
    requires x < w && x' < w && y * w + x == y' * w + x'
    ensures x == x' && y == y'
  {
    if y < y' {
      LaterRow(w, y, y');
    } else if y' < y {
      LaterRow(w, y', y);
    }
  }

  lemma TileAt(s: State, x: nat, y: nat)
    requires RowMajor(s) && x < s.width && y < s.height
    ensures TileIndex(s, x, y) < |s.tiles|
    ensures s.tiles[TileIndex(s, x, y)].x == x && s.tiles[TileIndex(s, x, y)].y == y
  {
    var j := y * s.width + x;
    LaterRow(s.width, y, s.height);
    assert j < s.height * s.width == |s.tiles|;
    RowsDoNotOverlap(s.width, x, y, s.tiles[j].x, s.tiles[j].y);
  }

  lemma TargetAt(s: State, x: int, y: int)
    requires RowMajor(s)
    ensures |s.tiles| < NONE
    ensures var j := Target(s, x, y);
      j == NONE || (j < |s.tiles| && s.tiles[j].walkable && s.tiles[j].x == x && s.tiles[j].y == y)
  {
    if 0 <= x < s.width && 0 <= y < s.height {
      TileAt(s, x, y);
    }
  }

  lemma OwnTarget(s: State, j: nat)
    requires RowMajor(s) && j < |s.tiles| && s.tiles[j].walkable
    ensures Target(s, s.tiles[j].x, s.tiles[j].y) == j
  {
  }

  /** The targets to the east, south, west and north of a tile. */
  function Targets(s: State, i: nat): seq<nat>
    requires i < |s.tiles|
  {
    var t := s.tiles[i];
    [Target(s, t.x + 1, t.y), Target(s, t.x, t.y + 1), Target(s, t.x - 1, t.y), Target(s, t.x, t.y - 1)]
  }

  /** The targets around a tile are exactly the tiles one move away. */
  lemma StepsAreTargets(s: State, i: nat, j: nat)
    requires RowMajor(s) && i < |s.tiles| && j < |s.tiles|
    ensures Step(s, i, j) <==> j in Targets(s, i)
  {
    hide RowMajor;
    hide Target;
    var t := s.tiles[i];
    TargetAt(s, t.x + 1, t.y);
    TargetAt(s, t.x, t.y + 1);
    TargetAt(s, t.x - 1, t.y);
    TargetAt(s, t.x, t.y - 1);
    if s.tiles[j].walkable {
      OwnTarget(s, j);
    }
  }

  ghost predicate IndexFits(s: State, x: nat, y: nat) {
    TileIndex(s, x, y) == NONE || TileIndex(s, x, y) < |s.tiles|
  }

  /** What the searches use of a row-major world. */
  ghost predicate Grid(s: State) {
    && |s.tiles| < NONE
    && (forall x: nat, y: nat :: IndexFits(s, x, y))
    && (forall i: nat, j: nat :: i < |s.tiles| && j < |s.tiles| ==> (Step(s, i, j) <==> j in Targets(s, i)))
  }

  lemma TargetsAround(s: State, i: nat)
    requires Grid(s) && i < |s.tiles|
    ensures var t := Targets(s, i);
      && |t| == 4 && |s.tiles| < NONE
      && (t[0] == NONE || Step(s, i, t[0])) && (t[1] == NONE || Step(s, i, t[1]))
      && (t[2] == NONE || Step(s, i, t[2])) && (t[3] == NONE || Step(s, i, t[3]))
      && forall j: nat :: Step(s, i, j) ==> j < |s.tiles| && (j == t[0] || j == t[1] || j == t[2] || j == t[3])
  {
    var t := Targets(s, i);
    assert t[0] in t && t[1] in t && t[2] in t && t[3] in t;
  }

  lemma RowMajorIsGrid(s: State)
    requires RowMajor(s)
    ensures Grid(s)
  {
    forall x: nat, y: nat ensures IndexFits(s, x, y) {
      if x < s.width && y < s.height {
        TileAt(s, x, y);
      }
    }
    forall i: nat, j: nat | i < |s.tiles| && j < |s.tiles| ensures Step(s, i, j) <==> j in Targets(s, i) {
      StepsAreTargets(s, i, j);
    }
  }

  // ----- paths -----

  lemma StayPut(s: State, from: nat)
    ensures Reaches(s, from, from, 0)
  {
    assert IsPath(s, [from], from, from);
  }

  lemma OneMoreMove(s: State, from: nat, i: nat, j: nat, moves: nat)
    requires Reaches(s, from, i, moves) && Step(s, i, j)
    ensures Reaches(s, from, j, moves + 1)
  {
    var p :| IsPath(s, p, from, i) && |p| == moves + 1;
    assert IsPath(s, p + [j], from, j);
  }

  lemma OneMoveLess(s: State, from: nat, j: nat, moves: nat) returns (i: nat)
    requires Reaches(s, from, j, moves) && moves > 0
    ensures Reaches(s, from, i, moves - 1) && Step(s, i, j)
  {
    var p :| IsPath(s, p, from, j) && |p| == moves + 1;
    i := p[|p| - 2];
    assert IsPath(s, p[..|p| - 1], from, i);
  }

  /** A value that starts at 0 and grows by at most one each move bounds every path from below. */
  lemma {:induction false} PotentialBound(s: State, value: seq<nat>, from: nat, to: nat, moves: nat)
    requires |value| == |s.tiles| && from < |value| && value[from] == 0
    requires forall i: nat, j: nat :: Step(s, i, j) ==> value[j] <= value[i] + 1
    requires Reaches(s, from, to, moves)
    ensures to < |value| && value[to] <= moves
    decreases moves
  {
    if moves == 0 {
      var p :| IsPath(s, p, from, to) && |p| == moves + 1;
      assert to == from;
    } else {
      var i := OneMoveLess(s, from, to, moves);
      PotentialBound(s, value, from, i, moves - 1);
    }
  }

  /** A set of tiles that contains the start and cannot be left contains every reachable tile. */
  lemma {:induction false} ClosedSetBound(s: State, inside: set<nat>, from: nat, to: nat, moves: nat)
    requires from in inside
    requires forall i: nat, j: nat :: i in inside && Step(s, i, j) ==> j in inside
    requires Reaches(s, from, to, moves)
    ensures to in inside
    decreases moves
  {
    if moves == 0 {
      var p :| IsPath(s, p, from, to) && |p| == moves + 1;
      assert to == from;
    } else {
      var i := OneMoveLess(s, from, to, moves);
      ClosedSetBound(s, inside, from, i, moves - 1);
    }
  }
}
