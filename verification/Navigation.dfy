/** Breadth-first grid navigation with stable neighbour ordering (the embedded module
    `navigation.rue`), proved to find true shortest distances. */
module Navigation {
  import opened Metric
  import opened Model
  import opened Indexes
  import opened Paths
  import opened SearchOrder

  datatype Path = Path(reached: bool, distance: nat, visited: nat, digest: nat, valid: bool)

  // ----- the search as a function of the number of tiles expanded -----

  /** The queue of discovered tiles, and the distance of each tile (NONE while undiscovered). */
  datatype Wave = Wave(queue: seq<nat>, distances: seq<nat>)

  function Push(w: Wave, j: nat, d: nat): Wave
    requires j < |w.distances|
  {
    Wave(w.queue + [j], w.distances[j := d])
  }

  /** Offers one neighbour; it is queued the first time it is seen. */
  function Offer(w: Wave, target: nat, nextDistance: nat): Wave {
    if target < |w.distances| && w.distances[target] == NONE then
      Push(w, target, nextDistance)
    else w
  }

  /** Offers the neighbours of tile `i`: east, south, west, north. */
  function Expand(s: State, w: Wave, i: nat): Wave
    requires i < |s.tiles| && i < |w.distances|
  {
    var t := Targets(s, i);
    var d := w.distances[i] + 1;
    Offer(Offer(Offer(Offer(w, t[0], d), t[1], d), t[2], d), t[3], d)
  }

  ghost function Start(s: State, start: nat): Wave
    requires start < |s.tiles|
  {
    Wave([start], seq(|s.tiles|, i => if i == start then 0 else NONE))
  }

  /** The search after the first `head` queued tiles have been expanded. */
  ghost function Run(s: State, start: nat, head: nat): Wave
    requires start < |s.tiles|
  {
    if head == 0 then Start(s, start)
    else
      var w := Run(s, start, head - 1);
      if head - 1 < |w.queue| && w.queue[head - 1] < |s.tiles| && w.queue[head - 1] < |w.distances| then
        Expand(s, w, w.queue[head - 1])
      else w
  }

  /** The tiles with a distance are exactly the queued ones, and no tile is queued twice. */
  ghost predicate Queued(w: Wave) {
    && Distinct(w.queue) && Below(w.queue, |w.distances|)
    && forall i :: 0 <= i < |w.distances| ==> (w.distances[i] != NONE <==> i in w.queue)
  }

  /** Each distance is the length of some path and no more than the position in the queue. */
  ghost predicate Backed(s: State, start: nat, w: Wave)
    requires Below(w.queue, |w.distances|)
  {
    && |w.queue| > 0 && w.queue[0] == start
    && forall k :: 0 <= k < |w.queue| ==>
         w.distances[w.queue[k]] <= k && Reaches(s, start, w.queue[k], w.distances[w.queue[k]])
  }

  /** Distances never decrease along the queue, and span at most one from its head on. */
  ghost predicate Layered(w: Wave, head: nat)
    requires Below(w.queue, |w.distances|)
  {
    && (forall a, b :: 0 <= a < b < |w.queue| ==> w.distances[w.queue[a]] <= w.distances[w.queue[b]])
    && (head < |w.queue| ==>
         forall k :: 0 <= k < |w.queue| ==> w.distances[w.queue[k]] <= w.distances[w.queue[head]] + 1)
  }

  /** Every tile before the head has passed its distance plus one to its neighbours. */
  ghost predicate Closed(s: State, w: Wave, head: nat)
    requires head <= |w.queue| && Below(w.queue, |w.distances|) && |w.distances| == |s.tiles|
  {
    forall k, j: nat :: 0 <= k < head && Step(s, w.queue[k], j) ==>
      j in w.queue && w.distances[j] <= w.distances[w.queue[k]] + 1
  }

  /** What is true of the search at every moment. */
  ghost predicate Search(s: State, start: nat, w: Wave, head: nat) {
    && |w.distances| == |s.tiles| < NONE && head <= |w.queue|
    && Queued(w) && Backed(s, start, w) && Layered(w, head) && Closed(s, w, head)
  }

  lemma SearchBounds(s: State, start: nat, w: Wave, head: nat)
    requires Search(s, start, w, head)
    ensures head <= |w.queue| <= |s.tiles| == |w.distances|
    ensures head < |w.queue| ==> w.queue[head] < |s.tiles|
  {
    PigeonHole(w.queue, |s.tiles|);
  }

  /** Tiles queued earlier keep their place and their distance. */
  lemma PushQueued(w: Wave, j: nat, d: nat)
    requires Queued(w) && j < |w.distances| && w.distances[j] == NONE && d < NONE
    ensures Queued(Push(w, j, d))
    ensures forall k :: 0 <= k < |w.queue| ==>
      Push(w, j, d).queue[k] == w.queue[k] && Push(w, j, d).distances[w.queue[k]] == w.distances[w.queue[k]]
  {
    assert forall i: nat :: i in Push(w, j, d).queue <==> i in w.queue || i == j;
  }

  lemma PushBacked(s: State, start: nat, w: Wave, head: nat, j: nat)
    requires Queued(w) && Backed(s, start, w) && head < |w.queue| && j < |w.distances|
    requires w.distances[j] == NONE && w.distances[w.queue[head]] + 1 < NONE && Step(s, w.queue[head], j)
    ensures Queued(Push(w, j, w.distances[w.queue[head]] + 1))
    ensures Backed(s, start, Push(w, j, w.distances[w.queue[head]] + 1))
  {
    var d := w.distances[w.queue[head]] + 1;
    PushQueued(w, j, d);
    OneMoreMove(s, start, w.queue[head], j, d - 1);
  }

  lemma PushLayered(w: Wave, head: nat, j: nat)
    requires Queued(w) && Layered(w, head) && head < |w.queue| && j < |w.distances|
    requires w.distances[j] == NONE && w.distances[w.queue[head]] + 1 < NONE
    ensures Queued(Push(w, j, w.distances[w.queue[head]] + 1))
    ensures Layered(Push(w, j, w.distances[w.queue[head]] + 1), head)
  {
    PushQueued(w, j, w.distances[w.queue[head]] + 1);
  }

  lemma PushClosed(s: State, w: Wave, head: nat, j: nat, d: nat)
    requires Queued(w) && head < |w.queue| && |w.distances| == |s.tiles| && Closed(s, w, head)
    requires j < |w.distances| && w.distances[j] == NONE && d < NONE
    ensures Queued(Push(w, j, d)) && Closed(s, Push(w, j, d), head)
  {
    PushQueued(w, j, d);
  }

  lemma OfferKeepsSearch(s: State, start: nat, w: Wave, head: nat, j: nat, d: nat)
    requires Search(s, start, w, head) && head < |w.queue|
    requires d == w.distances[w.queue[head]] + 1
    requires j == NONE || Step(s, w.queue[head], j)
    ensures Search(s, start, Offer(w, j, d), head)
    ensures w.queue <= Offer(w, j, d).queue
    ensures Offer(w, j, d).distances[w.queue[head]] == d - 1
    ensures j != NONE ==> j in Offer(w, j, d).queue
  {
    PigeonHole(w.queue, |s.tiles|);
    if j < |w.distances| && w.distances[j] == NONE {
      assert d < NONE;
      hide Queued; hide Backed; hide Layered; hide Closed;
      PushQueued(w, j, d);
      PushBacked(s, start, w, head, j);
      PushLayered(w, head, j);
      PushClosed(s, w, head, j, d);
    }
  }

  lemma Prefixed<T>(a: seq<T>, b: seq<T>)
    requires a <= b
    ensures forall x :: x in a ==> x in b
  {
    forall x | x in a ensures x in b {
      var k :| 0 <= k < |a| && a[k] == x;
      assert b[k] == x;
    }
  }

  lemma CloseHead(s: State, start: nat, w: Wave, head: nat)
    requires Search(s, start, w, head) && head < |w.queue|
    requires forall j: nat :: Step(s, w.queue[head], j) ==> j in w.queue
    ensures Search(s, start, w, head + 1)
  {
    forall j: nat | Step(s, w.queue[head], j) ensures w.distances[j] <= w.distances[w.queue[head]] + 1 {
      var k :| 0 <= k < |w.queue| && w.queue[k] == j;
    }
    assert Closed(s, w, head + 1);
  }

  lemma ExpandKeepsSearch(s: State, start: nat, w: Wave, head: nat)
    requires Grid(s) && Search(s, start, w, head) && head < |w.queue|
    requires w.queue[head] < |s.tiles| == |w.distances|
    ensures Search(s, start, Expand(s, w, w.queue[head]), head + 1)
    ensures w.queue <= Expand(s, w, w.queue[head]).queue
  {
    hide Search;
    hide Offer;
    hide Targets;
    hide Step;
    hide Grid;
    var i := w.queue[head];
    var t, d := Targets(s, i), w.distances[i] + 1;
    TargetsAround(s, i);
    var w1 := Offer(w, t[0], d);
    OfferKeepsSearch(s, start, w, head, t[0], d);
    var w2 := Offer(w1, t[1], d);
    OfferKeepsSearch(s, start, w1, head, t[1], d);
    var w3 := Offer(w2, t[2], d);
    OfferKeepsSearch(s, start, w2, head, t[2], d);
    var w4 := Offer(w3, t[3], d);
    OfferKeepsSearch(s, start, w3, head, t[3], d);
    Prefixed(w1.queue, w4.queue);
    Prefixed(w2.queue, w4.queue);
    Prefixed(w3.queue, w4.queue);
    assert w.queue <= w2.queue <= w4.queue && w4.queue[head] == i;
    CloseHead(s, start, w4, head);
  }

  lemma StartIsSearch(s: State, start: nat)
    requires start < |s.tiles| < NONE
    ensures Search(s, start, Start(s, start), 0)
  {
    StayPut(s, start);
  }

  function Min(a: nat, b: nat): nat {
    if a < b then a else b
  }

  /** The invariant holds after any number of expansions, of any grid from any start. */
  lemma {:induction false} RunIsSearch(s: State, start: nat, head: nat)
    requires Grid(s) && start < |s.tiles|
    ensures var w := Run(s, start, head); Search(s, start, w, Min(head, |w.queue|))
  {
    hide Search;
    hide Expand;
    hide Start;
    if head == 0 {
      StartIsSearch(s, start);
    } else {
      hide Grid;
      RunIsSearch(s, start, head - 1);
      var w := Run(s, start, head - 1);
      SearchBounds(s, start, w, Min(head - 1, |w.queue|));
      if head - 1 < |w.queue| {
        ExpandKeepsSearch(s, start, w, head - 1);
      }
    }
  }

  // ----- the order of the queue -----

  /** Ranks ascend along the queue, stay below the bound, and each tile is seen from an earlier one. */
  ghost predicate RanksBelow(s: State, q: seq<nat>, bound: nat) {
    && (forall b :: 0 < b < |q| ==> Rank(s, q, q[b]) < bound && Rank(s, q, q[b]) < 4 * b)
    && (forall a, b :: 0 < a < b < |q| ==> Rank(s, q, q[a]) < Rank(s, q, q[b]))
  }

  lemma PushKeepsRanks(s: State, q: seq<nat>, j: nat, bound: nat)
    requires RanksBelow(s, q, bound) && q != []
    requires bound <= Rank(s, q + [j], j) < 4 * |q|
    ensures RanksBelow(s, q + [j], Rank(s, q + [j], j) + 1)
  {
    hide Rank;
    var q' := q + [j];
    assert q'[..|q|] == q[..|q|];
    forall b | 0 < b < |q| ensures q'[b] == q[b] && Rank(s, q', q'[b]) == Rank(s, q, q[b]) {
      SameRank(s, q, q', |q|, q[b]);
    }
  }

  /** A tile first offered from the head of the queue is ranked by its side of that head. */
  lemma RankOfOffered(s: State, w: Wave, head: nat, j: nat)
    requires head < |w.queue| && |w.distances| == |s.tiles| && Queued(w) && Closed(s, w, head)
    requires Step(s, w.queue[head], j) && j !in w.queue
    ensures Rank(s, w.queue + [j], j) == 4 * head + Side(s, w.queue[head], j)
  {
    hide Queued;
    hide Side;
    var q' := w.queue + [j];
    forall i | 0 <= i < head ensures !Step(s, q'[i], j) {
      assert q'[i] == w.queue[i];
    }
    assert q'[head] == w.queue[head];
  }

  lemma OfferKeepsRanks(s: State, start: nat, w: Wave, head: nat, side: nat, j: nat, d: nat)
    requires Search(s, start, w, head) && head < |w.queue| && RanksBelow(s, w.queue, 4 * head + side)
    requires j == NONE || (Step(s, w.queue[head], j) && Side(s, w.queue[head], j) == side)
    ensures RanksBelow(s, Offer(w, j, d).queue, 4 * head + side + 1)
  {
    hide Step;
    hide Side;
    hide Rank;
    if j < |w.distances| && w.distances[j] == NONE {
      assert j < |s.tiles| && j != NONE;
      SideBelow(s, w.queue[head], j);
      RankOfOffered(s, w, head, j);
      PushKeepsRanks(s, w.queue, j, 4 * head + side);
    }
  }

  lemma SideBelow(s: State, i: nat, j: nat)
    requires i < |s.tiles| && j < |s.tiles|
    ensures Side(s, i, j) < 4
  {
  }

  lemma TargetSides(s: State, i: nat)
    requires RowMajor(s) && i < |s.tiles|
    ensures forall k :: 0 <= k < 4 && Targets(s, i)[k] != NONE ==>
      Targets(s, i)[k] < |s.tiles| && Side(s, i, Targets(s, i)[k]) == k
  {
    hide RowMajor;
    hide Target;
    var t := s.tiles[i];
    TargetAt(s, t.x + 1, t.y);
    TargetAt(s, t.x, t.y + 1);
    TargetAt(s, t.x - 1, t.y);
    TargetAt(s, t.x, t.y - 1);
  }

  lemma ExpandKeepsRanks(s: State, start: nat, w: Wave, head: nat)
    requires RowMajor(s) && Search(s, start, w, head) && head < |w.queue|
    requires w.queue[head] < |s.tiles| == |w.distances| && RanksBelow(s, w.queue, 4 * head)
    ensures RanksBelow(s, Expand(s, w, w.queue[head]).queue, 4 * (head + 1))
  {
    hide Search;
    hide Offer;
    hide Step;
    hide RowMajor;
    hide Side;
    hide RanksBelow;
    RowMajorIsGrid(s);
    hide Grid;
    var i := w.queue[head];
    TargetsAround(s, i);
    TargetSides(s, i);
    hide Targets;
    var t, d := Targets(s, i), w.distances[i] + 1;
    var w1 := Offer(w, t[0], d);
    OfferKeepsSearch(s, start, w, head, t[0], d);
    OfferKeepsRanks(s, start, w, head, 0, t[0], d);
    var w2 := Offer(w1, t[1], d);
    OfferKeepsSearch(s, start, w1, head, t[1], d);
    OfferKeepsRanks(s, start, w1, head, 1, t[1], d);
    var w3 := Offer(w2, t[2], d);
    OfferKeepsSearch(s, start, w2, head, t[2], d);
    OfferKeepsRanks(s, start, w2, head, 2, t[2], d);
    OfferKeepsRanks(s, start, w3, head, 3, t[3], d);
  }

  lemma {:induction false} RunIsRanked(s: State, start: nat, head: nat)
    requires RowMajor(s) && start < |s.tiles|
    ensures var w := Run(s, start, head); RanksBelow(s, w.queue, 4 * Min(head, |w.queue|))
  {
    hide Search;
    hide Expand;
    hide RowMajor;
    hide RanksBelow;
    RowMajorIsGrid(s);
    if head == 0 {
      assert RanksBelow(s, [start], 0) by {
        OneTile(s, start);
      }
    } else {
      hide Grid;
      RunIsRanked(s, start, head - 1);
      RunIsSearch(s, start, head - 1);
      var w := Run(s, start, head - 1);
      SearchBounds(s, start, w, Min(head - 1, |w.queue|));
      if head - 1 < |w.queue| {
        ExpandKeepsRanks(s, start, w, head - 1);
        ExpandKeepsSearch(s, start, w, head - 1);
      }
    }
  }

  lemma OneTile(s: State, start: nat)
    ensures RanksBelow(s, [start], 0)
  {
  }

  /** Once the queue is used up it is the search order. */
  lemma UsedUpIsOrder(s: State, start: nat, head: nat)
    requires RowMajor(s) && start < |s.tiles| && head >= |Run(s, start, head).queue|
    ensures IsOrder(s, start, Run(s, start, head).queue)
  {
    hide RowMajor;
    hide Rank;
    hide Run;
    RowMajorIsGrid(s);
    RunIsSearch(s, start, head);
    RunIsRanked(s, start, head);
    var w := Run(s, start, head);
    forall i: nat, j: nat | i in w.queue && Step(s, i, j) ensures j in w.queue {
      var k :| 0 <= k < |w.queue| && w.queue[k] == i;
    }
  }

  lemma {:induction false} RunExtends(s: State, start: nat, a: nat, b: nat)
    requires Grid(s) && start < |s.tiles| && a <= b
    ensures Run(s, start, a).queue <= Run(s, start, b).queue
    decreases b
  {
    hide Expand;
    hide Search;
    hide Grid;
    if a < b {
      RunExtends(s, start, a, b - 1);
      RunIsSearch(s, start, b - 1);
      var w := Run(s, start, b - 1);
      SearchBounds(s, start, w, Min(b - 1, |w.queue|));
      if b - 1 < |w.queue| {
        ExpandKeepsSearch(s, start, w, b - 1);
      }
    }
  }

  /** Every grid has a search order from every start, and the queue is always a beginning of it. */
  lemma OrderExists(s: State, start: nat, head: nat) returns (order: seq<nat>)
    requires RowMajor(s) && start < |s.tiles|
    ensures IsOrder(s, start, order) && Run(s, start, head).queue <= order
  {
    hide RowMajor;
    hide Run;
    hide Search;
    hide IsOrder;
    RowMajorIsGrid(s);
    var last := head + |s.tiles|;
    RunIsSearch(s, start, last);
    order := Run(s, start, last).queue;
    SearchBounds(s, start, Run(s, start, last), Min(last, |order|));
    UsedUpIsOrder(s, start, last);
    RunExtends(s, start, head, last);
  }

  /** The tiles that some path leads to. */
  ghost function ConnectedTiles(s: State, start: nat): set<nat> {
    set tile: nat | tile < |s.tiles| && Connected(s, start, tile)
  }

  lemma OrderCountsConnected(s: State, start: nat, order: seq<nat>)
    requires IsOrder(s, start, order) && Below(order, |s.tiles|)
    ensures |order| == |ConnectedTiles(s, start)|
  {
    hide Connected;
    hide Rank;
    hide Full;
    DistinctSize(order);
    forall tile: nat ensures tile in order <==> Connected(s, start, tile) {
      OrderIsConnected(s, start, order, tile);
    }
    assert Elements(order) == ConnectedTiles(s, start);
  }

  // ----- what the search has found -----

  /** The distances, cut off at that of the head of the queue, grow by at most one each step. */
  lemma CutOffGrows(s: State, start: nat, w: Wave, head: nat, i: nat, j: nat)
    requires Search(s, start, w, head) && head < |w.queue| && Step(s, i, j)
    ensures i < |w.distances| && j < |w.distances|
    ensures var d := w.distances[w.queue[head]];
      CutOff(w.distances[j], d) <= CutOff(w.distances[i], d) + 1
  {
    PigeonHole(w.queue, |s.tiles|);
    if i in w.queue {
      var k :| 0 <= k < |w.queue| && w.queue[k] == i;
      assert k >= head ==> w.distances[i] >= w.distances[w.queue[head]];
    }
  }

  function CutOff(n: nat, d: nat): nat {
    if n < d then n else d
  }

  lemma GoalAtHead(s: State, start: nat, w: Wave, head: nat)
    requires Search(s, start, w, head) && head < |w.queue|
    ensures IsDistance(s, start, w.queue[head], w.distances[w.queue[head]])
    ensures Connected(s, start, w.queue[head])
    ensures w.distances[w.queue[head]] < |s.tiles|
  {
    var goal := w.queue[head];
    var d := w.distances[goal];
    PigeonHole(w.queue, |s.tiles|);
    assert Reaches(s, start, goal, d);
    var value := seq(|w.distances|, i requires 0 <= i < |w.distances| => CutOff(w.distances[i], d));
    forall i: nat, j: nat | Step(s, i, j) ensures value[j] <= value[i] + 1 {
      hide Search;
      CutOffGrows(s, start, w, head, i, j);
    }
    forall moves: nat | Reaches(s, start, goal, moves) ensures d <= moves {
      PotentialBound(s, value, start, goal, moves);
    }
  }

  lemma GoalNeverQueued(s: State, start: nat, w: Wave, goal: nat)
    requires Search(s, start, w, |w.queue|) && goal !in w.queue
    ensures !Connected(s, start, goal) && IsDistance(s, start, goal, NONE)
  {
    forall moves: nat | Reaches(s, start, goal, moves) ensures false {
      forall i: nat, j: nat | i in Elements(w.queue) && Step(s, i, j) ensures j in Elements(w.queue) {
        var k :| 0 <= k < |w.queue| && w.queue[k] == i;
      }
      ClosedSetBound(s, Elements(w.queue), start, goal, moves);
    }
  }

  // ----- the search with its queue and distances updated in place -----

  /** Offers the neighbour at a signed position. */
  method Visit(s: State, queue: seq<nat>, distances: seq<nat>, x: int, y: int, nextDistance: nat)
    returns (queue': seq<nat>, distances': seq<nat>)
    requires |distances| == |s.tiles| < NONE
    requires x >= 0 && y >= 0 ==> IndexFits(s, x, y)
    ensures |distances'| == |distances|
    ensures Wave(queue', distances') == Offer(Wave(queue, distances), Target(s, x, y), nextDistance)
  {
    queue', distances' := queue, distances;
    if x < 0 || y < 0 {
      return;
    }
    var index := TileIndex(s, x, y);
    if index == NONE || !s.tiles[index].walkable {
      return;
    }
    if distances[index] == NONE {
      distances' := distances[index := nextDistance];
      queue' := queue + [index];
    }
  }

  method VisitNeighbours(s: State, queue: seq<nat>, distances: seq<nat>, index: nat, distance: nat)
    returns (queue': seq<nat>, distances': seq<nat>)
    requires Grid(s) && |distances| == |s.tiles| && index < |s.tiles| && distance == distances[index]
    ensures |distances'| == |distances|
    ensures Wave(queue', distances') == Expand(s, Wave(queue, distances), index)
  {
    hide Offer;
    hide Step;
    hide Target;
    var tile := s.tiles[index];
    queue', distances' := Visit(s, queue, distances, tile.x + 1, tile.y, distance + 1);
    queue', distances' := Visit(s, queue', distances', tile.x, tile.y + 1, distance + 1);
    queue', distances' := Visit(s, queue', distances', tile.x - 1, tile.y, distance + 1);
    queue', distances' := Visit(s, queue', distances', tile.x, tile.y - 1, distance + 1);
  }

  /** One more expansion leaves the tiles already taken from the queue in place. */
  lemma NextRun(s: State, start: nat, head: nat)
    requires Grid(s) && start < |s.tiles| && head < |Run(s, start, head).queue|
    ensures var w, w' := Run(s, start, head), Run(s, start, head + 1);
      && |w.distances| == |s.tiles| && w.queue[head] < |s.tiles|
      && w' == Expand(s, w, w.queue[head])
      && w.queue <= w'.queue && head < |w.queue| <= |w'.queue| <= |s.tiles|
      && w'.queue[..head + 1] == w.queue[..head] + [w.queue[head]]
  {
    hide Search;
    hide Expand;
    var w, w' := Run(s, start, head), Run(s, start, head + 1);
    RunIsSearch(s, start, head);
    SearchBounds(s, start, w, head);
    ExpandKeepsSearch(s, start, w, head);
    SearchBounds(s, start, w', head + 1);
    assert w.queue[..head] + [w.queue[head]] == w.queue[..head + 1];
  }

  /** The loop: expands tiles until the goal comes out of the queue or the queue is used up. */
  method Explore(s: State, start: nat, goal: nat)
    returns (reached: bool, distance: nat, visited: nat, digest: nat)
    requires Grid(s) && start < |s.tiles| && goal < |s.tiles|
    ensures if reached then
        visited > 0
        && var w := Run(s, start, visited - 1);
           visited <= |w.queue| && w.queue[visited - 1] == goal < |w.distances| && distance == w.distances[goal]
      else
        distance == NONE && visited == |Run(s, start, visited).queue| && goal !in Run(s, start, visited).queue
    ensures var order := Run(s, start, visited).queue;
      visited <= |order| && digest == Digest(Mix(OFFSET_BASIS, start), order[..visited])
  {
    reached, distance, visited, digest := false, NONE, 0, Mix(OFFSET_BASIS, start);
    var distances: seq<nat> := seq(|s.tiles|, _ => NONE);
    var queue := [start];
    distances := distances[start := 0];
    assert Wave(queue, distances) == Run(s, start, 0);
    ghost var basis := digest;
    assert Digest(basis, queue[..0]) == basis;
    hide Run;
    hide Expand;
    hide Grid;
    hide Mix;
    hide Digest;
    while visited < |queue|
      invariant visited <= |queue|
      invariant Wave(queue, distances) == Run(s, start, visited)
      invariant digest == Digest(basis, queue[..visited])
      invariant goal !in queue[..visited]
      decreases |s.tiles| - visited
    {
      NextRun(s, start, visited);
      var index := queue[visited];
      DigestSnoc(basis, queue[..visited], index);
      visited := visited + 1;
      digest := Mix(digest, index);
      if index == goal {
        reached, distance := true, distances[index];
        break;
      }
      queue, distances := VisitNeighbours(s, queue, distances, index, distances[index]);
    }
    if !reached {
      assert queue[..visited] == queue;
    }
  }

  /** The tiles taken are a beginning of the search order: up to the goal, or all there are. */
  ghost predicate Taken(order: seq<nat>, start: nat, goal: nat, out: Path) {
    && out.visited <= |order|
    && out.digest == Digest(Mix(OFFSET_BASIS, start), order[..out.visited])
    && if out.reached then out.visited > 0 && order[out.visited - 1] == goal else out.visited == |order|
  }

  /** What the loop has taken, in the search order. */
  lemma ExploredIsTaken(s: State, start: nat, goal: nat, out: Path)
    requires RowMajor(s) && start < |s.tiles|
    requires var order := Run(s, start, out.visited).queue;
      out.visited <= |order| && out.digest == Digest(Mix(OFFSET_BASIS, start), order[..out.visited])
    requires if out.reached then
        out.visited > 0
        && var order := Run(s, start, out.visited - 1).queue;
           out.visited <= |order| && order[out.visited - 1] == goal
      else out.visited == |Run(s, start, out.visited).queue|
    ensures exists order :: IsOrder(s, start, order) && Taken(order, start, goal, out)
    ensures !out.reached ==> out.visited == |ConnectedTiles(s, start)|
  {
    hide RowMajor;
    hide Run;
    hide IsOrder;
    hide ConnectedTiles;
    hide Digest;
    hide Mix;
    var q := Run(s, start, out.visited).queue;
    if out.reached {
      RowMajorIsGrid(s);
      RunExtends(s, start, out.visited - 1, out.visited);
      var order := OrderExists(s, start, out.visited);
      assert order[..out.visited] == q[..out.visited];
      assert Taken(order, start, goal, out);
    } else {
      UsedUpIsOrder(s, start, out.visited);
      QueueIsBelow(s, start, out.visited);
      OrderCountsConnected(s, start, q);
      assert Taken(q, start, goal, out);
    }
  }

  lemma QueueIsBelow(s: State, start: nat, head: nat)
    requires RowMajor(s) && start < |s.tiles|
    ensures Below(Run(s, start, head).queue, |s.tiles|)
  {
    hide RowMajor;
    hide Run;
    RowMajorIsGrid(s);
    RunIsSearch(s, start, head);
  }

  /** Breadth-first search from one position to another.  A position outside the grid gives the
      empty answer; otherwise the answer is the true shortest distance, and the tiles visited and
      digested are those of the search order up to the goal, or all that can be reached. */
  method Find(s: State, sx: nat, sy: nat, gx: nat, gy: nat) returns (out: Path)
    requires RowMajor(s)
    ensures var start, goal := TileIndex(s, sx, sy), TileIndex(s, gx, gy);
      if start == NONE || goal == NONE then
        out == Path(false, NONE, 0, Mix(OFFSET_BASIS, start), false)
      else
        && IsDistance(s, start, goal, out.distance)
        && (out.reached <==> Connected(s, start, goal))
        && (out.reached ==> out.distance < |s.tiles|)
        && out.valid
        && (exists order :: IsOrder(s, start, order) && Taken(order, start, goal, out))
        && (!out.reached ==> out.visited == |ConnectedTiles(s, start)|)
  {
    hide IsOrder;
    hide Taken;
    hide ConnectedTiles;
    hide Digest;
    hide Mix;
    hide RowMajor;
    hide Grid;
    hide Run;
    hide Search;
    hide IsDistance;
    hide Connected;
    var start, goal := TileIndex(s, sx, sy), TileIndex(s, gx, gy);
    out := Path(false, NONE, 0, Mix(OFFSET_BASIS, start), false);
    if start == NONE || goal == NONE {
      return;
    }
    RowMajorIsGrid(s);
    TileAt(s, sx, sy);
    TileAt(s, gx, gy);
    var reached, distance, visited, digest := Explore(s, start, goal);
    if reached {
      RunIsSearch(s, start, visited - 1);
      GoalAtHead(s, start, Run(s, start, visited - 1), visited - 1);
    } else {
      RunIsSearch(s, start, visited);
      GoalNeverQueued(s, start, Run(s, start, visited), goal);
    }
    out := Path(reached, distance, visited, digest, !reached || distance < |s.tiles|);
    ExploredIsTaken(s, start, goal, out);
  }
}
