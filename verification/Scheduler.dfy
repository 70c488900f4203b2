/** The entity schedule: in-place insertion sort (the embedded module `scheduler.rue`) against
    repeated selection (`scheduler_oracle.rue`).  Both are proved to give the one strictly
    ascending list of the living entities. */
module Scheduler {
  import opened Metric
  import opened Model
  import opened Indexes

  datatype Schedule = Schedule(order: seq<nat>, digest: nat, valid: bool)

  function Priority(e: Entity): int {
    (if e.health < 40 then 0 else 100) + e.kind * 11 + e.faction * 7 + (100 - e.energy) + e.id
  }

  /** By priority, and by index among equal priorities. */
  predicate Before(entities: seq<Entity>, a: nat, b: nat)
    requires a < |entities| && b < |entities|
  {
    var (p, q) := (Priority(entities[a]), Priority(entities[b]));
    p < q || (p == q && a < b)
  }

  /** The same entity but for one of the things that are weighed. */
  lemma UrgencyLaw(e: Entity, n: nat)
    ensures e.health < 40 <= n ==> Priority(e.(health := n)) == Priority(e) + 100
    ensures (e.health < 40 <==> n < 40) ==> Priority(e.(health := n)) == Priority(e)
    ensures Priority(e.(energy := e.energy + n)) == Priority(e) - n
    ensures Priority(e.(id := e.id + n)) == Priority(e) + n
    ensures Priority(e.(kind := e.kind + n)) == Priority(e) + 11 * n
    ensures Priority(e.(faction := e.faction + n)) == Priority(e) + 7 * n
    ensures Priority(e.(health := 0, energy := 100, id := 0, kind := 0, faction := 0)) == 0
  {
  }

  /** One entity goes before another exactly when it is the more urgent: sick ones by 100 points,
      a step of kind costs 11, one of faction 7, one of number 1, and a unit of energy gains 1. */
  lemma BeforeLaw(entities: seq<Entity>, a: nat, b: nat)
    requires a < |entities| && b < |entities|
    ensures var (x, y) := (entities[a], entities[b]);
      var (here, there) :=
        (11 * x.kind + 7 * x.faction + x.id + y.energy, 11 * y.kind + 7 * y.faction + y.id + x.energy);
      Before(entities, a, b) <==>
        || (x.health < 40 <= y.health && here < there + 100)
        || (y.health < 40 <= x.health && here + 100 < there)
        || ((x.health < 40 <==> y.health < 40) && here < there)
        || (a < b && Priority(x) == Priority(y))
  {
  }

  predicate Alive(entities: seq<Entity>, i: nat) {
    i < |entities| && entities[i].alive
  }

  ghost predicate Ascending(entities: seq<Entity>, order: seq<nat>, n: nat)
    requires Below(order, |entities|) && n <= |order|
  {
    forall a, b :: 0 <= a < b < n ==> Before(entities, order[a], order[b])
  }

  /** A schedule: every living entity, nothing else, nothing twice, strictly ascending. */
  ghost predicate IsRanking(entities: seq<Entity>, order: seq<nat>) {
    && Below(order, |entities|)
    && Ascending(entities, order, |order|)
    && forall i: nat :: i in order <==> Alive(entities, i)
  }

  // ----- the ranking is unique -----

  lemma {:induction false} SameElementsSameOrder(entities: seq<Entity>, a: seq<nat>, b: seq<nat>)
    requires Below(a, |entities|) && Below(b, |entities|)
    requires Ascending(entities, a, |a|) && Ascending(entities, b, |b|)
    requires forall i: nat :: i in a <==> i in b
    ensures a == b
  {
    assert b != [] ==> b[0] in b;
    if a != [] {
      assert a[0] in b && b != [];
      assert b[0] in a;
      var k :| 0 <= k < |b| && b[k] == a[0];
      var m :| 0 <= m < |a| && a[m] == b[0];
      assert a[0] == b[0];
      assert a[0] !in a[1..] && b[0] !in b[1..];
      assert a == [a[0]] + a[1..] && b == [b[0]] + b[1..];
      forall i: nat ensures i in a[1..] <==> i in b[1..] {
        assert i in a <==> i == a[0] || i in a[1..];
        assert i in b <==> i == b[0] || i in b[1..];
      }
      SameElementsSameOrder(entities, a[1..], b[1..]);
    }
  }

  lemma RankingIsUnique(entities: seq<Entity>, a: seq<nat>, b: seq<nat>)
    requires IsRanking(entities, a) && IsRanking(entities, b)
    ensures a == b
  {
    SameElementsSameOrder(entities, a, b);
  }

  // ----- counting the living -----

  ghost function Living(entities: seq<Entity>, n: nat): seq<nat> {
    if n == 0 then []
    else if Alive(entities, n - 1) then Living(entities, n - 1) + [n - 1]
    else Living(entities, n - 1)
  }

  lemma {:induction false} LivingIsExact(entities: seq<Entity>, n: nat)
    ensures Below(Living(entities, n), n) && Distinct(Living(entities, n))
    ensures forall i: nat :: i in Living(entities, n) <==> i < n && Alive(entities, i)
  {
    if n > 0 {
      LivingIsExact(entities, n - 1);
    }
  }

  lemma DistinctSameSize(a: seq<nat>, b: seq<nat>)
    requires Distinct(a) && Distinct(b)
    requires forall i: nat :: i in a ==> i in b
    ensures |a| <= |b|
    ensures |a| == |b| ==> forall i: nat :: i in b ==> i in a
  {
    DistinctSize(a);
    DistinctSize(b);
    SubsetSize(Elements(a), Elements(b));
    if |a| == |b| {
      SubsetOfSameSize(Elements(a), Elements(b));
      forall i: nat | i in b ensures i in a {
        assert i in Elements(b);
      }
    }
  }

  lemma RankingSize(entities: seq<Entity>, order: seq<nat>)
    requires IsRanking(entities, order)
    ensures |order| == |Living(entities, |entities|)|
  {
    var living := Living(entities, |entities|);
    LivingIsExact(entities, |entities|);
    DistinctSameSize(order, living);
    DistinctSameSize(living, order);
  }

  method AliveCount(entities: seq<Entity>) returns (count: nat)
    ensures count == |Living(entities, |entities|)|
  {
    count := 0;
    var i := 0;
    while i < |entities|
      invariant i <= |entities| && count == |Living(entities, i)|
    {
      if entities[i].alive {
        count := count + 1;
      }
      i := i + 1;
    }
  }

  /** Where the subtraction and the sums of a priority do not trap. */
  predicate Ranked(e: Entity) {
    e.energy <= 100 && Priority(e) < TWO64
  }

  predicate Rankable(entities: seq<Entity>) {
    forall i :: 0 <= i < |entities| && entities[i].alive ==> Ranked(entities[i])
  }

  method PriorityOf(entity: Entity) returns (priority: nat)
    requires Ranked(entity)
    ensures priority == Priority(entity)
  {
    priority := U64((if entity.health < 40 then 0 else 100) + U64(entity.kind * 11));
    priority := U64(priority + U64(entity.faction * 7));
    priority := U64(priority + (100 - entity.energy));
    priority := U64(priority + entity.id);
  }

  // ----- insertion sort -----

  /** The list with its element at `from` taken out and put back at `to`. */
  function Moved(order: seq<nat>, from: nat, to: nat): seq<nat>
    requires to <= from < |order|
  {
    order[..to] + [order[from]] + order[to..from] + order[from + 1..]
  }

  lemma MovedKeepsElements(order: seq<nat>, from: nat, to: nat)
    requires to <= from < |order|
    ensures forall i: nat :: i in Moved(order, from, to) <==> i in order
  {
    assert order == order[..to] + order[to..from] + [order[from]] + order[from + 1..];
  }

  lemma MovedAt(order: seq<nat>, from: nat, to: nat, k: nat)
    requires to <= from < |order| && k < |order|
    ensures Moved(order, from, to)[k] ==
      if k < to || k > from then order[k] else if k == to then order[from] else order[k - 1]
  {
  }

  lemma MovedIs(order: seq<nat>, order': seq<nat>, from: nat, to: nat)
    requires to <= from < |order| == |order'|
    requires forall k :: 0 <= k < to || from < k < |order| ==> order'[k] == order[k]
    requires order'[to] == order[from]
    requires forall k :: to < k <= from ==> order'[k] == order[k - 1]
    ensures order' == Moved(order, from, to)
  {
    forall k | 0 <= k < |order| ensures order'[k] == Moved(order, from, to)[k] {
      MovedAt(order, from, to, k);
    }
  }

  lemma MovedDistinct(order: seq<nat>, from: nat, to: nat)
    requires to <= from < |order| && Distinct(order)
    ensures Distinct(Moved(order, from, to))
  {
    forall a, b | 0 <= a < b < |order| ensures Moved(order, from, to)[a] != Moved(order, from, to)[b] {
      MovedAt(order, from, to, a);
      MovedAt(order, from, to, b);
    }
  }

  lemma MovedAscends(entities: seq<Entity>, order: seq<nat>, i: nat, j: nat)
    requires Below(order, |entities|) && j <= i < |order|
    requires Ascending(entities, order, i)
    requires j > 0 ==> Before(entities, order[j - 1], order[i])
    requires forall k :: j <= k < i ==> Before(entities, order[i], order[k])
    ensures Below(Moved(order, i, j), |entities|) && Ascending(entities, Moved(order, i, j), i + 1)
  {
    hide Priority;
    var order' := Moved(order, i, j);
    forall k | 0 <= k < |order| ensures order'[k] < |entities| {
      MovedAt(order, i, j, k);
    }
    forall a, b | 0 <= a < b < i + 1 ensures Before(entities, order'[a], order'[b]) {
      MovedAt(order, i, j, a);
      MovedAt(order, i, j, b);
      assert a < j - 1 ==> Before(entities, order[a], order[j - 1]);
    }
  }

  /** Places the element at `i` among the sorted elements before it, shifting them one by one. */
  method Insert(entities: seq<Entity>, order: seq<nat>, i: nat) returns (order': seq<nat>)
    requires Below(order, |entities|) && i < |order| && Distinct(order)
    requires forall k :: 0 <= k < |order| ==> Ranked(entities[order[k]])
    requires Ascending(entities, order, i)
    ensures Below(order', |entities|) && |order'| == |order| && Distinct(order')
    ensures Ascending(entities, order', i + 1)
    ensures forall e: nat :: e in order' <==> e in order
  {
    hide Moved;
    order' := order;
    var key := order'[i];
    var keyPriority := PriorityOf(entities[key]);
    var j := i;
    while j > 0
      invariant j <= i && |order'| == |order|
      invariant forall k :: 0 <= k < j ==> order'[k] == order[k]
      invariant forall k :: j < k <= i ==> order'[k] == order[k - 1]
      invariant forall k :: i < k < |order| ==> order'[k] == order[k]
      invariant forall k :: j <= k < i ==> Before(entities, key, order[k])
    {
      var previous := order'[j - 1];
      var previousPriority := PriorityOf(entities[previous]);
      if previousPriority < keyPriority || (previousPriority == keyPriority && previous < key) {
        break;
      }
      order' := order'[j := previous];
      j := j - 1;
    }
    order' := order'[j := key];
    MovedIs(order, order', i, j);
    MovedKeepsElements(order, i, j);
    MovedDistinct(order, i, j);
    MovedAscends(entities, order, i, j);
  }

  method SortLiving(entities: seq<Entity>) returns (order: seq<nat>)
    requires Rankable(entities)
    ensures IsRanking(entities, order)
  {
    order := [];
    var i := 0;
    while i < |entities|
      invariant i <= |entities| && order == Living(entities, i)
    {
      if entities[i].alive {
        order := order + [i];
      }
      i := i + 1;
    }
    LivingIsExact(entities, |entities|);
    hide Living;
    hide Before;
    hide Ranked;
    i := 1;
    while i < |order|
      invariant 1 <= i && Below(order, |entities|) && Distinct(order)
      invariant forall e: nat :: e in order <==> Alive(entities, e)
      invariant Ascending(entities, order, if i <= |order| then i else |order|)
    {
      forall k | 0 <= k < |order| ensures Ranked(entities[order[k]]) {
        assert order[k] in order;
      }
      order := Insert(entities, order, i);
      i := i + 1;
    }
  }

  /** The schedule of a world. */
  method Build(entities: seq<Entity>) returns (out: Schedule)
    requires Rankable(entities)
    ensures IsRanking(entities, out.order)
    ensures out.digest == Digest(OFFSET_BASIS, out.order)
    ensures out.valid
  {
    var order := SortLiving(entities);
    RankingSize(entities, order);
    var digest := OFFSET_BASIS;
    var i, last := 0, 0;
    hide Mix;
    hide Living;
    while i < |order|
      invariant i <= |order|
      invariant i > 0 ==> last == Priority(entities[order[i - 1]])
      invariant digest == Digest(OFFSET_BASIS, order[..i])
    {
      var index := order[i];
      assert index in order;
      var current := PriorityOf(entities[index]);
      assert i > 0 ==> Before(entities, order[i - 1], index);
      if i > 0 && current < last {
        assert false;
        return Schedule(order, digest, false);
      }
      DigestSnoc(OFFSET_BASIS, order[..i], index);
      assert order[..i] + [index] == order[..i + 1];
      last, digest := current, Mix(digest, index);
      i := i + 1;
    }
    assert order[..i] == order;
    var count := AliveCount(entities);
    out := Schedule(order, digest, |order| == count);
  }

  // ----- the oracle -----

  /** `order` begins the ranking: ascending, and before every living entity it leaves out. */
  ghost predicate BeginsRanking(entities: seq<Entity>, order: seq<nat>) {
    && Below(order, |entities|)
    && Ascending(entities, order, |order|)
    && (forall i: nat :: i in order ==> Alive(entities, i))
    && (forall i: nat, k: nat :: Alive(entities, i) && i !in order && k < |order| ==> Before(entities, order[k], i))
  }

  /** `best` is the first, in the ranking, of the entities below `n` not yet ordered. */
  ghost predicate IsBest(entities: seq<Entity>, order: seq<nat>, n: nat, best: nat) {
    if best == NONE then
      forall i: nat :: i < n && Alive(entities, i) ==> i in order
    else
      && best < n && Alive(entities, best) && best !in order
      && forall i: nat :: i < n && Alive(entities, i) && i !in order ==> i == best || Before(entities, best, i)
  }

  lemma BestExtends(entities: seq<Entity>, order: seq<nat>, best: nat)
    requires BeginsRanking(entities, order) && best != NONE
    requires IsBest(entities, order, |entities|, best)
    ensures BeginsRanking(entities, order + [best])
  {
    hide Priority;
    forall i: nat, k: nat | Alive(entities, i) && i !in order + [best] && k < |order| + 1
      ensures Before(entities, (order + [best])[k], i)
    {
      assert i !in order && i != best;
    }
  }

  lemma AscendingIsDistinct(entities: seq<Entity>, order: seq<nat>)
    requires Below(order, |entities|) && Ascending(entities, order, |order|)
    ensures Distinct(order)
  {
  }

  /** As many entities ordered as are alive, or none left to order: the ranking is complete. */
  lemma CompleteRanking(entities: seq<Entity>, order: seq<nat>)
    requires BeginsRanking(entities, order)
    requires |order| >= |Living(entities, |entities|)| || IsBest(entities, order, |entities|, NONE)
    ensures IsRanking(entities, order)
  {
    var living := Living(entities, |entities|);
    LivingIsExact(entities, |entities|);
    AscendingIsDistinct(entities, order);
    DistinctSameSize(order, living);
  }

  method SelectBest(entities: seq<Entity>, used: seq<bool>, ghost order: seq<nat>) returns (best: nat)
    requires Rankable(entities) && |used| == |entities| < NONE
    requires forall i: nat :: i < |used| ==> (used[i] <==> i in order)
    ensures IsBest(entities, order, |entities|, best)
  {
    best := NONE;
    var bestPriority := NONE;
    var i := 0;
    while i < |entities|
      invariant i <= |entities| && IsBest(entities, order, i, best)
      invariant best != NONE ==> bestPriority == Priority(entities[best])
    {
      var entity := entities[i];
      if entity.alive && !used[i] {
        var current := PriorityOf(entity);
        if best == NONE || current < bestPriority || (current == bestPriority && i < best) {
          best, bestPriority := i, current;
        }
      }
      i := i + 1;
    }
  }

  /** Selects the best remaining entity until as many are ordered as are alive. */
  method Select(entities: seq<Entity>) returns (order: seq<nat>)
    requires Rankable(entities) && |entities| < NONE
    ensures IsRanking(entities, order)
  {
    var used := seq(|entities|, _ => false);
    order := [];
    hide Priority;
    hide Before;
    var count := AliveCount(entities);
    while |order| < count
      invariant BeginsRanking(entities, order) && count == |Living(entities, |entities|)|
      invariant |used| == |entities| && forall i: nat :: i < |used| ==> (used[i] <==> i in order)
      decreases count - |order|
    {
      var best := SelectBest(entities, used, order);
      if best == NONE {
        break;
      }
      BestExtends(entities, order, best);
      used := used[best := true];
      order := order + [best];
      count := AliveCount(entities);
    }
    CompleteRanking(entities, order);
  }

  /** Accepts a schedule exactly when its order is the ranking. */
  method Agrees(entities: seq<Entity>, actual: Schedule) returns (ok: bool)
    requires Rankable(entities) && |entities| < NONE
    ensures ok <==> IsRanking(entities, actual.order)
  {
    var expected := Select(entities);
    if IsRanking(entities, actual.order) {
      RankingIsUnique(entities, expected, actual.order);
    }
    hide IsRanking;
    if |expected| != |actual.order| {
      return false;
    }
    var i := 0;
    while i < |expected|
      invariant i <= |expected| && expected[..i] == actual.order[..i]
    {
      if expected[i] != actual.order[i] {
        return false;
      }
      i := i + 1;
    }
    assert expected == expected[..i] == actual.order[..i] == actual.order;
    ok := true;
  }

  /** The self-test's check: insertion and selection never disagree. */
  method CrossCheck(entities: seq<Entity>) returns (ok: bool)
    requires Rankable(entities) && |entities| < NONE
    ensures ok
  {
    var schedule := Build(entities);
    var agrees := Agrees(entities, schedule);
    ok := schedule.valid && agrees;
  }
}
