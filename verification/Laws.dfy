/** What one tick does to a world, stated on the world before and the world after it: where
    entities go, what they decide and hold, which events they leave and what is reported. */
module Laws {
  import opened Model
  import opened Tick
  import opened Indexes
  import Accounts
  import Economy
  import Paths
  import Runs
  import Simulation

  // ----- one entity -----

  /** In a world stored row by row, walkable cells are those of walkable tiles. */
  lemma WalkableIsTile(s: State, x: int, y: int)
    requires Paths.RowMajor(s)
    ensures Walkable(s, x, y) <==> exists t :: t in s.tiles && t.x == x && t.y == y && t.walkable
  {
    if 0 <= x < s.width && 0 <= y < s.height {
      Paths.TileAt(s, x, y);
    }
    if t :| t in s.tiles && t.x == x && t.y == y {
      var j :| 0 <= j < |s.tiles| && s.tiles[j] == t;
      assert TileIndex(s, t.x, t.y) == j;
    }
  }

  /** A living entity ends where its new velocity takes it if that cell is walkable, and stays where
      it was otherwise; it remembers where it was. */
  lemma MoveLaw(s: State, i: nat)
    requires i < |s.entities| && s.entities[i].alive
    ensures |Step(s).entities| == |s.entities|
    ensures var (e, e') := (s.entities[i], Step(s).entities[i]);
      var free := Walkable(s, e.x + e'.velocityX, e.y + e'.velocityY);
      && (free ==> e'.x == e.x + e'.velocityX && e'.y == e.y + e'.velocityY && e'.experience == e.experience + 1)
      && (!free ==> e'.x == e.x && e'.y == e.y && e'.experience == e.experience)
      && e'.previousX == e.x && e'.previousY == e.y
  {
    hide Step;
    hide Walkable;
    StepEntities(s, i);
    var (s', e) := (s.(tick := s.tick + 1), s.entities[i]);
    Runs.WalkableIsGround(s', s, e.x + Direction(e.id, s'.tick, 0), e.y + Direction(e.id, s'.tick, 1));
    hide Direction;
  }

  /** The residue that decides a direction. */
  function Residue(id: nat, tick: nat, axis: nat): nat {
    (2 * id + 3 * tick + 2 * axis) % 5
  }

  /** Back, forth, or not at all. */
  function ByResidue(r: nat): int {
    if r == 0 then -1 else if r == 1 then 1 else 0
  }

  lemma FivesDoNotMatter(n: nat, k: nat)
    ensures (n + 5 * k) % 5 == n % 5
  {
  }

  lemma DirectionResidue(id: nat, tick: nat, axis: nat)
    ensures Direction(id, tick, axis) == ByResidue(Residue(id, tick, axis))
  {
    FivesDoNotMatter(2 * id + 3 * tick + 2 * axis, 3 * id + 2 * tick + axis);
  }

  function NextResidue(r: nat): nat {
    if r < 2 then r + 3 else r - 2
  }

  lemma ResidueSteps(id: nat, tick: nat, axis: nat)
    ensures Residue(id, tick, axis) < 5
    ensures Residue(id, tick + 1, axis) == NextResidue(Residue(id, tick, axis))
  {
    var n := 2 * id + 3 * tick + 2 * axis;
    ThreeMore(n);
    assert 2 * id + 3 * (tick + 1) + 2 * axis == n + 3;
    hide NextResidue;
  }

  lemma ThreeMore(n: nat)
    ensures n % 5 < 5 && (n + 3) % 5 == NextResidue(n % 5)
  {
    var (q, r) := (n / 5, n % 5);
    assert n + 3 == (r + 3) + 5 * q;
    FivesDoNotMatter(r + 3, q);
  }

  lemma CycleOf(r: nat)
    requires r < 5
    ensures var (s, t) := (NextResidue(r), NextResidue(NextResidue(r)));
      multiset{ByResidue(r), ByResidue(s), ByResidue(t), ByResidue(NextResidue(t)),
               ByResidue(NextResidue(NextResidue(t)))}
      == multiset{-1, 1, 0, 0, 0}
  {
    var (s, t) := (NextResidue(r), NextResidue(NextResidue(r)));
    var (u, v) := (NextResidue(t), NextResidue(NextResidue(t)));
    if r == 0 {
      assert (s, t, u, v) == (3, 1, 4, 2);
    } else if r == 1 {
      assert (s, t, u, v) == (4, 2, 0, 3);
    } else if r == 2 {
      assert (s, t, u, v) == (0, 3, 1, 4);
    } else if r == 3 {
      assert (s, t, u, v) == (1, 4, 2, 0);
    } else {
      assert (s, t, u, v) == (2, 0, 3, 1);
    }
  }

  /** On each axis, five ticks in a row take an entity back once, forth once and leave it thrice. */
  lemma DirectionCycle(id: nat, tick: nat, axis: nat)
    ensures multiset{Direction(id, tick, axis), Direction(id, tick + 1, axis), Direction(id, tick + 2, axis),
                     Direction(id, tick + 3, axis), Direction(id, tick + 4, axis)}
      == multiset{-1, 1, 0, 0, 0}
  {
    hide Direction;
    hide Residue;
    hide ByResidue;
    hide NextResidue;
    DirectionResidue(id, tick, axis);
    DirectionResidue(id, tick + 1, axis);
    DirectionResidue(id, tick + 2, axis);
    DirectionResidue(id, tick + 3, axis);
    DirectionResidue(id, tick + 4, axis);
    ResidueSteps(id, tick, axis);
    ResidueSteps(id, tick + 1, axis);
    ResidueSteps(id, tick + 2, axis);
    ResidueSteps(id, tick + 3, axis);
    CycleOf(Residue(id, tick, axis));
  }

  /** The new velocity of a living entity. */
  lemma VelocityLaw(s: State, i: nat)
    requires i < |s.entities| && s.entities[i].alive
    ensures |Step(s).entities| == |s.entities|
    ensures var (e, e') := (s.entities[i], Step(s).entities[i]);
      && e'.velocityX in {-1, 0, 1} && e'.velocityY in {-1, 0, 1}
      && (e'.velocityX == -1 <==> Residue(e.id, s.tick + 1, 0) == 0)
      && (e'.velocityX == 1 <==> Residue(e.id, s.tick + 1, 0) == 1)
      && (e'.velocityY == -1 <==> Residue(e.id, s.tick + 1, 1) == 0)
      && (e'.velocityY == 1 <==> Residue(e.id, s.tick + 1, 1) == 1)
  {
    hide Step;
    hide Walkable;
    hide Direction;
    hide Residue;
    StepEntities(s, i);
    DirectionResidue(s.entities[i].id, s.tick + 1, 0);
    DirectionResidue(s.entities[i].id, s.tick + 1, 1);
  }

  /** What a living entity decides: each decision and exactly when it is taken. */
  lemma DecisionLaw(s: State, i: nat)
    requires i < |s.entities| && s.entities[i].alive
    ensures |Step(s).entities| == |s.entities|
    ensures var (e, e') := (s.entities[i], Step(s).entities[i]);
      var fit := e.health >= 35 && e.energy >= 20;
      && (e'.state == 5 <==> e.health < 35)
      && (e'.state == 4 <==> e.health >= 35 && e.energy < 20)
      && (e'.state == 1 <==> fit && e.kind == WORKER && s.resources > 0)
      && (e'.state == 2 <==> fit && e.kind == SCOUT)
      && (e'.state == 3 <==> fit && e.kind == BUILDER && s.treasury >= 10)
      && (e'.state == 6 <==> fit && e.kind == GUARD)
      && 1 <= e'.state <= 7
      && (e'.goal != e.goal ==> e.state != 2 && e'.state == 2)
      && (e.state != 2 && e'.state == 2 && s.tiles != [] ==>
            e'.goal < |s.tiles| && exists k: nat :: e.id + s.tick + 1 == k * |s.tiles| + e'.goal)
  {
    hide Step;
    hide Walkable;
    hide Direction;
    StepEntities(s, i);
    if s.tiles != [] {
      GoalQuotient(s.entities[i].id + s.tick + 1, |s.tiles|);
    }
  }

  lemma GoalQuotient(n: nat, m: nat)
    requires m > 0
    ensures n % m < m && exists k: nat :: n == k * m + n % m
  {
    assert n == (n / m) * m + n % m;
  }

  /** What a living entity holds: workers make three goods a tick and builders one, and whoever then
      has eight or more hands over four for two credits. */
  lemma HoldingsLaw(s: State, i: nat)
    requires i < |s.entities| && s.entities[i].alive
    ensures |Step(s).entities| == |s.entities|
    ensures var (e, e') := (s.entities[i], Step(s).entities[i]);
      var made := e'.inventory - e.inventory + 2 * (e'.credits - e.credits);
      && (e.kind == WORKER ==> made == 3) && (e.kind == BUILDER ==> made == 1)
      && (e.kind != WORKER && e.kind != BUILDER ==> made == 0)
      && (e'.credits == e.credits + 2 || e'.credits == e.credits)
      && (e'.credits == e.credits + 2 <==> e.inventory + made >= 8)
      && e'.energy == (if e.energy > 0 then e.energy - 1 else 0)
      && e'.updatedTick == s.tick + 1
  {
    hide Step;
    hide Walkable;
    hide Direction;
    hide Choose;
    StepEntities(s, i);
  }

  // ----- the worlds between the phases -----

  /** An entity after each phase of a tick. */
  lemma Midway(s: State, i: nat)
    requires i < |s.entities|
    ensures var (e, s', s0) := (s.entities[i], s.(tick := s.tick + 1), s.(tick := s.tick + 1));
      var s1 := All(Thinking, s0);
      var s2 := All(Preparing, s1);
      var s3 := All(Moving, s2);
      && |s1.entities| == |s2.entities| == |s3.entities| == |Step(s).entities| == |s.entities|
      && s1.entities[i] == EntityAfter(Thinking, s', e)
      && s2.entities[i] == EntityAfter(Preparing, s', s1.entities[i])
      && s3.entities[i] == EntityAfter(Moving, s', s2.entities[i])
      && EntityAfter(Moving, s2, s2.entities[i]) == s3.entities[i]
      && Step(s).entities[i] == EntityAfter(Trading, s', s3.entities[i])
  {
    hide EntityAfter;
    hide Step;
    hide Sweep;
    var s0 := s.(tick := s.tick + 1);
    var s1 := All(Thinking, s0);
    var s2 := All(Preparing, s1);
    StepEntities(s, i);
    SweepEntities(Thinking, s0, |s.entities|);
    SweepEntities(Preparing, s1, |s.entities|);
    SweepEntities(Moving, s2, |s.entities|);
    SweepFrame(Thinking, s0, |s.entities|);
    SweepFrame(Preparing, s1, |s.entities|);
    TurnDependsOnGround(Preparing, s0, s1, s1.entities[i]);
    TurnDependsOnGround(Moving, s0, s2, s2.entities[i]);
  }

  // ----- what is counted -----

  /** The entity decides differently in the tick from `s`. */
  ghost predicate Changes(s: State, i: nat) {
    i < |s.entities| && i < |Step(s).entities| && Step(s).entities[i].state != s.entities[i].state
  }

  ghost predicate Moves(s: State, i: nat) {
    && i < |s.entities| && i < |Step(s).entities|
    && (Step(s).entities[i].x != s.entities[i].x || Step(s).entities[i].y != s.entities[i].y)
  }

  /** The entity is alive and its new velocity leads where it cannot go. */
  ghost predicate Blocked(s: State, i: nat) {
    && i < |s.entities| && i < |Step(s).entities| && s.entities[i].alive
    && var (e, e') := (s.entities[i], Step(s).entities[i]); !Walkable(s, e.x + e'.velocityX, e.y + e'.velocityY)
  }

  ghost function ChangersTo(s: State, k: nat): set<nat> {
    set i: nat | i < k && Changes(s, i)
  }

  ghost function MoversTo(s: State, k: nat): set<nat> {
    set i: nat | i < k && Moves(s, i)
  }

  ghost function BlockedTo(s: State, k: nat): set<nat> {
    set i: nat | i < k && Blocked(s, i)
  }

  /** The living entities of a kind. */
  ghost function OfKind(s: State, kind: nat, k: nat): set<nat> {
    set i: nat | i < k && i < |s.entities| && s.entities[i].alive && s.entities[i].kind == kind
  }

  lemma OneMore(a: set<nat>, b: set<nat>, k: nat, more: bool)
    requires k !in a && b == if more then a + {k} else a
    ensures |b| == |a| + if more then 1 else 0
  {
  }

  lemma NobodyYet(s: State, kind: nat)
    ensures ChangersTo(s, 0) == {} && MoversTo(s, 0) == {} && BlockedTo(s, 0) == {} && OfKind(s, kind, 0) == {}
  {
  }

  lemma ChangersGrow(s: State, k: nat)
    ensures |ChangersTo(s, k + 1)| == |ChangersTo(s, k)| + if Changes(s, k) then 1 else 0
  {
    hide Changes;
    OneMore(ChangersTo(s, k), ChangersTo(s, k + 1), k, Changes(s, k));
  }

  lemma MoversGrow(s: State, k: nat)
    ensures |MoversTo(s, k + 1)| == |MoversTo(s, k)| + if Moves(s, k) then 1 else 0
  {
    hide Moves;
    OneMore(MoversTo(s, k), MoversTo(s, k + 1), k, Moves(s, k));
  }

  lemma BlockedGrow(s: State, k: nat)
    ensures |BlockedTo(s, k + 1)| == |BlockedTo(s, k)| + if Blocked(s, k) then 1 else 0
  {
    hide Blocked;
    OneMore(BlockedTo(s, k), BlockedTo(s, k + 1), k, Blocked(s, k));
  }

  lemma KindGrows(s: State, kind: nat, k: nat)
    requires k < |s.entities|
    ensures |OfKind(s, kind, k + 1)|
      == |OfKind(s, kind, k)| + if s.entities[k].alive && s.entities[k].kind == kind then 1 else 0
  {
    OneMore(OfKind(s, kind, k), OfKind(s, kind, k + 1), k, s.entities[k].alive && s.entities[k].kind == kind);
  }

  lemma {:induction false} ChangesCounted(s: State, k: nat)
    requires k <= |s.entities|
    ensures Simulation.ChangesTo(s.(tick := s.tick + 1), k) == |ChangersTo(s, k)|
  {
    hide Step;
    hide EntityAfter;
    hide ChangersTo;
    NobodyYet(s, 0);
    if k > 0 {
      ChangesCounted(s, k - 1);
      StateIsDecided(s, k - 1);
      ChangersGrow(s, k - 1);
    }
  }

  /** Only thinking changes what an entity has decided. */
  lemma StateIsDecided(s: State, i: nat)
    requires i < |s.entities|
    ensures |Step(s).entities| == |s.entities|
    ensures Step(s).entities[i].state == EntityAfter(Thinking, s.(tick := s.tick + 1), s.entities[i]).state
  {
    hide Step;
    hide Walkable;
    hide Direction;
    hide Choose;
    StepEntities(s, i);
  }

  lemma PlaceIsMoved(s: State, i: nat)
    requires i < |s.entities|
    ensures var s2 := All(Preparing, All(Thinking, s.(tick := s.tick + 1)));
      && |Step(s).entities| == |s2.entities| == |s.entities|
      && var (e, e', e2) := (s.entities[i], Step(s).entities[i], s2.entities[i]);
         var e3 := EntityAfter(Moving, s2, e2);
         e2.x == e.x && e2.y == e.y && e3.x == e'.x && e3.y == e'.y
  {
    hide Step;
    hide Sweep;
    hide Walkable;
    hide Direction;
    hide Choose;
    Midway(s, i);
  }

  lemma {:induction false} MovesCounted(s: State, k: nat)
    requires k <= |s.entities|
    ensures var s2 := All(Preparing, All(Thinking, s.(tick := s.tick + 1)));
      |s2.entities| == |s.entities| && Simulation.MovesTo(s2, k) == |MoversTo(s, k)|
  {
    hide Step;
    hide EntityAfter;
    hide Sweep;
    hide MoversTo;
    NobodyYet(s, 0);
    if k > 0 {
      MovesCounted(s, k - 1);
      PlaceIsMoved(s, k - 1);
      MoversGrow(s, k - 1);
    }
  }

  lemma {:induction false} ProducedCounted(s: State, k: nat)
    requires k <= |s.entities|
    ensures Economy.TotalsTo(s, k).produced == 3 * |OfKind(s, WORKER, k)| + |OfKind(s, BUILDER, k)|
  {
    hide Affords;
    hide Sweep;
    hide OfKind;
    NobodyYet(s, WORKER);
    NobodyYet(s, BUILDER);
    if k > 0 {
      ProducedCounted(s, k - 1);
      KindGrows(s, WORKER, k - 1);
      KindGrows(s, BUILDER, k - 1);
    }
  }

  lemma SameKinds(a: State, b: State, kind: nat)
    requires |a.entities| == |b.entities|
    requires forall i :: 0 <= i < |a.entities| ==>
      a.entities[i].alive == b.entities[i].alive && a.entities[i].kind == b.entities[i].kind
    ensures OfKind(a, kind, |a.entities|) == OfKind(b, kind, |b.entities|)
  {
  }

  lemma KindIsKept(s: State, i: nat)
    requires i < |s.entities|
    ensures var s3 := All(Moving, All(Preparing, All(Thinking, s.(tick := s.tick + 1))));
      && |s3.entities| == |s.entities|
      && s3.entities[i].alive == s.entities[i].alive && s3.entities[i].kind == s.entities[i].kind
  {
    hide Step;
    hide Sweep;
    hide Walkable;
    hide Direction;
    hide Choose;
    Midway(s, i);
  }

  /** What a tick reports: how many entities changed their decision and their place, what was made,
      and how many events there are. */
  lemma ReportLaw(s: State)
    ensures var (n, r) := (|s.entities|, Simulation.Report(s));
      && r.tick == s.tick + 1 && r.aiChanges == |ChangersTo(s, n)| && r.moved == |MoversTo(s, n)|
      && r.produced == 3 * |OfKind(s, WORKER, n)| + |OfKind(s, BUILDER, n)|
      && r.events == |Step(s).events| && r.valid == s.valid
  {
    hide Step;
    hide Sweep;
    hide Simulation.ChangesTo;
    hide Simulation.MovesTo;
    hide Economy.TotalsTo;
    hide ChangersTo;
    hide MoversTo;
    hide OfKind;
    var n := |s.entities|;
    ChangesCounted(s, n);
    MovesCounted(s, n);
    var s3 := All(Moving, All(Preparing, All(Thinking, s.(tick := s.tick + 1))));
    forall i | 0 <= i < n
      ensures |s3.entities| == n
      ensures s3.entities[i].alive == s.entities[i].alive && s3.entities[i].kind == s.entities[i].kind
    {
      KindIsKept(s, i);
    }
    ProducedCounted(s3, n);
    SameKinds(s3, s, WORKER);
    SameKinds(s3, s, BUILDER);
  }

  // ----- the events of a tick -----

  /** The event of a turn stays where the turn put it. */
  lemma {:induction false} SweepEventAt(p: Phase, s: State, k: nat, i: nat)
    requires i < k <= |s.entities| && |EventsOf(p, s, s.entities[i])| == 1
    ensures var at := |s.events| + Accounts.EventCount(p, s, i);
      at < |Sweep(p, s, k).events|
      && SameEvent(Sweep(p, s, k).events[at], EventsOf(p, s, s.entities[i])[0])
    decreases k
  {
    hide EventsOf;
    hide EntityAfter;
    hide Turn;
    hide SameGround;
    hide SameEvent;
    hide Sweep;
    hide Accounts.EventCount;
    var before := Sweep(p, s, k - 1);
    NextTurn(p, s, k);
    SweepEntities(p, s, k - 1);
    SweepFrame(p, s, k - 1);
    TurnShape(p, before, k - 1);
    Accounts.SweepEvents(p, s, k - 1);
    if i == k - 1 {
      EventsOnGround(p, s, before, s.entities[i]);
    } else {
      SweepEventAt(p, s, k - 1, i);
    }
  }

  /** The events are the same but for their sequence numbers. */
  predicate SameEvent(a: Event, b: Event) {
    a == b.(sequence := a.sequence)
  }

  lemma EventsOnGround(p: Phase, a: State, b: State, e: Entity)
    requires SameGround(a, b) && (p != Trading ==> a.resources == b.resources && a.treasury == b.treasury)
    requires |EventsOf(p, a, e)| == 1
    ensures |EventsOf(p, b, e)| == 1 && SameEvent(EventsOf(p, b, e)[0], EventsOf(p, a, e)[0])
  {
  }

  lemma {:induction false} BlockedCounted(s: State, k: nat)
    requires k <= |s.entities|
    ensures var s2 := All(Preparing, All(Thinking, s.(tick := s.tick + 1)));
      |s2.entities| == |s.entities| && Accounts.EventCount(Moving, s2, k) == |BlockedTo(s, k)|
  {
    hide Step;
    hide EventsOf;
    hide Sweep;
    hide BlockedTo;
    hide Blocked;
    NobodyYet(s, 0);
    if k > 0 {
      BlockedCounted(s, k - 1);
      BlockedEvent(s, k - 1);
      BlockedGrow(s, k - 1);
    }
  }

  /** The event of a move that is not allowed. */
  lemma BlockedEvent(s: State, i: nat)
    requires i < |s.entities|
    ensures var s2 := All(Preparing, All(Thinking, s.(tick := s.tick + 1)));
      && |s2.entities| == |s.entities|
      && EventsOf(Moving, s2, s2.entities[i])
         == if Blocked(s, i) then [Event(s.tick + 1, 2, s.entities[i].id, NONE, 1, s2.nextSequence)] else []
  {
    hide Step;
    hide Sweep;
    hide Walkable;
    hide Direction;
    hide Choose;
    Midway(s, i);
    var s2 := All(Preparing, All(Thinking, s.(tick := s.tick + 1)));
    SecondGround(s);
    var (e, e', e2) := (s.entities[i], Step(s).entities[i], s2.entities[i]);
    Runs.WalkableIsGround(s2, s, e2.x + e2.velocityX, e2.y + e2.velocityY);
  }

  lemma SecondGround(s: State)
    ensures var s2 := All(Preparing, All(Thinking, s.(tick := s.tick + 1)));
      s2.tick == s.tick + 1 && s2.width == s.width && s2.height == s.height && s2.tiles == s.tiles
  {
    hide Sweep;
    var s0 := s.(tick := s.tick + 1);
    SweepFrame(Thinking, s0, |s.entities|);
    SweepFrame(Preparing, All(Thinking, s0), |All(Thinking, s0).entities|);
  }

  /** The event of a changed decision. */
  lemma ChangeEvent(s: State, i: nat)
    requires i < |s.entities|
    ensures |Step(s).entities| == |s.entities|
    ensures var (e, e', s0) := (s.entities[i], Step(s).entities[i], s.(tick := s.tick + 1));
      EventsOf(Thinking, s0, e)
      == if Changes(s, i) then [Event(s.tick + 1, 10 + e'.state, e.id, e.goal, e'.state, s.nextSequence)] else []
  {
    hide Step;
    hide Walkable;
    hide Direction;
    hide Choose;
    StateIsDecided(s, i);
  }

  /** The timeline through the phases: thinking leaves the first events, moving the rest. */
  lemma EventsThroughTick(s: State)
    ensures var (n, s0) := (|s.entities|, s.(tick := s.tick + 1));
      var s1 := All(Thinking, s0);
      var s2 := All(Preparing, s1);
      var s3 := All(Moving, s2);
      && |s1.entities| == |s2.entities| == |s3.entities| == n
      && s.events <= s1.events <= s3.events == Step(s).events
      && |s1.events| == |s2.events| == |s.events| + |ChangersTo(s, n)|
      && |s3.events| == |s2.events| + |BlockedTo(s, n)|
  {
    hide Step;
    hide Sweep;
    hide ChangersTo;
    hide BlockedTo;
    hide Accounts.EventCount;
    hide Simulation.ChangesTo;
    var (n, s0) := (|s.entities|, s.(tick := s.tick + 1));
    var s1 := All(Thinking, s0);
    var s2 := All(Preparing, s1);
    var s3 := All(Moving, s2);
    Accounts.StepIsTraded(s);
    Accounts.SweepEvents(Thinking, s0, n);
    Accounts.SweepEvents(Preparing, s1, n);
    Accounts.SweepEvents(Moving, s2, n);
    Accounts.SweepEvents(Trading, s3, n);
    Accounts.ThinkingEvents(s0, n);
    Accounts.QuietPhase(Preparing, s1, n);
    Accounts.QuietPhase(Trading, s3, n);
    ChangesCounted(s, n);
    BlockedCounted(s, n);
    Runs.SweepAppends(Thinking, s0, n);
    Runs.SweepAppends(Preparing, s1, n);
    Runs.SweepAppends(Moving, s2, n);
    Runs.SweepAppends(Trading, s3, n);
  }

  /** The events of a tick: first one for each changed decision, then one for each blocked move,
      each in the order of the entities, numbered consecutively, and nothing else. */
  lemma EventLaw(s: State, i: nat)
    requires i < |s.entities|
    ensures |Step(s).entities| == |s.entities| && s.events <= Step(s).events
    ensures var n := |s.entities|;
      |Step(s).events| == |s.events| + |ChangersTo(s, n)| + |BlockedTo(s, n)|
    ensures Changes(s, i) ==>
      var (e, e', k) := (s.entities[i], Step(s).entities[i], |ChangersTo(s, i)|);
      && |s.events| + k < |Step(s).events|
      && Step(s).events[|s.events| + k]
         == Event(s.tick + 1, 10 + e'.state, e.id, e.goal, e'.state, s.nextSequence + k)
    ensures Blocked(s, i) ==>
      var k := |ChangersTo(s, |s.entities|)| + |BlockedTo(s, i)|;
      && |s.events| + k < |Step(s).events|
      && Step(s).events[|s.events| + k] == Event(s.tick + 1, 2, s.entities[i].id, NONE, 1, s.nextSequence + k)
  {
    hide Step;
    hide Sweep;
    hide ChangersTo;
    hide BlockedTo;
    hide Changes;
    hide Blocked;
    hide EventsOf;
    hide Accounts.EventCount;
    hide Simulation.ChangesTo;
    var (n, s0) := (|s.entities|, s.(tick := s.tick + 1));
    var s1 := All(Thinking, s0);
    var s2 := All(Preparing, s1);
    EventsThroughTick(s);
    Runs.StepAppends(s);
    ChangeEvent(s, i);
    BlockedEvent(s, i);
    Accounts.ThinkingEvents(s0, i);
    ChangesCounted(s, i);
    BlockedCounted(s, i);
    if Changes(s, i) {
      SweepEventAt(Thinking, s0, n, i);
    }
    if Blocked(s, i) {
      SweepEventAt(Moving, s2, n, i);
    }
  }
}
