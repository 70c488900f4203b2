/** Every hashed field of every reachable state is a 64-bit word, so the checksum's guarantees hold
    of every run that has room. */
module Words {
  import opened Metric
  import opened Model
  import opened Tick
  import opened Worldgen
  import opened Bounds
  import Accounts
  import Checksum
  import Runs
  import Scenarios

  // ----- events -----

  /** An event left within `k` ticks by one of `n` entities, its sequence number aside. */
  ghost predicate EventInRange(e: Event, n: nat, k: nat) {
    e.tick <= k && e.kind <= 17 && e.actor <= n && e.target <= NONE && e.value <= 7
  }

  ghost predicate EventsInRange(es: seq<Event>, n: nat, k: nat) {
    forall i :: 0 <= i < |es| ==> EventInRange(es[i], n, k)
  }

  /** The entities of a sweep are numbered within `n` and have goals that are words. */
  ghost predicate Numbered(s: State, n: nat) {
    forall i :: 0 <= i < |s.entities| ==> s.entities[i].id <= n && s.entities[i].goal <= NONE
  }

  lemma TurnEvents(p: Phase, s: State, e: Entity, n: nat)
    requires e.id <= n && e.goal <= NONE
    ensures EventsInRange(EventsOf(p, s, e), n, s.tick)
  {
    hide Walkable;
  }

  lemma {:induction false} SweepEventsInRange(p: Phase, s: State, k: nat, n: nat)
    requires k <= |s.entities| && Numbered(s, n) && EventsInRange(s.events, n, s.tick)
    ensures EventsInRange(Sweep(p, s, k).events, n, s.tick)
  {
    hide EventsOf;
    hide EntityAfter;
    hide Turn;
    if k > 0 {
      hide EventInRange;
      var before := Sweep(p, s, k - 1);
      SweepEventsInRange(p, s, k - 1, n);
      SweepEntities(p, s, k - 1);
      SweepFrame(p, s, k - 1);
      NextTurn(p, s, k);
      hide Sweep;
      TurnShape(p, before, k - 1);
      TurnEvents(p, before, s.entities[k - 1], n);
    }
  }

  lemma RangesNumbered(s: State, k: nat, r: State)
    requires Newborn(s) && |r.entities| == |s.entities| && |s.tiles| < NONE
    requires forall i :: 0 <= i < |s.entities| ==> InRange(s, s.entities[i], k, r.entities[i])
    ensures Numbered(r, |s.entities|)
  {
    forall i | 0 <= i < |r.entities| ensures r.entities[i].id <= |s.entities| && r.entities[i].goal <= NONE {
      assert Settler(s, i) && InRange(s, s.entities[i], k, r.entities[i]);
    }
  }

  lemma EventsLast(es: seq<Event>, n: nat, k: nat, k': nat)
    requires EventsInRange(es, n, k) && k <= k'
    ensures EventsInRange(es, n, k')
  {
    forall i | 0 <= i < |es| ensures EventInRange(es[i], n, k') {
      assert EventInRange(es[i], n, k);
    }
  }

  lemma StepEventsInRange(s: State, k: nat, r: State)
    requires Newborn(s) && |s.tiles| < NONE && Ranges(s, k, r) && EventsInRange(r.events, |s.entities|, k)
    ensures EventsInRange(Step(r).events, |s.entities|, k + 1)
  {
    hide InRange;
    hide Newborn;
    hide Sweep;
    hide EventsInRange;
    hide Numbered;
    hide Step;
    var n := |s.entities|;
    var r0 := r.(tick := r.tick + 1);
    var r1 := All(Thinking, r0);
    var r2 := All(Preparing, r1);
    var r3 := All(Moving, r2);
    EventsLast(r.events, n, k, k + 1);
    ThoughtMidway(s, k, r);
    PreparedMidway(s, k, r1, r.nextSequence + n);
    MovedMidway(s, k, r2, r.nextSequence + n);
    RangesNumbered(s, k, r0);
    RangesNumbered(s, k, r1);
    RangesNumbered(s, k, r2);
    RangesNumbered(s, k + 1, r3);
    SweepEventsInRange(Thinking, r0, n, n);
    SweepEventsInRange(Preparing, r1, n, n);
    SweepEventsInRange(Moving, r2, n, n);
    SweepEventsInRange(Trading, r3, n, n);
    Accounts.StepIsTraded(r);
  }

  lemma {:induction false} RunEventsInRange(s: State, k: nat)
    requires Newborn(s) && |s.tiles| < NONE
    ensures EventsInRange(Run(s, k).events, |s.entities|, k)
  {
    hide Ranges;
    hide Step;
    if k > 0 {
      RunEventsInRange(s, k - 1);
      RunRanges(s, k - 1);
      StepEventsInRange(s, k - 1, Run(s, k - 1));
    }
  }

  // ----- words -----

  lemma {:induction false} EntitiesAreWords(es: seq<Entity>)
    requires forall i :: 0 <= i < |es| ==> AllU64(Checksum.EntityWords(es[i]))
    ensures AllU64(Checksum.AllEntityWords(es))
  {
    hide Checksum.EntityWords;
    if es != [] {
      EntitiesAreWords(es[..|es| - 1]);
    }
  }

  lemma {:induction false} TilesAreWords(ts: seq<Tile>)
    requires forall i :: 0 <= i < |ts| ==> AllU64(Checksum.TileWords(ts[i]))
    ensures AllU64(Checksum.AllTileWords(ts))
  {
    hide Checksum.TileWords;
    if ts != [] {
      TilesAreWords(ts[..|ts| - 1]);
    }
  }

  lemma {:induction false} EventsAreWords(es: seq<Event>)
    requires forall i :: 0 <= i < |es| ==> AllU64(Checksum.EventWords(es[i]))
    ensures AllU64(Checksum.AllEventWords(es))
  {
    hide Checksum.EventWords;
    if es != [] {
      EventsAreWords(es[..|es| - 1]);
    }
  }

  /** The fields of a newborn world that the run does not bound. */
  predicate Spelled(s: State) {
    && s.seed < TWO64 && s.width < TWO64 && s.height < TWO64 && s.scriptSteps < TWO64
    && forall i :: 0 <= i < |s.tiles| ==> AllU64(Checksum.TileWords(s.tiles[i]))
  }

  lemma EntityIsWords(s: State, ticks: nat, k: nat, e0: Entity, e: Entity)
    requires InRange(s, e0, k, e) && k <= ticks && Runs.NarrowGrid(s) && |s.tiles| < NONE
    requires e0.id + 1000 < TWO64 && e0.kind * 11 + e0.faction * 10 + 2 * ticks + 1000 < TWO64
    ensures AllU64(Checksum.EntityWords(e))
  {
  }

  lemma {:induction false} SequencesInRange(s: State, k: nat)
    requires Newborn(s)
    ensures var r := Run(s, k);
      forall i :: 0 <= i < |r.events| ==> r.events[i].sequence == 1 + i < r.nextSequence
  {
    hide Run;
    Runs.RunAppends(s, k);
  }

  /** Every hashed word of every state of a roomy run fits 64 bits. */
  lemma ReachableWordsFit(s: State, ticks: nat, k: nat)
    requires Laid(s) && Newborn(s) && Roomy(s, ticks) && Spelled(s) && k <= ticks
    ensures AllU64(Checksum.Words(Run(s, k)))
  {
    hide Run;
    hide Checksum.EntityWords;
    hide Checksum.TileWords;
    hide Checksum.EventWords;
    hide InRange;
    hide RoomFor;
    hide Laid;
    var (n, r) := (|s.entities|, Run(s, k));
    TilesFewerThanNone(s);
    RunRanges(s, k);
    RoomAtEnd(s, ticks, k);
    RunEventsInRange(s, k);
    SequencesInRange(s, k);
    forall i | 0 <= i < n ensures AllU64(Checksum.EntityWords(r.entities[i])) {
      assert Settler(s, i);
      RoomForEntity(s, ticks, i);
      EntityIsWords(s, ticks, k, s.entities[i], r.entities[i]);
    }
    forall i | 0 <= i < |r.events| ensures AllU64(Checksum.EventWords(r.events[i])) {
      EventIsWords(r.events[i], n, k);
    }
    hide Roomy;
    hide Newborn;
    EntitiesAreWords(r.entities);
    TilesAreWords(r.tiles);
    EventsAreWords(r.events);
    HeaderIsWords(r);
  }

  lemma TilesFewerThanNone(s: State)
    requires Laid(s)
    ensures |s.tiles| < NONE
  {
  }

  lemma RoomForEntity(s: State, ticks: nat, i: nat)
    requires Roomy(s, ticks) && i < |s.entities|
    ensures var e := s.entities[i]; e.kind * 11 + e.faction * 10 + 2 * ticks + 1000 < TWO64
    ensures |s.entities| + 1000 < TWO64
  {
    assert RoomFor(s.entities[i], |s.entities|, ticks);
  }

  lemma RoomAtEnd(s: State, ticks: nat, k: nat)
    requires Roomy(s, ticks) && k <= ticks
    ensures 1 + 2 * (|s.entities| * k) < TWO64 && k + 17 < TWO64 && |s.entities| < TWO64
    ensures s.resources + s.treasury + 3 * (|s.entities| * k) < TWO64
  {
    hide RoomFor;
    hide Runs.NarrowGrid;
    ProductGrows(|s.entities|, k, ticks);
    SlackAtEnd(|s.entities| * k, |s.entities| * ticks, |s.entities|, ticks, k, s.resources + s.treasury);
  }

  lemma SlackAtEnd(now: nat, end: nat, n: nat, ticks: nat, k: nat, funds: nat)
    requires now <= end && k <= ticks && funds + 10 * end + 20 * n + 20 * ticks + 1000 < TWO64
    ensures 1 + 2 * now < TWO64 && k + 17 < TWO64 && n < TWO64 && funds + 3 * now < TWO64
  {
  }

  lemma EventIsWords(e: Event, n: nat, k: nat)
    requires EventInRange(e, n, k) && n < TWO64 && k + 17 < TWO64 && e.sequence < TWO64
    ensures AllU64(Checksum.EventWords(e))
  {
  }

  lemma HeaderIsWords(s: State)
    requires s.seed < TWO64 && s.tick < TWO64 && s.width < TWO64 && s.height < TWO64 && s.resources < TWO64
    requires s.treasury < TWO64 && s.questsCompleted < TWO64 && s.scriptSteps < TWO64
    ensures AllU64(Checksum.HeaderWords(s))
  {
  }

  /** In every state of a roomy run, one wrong hashed field of one entity changes the checksum. */
  lemma ReachableFaultDetected(s: State, ticks: nat, k: nat, i: nat, e: Entity, j: nat)
    requires Laid(s) && Newborn(s) && Roomy(s, ticks) && Spelled(s) && k <= ticks && i < |Run(s, k).entities|
    requires AllU64(Checksum.EntityWords(e))
    requires Checksum.DifferOnce(Checksum.EntityWords(Run(s, k).entities[i]), Checksum.EntityWords(e), j)
    ensures Checksum.Of(Run(s, k)) != Checksum.Of(Run(s, k).(entities := Run(s, k).entities[i := e]))
  {
    hide Run;
    hide Checksum.EntityWords;
    hide Checksum.Of;
    hide Laid;
    hide Newborn;
    hide Roomy;
    hide Spelled;
    var r := Run(s, k);
    ReachableWordsFit(s, ticks, k);
    ReplacedIsWords(r, i, e);
    Checksum.EntityFaultDetected(r, i, e, j);
  }

  lemma ReplacedIsWords(s: State, i: nat, e: Entity)
    requires AllU64(Checksum.Words(s)) && i < |s.entities| && AllU64(Checksum.EntityWords(e))
    ensures AllU64(Checksum.Words(s.(entities := s.entities[i := e])))
  {
    hide Checksum.EntityWords;
    hide Checksum.Words;
    hide AllU64;
    var front, back := Checksum.WordsAroundEntity(s, i, e);
    PartsAreWords(front, Checksum.EntityWords(s.entities[i]), Checksum.EntityWords(e), back);
  }

  lemma PartsAreWords(front: seq<nat>, middle: seq<nat>, other: seq<nat>, back: seq<nat>)
    requires AllU64(front + middle + back) && AllU64(other)
    ensures AllU64(front + other + back)
  {
    var all := front + middle + back;
    assert forall i :: 0 <= i < |front| ==> all[i] == front[i];
    assert forall i :: 0 <= i < |back| ==> all[|front| + |middle| + i] == back[i];
  }

  // ----- generated worlds -----

  lemma FreshTileIsWords(seed: nat, width: nat, height: nat, x: nat, y: nat)
    requires GroundFits(seed, width, height) && x < width && y < height
    ensures AllU64(Checksum.TileWords(FreshTile(seed, x, y)))
  {
    hide Xor;
    CellFits(seed, width, height, x, y);
  }

  lemma GroundIsSpelled(seed: nat, width: nat, height: nat)
    requires width * height < NONE && GroundFits(seed, width, height)
    ensures forall i :: 0 <= i < |Ground(seed, width, height).tiles| ==>
      AllU64(Checksum.TileWords(Ground(seed, width, height).tiles[i]))
  {
    hide Checksum.TileWords;
    hide FreshTile;
    RowsAt(seed, width, height);
    var tiles := Ground(seed, width, height).tiles;
    forall i | 0 <= i < |tiles| ensures AllU64(Checksum.TileWords(tiles[i])) {
      assert TileOk(tiles[i], i, seed, width, height);
      FreshTileIsWords(seed, width, height, tiles[i].x, tiles[i].y);
    }
  }

  ghost predicate TilesSpelled(s: State) {
    forall i :: 0 <= i < |s.tiles| ==> AllU64(Checksum.TileWords(s.tiles[i]))
  }

  lemma PaintedIsSpelled(s: State, spec: Scenarios.TileSpec, i: nat)
    requires TilesSpelled(s) && spec.terrain < TWO64
    ensures TilesSpelled(Painted(s, spec, i))
  {
    hide TileIndex;
    hide Passable;
    forall j | 0 <= j < |Painted(s, spec, i).tiles| ensures AllU64(Checksum.TileWords(Painted(s, spec, i).tiles[j])) {
      TileWordsFields(s.tiles[j]);
      TileWordsFields(Painted(s, spec, i).tiles[j]);
    }
  }

  lemma TileWordsFields(t: Tile)
    ensures AllU64(Checksum.TileWords(t)) <==>
      t.x < TWO64 && t.y < TWO64 && t.terrain < TWO64 && t.height < TWO64 && t.resource < TWO64 && t.region < TWO64
  {
    var w := Checksum.TileWords(t);
    assert w[0] == t.x && w[1] == t.y && w[2] == t.terrain && w[3] == t.height;
    assert w[4] == t.resource && w[5] == t.region;
  }

  lemma ArrivedIsSpelled(s: State, kind: nat, faction: nat, x: nat, y: nat)
    requires TilesSpelled(s)
    ensures TilesSpelled(Arrived(s, kind, faction, x, y))
  {
    hide TileIndex;
    var s' := Arrived(s, kind, faction, x, y);
    forall j | 0 <= j < |s'.tiles| ensures AllU64(Checksum.TileWords(s'.tiles[j])) {
      TileWordsFields(s.tiles[j]);
      TileWordsFields(s'.tiles[j]);
    }
  }

  lemma {:induction false} PaintedByIsSpelled(s: State, specs: seq<Scenarios.TileSpec>, k: nat)
    requires k <= |specs| && TilesSpelled(s) && forall i :: 0 <= i < |specs| ==> specs[i].terrain < TWO64
    ensures TilesSpelled(PaintedBy(s, specs, k))
  {
    hide TilesSpelled;
    hide Painted;
    if k > 0 {
      PaintedByIsSpelled(s, specs, k - 1);
      PaintedIsSpelled(PaintedBy(s, specs, k - 1), specs[k - 1], k - 1);
    }
  }

  lemma {:induction false} PlacedByIsSpelled(s: State, specs: seq<Scenarios.EntitySpec>, k: nat)
    requires k <= |specs| && TilesSpelled(s)
    ensures TilesSpelled(PlacedBy(s, specs, k))
  {
    hide TilesSpelled;
    hide Arrived;
    if k > 0 {
      PlacedByIsSpelled(s, specs, k - 1);
      var (before, spec) := (PlacedBy(s, specs, k - 1), specs[k - 1]);
      ArrivedIsSpelled(before, spec.kind, spec.faction, spec.x, spec.y);
      SpelledIsTiles(before, Diagnosed(before, 1002, k - 1, 2));
    }
  }

  lemma SpelledIsTiles(a: State, b: State)
    requires TilesSpelled(a) && a.tiles == b.tiles
    ensures TilesSpelled(b)
  {
  }

  /** The tiles of a generated world are words. */
  lemma GeneratedIsSpelled(input: Scenarios.Scenario)
    requires WorldFits(input) && forall i :: 0 <= i < |input.tiles| ==> input.tiles[i].terrain < TWO64
    ensures TilesSpelled(Generate(input))
  {
    hide Checksum.TileWords;
    hide PaintedBy;
    hide PlacedBy;
    hide Rows;
    var ground := Ground(SEED, input.width, input.height);
    GroundIsSpelled(SEED, input.width, input.height);
    PaintedByIsSpelled(ground, input.tiles, |input.tiles|);
    PlacedByIsSpelled(PaintedBy(ground, input.tiles, |input.tiles|), input.entities, |input.entities|);
  }
}
