/** How large everything in a run can grow, from what is known before its first tick; and so a
    condition under which no tick traps and every hashed field is a 64-bit word. */
module Bounds {
  import opened Metric
  import opened Model
  import opened Tick
  import opened Traps
  import opened Worldgen
  import Accounts
  import Audits
  import Checksum
  import Economy
  import Replay
  import Runs
  import Scheduler
  import Simulation

  // ----- entities -----

  /** What becomes of an entity within `k` ticks, at most. */
  ghost predicate InRange(s: State, e0: Entity, k: nat, e: Entity) {
    && e.id == e0.id && e.kind == e0.kind && e.faction == e0.faction && e.alive && e.health == 100 && e.energy <= 100
    && 0 <= e.x < s.width && 0 <= e.y < s.height && -1 <= e.velocityX <= 1 && -1 <= e.velocityY <= 1
    && e.state <= 7 && (e.goal == NONE || e.goal < |s.tiles|)
    && (e.inventory <= 7 || e.inventory <= e0.kind * 2)
    && e.credits <= 10 + e0.faction * 3 + 2 * k && e.experience <= k
  }

  ghost predicate SameGrid(a: State, b: State) {
    a.width == b.width && a.height == b.height && a.tiles == b.tiles
  }

  lemma ThinkingRange(s: State, r: State, e0: Entity, k: nat, e: Entity)
    requires InRange(s, e0, k, e) && SameGrid(s, r)
    ensures InRange(s, e0, k, EntityAfter(Thinking, r, e))
  {
    hide Walkable;
    if |r.tiles| > 0 {
      assert (e.id + r.tick) % |r.tiles| < |r.tiles|;
    }
  }

  lemma PreparingRange(s: State, r: State, e0: Entity, k: nat, e: Entity)
    requires InRange(s, e0, k, e) && SameGrid(s, r)
    ensures InRange(s, e0, k, EntityAfter(Preparing, r, e))
  {
    hide Walkable;
  }

  lemma WalkableIsInside(s: State, x: int, y: int)
    requires Walkable(s, x, y)
    ensures 0 <= x < s.width && 0 <= y < s.height
  {
  }

  /** Moving may add a point of experience, trading two credits: both belong to the next tick. */
  lemma MovingRange(s: State, r: State, e0: Entity, k: nat, e: Entity)
    requires InRange(s, e0, k, e) && SameGrid(s, r)
    ensures InRange(s, e0, k + 1, EntityAfter(Moving, r, e))
    ensures EntityAfter(Moving, r, e).credits <= 10 + e0.faction * 3 + 2 * k
  {
    hide Walkable;
    var (nx, ny) := (e.x + e.velocityX, e.y + e.velocityY);
    if Walkable(r, nx, ny) {
      WalkableIsInside(r, nx, ny);
    }
  }

  lemma TradingRange(s: State, r: State, e0: Entity, k: nat, e: Entity)
    requires InRange(s, e0, k + 1, e) && e.credits <= 10 + e0.faction * 3 + 2 * k
    ensures InRange(s, e0, k + 1, EntityAfter(Trading, r, e))
  {
  }

  // ----- sweeps -----

  /** A turn leaves at most one event, and only when thinking or moving. */
  lemma {:induction false} SweepSequence(p: Phase, s: State, k: nat)
    ensures var r := Sweep(p, s, k);
      r.nextSequence <= s.nextSequence + k && (p == Preparing || p == Trading ==> r.nextSequence == s.nextSequence)
  {
    hide EntityAfter;
    hide Choose;
    hide Walkable;
    if k > 0 {
      SweepSequence(p, s, k - 1);
    }
  }

  lemma {:induction false} TotalsAtMost(s: State, k: nat)
    requires k <= |s.entities|
    ensures var t := Economy.TotalsTo(s, k);
      t.produced <= 3 * k && t.consumed <= 2 * k && t.transfers <= 4 * k && t.credits <= 2 * k
  {
    hide Sweep;
    hide Affords;
    if k > 0 {
      TotalsAtMost(s, k - 1);
    }
  }

  lemma {:induction false} CountsAtMost(s: State, k: nat)
    requires k <= |s.entities|
    ensures Simulation.ChangesTo(s, k) <= k && Simulation.MovesTo(s, k) <= k
  {
    hide EntityAfter;
    if k > 0 {
      CountsAtMost(s, k - 1);
    }
  }

  // ----- the room that a run needs -----

  /** Enough room below 2^64 for `ticks` ticks from a newborn world. */
  predicate Roomy(s: State, ticks: nat) {
    var n := |s.entities|;
    && s.resources + s.treasury + 10 * (n * ticks) + 20 * n + 20 * ticks + 1000 < TWO64
    && Audits.OrderedPairs(n) < TWO64 && Runs.NarrowGrid(s)
    && forall i :: 0 <= i < n ==> RoomFor(s.entities[i], n, ticks)
  }

  predicate RoomFor(e: Entity, n: nat, ticks: nat) {
    e.kind * 11 + e.faction * 10 + n + 2 * ticks + 1000 < TWO64
  }

  /** A state after `k` ticks of a run from `s`, as far as sizes go. */
  ghost predicate Ranges(s: State, k: nat, r: State) {
    var n := |s.entities|;
    && r == s.(tick := k, questsCompleted := k / 3, entities := r.entities, events := r.events,
               nextSequence := r.nextSequence, resources := r.resources, treasury := r.treasury,
                snapshots := r.snapshots)
    && |r.entities| == n && (forall i :: 0 <= i < n ==> InRange(s, s.entities[i], k, r.entities[i]))
    && r.nextSequence <= 1 + 2 * (n * k) && r.resources + r.treasury <= s.resources + s.treasury + 3 * (n * k)
  }

  lemma NewbornRanges(s: State)
    requires Newborn(s)
    ensures Ranges(s, 0, s)
  {
    forall i | 0 <= i < |s.entities| ensures InRange(s, s.entities[i], 0, s.entities[i]) {
      assert Settler(s, i);
    }
  }

  /** The worlds between the phases of a tick, sizes again. */
  ghost predicate Midway(s: State, k: nat, r: State, sequence: nat) {
    && SameGrid(s, r) && r.tick == k + 1 && |r.entities| == |s.entities|
    && (forall i :: 0 <= i < |s.entities| ==> InRange(s, s.entities[i], k, r.entities[i]))
    && r.nextSequence <= sequence
    && r.resources + r.treasury <= s.resources + s.treasury + 3 * (|s.entities| * k)
  }

  lemma ThoughtMidway(s: State, k: nat, r: State)
    requires Ranges(s, k, r)
    ensures Midway(s, k, r.(tick := r.tick + 1), r.nextSequence)
    ensures Midway(s, k, All(Thinking, r.(tick := r.tick + 1)), r.nextSequence + |s.entities|)
  {
    hide InRange;
    hide EntityAfter;
    hide Sweep;
    var r0 := r.(tick := r.tick + 1);
    SweepFrame(Thinking, r0, |r0.entities|);
    SweepEntities(Thinking, r0, |r0.entities|);
    SweepSequence(Thinking, r0, |r0.entities|);
    forall i | 0 <= i < |s.entities| ensures InRange(s, s.entities[i], k, All(Thinking, r0).entities[i]) {
      ThinkingRange(s, r0, s.entities[i], k, r0.entities[i]);
    }
  }

  lemma PreparedMidway(s: State, k: nat, r: State, sequence: nat)
    requires Midway(s, k, r, sequence)
    ensures Midway(s, k, All(Preparing, r), sequence)
  {
    hide InRange;
    hide EntityAfter;
    hide Sweep;
    SweepFrame(Preparing, r, |r.entities|);
    SweepEntities(Preparing, r, |r.entities|);
    SweepSequence(Preparing, r, |r.entities|);
    forall i | 0 <= i < |s.entities| ensures InRange(s, s.entities[i], k, All(Preparing, r).entities[i]) {
      PreparingRange(s, r, s.entities[i], k, r.entities[i]);
    }
  }

  /** After moving, each entity has gained at most a point of experience. */
  ghost predicate Moved(s: State, k: nat, r: State, sequence: nat) {
    && SameGrid(s, r) && r.tick == k + 1 && |r.entities| == |s.entities|
    && (forall i :: 0 <= i < |s.entities| ==>
          InRange(s, s.entities[i], k + 1, r.entities[i])
          && r.entities[i].credits <= 10 + s.entities[i].faction * 3 + 2 * k)
    && r.nextSequence <= sequence
    && r.resources + r.treasury <= s.resources + s.treasury + 3 * (|s.entities| * k)
  }

  lemma MovedMidway(s: State, k: nat, r: State, sequence: nat)
    requires Midway(s, k, r, sequence)
    ensures Moved(s, k, All(Moving, r), sequence + |s.entities|)
  {
    hide InRange;
    hide EntityAfter;
    hide Sweep;
    SweepFrame(Moving, r, |r.entities|);
    SweepEntities(Moving, r, |r.entities|);
    SweepSequence(Moving, r, |r.entities|);
    var r' := All(Moving, r);
    forall i | 0 <= i < |s.entities|
      ensures InRange(s, s.entities[i], k + 1, r'.entities[i])
      ensures r'.entities[i].credits <= 10 + s.entities[i].faction * 3 + 2 * k
    {
      MovingRange(s, r, s.entities[i], k, r.entities[i]);
    }
  }

  lemma NextProduct(n: nat, k: nat)
    ensures n * (k + 1) == n * k + n
  {
  }

  lemma ProductGrows(n: nat, k: nat, m: nat)
    requires k <= m
    ensures n * k <= n * m
  {
    assert n * (m - k) >= 0;
  }

  /** One tick keeps everything in range of the next. */
  lemma StepRanges(s: State, k: nat, r: State)
    requires Ranges(s, k, r)
    ensures Ranges(s, k + 1, Step(r))
  {
    hide InRange;
    hide Sweep;
    hide Step;
    hide EntityAfter;
    var n := |s.entities|;
    var r0 := r.(tick := r.tick + 1);
    var r1 := All(Thinking, r0);
    var r2 := All(Preparing, r1);
    var r3 := All(Moving, r2);
    ThoughtMidway(s, k, r);
    PreparedMidway(s, k, r1, r.nextSequence + n);
    MovedMidway(s, k, r2, r.nextSequence + n);
    Accounts.StepIsTraded(r);
    StepFrame(r);
    Runs.StepQuests(r);
    SweepEntities(Trading, r3, n);
    TradedRanges(s, k, r3);
    StepSequence(r, r3);
    NextProduct(n, k);
  }

  lemma StepSequence(r: State, r3: State)
    requires r3 == All(Moving, All(Preparing, All(Thinking, r.(tick := r.tick + 1))))
    ensures Step(r).nextSequence == r3.nextSequence
  {
    hide Sweep;
    hide Captured;
    SweepSequence(Trading, r3, |r3.entities|);
  }

  lemma TradedRanges(s: State, k: nat, r: State)
    requires |r.entities| == |s.entities|
    requires forall i :: 0 <= i < |s.entities| ==>
      InRange(s, s.entities[i], k + 1, r.entities[i])
      && r.entities[i].credits <= 10 + s.entities[i].faction * 3 + 2 * k
    ensures |All(Trading, r).entities| == |s.entities|
    ensures forall i :: 0 <= i < |s.entities| ==> InRange(s, s.entities[i], k + 1, All(Trading, r).entities[i])
    ensures All(Trading, r).resources + All(Trading, r).treasury <= r.resources + r.treasury + 3 * |s.entities|
  {
    hide InRange;
    hide Sweep;
    hide EntityAfter;
    SweepEntities(Trading, r, |r.entities|);
    forall i | 0 <= i < |s.entities| ensures InRange(s, s.entities[i], k + 1, All(Trading, r).entities[i]) {
      TradingRange(s, r, s.entities[i], k, r.entities[i]);
    }
    Economy.FundsConserved(r, |r.entities|);
    TotalsAtMost(r, |r.entities|);
  }

  /** Everything stays in range over a run from a newborn world. */
  lemma {:induction false} RunRanges(s: State, k: nat)
    requires Newborn(s)
    ensures Ranges(s, k, Run(s, k))
  {
    hide Newborn;
    hide Ranges;
    hide Step;
    if k == 0 {
      NewbornRanges(s);
    } else {
      RunRanges(s, k - 1);
      StepRanges(s, k - 1, Run(s, k - 1));
    }
  }

  // ----- no tick traps -----

  lemma ThinkingFits(s: State, r: State, e0: Entity, k: nat, e: Entity, i: nat)
    requires InRange(s, e0, k, e) && e.id + r.tick < TWO64 && |r.tiles| > 0 && r.nextSequence + i + 1 < TWO64
    ensures TurnFits(Thinking, Sweep(Thinking, r, i), e)
  {
    hide Sweep;
    hide Choose;
    SweepSequence(Thinking, r, i);
    SweepFrame(Thinking, r, i);
  }

  lemma MovingFits(s: State, r: State, e0: Entity, k: nat, e: Entity, i: nat)
    requires InRange(s, e0, k, e) && SameGrid(s, r) && Laid(s) && Runs.NarrowGrid(s)
    requires r.nextSequence + i + 1 < TWO64 && k + 1 < TWO64
    ensures TurnFits(Moving, Sweep(Moving, r, i), e)
  {
    hide Sweep;
    hide Walkable;
    SweepSequence(Moving, r, i);
    SweepFrame(Moving, r, i);
    var (nx, ny) := (e.x + e.velocityX, e.y + e.velocityY);
    LookupInGrid(s, nx, ny);
  }

  lemma LookupInGrid(s: State, x: int, y: int)
    requires Laid(s)
    ensures LookupFits(s, x, y)
  {
    if 0 <= x < s.width && 0 <= y < s.height {
      InBounds(s, x, y);
    }
  }

  lemma TradingFits(s: State, r: State, e0: Entity, k: nat, e: Entity, i: nat)
    requires i < |r.entities| && r.entities[i] == e
    requires InRange(s, e0, k + 1, e) && e.credits <= 10 + e0.faction * 3 + 2 * k
    requires e0.kind * 2 + 1000 < TWO64 && 10 + e0.faction * 3 + 2 * k + 2 < TWO64 && e0.id + 1000 < TWO64
    requires r.resources + r.treasury + 3 * i + 10 < TWO64
    ensures TurnFits(Trading, Sweep(Trading, r, i), e)
  {
    hide Sweep;
    Economy.FundsConserved(r, i);
    TotalsAtMost(r, i);
  }

  lemma {:induction false} SweepFitsIfTurnsFit(p: Phase, s: State, k: nat)
    requires k <= |s.entities|
    requires forall i :: 0 <= i < k ==> TurnFits(p, Sweep(p, s, i), s.entities[i])
    ensures SweepFits(p, s, k)
  {
    hide TurnFits;
    hide Sweep;
    if k > 0 {
      SweepFitsIfTurnsFit(p, s, k - 1);
    }
  }

  /** What the numbers of a roomy run leave below 2^64. */
  lemma RoomLeft(s: State, ticks: nat, k: nat)
    requires Roomy(s, ticks) && k < ticks
    ensures var n := |s.entities|;
      && 3 * (n * k) + 3 * n <= 3 * (n * ticks) && 1 + 2 * (n * k) + 2 * n + 1000 < TWO64
      && s.resources + s.treasury + 3 * (n * k) + 7 * n + 100 < TWO64
      && n * 17 + (k + 1) * 13 + 7 < TWO64 && k + 2 < TWO64 && n + k + 1 < TWO64
  {
    var n := |s.entities|;
    ProductGrows(n, k + 1, ticks);
    NextProduct(n, k);
  }

  lemma ThoughtFits(s: State, ticks: nat, k: nat, r: State)
    requires Laid(s) && Newborn(s) && Roomy(s, ticks) && k < ticks && Ranges(s, k, r)
    ensures SweepFits(Thinking, r.(tick := r.tick + 1), |s.entities|)
  {
    hide InRange;
    hide TurnFits;
    hide Sweep;
    hide Laid;
    hide Roomy;
    var r0 := r.(tick := r.tick + 1);
    RoomLeft(s, ticks, k);
    forall i | 0 <= i < |s.entities| ensures TurnFits(Thinking, Sweep(Thinking, r0, i), r0.entities[i]) {
      assert Settler(s, i);
      InBounds(s, s.entities[i].x, s.entities[i].y);
      IdInRange(s, s.entities[i], k, r0.entities[i]);
      ThinkingFits(s, r0, s.entities[i], k, r0.entities[i], i);
    }
    SweepFitsIfTurnsFit(Thinking, r0, |s.entities|);
  }

  lemma IdInRange(s: State, e0: Entity, k: nat, e: Entity)
    requires InRange(s, e0, k, e)
    ensures e.id == e0.id
  {
  }

  lemma PreparedFits(s: State, ticks: nat, k: nat, r: State, sequence: nat)
    requires Newborn(s) && Roomy(s, ticks) && k < ticks && Midway(s, k, r, sequence)
    ensures SweepFits(Preparing, r, |s.entities|)
  {
    hide InRange;
    hide Sweep;
    hide Roomy;
    RoomLeft(s, ticks, k);
    forall i | 0 <= i < |s.entities| ensures TurnFits(Preparing, Sweep(Preparing, r, i), r.entities[i]) {
      assert Settler(s, i);
      IdInRange(s, s.entities[i], k, r.entities[i]);
      SweepFrame(Preparing, r, i);
    }
    hide TurnFits;
    SweepFitsIfTurnsFit(Preparing, r, |s.entities|);
  }

  lemma MovedFits(s: State, ticks: nat, k: nat, r: State, sequence: nat)
    requires Laid(s) && Roomy(s, ticks) && k < ticks && Midway(s, k, r, sequence)
    requires sequence <= 1 + 2 * (|s.entities| * k) + |s.entities|
    ensures SweepFits(Moving, r, |s.entities|)
  {
    hide InRange;
    hide TurnFits;
    hide Sweep;
    hide Laid;
    hide RoomFor;
    RoomLeft(s, ticks, k);
    forall i | 0 <= i < |s.entities| ensures TurnFits(Moving, Sweep(Moving, r, i), r.entities[i]) {
      MovingFits(s, r, s.entities[i], k, r.entities[i], i);
    }
    SweepFitsIfTurnsFit(Moving, r, |s.entities|);
  }

  lemma TradedFits(s: State, ticks: nat, k: nat, r: State, sequence: nat)
    requires Newborn(s) && Roomy(s, ticks) && k < ticks && Moved(s, k, r, sequence)
    ensures TradeFits(r)
  {
    hide InRange;
    hide TurnFits;
    hide Sweep;
    var n := |s.entities|;
    RoomLeft(s, ticks, k);
    forall i | 0 <= i < n ensures TurnFits(Trading, Sweep(Trading, r, i), r.entities[i]) {
      assert Settler(s, i) && RoomFor(s.entities[i], n, ticks);
      TradingFits(s, r, s.entities[i], k, r.entities[i], i);
    }
    hide Roomy;
    SweepFitsIfTurnsFit(Trading, r, n);
    TotalsAtMost(r, n);
    Economy.FundsConserved(r, n);
  }

  lemma RangesCastable(s: State, k: nat, r: State)
    requires Ranges(s, k, r) && Runs.NarrowGrid(s)
    ensures Checksum.Castable(r)
  {
    forall i | 0 <= i < |r.entities| ensures Checksum.EntityCastable(r.entities[i]) {
      assert InRange(s, s.entities[i], k, r.entities[i]);
    }
  }

  lemma ActedCastable(r: State)
    requires Checksum.Castable(Step(r))
    ensures Checksum.Castable(Acted(r))
  {
    hide Acted;
  }

  /** A tick of a roomy run does not trap. */
  lemma TickFits(s: State, ticks: nat, k: nat, r: State)
    requires Laid(s) && Newborn(s) && Roomy(s, ticks) && k < ticks && Ranges(s, k, r)
    ensures StepFits(r)
  {
    hide Laid;
    hide Newborn;
    hide Roomy;
    hide InRange;
    hide Sweep;
    hide SweepFits;
    hide TradeFits;
    hide Midway;
    hide Moved;
    hide Step;
    hide Acted;
    var n := |s.entities|;
    var r0 := r.(tick := r.tick + 1);
    var r1 := All(Thinking, r0);
    var r2 := All(Preparing, r1);
    ThoughtMidway(s, k, r);
    PreparedMidway(s, k, r1, r.nextSequence + n);
    MovedMidway(s, k, r2, r.nextSequence + n);
    RoomLeft(s, ticks, k);
    ThoughtFits(s, ticks, k, r);
    PreparedFits(s, ticks, k, r1, r.nextSequence + n);
    MovedFits(s, ticks, k, r2, r.nextSequence + n);
    TradedFits(s, ticks, k, All(Moving, r2), r.nextSequence + n + n);
    MidwaySizes(s, k, r1, r.nextSequence + n);
    MidwaySizes(s, k, r2, r.nextSequence + n);
    StepRanges(s, k, r);
    RoomyIsNarrow(s, ticks);
    RangesCastable(s, k + 1, Step(r));
    ActedCastable(r);
  }

  lemma MidwaySizes(s: State, k: nat, r: State, sequence: nat)
    requires Midway(s, k, r, sequence)
    ensures |r.entities| == |s.entities|
  {
  }

  lemma RoomyIsNarrow(s: State, ticks: nat)
    requires Roomy(s, ticks)
    ensures Runs.NarrowGrid(s) && |s.entities| < TWO64 && ticks + 1 < TWO64
  {
  }

  lemma {:induction false} TicksFit(s: State, ticks: nat, k: nat)
    requires Laid(s) && Newborn(s) && Roomy(s, ticks) && k <= ticks
    ensures StepsFit(s, k)
  {
    hide Laid;
    hide Newborn;
    hide Roomy;
    hide Ranges;
    hide Run;
    hide StepFits;
    if k > 0 {
      TicksFit(s, ticks, k - 1);
      RunRanges(s, k - 1);
      TickFits(s, ticks, k - 1, Run(s, k - 1));
    }
  }

  lemma {:induction false} SumsAtMost(s: State, k: nat)
    ensures var (m, rs) := (|s.entities| * k, Replay.Reports(s, k));
      Replay.Moved(rs) <= m && Replay.Changed(rs) <= m && Replay.Produced(rs) <= 3 * m
  {
    hide Run;
    hide Replay.Reports;
    hide Replay.Moved;
    hide Replay.Changed;
    hide Replay.Produced;
    hide Simulation.Report;
    Replay.NoTicks(s);
    if k > 0 {
      SumsAtMost(s, k - 1);
      Replay.NextReport(s, k - 1);
      ReportAtMost(Run(s, k - 1));
      Runs.RunKeepsWorld(s, k - 1);
      NextProduct(|s.entities|, k - 1);
    }
  }

  lemma ReportAtMost(s: State)
    ensures var (n, r) := (|s.entities|, Simulation.Report(s));
      r.moved <= n && r.aiChanges <= n && r.produced <= 3 * n
  {
    hide Sweep;
    hide Simulation.ChangesTo;
    hide Simulation.MovesTo;
    hide Economy.TotalsTo;
    hide Step;
    var s0 := s.(tick := s.tick + 1);
    var s2 := All(Preparing, All(Thinking, s0));
    var s3 := All(Moving, s2);
    CountsAtMost(s0, |s0.entities|);
    CountsAtMost(s2, |s2.entities|);
    TotalsAtMost(s3, |s3.entities|);
  }

  lemma RangesAuditFits(s: State, k: nat, r: State)
    requires Laid(s) && Ranges(s, k, r) && Audits.OrderedPairs(|s.entities|) < TWO64
    ensures Audits.AuditFits(r)
  {
    hide Laid;
    hide Audits.OrderedPairs;
    forall i | 0 <= i < |r.entities| && r.entities[i].alive
      ensures LookupFits(r, r.entities[i].x, r.entities[i].y)
    {
      LookupInGrid(s, r.entities[i].x, r.entities[i].y);
    }
  }

  /** With enough room, no tick, sum, audit or checksum of the whole run traps. */
  lemma RoomyRunFits(s: State, ticks: nat)
    requires Laid(s) && Newborn(s) && Roomy(s, ticks)
    ensures Replay.BatchFits(s, ticks)
  {
    hide Laid;
    hide Newborn;
    hide Ranges;
    hide Run;
    hide StepsFit;
    hide RoomFor;
    hide Audits.OrderedPairs;
    hide Replay.Reports;
    TicksFit(s, ticks, ticks);
    RunRanges(s, ticks);
    RangesCastable(s, ticks, Run(s, ticks));
    RangesAuditFits(s, ticks, Run(s, ticks));
    SumsAtMost(s, ticks);
  }

  /** And no priority. */
  lemma RoomyRunRanks(s: State, ticks: nat, k: nat)
    requires Newborn(s) && Roomy(s, ticks) && k <= ticks
    ensures Scheduler.Rankable(Run(s, k).entities)
  {
    hide Run;
    RunRanges(s, k);
    var r := Run(s, k);
    forall i | 0 <= i < |r.entities| ensures Scheduler.Ranked(r.entities[i]) {
      assert Settler(s, i) && RoomFor(s.entities[i], |s.entities|, ticks);
      assert InRange(s, s.entities[i], k, r.entities[i]);
    }
  }

  // ----- what must trap -----

  /** The direction of the last entity in the last tick has to fit: so many ticks always trap. */
  lemma TooManyTicksTrap(s: State, ticks: nat)
    requires Newborn(s) && s.entities != [] && ticks > 0
    requires |s.entities| * 17 + ticks * 13 + 7 >= TWO64
    ensures !StepsFit(s, ticks)
  {
    hide Run;
    hide Newborn;
    hide Ranges;
    hide StepFits;
    hide StepsFit;
    if StepsFit(s, ticks) {
      RunRanges(s, ticks - 1);
      LastTickFits(s, ticks);
      LastDirection(s, ticks - 1, Run(s, ticks - 1));
    }
  }

  lemma LastTickFits(s: State, ticks: nat)
    requires StepsFit(s, ticks) && ticks > 0
    ensures StepFits(Run(s, ticks - 1))
  {
    hide Run;
    hide StepFits;
  }

  lemma LastDirection(s: State, k: nat, r: State)
    requires Newborn(s) && s.entities != [] && Ranges(s, k, r) && StepFits(r)
    ensures |s.entities| * 17 + (k + 1) * 13 + 7 < TWO64
  {
    hide InRange;
    hide Sweep;
    hide TradeFits;
    hide Acted;
    hide SweepFits;
    var (n, i) := (|s.entities|, |s.entities| - 1);
    var r0 := r.(tick := r.tick + 1);
    var r1 := All(Thinking, r0);
    ThoughtMidway(s, k, r);
    assert Settler(s, i);
    SweepFitsAt(Preparing, r1, n, i);
    SweepFrame(Preparing, r1, i);
    LastAlive(s, k, r1, i);
  }

  lemma LastAlive(s: State, k: nat, r: State, i: nat)
    requires i < |s.entities| == |r.entities| && InRange(s, s.entities[i], k, r.entities[i])
    ensures r.entities[i].alive && r.entities[i].id == s.entities[i].id
  {
  }
}
