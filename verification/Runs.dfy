/** What every run keeps, for any world and any number of ticks. */
module Runs {
  import opened Metric
  import opened Model
  import opened Tick
  import Checksum

  // ----- entities -----

  ghost predicate SameSelf(a: Entity, b: Entity) {
    && a.id == b.id && a.kind == b.kind && a.faction == b.faction
    && a.bornTick == b.bornTick && a.health == b.health && a.alive == b.alive
    && (!a.alive ==> a == b)
  }

  /** Terrain, commands, diagnostics and counters stay as they are; the clock counts the ticks
      and every third tick completes a quest. */
  lemma {:induction false} RunKeepsWorld(s: State, n: nat)
    ensures s.questsCompleted + (s.tick + n) / 3 - s.tick / 3 >= 0
    ensures var r := Run(s, n);
      && r == s.(tick := s.tick + n, questsCompleted := s.questsCompleted + (s.tick + n) / 3 - s.tick / 3,
                 entities := r.entities, events := r.events, nextSequence := r.nextSequence,
                 resources := r.resources, treasury := r.treasury, snapshots := r.snapshots)
      && |r.entities| == |s.entities|
  {
    hide Step;
    if n > 0 {
      RunKeepsWorld(s, n - 1);
      StepFrame(Run(s, n - 1));
      StepQuests(Run(s, n - 1));
    }
  }

  /** Entities keep their identity; the dead do not change at all. */
  lemma {:induction false} RunKeepsSelves(s: State, n: nat, i: nat)
    requires i < |s.entities|
    ensures |Run(s, n).entities| == |s.entities| && SameSelf(s.entities[i], Run(s, n).entities[i])
  {
    hide Step;
    hide EntityStep;
    if n > 0 {
      RunKeepsSelves(s, n - 1, i);
      StepEntities(Run(s, n - 1), i);
      SelfThroughStep(Run(s, n - 1), Run(s, n - 1).entities[i]);
    }
  }

  lemma StepQuests(s: State)
    ensures Step(s).questsCompleted == s.questsCompleted + (s.tick + 1) / 3 - s.tick / 3
  {
    hide Turn;
    hide Captured;
    var s0 := s.(tick := s.tick + 1);
    var s1 := All(Thinking, s0);
    var s2 := All(Preparing, s1);
    var s3 := All(Moving, s2);
    SweepFrame(Thinking, s0, |s.entities|);
    SweepFrame(Preparing, s1, |s.entities|);
    SweepFrame(Moving, s2, |s.entities|);
    SweepFrame(Trading, s3, |s.entities|);
  }

  lemma SelfThroughStep(s: State, e: Entity)
    ensures SameSelf(e, EntityStep(s, e))
  {
  }

  /** One tick moves a living entity at most one cell on each axis, and only onto walkable cells;
      it costs one unit of energy. */
  lemma StepOfEntity(s: State, i: nat)
    requires i < |s.entities| && s.entities[i].alive
    ensures |Step(s).entities| == |s.entities|
    ensures var (e, e') := (s.entities[i], Step(s).entities[i]);
      && -1 <= e'.x - e.x <= 1 && -1 <= e'.y - e.y <= 1
      && -1 <= e'.velocityX <= 1 && -1 <= e'.velocityY <= 1
      && ((e'.x, e'.y) != (e.x, e.y) ==> Walkable(s, e'.x, e'.y))
      && e'.energy == (if e.energy > 0 then e.energy - 1 else 0) && e'.alive
  {
    hide Step;
    hide Walkable;
    StepEntities(s, i);
    var s' := s.(tick := s.tick + 1);
    var e := s.entities[i];
    var e1 := EntityAfter(Thinking, s', e);
    var e2 := EntityAfter(Preparing, s', e1);
    var e3 := EntityAfter(Moving, s', e2);
    assert e1.x == e.x && e1.y == e.y && e1.energy == e.energy && e1.alive;
    assert e3.x == e.x || e3.x == e.x + e2.velocityX;
    assert Walkable(s', e3.x, e3.y) == Walkable(s, e3.x, e3.y) by { WalkableIsGround(s', s, e3.x, e3.y); }
  }

  lemma WalkableIsGround(a: State, b: State, x: int, y: int)
    requires a.width == b.width && a.height == b.height && a.tiles == b.tiles
    ensures Walkable(a, x, y) == Walkable(b, x, y)
  {
  }

  /** Over any run a living entity stays within n cells of its start on each axis, never leaves
      the walkable grid once on it, and its energy counts down to zero. */
  lemma {:induction false} RunOfEntity(s: State, n: nat, i: nat)
    requires i < |s.entities| && s.entities[i].alive
    ensures |Run(s, n).entities| == |s.entities|
    ensures var (e, e') := (s.entities[i], Run(s, n).entities[i]);
      && e'.alive
      && e.x - n <= e'.x <= e.x + n && e.y - n <= e'.y <= e.y + n
      && (Walkable(s, e.x, e.y) ==> Walkable(s, e'.x, e'.y))
      && e'.energy == (if e.energy > n then e.energy - n else 0)
  {
    hide Step;
    hide Walkable;
    if n > 0 {
      RunOfEntity(s, n - 1, i);
      var s' := Run(s, n - 1);
      StepOfEntity(s', i);
      RunKeepsWorld(s, n - 1);
      RunKeepsWorld(s, n);
      WalkableIsGround(s', s, Run(s, n).entities[i].x, Run(s, n).entities[i].y);
    }
  }

  // ----- what the panics of the source demand -----

  /** A scout that starts scouting picks a tile by remainder, which traps when there is none. */
  ghost predicate Runnable(s: State) {
    |s.tiles| > 0 || forall i :: 0 <= i < |s.entities| && s.entities[i].alive ==> s.entities[i].kind != SCOUT
  }

  /** Positions inside the grid can be shifted and cast. */
  predicate NarrowGrid(s: State) {
    s.width + Checksum.SHIFT <= TWO63 && s.height + Checksum.SHIFT <= TWO63
  }

  /** Neither the remainder nor the checksum's casts can trap after any number of ticks. */
  lemma {:induction false} RunNeverTraps(s: State, n: nat)
    requires Runnable(s) && Checksum.Castable(s) && NarrowGrid(s)
    ensures Runnable(Run(s, n)) && Checksum.Castable(Run(s, n))
  {
    hide Step;
    RunKeepsWorld(s, n);
    if n > 0 {
      RunNeverTraps(s, n - 1);
      var s' := Run(s, n - 1);
      forall i | 0 <= i < |s.entities| ensures SameSelf(s.entities[i], Run(s, n).entities[i]) {
        RunKeepsSelves(s, n, i);
      }
      forall i | 0 <= i < |s.entities| ensures Checksum.EntityCastable(Run(s, n).entities[i]) {
        RunKeepsWorld(s, n - 1);
        assert Checksum.EntityCastable(s'.entities[i]) && NarrowGrid(s');
        StepKeepsCastable(s', i);
      }
    }
  }

  lemma StepKeepsCastable(s: State, i: nat)
    requires i < |s.entities| && Checksum.EntityCastable(s.entities[i]) && NarrowGrid(s)
    ensures |Step(s).entities| == |s.entities| && Checksum.EntityCastable(Step(s).entities[i])
  {
    StepEntities(s, i);
    if s.entities[i].alive {
      StepOfEntity(s, i);
    }
  }

  // ----- the event timeline -----

  /** What `events.audit` accepts: sequences strictly increase and lie below the next one. */
  ghost predicate EventsOk(s: State) {
    && (forall k :: 0 < k < |s.events| ==> s.events[k - 1].sequence < s.events[k].sequence)
    && (|s.events| > 0 ==> s.events[|s.events| - 1].sequence < s.nextSequence)
  }

  /** Events are only appended, and numbered consecutively. */
  ghost predicate Appends(a: State, b: State) {
    && a.events <= b.events && b.nextSequence == a.nextSequence + |b.events| - |a.events|
    && forall k :: |a.events| <= k < |b.events| ==> b.events[k].sequence == a.nextSequence + k - |a.events|
  }

  lemma AppendsChain(a: State, b: State, c: State)
    requires Appends(a, b) && Appends(b, c)
    ensures Appends(a, c)
  {
    forall k | |a.events| <= k < |c.events| ensures c.events[k].sequence == a.nextSequence + k - |a.events| {
      assert k < |b.events| ==> b.events[k] == c.events[k];
    }
  }

  lemma AppendsNothing(s: State)
    ensures Appends(s, s)
  {
  }

  lemma TurnAppends(p: Phase, s: State, i: nat)
    requires i < |s.entities|
    ensures Appends(s, Turn(p, s, i))
  {
    hide EntityAfter;
    hide Choose;
    hide Walkable;
  }

  lemma {:induction false} SweepAppends(p: Phase, s: State, k: nat)
    ensures Appends(s, Sweep(p, s, k))
  {
    hide Turn;
    hide Appends;
    if k > 0 {
      SweepAppends(p, s, k - 1);
      var s' := Sweep(p, s, k - 1);
      if k - 1 < |s'.entities| {
        TurnAppends(p, s', k - 1);
        AppendsChain(s, s', Sweep(p, s, k));
      }
    } else {
      AppendsNothing(s);
    }
  }

  lemma StepAppends(s: State)
    ensures Appends(s, Step(s))
  {
    hide Turn;
    hide Sweep;
    var s0 := s.(tick := s.tick + 1);
    var s1 := All(Thinking, s0);
    var s2 := All(Preparing, s1);
    var s3 := All(Moving, s2);
    SweepAppends(Thinking, s0, |s0.entities|);
    SweepAppends(Preparing, s1, |s1.entities|);
    SweepAppends(Moving, s2, |s2.entities|);
    SweepAppends(Trading, s3, |s3.entities|);
    AppendsChain(s0, s1, s2);
    AppendsChain(s0, s2, s3);
    AppendsChain(s0, s3, All(Trading, s3));
  }

  lemma {:induction false} RunAppends(s: State, n: nat)
    ensures Appends(s, Run(s, n))
  {
    hide Step;
    if n > 0 {
      RunAppends(s, n - 1);
      StepAppends(Run(s, n - 1));
      AppendsChain(s, Run(s, n - 1), Run(s, n));
    }
  }

  /** A run neither breaks nor mends the timeline. */
  lemma RunKeepsTimeline(s: State, n: nat)
    ensures EventsOk(Run(s, n)) <==> EventsOk(s)
  {
    RunAppends(s, n);
    AppendsKeepsTimeline(s, Run(s, n));
  }

  lemma AppendsKeepsTimeline(a: State, b: State)
    requires Appends(a, b)
    ensures EventsOk(a) <==> EventsOk(b)
  {
    var m := |a.events|;
    assert forall k :: 0 <= k < m ==> a.events[k] == b.events[k];
    if EventsOk(b) && 0 < m < |b.events| {
      assert b.events[m - 1].sequence < b.events[m].sequence;
    }
  }

  // ----- snapshots -----

  /** What `snapshot.audit` accepts, and that no snapshot lies in the future. */
  ghost predicate SnapshotsOk(s: State) {
    && (forall k :: 0 < k < |s.snapshots| ==> s.snapshots[k - 1].tick < s.snapshots[k].tick)
    && (|s.snapshots| > 0 ==> s.snapshots[|s.snapshots| - 1].tick <= s.tick)
    && |s.snapshots| <= s.tick + 1
  }

  /** The snapshot that a tick takes: the tick, the sizes and the checksum of the state it leaves. */
  function SnapshotAfter(s: State): Snapshot {
    Snapshot(s.tick, |s.entities|, |s.events|, |s.commands|, Checksum.Of(s))
  }

  /** Each tick of a run takes one snapshot, of the state that tick leaves. */
  lemma {:induction false} RunTakesSnapshots(s: State, n: nat)
    ensures |Run(s, n).snapshots| == |s.snapshots| + n && s.snapshots <= Run(s, n).snapshots
    ensures forall k: nat :: 0 < k <= n ==> Run(s, n).snapshots[|s.snapshots| + k - 1] == SnapshotAfter(Run(s, k))
  {
    hide Step;
    hide SnapshotAfter;
    if n > 0 {
      RunTakesSnapshots(s, n - 1);
      SnapshotOfStep(Run(s, n - 1));
    }
  }

  /** From a world whose snapshots are in order, in particular a fresh one, they stay in order. */
  lemma {:induction false} RunKeepsSnapshotsOk(s: State, n: nat)
    requires SnapshotsOk(s)
    ensures SnapshotsOk(Run(s, n))
  {
    hide Step;
    hide SnapshotsOk;
    if n > 0 {
      RunKeepsSnapshotsOk(s, n - 1);
      StepKeepsSnapshotsOk(Run(s, n - 1));
    }
  }

  lemma StepKeepsSnapshotsOk(s: State)
    requires SnapshotsOk(s)
    ensures SnapshotsOk(Step(s))
  {
    hide Step;
    hide Checksum.Of;
    SnapshotOfStep(s);
    StepFrame(s);
  }

  /** The checksum does not cover snapshots, so the snapshot's checksum is that of the final state. */
  lemma SnapshotOfStep(s: State)
    ensures Step(s).snapshots == s.snapshots + [SnapshotAfter(Step(s))]
  {
    StepFrame(s);
    hide All;
    ChecksumIgnores(Acted(s), Step(s).snapshots, Acted(s).rollbackCount);
    assert Step(s) == Acted(s).(snapshots := Step(s).snapshots, rollbackCount := Acted(s).rollbackCount);
  }

  lemma ChecksumIgnores(s: State, snapshots: seq<Snapshot>, rollbackCount: nat)
    ensures Checksum.Of(s.(snapshots := snapshots, rollbackCount := rollbackCount)) == Checksum.Of(s)
  {
  }

  // ----- rollback count -----

  lemma {:induction false} SweepIgnoresRollbacks(p: Phase, s: State, k: nat, count: nat)
    ensures Sweep(p, s.(rollbackCount := count), k) == Sweep(p, s, k).(rollbackCount := count)
  {
    hide Turn;
    if k > 0 {
      SweepIgnoresRollbacks(p, s, k - 1, count);
      var s' := Sweep(p, s, k - 1);
      if k - 1 < |s'.entities| {
        TurnIgnoresRollbacks(p, s', k - 1, count);
      }
    }
  }

  lemma EntityIgnoresRollbacks(p: Phase, s: State, e: Entity, count: nat)
    ensures EntityAfter(p, s.(rollbackCount := count), e) == EntityAfter(p, s, e)
    ensures EventsOf(p, s.(rollbackCount := count), e) == EventsOf(p, s, e)
  {
  }

  lemma TurnIgnoresRollbacks(p: Phase, s: State, i: nat, count: nat)
    requires i < |s.entities|
    ensures Turn(p, s.(rollbackCount := count), i) == Turn(p, s, i).(rollbackCount := count)
  {
    EntityIgnoresRollbacks(p, s, s.entities[i], count);
    hide EntityAfter;
    hide EventsOf;
  }

  /** Ticks neither read nor write the rollback count. */
  lemma StepIgnoresRollbacks(s: State, count: nat)
    ensures Step(s.(rollbackCount := count)) == Step(s).(rollbackCount := count)
  {
    hide Turn;
    hide Sweep;
    hide Checksum.Of;
    var s0 := s.(tick := s.tick + 1);
    var s1 := All(Thinking, s0);
    var s2 := All(Preparing, s1);
    var s3 := All(Moving, s2);
    SweepIgnoresRollbacks(Thinking, s0, |s0.entities|, count);
    SweepIgnoresRollbacks(Preparing, s1, |s1.entities|, count);
    SweepIgnoresRollbacks(Moving, s2, |s2.entities|, count);
    SweepIgnoresRollbacks(Trading, s3, |s3.entities|, count);
    var s4 := Acted(s);
    ChecksumIgnores(s4, s4.snapshots, count);
    assert s0.(rollbackCount := count) == s.(rollbackCount := count).(tick := s.tick + 1);
  }

  lemma {:induction false} RunIgnoresRollbacks(s: State, n: nat, count: nat)
    ensures Run(s.(rollbackCount := count), n) == Run(s, n).(rollbackCount := count)
    ensures Checksum.Of(Run(s.(rollbackCount := count), n)) == Checksum.Of(Run(s, n))
  {
    hide Step;
    hide Checksum.Of;
    if n > 0 {
      RunIgnoresRollbacks(s, n - 1, count);
      StepIgnoresRollbacks(Run(s, n - 1), count);
    }
    ChecksumIgnores(Run(s, n), Run(s, n).snapshots, count);
  }
}
