/** Batch simulation, replay, lockstep, rollback and prediction (the embedded modules
    `simulation.rue`, `replay.rue`, `replay_oracle.rue`, `lockstep.rue`, `rollback.rue` and
    `prediction.rue`).  All of them are proved to end in the same state: the n-th iterate of one
    tick, from the baseline's value. */
module Replay {
  import opened Metric
  import opened Model
  import opened Tick
  import opened World
  import opened Simulation
  import Checksum
  import Runs
  import Audits
  import opened Traps

  /** The reports of the ticks of a run. */
  function Reports(s: State, n: nat): seq<TickResult> {
    if n == 0 then [] else Reports(s, n - 1) + [Report(Run(s, n - 1))]
  }

  function Moved(rs: seq<TickResult>): nat {
    if rs == [] then 0 else Moved(rs[..|rs| - 1]) + rs[|rs| - 1].moved
  }

  function Changed(rs: seq<TickResult>): nat {
    if rs == [] then 0 else Changed(rs[..|rs| - 1]) + rs[|rs| - 1].aiChanges
  }

  function Produced(rs: seq<TickResult>): nat {
    if rs == [] then 0 else Produced(rs[..|rs| - 1]) + rs[|rs| - 1].produced
  }

  /** The checksums of the states that the ticks of a run leave, in order. */
  function Timeline(s: State, n: nat): seq<nat> {
    if n == 0 then [] else Timeline(s, n - 1) + [Checksum.Of(Run(s, n))]
  }

  /** The ticks of a run and the checksum of its end do not trap. */
  predicate RunFits(s: State, count: nat) {
    count < TWO64 && StepsFit(s, count) && Checksum.Castable(Run(s, count))
  }

  predicate SumsFit(rs: seq<TickResult>) {
    Moved(rs) < TWO64 && Changed(rs) < TWO64 && Produced(rs) < TWO64
  }

  /** Neither do the sums and the audits of a batch run. */
  predicate BatchFits(s: State, count: nat) {
    RunFits(s, count) && SumsFit(Reports(s, count)) && Audits.AuditFits(Run(s, count))
  }

  /** One more tick of a run. */
  lemma NextTick(s: State, k: nat)
    ensures Run(s, k + 1) == Step(Run(s, k)) && Run(s, k).valid == s.valid
  {
    Runs.RunKeepsWorld(s, k);
  }

  lemma {:induction false} SumsGrow(s: State, k: nat, n: nat)
    requires k <= n
    ensures var (a, b) := (Reports(s, k), Reports(s, n));
      Moved(a) <= Moved(b) && Changed(a) <= Changed(b) && Produced(a) <= Produced(b)
    decreases n
  {
    hide Reports;
    hide Report;
    hide Run;
    hide Moved;
    hide Changed;
    hide Produced;
    if k < n {
      SumsGrow(s, k, n - 1);
      NextReport(s, n - 1);
    }
  }

  lemma NoTicks(s: State)
    ensures Run(s, 0) == s && Reports(s, 0) == [] && Timeline(s, 0) == []
    ensures Moved([]) == 0 && Changed([]) == 0 && Produced([]) == 0
    ensures Digest(OFFSET_BASIS, []) == OFFSET_BASIS
  {
  }

  lemma {:induction false} ReportsSize(s: State, n: nat)
    ensures |Reports(s, n)| == n
  {
    hide Report;
    hide Run;
    if n > 0 {
      ReportsSize(s, n - 1);
    }
  }

  lemma NextReport(s: State, n: nat)
    ensures var r := Report(Run(s, n));
      && Moved(Reports(s, n + 1)) == Moved(Reports(s, n)) + r.moved
      && Changed(Reports(s, n + 1)) == Changed(Reports(s, n)) + r.aiChanges
      && Produced(Reports(s, n + 1)) == Produced(Reports(s, n)) + r.produced
  {
    hide Report;
    hide Run;
    ReportsSize(s, n);
    assert Reports(s, n + 1)[..n] == Reports(s, n);
  }

  // ----- batch simulation -----

  datatype BatchResult = BatchResult(
    ticks: nat, entities: nat, moved: nat, aiChanges: nat, produced: nat, events: nat,
    collisions: nat, checksum: nat, valid: bool)

  /** The loop: ticks a world forward in place. */
  method RunTicks(w: World, count: nat) returns (ticks: nat, moved: nat, aiChanges: nat, produced: nat, valid: bool)
    requires RunFits(w.Value(), count) && SumsFit(Reports(w.Value(), count))
    modifies w
    ensures w.Value() == Run(old(w.Value()), count) && ticks == count
    ensures var rs := Reports(old(w.Value()), count);
      moved == Moved(rs) && aiChanges == Changed(rs) && produced == Produced(rs)
    ensures valid <==> count == 0 || old(w.valid)
  {
    hide Run;
    hide Step;
    hide Report;
    hide Reports;
    hide Moved;
    hide Changed;
    hide Produced;
    hide StepFits;
    hide StepsFit;
    ghost var s := w.Value();
    NoTicks(s);
    ticks, moved, aiChanges, produced, valid := 0, 0, 0, 0, true;
    while ticks < count
      invariant ticks <= count && w.Value() == Run(s, ticks)
      invariant moved == Moved(Reports(s, ticks)) && aiChanges == Changed(Reports(s, ticks))
      invariant produced == Produced(Reports(s, ticks))
      invariant valid <==> ticks == 0 || s.valid
    {
      NextTick(s, ticks);
      NextReport(s, ticks);
      StepsFitAt(s, count, ticks);
      SumsGrow(s, ticks + 1, count);
      var value := TickStep(w);
      ticks := U64(ticks + 1);
      moved := U64(moved + value.moved);
      aiChanges := U64(aiChanges + value.aiChanges);
      produced := U64(produced + value.produced);
      if !value.valid {
        valid := false;
      }
    }
    NextTick(s, count);
  }

  /** The whole result of a batch run of `count` ticks from `s`. */
  ghost predicate IsBatch(s: State, count: nat, out: BatchResult) {
    var (r, rs) := (Run(s, count), Reports(s, count));
    && out.ticks == count && out.entities == |s.entities|
    && out.moved == Moved(rs) && out.aiChanges == Changed(rs) && out.produced == Produced(rs)
    && out.events == |r.events| && out.checksum == Checksum.Of(r)
    && out.collisions == Audits.TileHits(r, |r.entities|) + Audits.Overlaps(r.entities, |r.entities|)
    && (out.valid <==> (count == 0 || s.valid) && Runs.EventsOk(s))
  }

  method RunBatch(w: World, count: nat) returns (out: BatchResult)
    requires BatchFits(w.Value(), count)
    modifies w
    ensures w.Value() == Run(old(w.Value()), count)
    ensures IsBatch(old(w.Value()), count, out)
  {
    hide Run;
    hide Reports;
    hide StepsFit;
    hide SumsFit;
    hide Audits.AuditFits;
    hide Checksum.Castable;
    hide Runs.EventsOk;
    hide Checksum.Of;
    hide Audits.TileHits;
    hide Audits.Overlaps;
    ghost var s := w.Value();
    Runs.RunKeepsTimeline(s, count);
    Runs.RunKeepsWorld(s, count);
    var entities := |w.entities|;
    var ticks, moved, aiChanges, produced, valid := RunTicks(w, count);
    var collisions := Audits.AuditCollisions(w.Value());
    var events := Audits.AuditEvents(w.Value());
    var checksum := Checksum.Compute(w.Value());
    out := BatchResult(ticks, entities, moved, aiChanges, produced, |w.events|,
                       U64(collisions.tileHits + collisions.entityHits), checksum,
                       valid && collisions.valid && events.valid && ticks == count && w.tick >= count);
  }

  // ----- replay -----

  datatype ReplayResult = ReplayResult(ticks: nat, finalChecksum: nat, timelineDigest: nat, valid: bool)

  /** What a replay of `count` ticks from `s` gives. */
  function Replayed(s: State, count: nat): ReplayResult {
    ReplayResult(count, Checksum.Of(Run(s, count)), Digest(OFFSET_BASIS, Timeline(s, count)), count == 0 || s.valid)
  }

  method RunReplay(baseline: World, count: nat) returns (out: ReplayResult)
    requires RunFits(baseline.Value(), count)
    ensures out == Replayed(baseline.Value(), count)
  {
    hide Run;
    hide Step;
    hide Checksum.Of;
    hide Checksum.Castable;
    hide StepFits;
    hide StepsFit;
    hide Report;
    hide Mix;
    hide Digest;
    ghost var s := baseline.Value();
    NoTicks(s);
    var w := Clone(baseline);
    var ticks, digest, valid := 0, OFFSET_BASIS, true;
    while ticks < count
      invariant ticks <= count && fresh(w) && w.Value() == Run(s, ticks)
      invariant digest == Digest(OFFSET_BASIS, Timeline(s, ticks))
      invariant valid <==> ticks == 0 || s.valid
    {
      NextTick(s, ticks);
      StepsFitAt(s, count, ticks);
      var result := TickStep(w);
      DigestSnoc(OFFSET_BASIS, Timeline(s, ticks), result.checksum);
      digest := Mix(digest, result.checksum);
      if !result.valid {
        valid := false;
      }
      ticks := U64(ticks + 1);
    }
    NextTick(s, count);
    var checksum := Checksum.Compute(w.Value());
    out := ReplayResult(ticks, checksum, digest, valid && ticks == count);
  }

  /** Compares a replay with the batch simulation of the same baseline. */
  method ReplayAgrees(baseline: World, count: nat, actual: ReplayResult) returns (ok: bool)
    requires BatchFits(baseline.Value(), count)
    ensures var s := baseline.Value();
      ok <==> actual.valid && (count == 0 || s.valid) && Runs.EventsOk(s)
              && actual.ticks == count && actual.finalChecksum == Checksum.Of(Run(s, count))
  {
    var w := Clone(baseline);
    hide Checksum.Of;
    hide Checksum.Castable;
    hide StepsFit;
    hide SumsFit;
    hide Audits.AuditFits;
    hide Run;
    hide Runs.EventsOk;
    var expected := RunBatch(w, count);
    var checksum := Checksum.Compute(w.Value());
    ok := actual.valid && expected.valid && actual.ticks == expected.ticks && actual.finalChecksum == checksum;
  }

  // ----- lockstep -----

  datatype LockstepResult = LockstepResult(ticks: nat, mismatches: nat, checksum: nat, valid: bool)

  /** Two clones run side by side never disagree. */
  method RunLockstep(baseline: World, count: nat) returns (out: LockstepResult)
    requires RunFits(baseline.Value(), count)
    ensures out == LockstepResult(count, 0, Checksum.Of(Run(baseline.Value(), count)), true)
  {
    hide Run;
    hide Step;
    hide Checksum.Of;
    hide Checksum.Castable;
    hide StepFits;
    hide StepsFit;
    hide Report;
    ghost var s := baseline.Value();
    NoTicks(s);
    var left := Clone(baseline);
    var right := Clone(baseline);
    var ticks, mismatches := 0, 0;
    while ticks < count
      invariant ticks <= count && fresh(left) && fresh(right) && left != right
      invariant left.Value() == Run(s, ticks) && right.Value() == Run(s, ticks)
      invariant mismatches == 0
    {
      StepsFitAt(s, count, ticks);
      NextTick(s, ticks);
      var a := TickStep(left);
      var b := TickStep(right);
      if a.checksum != b.checksum {
        mismatches := mismatches + 1;
      }
      ticks := U64(ticks + 1);
    }
    var checksum := Checksum.Compute(left.Value());
    var other := Checksum.Compute(right.Value());
    out := LockstepResult(ticks, mismatches, checksum, mismatches == 0 && checksum == other);
  }

  // ----- rollback -----

  datatype RollbackResult = RollbackResult(targetTick: nat, resimulated: nat, checksum: nat, valid: bool)

  function TicksUntil(s: State, target: nat): nat {
    if target > s.tick then target - s.tick else 0
  }

  /** A run traps or not whatever the rollback count. */
  lemma RollbackKeepsFits(s: State, n: nat, count: nat)
    ensures BatchFits(s.(rollbackCount := count), n) <==> BatchFits(s, n)
    ensures Runs.EventsOk(s.(rollbackCount := count)) <==> Runs.EventsOk(s)
  {
    hide Run;
    hide Reports;
    hide SumsFit;
    hide StepsFit;
    hide Checksum.Castable;
    hide Checksum.Of;
    hide Audits.AuditFits;
    Runs.RunIgnoresRollbacks(s, n, count);
    ReportsIgnoreRollbacks(s, n, count);
    StepsIgnoreRollbacks(s, n, count);
    EndIgnoresRollbacks(Run(s, n), count);
  }

  lemma EndIgnoresRollbacks(s: State, count: nat)
    ensures Checksum.Castable(s.(rollbackCount := count)) <==> Checksum.Castable(s)
    ensures Audits.AuditFits(s.(rollbackCount := count)) <==> Audits.AuditFits(s)
  {
    hide Audits.OrderedPairs;
    hide Checksum.EntityCastable;
  }

  lemma {:induction false} CountsIgnoreRollbacks(s: State, k: nat, count: nat)
    requires k <= |s.entities|
    ensures ChangesTo(s.(rollbackCount := count), k) == ChangesTo(s, k)
    ensures MovesTo(s.(rollbackCount := count), k) == MovesTo(s, k)
  {
    if k > 0 {
      CountsIgnoreRollbacks(s, k - 1, count);
      Runs.EntityIgnoresRollbacks(Thinking, s, s.entities[k - 1], count);
      Runs.EntityIgnoresRollbacks(Moving, s, s.entities[k - 1], count);
      hide EntityAfter;
    }
  }

  lemma ReportIgnoresRollbacks(s: State, count: nat)
    ensures Report(s.(rollbackCount := count)) == Report(s)
  {
    hide Sweep;
    hide ChangesTo;
    hide MovesTo;
    hide Checksum.Of;
    hide Step;
    hide Economy.TotalsTo;
    var s0 := s.(tick := s.tick + 1);
    var s1 := All(Thinking, s0);
    var s2 := All(Preparing, s1);
    var s3 := All(Moving, s2);
    Runs.SweepIgnoresRollbacks(Thinking, s0, |s0.entities|, count);
    Runs.SweepIgnoresRollbacks(Preparing, s1, |s1.entities|, count);
    Runs.SweepIgnoresRollbacks(Moving, s2, |s2.entities|, count);
    CountsIgnoreRollbacks(s0, |s0.entities|, count);
    CountsIgnoreRollbacks(s2, |s2.entities|, count);
    TotalsIgnoreRollbacks(s3, |s3.entities|, count);
    Runs.StepIgnoresRollbacks(s, count);
    Runs.ChecksumIgnores(Step(s), Step(s).snapshots, count);
    assert s0.(rollbackCount := count) == s.(rollbackCount := count).(tick := s.tick + 1);
  }

  lemma {:induction false} ReportsIgnoreRollbacks(s: State, n: nat, count: nat)
    ensures Reports(s.(rollbackCount := count), n) == Reports(s, n)
  {
    hide Report;
    hide Run;
    if n > 0 {
      ReportsIgnoreRollbacks(s, n - 1, count);
      Runs.RunIgnoresRollbacks(s, n - 1, count);
      ReportIgnoresRollbacks(Run(s, n - 1), count);
    }
  }

  /** Restores a clone of the baseline and resimulates up to the target: the checksum is that of
      simulating straight there, although the clone counts one more rollback. */
  method Restore(baseline: World, target: nat) returns (out: RollbackResult)
    requires BatchFits(baseline.Value(), TicksUntil(baseline.Value(), target)) && baseline.rollbackCount + 1 < TWO64
    ensures var s := baseline.Value();
      var count := TicksUntil(s, target);
      && out.targetTick == target && out.resimulated == count
      && out.checksum == Checksum.Of(Run(s, count))
      && (out.valid <==> (count == 0 || s.valid) && Runs.EventsOk(s) && target >= s.tick)
  {
    hide Checksum.Of;
    hide Run;
    hide Reports;
    hide BatchFits;
    hide Runs.EventsOk;
    ghost var s := baseline.Value();
    var w := Clone(baseline);
    w.rollbackCount := U64(w.rollbackCount + 1);
    var count := if target > w.tick then target - w.tick else 0;
    ghost var s' := w.Value();
    assert s' == s.(rollbackCount := s.rollbackCount + 1);
    Runs.RunIgnoresRollbacks(s, count, s.rollbackCount + 1);
    Runs.RunKeepsWorld(s', count);
    RollbackKeepsFits(s, count, s.rollbackCount + 1);
    EndIsCastable(s', count);
    var run := RunBatch(w, count);
    var checksum := Checksum.Compute(w.Value());
    out := RollbackResult(target, count, checksum,
                          run.valid && w.tick == target && w.rollbackCount > baseline.rollbackCount);
  }

  lemma EndIsCastable(s: State, count: nat)
    requires BatchFits(s, count)
    ensures Checksum.Castable(Run(s, count))
  {
  }

  /** Accepts exactly the checksum of the straight run, from a sound baseline that is not past
      the target. */
  method RollbackAgrees(baseline: World, target: nat, expected: nat) returns (ok: bool)
    requires BatchFits(baseline.Value(), TicksUntil(baseline.Value(), target)) && baseline.rollbackCount + 1 < TWO64
    ensures var s := baseline.Value();
      var count := TicksUntil(s, target);
      ok <==> (count == 0 || s.valid) && Runs.EventsOk(s) && target >= s.tick
              && expected == Checksum.Of(Run(s, count))
  {
    var value := Restore(baseline, target);
    ok := value.valid && value.checksum == expected;
  }

  // ----- prediction -----

  datatype Prediction = Prediction(horizon: nat, predictedChecksum: nat, confidence: nat, valid: bool)

  /** Predicts the checksum that the world will have at the horizon, leaving the world alone. */
  method Predict(baseline: World, horizon: nat) returns (out: Prediction)
    requires RunFits(baseline.Value(), horizon)
    ensures out.horizon == horizon && out.predictedChecksum == Checksum.Of(Run(baseline.Value(), horizon))
    ensures out.valid <==> horizon == 0 || baseline.valid
    ensures out.confidence == if out.valid then 100 else 0
  {
    hide Run;
    hide Checksum.Of;
    var result := RunReplay(baseline, horizon);
    out := Prediction(horizon, result.finalChecksum, if result.valid then 100 else 0,
                      result.valid && result.ticks == horizon);
  }

  // ----- the self-test -----

  /** From any sound baseline and for any tick count, batch simulation, replay, lockstep, rollback
      and prediction all agree, and the baseline is unchanged. */
  method CrossCheck(baseline: World, count: nat) returns (ok: bool)
    requires BatchFits(baseline.Value(), count) && Runs.EventsOk(baseline.Value())
    requires baseline.rollbackCount + 1 < TWO64
    requires count == 0 || baseline.valid
    ensures ok
  {
    hide Reports;
    hide Checksum.Of;
    hide Checksum.Castable;
    hide StepsFit;
    hide SumsFit;
    hide Audits.AuditFits;
    hide Run;
    hide Runs.EventsOk;
    hide Timeline;
    var world := Clone(baseline);
    var batch := RunBatch(world, count);
    var replayed := RunReplay(baseline, count);
    var replayOk := ReplayAgrees(baseline, count, replayed);
    var rollbackOk := RollbackAgrees(baseline, baseline.tick + count, batch.checksum);
    var synchronized := RunLockstep(baseline, count);
    var predicted := Predict(baseline, count);
    ok := batch.valid && replayOk && replayed.finalChecksum == batch.checksum && rollbackOk
      && synchronized.valid && synchronized.mismatches == 0 && synchronized.checksum == batch.checksum
      && predicted.valid && predicted.predictedChecksum == replayed.finalChecksum;
  }
}
