/** Where a tick traps: the plain 64-bit arithmetic of every phase, turn by turn, as the embedded
    modules `ai.rue`, `physics.rue`, `economy.rue`, `snapshot.rue` and `tick.rue` compute it.  A
    trap ends the program, so it does not matter at which operation of a turn it strikes. */
module Traps {
  import opened Metric
  import opened Model
  import opened Tick
  import opened Economy
  import Checksum
  import Runs

  /** The index that a lookup at a signed position computes. */
  predicate LookupFits(s: State, x: int, y: int) {
    0 <= x < s.width && 0 <= y < s.height ==> y * s.width + x < TWO64
  }

  /** The turn of an entity, in the world as it is at its turn. */
  predicate TurnFits(p: Phase, s: State, e: Entity) {
    e.alive ==>
      match p
      case Thinking =>
        var d := Choose(s, e);
        d != e.state ==> s.nextSequence + 1 < TWO64 && (d == 2 ==> |s.tiles| > 0 && e.id + s.tick < TWO64)
      case Preparing =>
        e.id * 17 + s.tick * 13 + 7 < TWO64
      case Moving =>
        var (nx, ny) := (e.x + e.velocityX, e.y + e.velocityY);
        && IsI64(nx) && IsI64(ny) && LookupFits(s, nx, ny)
        && if Walkable(s, nx, ny) then e.experience + 1 < TWO64 else s.nextSequence + 1 < TWO64
      case Trading =>
        && e.inventory + Produced(e) < TWO64 && s.resources + Produced(e) < TWO64
        && (Affords(s, e) ==> s.treasury + Transfer(e) < TWO64)
        && e.credits + Transfer(e) / 2 < TWO64
        && e.id + Produced(e) * 17 + Transfer(e) * 31 < TWO64
  }

  /** The first `k` turns of a phase. */
  predicate SweepFits(p: Phase, s: State, k: nat)
    requires k <= |s.entities|
  {
    k == 0 || (SweepFits(p, s, k - 1) && TurnFits(p, Sweep(p, s, k - 1), s.entities[k - 1]))
  }

  predicate TotalsFit(t: Totals) {
    t.produced < TWO64 && t.consumed < TWO64 && t.transfers < TWO64 && t.credits < TWO64
  }

  /** The trading phase, its ledger and the test of that ledger. */
  predicate TradeFits(s: State) {
    var (n, t, r) := (|s.entities|, TotalsTo(s, |s.entities|), All(Trading, s));
    && s.resources + s.treasury < TWO64 && SweepFits(Trading, s, n) && TotalsFit(t)
    && r.resources + r.treasury + t.consumed + t.credits < TWO64
  }

  /** The phases of a tick, and the worlds they start from. */
  predicate PhasesFit(s: State) {
    var s0 := s.(tick := s.tick + 1);
    var s1 := All(Thinking, s0);
    var s2 := All(Preparing, s1);
    && SweepFits(Thinking, s0, |s0.entities|) && SweepFits(Preparing, s1, |s1.entities|)
    && SweepFits(Moving, s2, |s2.entities|) && TradeFits(All(Moving, s2))
  }

  /** A whole tick runs without a trap. */
  predicate StepFits(s: State) {
    && |s.entities| < TWO64 && s.tick + 1 < TWO64
    && PhasesFit(s)
    && ((s.tick + 1) % 3 == 0 ==> s.questsCompleted + 1 < TWO64)
    && Checksum.Castable(Acted(s))
  }

  /** The first `n` ticks run without a trap. */
  predicate StepsFit(s: State, n: nat) {
    n == 0 || (StepsFit(s, n - 1) && StepFits(Run(s, n - 1)))
  }

  lemma {:induction false} SweepFitsAt(p: Phase, s: State, k: nat, i: nat)
    requires i < k <= |s.entities| && SweepFits(p, s, k)
    ensures TurnFits(p, Sweep(p, s, i), s.entities[i])
  {
    hide TurnFits;
    hide Sweep;
    if i < k - 1 {
      SweepFitsAt(p, s, k - 1, i);
    }
  }

  lemma {:induction false} StepsFitAt(s: State, n: nat, k: nat)
    requires k < n && StepsFit(s, n)
    ensures StepFits(Run(s, k)) && StepsFit(s, k)
  {
    hide StepFits;
    hide Run;
    if k < n - 1 {
      StepsFitAt(s, n - 1, k);
    }
  }

  lemma {:induction false} TotalsGrow(s: State, i: nat, k: nat)
    requires i <= k <= |s.entities|
    ensures var (t, u) := (TotalsTo(s, i), TotalsTo(s, k));
      t.produced <= u.produced && t.consumed <= u.consumed && t.transfers <= u.transfers && t.credits <= u.credits
    decreases k
  {
    hide Sweep;
    if i < k {
      TotalsGrow(s, i, k - 1);
    }
  }

  // ----- traps and the rollback count -----

  lemma TurnFitsIgnoresRollbacks(p: Phase, s: State, e: Entity, count: nat)
    ensures TurnFits(p, s.(rollbackCount := count), e) <==> TurnFits(p, s, e)
  {
  }

  lemma {:induction false} SweepFitsIgnoresRollbacks(p: Phase, s: State, k: nat, count: nat)
    requires k <= |s.entities|
    ensures SweepFits(p, s.(rollbackCount := count), k) <==> SweepFits(p, s, k)
  {
    hide TurnFits;
    hide Sweep;
    if k > 0 {
      SweepFitsIgnoresRollbacks(p, s, k - 1, count);
      Runs.SweepIgnoresRollbacks(p, s, k - 1, count);
      TurnFitsIgnoresRollbacks(p, Sweep(p, s, k - 1), s.entities[k - 1], count);
    }
  }

  lemma {:induction false} TotalsIgnoreRollbacks(s: State, k: nat, count: nat)
    requires k <= |s.entities|
    ensures TotalsTo(s.(rollbackCount := count), k) == TotalsTo(s, k)
  {
    hide Sweep;
    if k > 0 {
      TotalsIgnoreRollbacks(s, k - 1, count);
      Runs.SweepIgnoresRollbacks(Trading, s, k - 1, count);
    }
  }

  lemma TradeFitsIgnoresRollbacks(s: State, count: nat)
    ensures TradeFits(s.(rollbackCount := count)) <==> TradeFits(s)
  {
    hide Sweep;
    hide SweepFits;
    hide TotalsTo;
    SweepFitsIgnoresRollbacks(Trading, s, |s.entities|, count);
    TotalsIgnoreRollbacks(s, |s.entities|, count);
    Runs.SweepIgnoresRollbacks(Trading, s, |s.entities|, count);
  }

  lemma StepFitsIgnoresRollbacks(s: State, count: nat)
    ensures StepFits(s.(rollbackCount := count)) <==> StepFits(s)
  {
    hide Sweep;
    hide SweepFits;
    hide TradeFits;
    hide Checksum.EntityCastable;
    var s0 := s.(tick := s.tick + 1);
    var s1 := All(Thinking, s0);
    var s2 := All(Preparing, s1);
    var s3 := All(Moving, s2);
    Runs.SweepIgnoresRollbacks(Thinking, s0, |s0.entities|, count);
    Runs.SweepIgnoresRollbacks(Preparing, s1, |s1.entities|, count);
    Runs.SweepIgnoresRollbacks(Moving, s2, |s2.entities|, count);
    Runs.SweepIgnoresRollbacks(Trading, s3, |s3.entities|, count);
    SweepFitsIgnoresRollbacks(Thinking, s0, |s0.entities|, count);
    SweepFitsIgnoresRollbacks(Preparing, s1, |s1.entities|, count);
    SweepFitsIgnoresRollbacks(Moving, s2, |s2.entities|, count);
    TradeFitsIgnoresRollbacks(s3, count);
    assert s0.(rollbackCount := count) == s.(rollbackCount := count).(tick := s.tick + 1);
  }

  lemma {:induction false} StepsIgnoreRollbacks(s: State, n: nat, count: nat)
    ensures StepsFit(s.(rollbackCount := count), n) <==> StepsFit(s, n)
  {
    hide StepFits;
    hide Run;
    if n > 0 {
      StepsIgnoreRollbacks(s, n - 1, count);
      Runs.RunIgnoresRollbacks(s, n - 1, count);
      StepFitsIgnoresRollbacks(Run(s, n - 1), count);
    }
  }
}
