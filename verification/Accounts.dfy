/** The books of a whole run: events, experience, goods, credits and funds balance over any number
    of ticks (the embedded modules `ai.rue`, `physics.rue`, `economy.rue` and `simulation.rue`). */
module Accounts {
  import opened Model
  import opened Tick
  import opened Economy
  import Replay
  import Runs
  import Simulation

  function Experience(es: seq<Entity>, k: nat): nat
    requires k <= |es|
  {
    if k == 0 then 0 else Experience(es, k - 1) + es[k - 1].experience
  }

  function Living(es: seq<Entity>, k: nat): nat
    requires k <= |es|
  {
    if k == 0 then 0 else Living(es, k - 1) + if es[k - 1].alive then 1 else 0
  }

  // ----- one phase -----

  /** Only trading changes inventories and credits, only moving changes experience, nothing life. */
  lemma {:induction false} PhaseSums(p: Phase, s: State, k: nat)
    requires k <= |s.entities|
    ensures var after := All(p, s).entities;
      && |after| == |s.entities|
      && (p != Trading ==> Inventories(after, k) == Inventories(s.entities, k))
      && (p != Trading ==> Credits(after, k) == Credits(s.entities, k))
      && (p != Moving ==> Experience(after, k) == Experience(s.entities, k))
      && Living(after, k) == Living(s.entities, k)
  {
    hide Sweep;
    if k > 0 {
      PhaseSums(p, s, k - 1);
      SweepEntities(p, s, |s.entities|);
      TurnSums(p, s, s.entities[k - 1]);
      hide EntityAfter;
    }
  }

  lemma TurnSums(p: Phase, s: State, e: Entity)
    ensures var e' := EntityAfter(p, s, e);
      && (p != Trading ==> e'.inventory == e.inventory && e'.credits == e.credits)
      && (p != Moving ==> e'.experience == e.experience)
      && e'.alive == e.alive
  {
  }

  /** The events of the first `k` turns of a phase. */
  function EventCount(p: Phase, s: State, k: nat): nat
    requires k <= |s.entities|
  {
    if k == 0 then 0 else EventCount(p, s, k - 1) + |EventsOf(p, s, s.entities[k - 1])|
  }

  lemma SameEventCount(p: Phase, a: State, b: State, e: Entity)
    requires SameGround(a, b) && (p != Trading ==> a.resources == b.resources && a.treasury == b.treasury)
    ensures |EventsOf(p, a, e)| == |EventsOf(p, b, e)|
  {
  }

  lemma {:induction false} SweepEvents(p: Phase, s: State, k: nat)
    requires k <= |s.entities|
    ensures |Sweep(p, s, k).events| == |s.events| + EventCount(p, s, k)
  {
    hide EventsOf;
    hide EntityAfter;
    hide Turn;
    hide SameGround;
    if k == 0 {
      assert Sweep(p, s, 0) == s;
    }
    hide Sweep;
    if k > 0 {
      var before := Sweep(p, s, k - 1);
      SweepEvents(p, s, k - 1);
      SweepEntities(p, s, k - 1);
      SweepFrame(p, s, k - 1);
      NextTurn(p, s, k);
      TurnShape(p, before, k - 1);
      SameEventCount(p, s, before, s.entities[k - 1]);
    }
  }

  /** A thinking entity leaves an event exactly when its state changes. */
  lemma {:induction false} ThinkingEvents(s: State, k: nat)
    requires k <= |s.entities|
    ensures EventCount(Thinking, s, k) == Simulation.ChangesTo(s, k)
  {
    if k > 0 {
      ThinkingEvents(s, k - 1);
    }
  }

  /** A moving entity either gains a point of experience or leaves an event. */
  lemma {:induction false} MovingEvents(s: State, k: nat)
    requires k <= |s.entities|
    ensures |All(Moving, s).entities| == |s.entities|
    ensures EventCount(Moving, s, k) + Experience(All(Moving, s).entities, k)
      == Experience(s.entities, k) + Living(s.entities, k)
  {
    hide Sweep;
    hide Walkable;
    if k > 0 {
      MovingEvents(s, k - 1);
      SweepEntities(Moving, s, |s.entities|);
      MoveOrBlocked(s, s.entities[k - 1]);
      hide EntityAfter;
      hide EventsOf;
    }
  }

  lemma MoveOrBlocked(s: State, e: Entity)
    ensures |EventsOf(Moving, s, e)| + EntityAfter(Moving, s, e).experience == e.experience + if e.alive then 1 else 0
  {
    hide Walkable;
  }

  lemma {:induction false} QuietPhase(p: Phase, s: State, k: nat)
    requires k <= |s.entities| && (p == Preparing || p == Trading)
    ensures EventCount(p, s, k) == 0
  {
    if k > 0 {
      QuietPhase(p, s, k - 1);
    }
  }

  // ----- one tick -----

  /** The worlds between the phases of a tick. */
  function Thought(s: State): State {
    All(Thinking, s.(tick := s.tick + 1))
  }

  function Settled(s: State): State {
    All(Moving, All(Preparing, Thought(s)))
  }

  lemma StepIsTraded(s: State)
    ensures var (r, t) := (Step(s), All(Trading, Settled(s)));
      r.entities == t.entities && r.events == t.events && r.resources == t.resources && r.treasury == t.treasury
    ensures |Settled(s).entities| == |s.entities|
  {
    hide Turn;
    hide Captured;
    hide Sweep;
  }

  /** What the trading phase of a tick does to the books. */
  function Traded(s: State): Totals {
    TotalsTo(Settled(s), |Settled(s).entities|)
  }

  lemma StepEvents(s: State)
    ensures var (n, r) := (|s.entities|, Step(s));
      && |r.entities| == n
      && |r.events| + Experience(r.entities, n)
         == |s.events| + Experience(s.entities, n) + Simulation.Report(s).aiChanges + Living(s.entities, n)
      && Living(r.entities, n) == Living(s.entities, n)
  {
    hide Sweep;
    hide Experience;
    hide Living;
    hide EventCount;
    hide Step;
    var n := |s.entities|;
    var s0 := s.(tick := s.tick + 1);
    var s1 := Thought(s);
    var s2 := All(Preparing, s1);
    var s3 := Settled(s);
    StepIsTraded(s);
    SweepEvents(Thinking, s0, n);
    PhaseSums(Thinking, s0, n);
    SweepEvents(Preparing, s1, n);
    PhaseSums(Preparing, s1, n);
    SweepEvents(Moving, s2, n);
    PhaseSums(Moving, s2, n);
    SweepEvents(Trading, s3, n);
    PhaseSums(Trading, s3, n);
    ThinkingEvents(s0, n);
    QuietPhase(Preparing, s1, n);
    MovingEvents(s2, n);
    QuietPhase(Trading, s3, n);
  }

  lemma StepGoods(s: State)
    ensures var (n, r, t) := (|s.entities|, Step(s), Traded(s));
      && |r.entities| == n
      && Inventories(r.entities, n) + t.transfers == Inventories(s.entities, n) + t.produced
      && Credits(r.entities, n) == Credits(s.entities, n) + t.credits && 2 * t.credits == t.transfers
      && r.resources + r.treasury + t.charged == s.resources + s.treasury + t.produced
      && r.treasury == s.treasury + t.received
      && t.produced == Simulation.Report(s).produced
  {
    hide Sweep;
    hide Inventories;
    hide Credits;
    hide TotalsTo;
    hide Step;
    var n := |s.entities|;
    var s0 := s.(tick := s.tick + 1);
    var s1 := Thought(s);
    var s2 := All(Preparing, s1);
    StepIsTraded(s);
    PhaseSums(Thinking, s0, n);
    PhaseSums(Preparing, s1, n);
    PhaseSums(Moving, s2, n);
    SweepFrame(Thinking, s0, n);
    SweepFrame(Preparing, s1, n);
    SweepFrame(Moving, s2, n);
    FundsConserved(Settled(s), n);
    GoodsConserved(Settled(s), n);
  }

  // ----- whole runs -----

  /** What the trading phases of a run add up to. */
  function Ledgers(s: State, n: nat): Totals {
    if n == 0 then Totals(0, 0, 0, 0, 0, 0)
    else
      var (a, b) := (Ledgers(s, n - 1), Traded(Run(s, n - 1)));
      Totals(a.produced + b.produced, a.consumed + b.consumed, a.transfers + b.transfers, a.credits + b.credits,
             a.charged + b.charged, a.received + b.received)
  }

  lemma OneMoreTime(n: nat, k: nat)
    requires n > 0
    ensures n * k == (n - 1) * k + k
  {
  }

  /** Over any run, events and experience together grow by the reported changes of state and by one
      for each living entity and tick. */
  lemma {:induction false} EventsBalance(s: State, n: nat)
    ensures var (m, r) := (|s.entities|, Run(s, n));
      && |r.entities| == m
      && |r.events| + Experience(r.entities, m)
         == |s.events| + Experience(s.entities, m) + Replay.Changed(Replay.Reports(s, n)) + n * Living(s.entities, m)
      && Living(r.entities, m) == Living(s.entities, m)
  {
    hide Step;
    hide Experience;
    hide Living;
    hide Simulation.Report;
    hide Replay.Reports;
    hide Replay.Changed;
    hide Replay.Moved;
    hide Replay.Produced;
    Replay.NoTicks(s);
    if n > 0 {
      EventsBalance(s, n - 1);
      StepEvents(Run(s, n - 1));
      Replay.NextReport(s, n - 1);
      OneMoreTime(n, Living(s.entities, |s.entities|));
    }
  }

  /** Over any run, inventories grow by the reported production and shrink by every transfer;
      credits grow by half of those transfers; funds grow by the production and shrink by
      exactly the consumption charged; and the treasury never shrinks. */
  lemma {:induction false} GoodsBalance(s: State, n: nat)
    ensures var (m, r, t) := (|s.entities|, Run(s, n), Ledgers(s, n));
      && |r.entities| == m
      && Inventories(r.entities, m) + t.transfers == Inventories(s.entities, m) + t.produced
      && Credits(r.entities, m) == Credits(s.entities, m) + t.credits && 2 * t.credits == t.transfers
      && r.resources + r.treasury + t.charged == s.resources + s.treasury + t.produced
      && r.treasury == s.treasury + t.received
      && t.produced == Replay.Produced(Replay.Reports(s, n))
  {
    hide Step;
    hide Inventories;
    hide Credits;
    hide Traded;
    hide Simulation.Report;
    hide Replay.Reports;
    hide Replay.Produced;
    hide Replay.Moved;
    hide Replay.Changed;
    Replay.NoTicks(s);
    if n > 0 {
      GoodsBalance(s, n - 1);
      StepGoods(Run(s, n - 1));
      Replay.NextReport(s, n - 1);
    }
  }

  // ----- goods that vanish -----

  /** A living entity that produces at least what it consumes. */
  predicate Producer(e: Entity) {
    e.alive ==> e.kind == WORKER || e.kind == BUILDER
  }

  ghost predicate AllProducers(s: State) {
    forall i :: 0 <= i < |s.entities| ==> Producer(s.entities[i])
  }

  /** Producers fall behind on consumption only where a transfer was lost. */
  lemma {:induction false} LossIsTransfer(s: State, k: nat)
    requires k <= |s.entities| && AllProducers(s)
    ensures var t := TotalsTo(s, k);
      t.consumed - t.charged <= t.transfers - t.received && t.consumed == Living(s.entities, k)
  {
    hide Sweep;
    if k > 0 {
      LossIsTransfer(s, k - 1);
      assert Producer(s.entities[k - 1]);
    }
  }

  lemma SettledEntity(s: State, i: nat)
    requires i < |s.entities|
    ensures |Settled(s).entities| == |s.entities|
    ensures var (e, e') := (s.entities[i], Settled(s).entities[i]);
      e'.kind == e.kind && e'.alive == e.alive && e'.inventory == e.inventory
  {
    hide EntityAfter;
    hide Turn;
    var s0 := s.(tick := s.tick + 1);
    var s1 := Thought(s);
    var s2 := All(Preparing, s1);
    SweepEntities(Thinking, s0, |s.entities|);
    SweepEntities(Preparing, s1, |s.entities|);
    SweepEntities(Moving, s2, |s.entities|);
    KindSurvives(Thinking, s0, s.entities[i]);
    KindSurvives(Preparing, s1, s1.entities[i]);
    KindSurvives(Moving, s2, s2.entities[i]);
  }

  lemma KindSurvives(p: Phase, s: State, e: Entity)
    ensures var e' := EntityAfter(p, s, e);
      e'.kind == e.kind && e'.alive == e.alive && (p != Trading ==> e'.inventory == e.inventory)
  {
  }

  lemma {:induction false} LivingThere(a: seq<Entity>, b: seq<Entity>, k: nat)
    requires k <= |a| == |b| && forall i :: 0 <= i < |a| ==> a[i].alive == b[i].alive
    ensures Living(a, k) == Living(b, k)
  {
    if k > 0 {
      LivingThere(a, b, k - 1);
    }
  }

  lemma StepLoss(s: State)
    requires AllProducers(s)
    ensures var t := Traded(s);
      t.consumed - t.charged <= t.transfers - t.received && t.consumed == Living(s.entities, |s.entities|)
  {
    hide Settled;
    hide Living;
    hide TotalsTo;
    forall i | 0 <= i < |s.entities|
      ensures |Settled(s).entities| == |s.entities|
      ensures Producer(Settled(s).entities[i]) && Settled(s).entities[i].alive == s.entities[i].alive
    {
      assert Producer(s.entities[i]);
      SettledEntity(s, i);
    }
    StepIsTraded(s);
    LivingThere(Settled(s).entities, s.entities, |s.entities|);
    LossIsTransfer(Settled(s), |s.entities|);
  }

  lemma {:induction false} RunLoss(s: State, n: nat)
    requires AllProducers(s)
    ensures var t := Ledgers(s, n);
      t.consumed - t.charged <= t.transfers - t.received && t.consumed == n * Living(s.entities, |s.entities|)
  {
    hide Traded;
    hide Living;
    hide Step;
    if n > 0 {
      RunLoss(s, n - 1);
      var r := Run(s, n - 1);
      RunKeepsProducers(s, n - 1);
      LivingThere(r.entities, s.entities, |s.entities|);
      StepLoss(r);
      OneMoreTime(n, Living(s.entities, |s.entities|));
    }
  }

  lemma RunKeepsProducers(s: State, n: nat)
    requires AllProducers(s)
    ensures AllProducers(Run(s, n)) && |Run(s, n).entities| == |s.entities|
    ensures forall i :: 0 <= i < |s.entities| ==> Run(s, n).entities[i].alive == s.entities[i].alive
  {
    hide Run;
    Runs.RunKeepsWorld(s, n);
    forall i | 0 <= i < |s.entities|
      ensures Producer(Run(s, n).entities[i]) && Run(s, n).entities[i].alive == s.entities[i].alive
    {
      assert Producer(s.entities[i]);
      Runs.RunKeepsSelves(s, n, i);
    }
  }

  // ----- stores -----

  ghost predicate Modest(s: State) {
    forall i :: 0 <= i < |s.entities| && s.entities[i].alive ==> s.entities[i].inventory <= 8
  }

  lemma StepInventory(s: State, i: nat)
    requires i < |s.entities|
    ensures |Step(s).entities| == |s.entities|
    ensures s.entities[i].alive && s.entities[i].inventory <= 8 ==> Step(s).entities[i].inventory <= 7
    ensures !s.entities[i].alive ==> Step(s).entities[i] == s.entities[i]
    ensures Step(s).entities[i].alive == s.entities[i].alive
  {
    hide Step;
    hide Walkable;
    StepEntities(s, i);
  }

  /** After the first tick a living entity that began with at most 8 never holds more than 7. */
  lemma {:induction false} RunInventory(s: State, n: nat, i: nat)
    requires i < |s.entities| && n > 0
    ensures |Run(s, n).entities| == |s.entities|
    ensures s.entities[i].alive && s.entities[i].inventory <= 8 ==> Run(s, n).entities[i].inventory <= 7
    ensures !s.entities[i].alive ==> Run(s, n).entities[i] == s.entities[i]
    ensures Run(s, n).entities[i].alive == s.entities[i].alive
  {
    hide Step;
    if n > 1 {
      RunInventory(s, n - 1, i);
      StepInventory(Run(s, n - 1), i);
    } else {
      StepInventory(s, i);
      assert Run(s, 0) == s;
    }
  }

  lemma {:induction false} StoresBounded(a: seq<Entity>, b: seq<Entity>, k: nat)
    requires k <= |a| == |b|
    requires forall i :: 0 <= i < |a| ==> (a[i].alive ==> b[i].inventory <= 7) && (!a[i].alive ==> b[i] == a[i])
    ensures Inventories(b, k) <= Inventories(a, k) + 7 * Living(a, k)
  {
    if k > 0 {
      StoresBounded(a, b, k - 1);
    }
  }

  /** Producers cannot keep it up: consumption that is all charged and transfers that all arrive
      drain the resources at the rate of the consumption, so after as many ticks as the first
      resources last, with what stores can hold, some goods have vanished. */
  lemma ProducersLoseGoods(s: State, n: nat)
    requires AllProducers(s) && Modest(s)
    requires n * Living(s.entities, |s.entities|) > s.resources + 7 * Living(s.entities, |s.entities|)
    ensures Ledgers(s, n).received < Ledgers(s, n).transfers
  {
    hide Run;
    hide Ledgers;
    hide Living;
    hide Inventories;
    var m := |s.entities|;
    assert n > 0;
    RunLoss(s, n);
    GoodsBalance(s, n);
    forall i | 0 <= i < m
      ensures |Run(s, n).entities| == m
      ensures s.entities[i].alive ==> Run(s, n).entities[i].inventory <= 7
      ensures !s.entities[i].alive ==> Run(s, n).entities[i] == s.entities[i]
    {
      RunInventory(s, n, i);
    }
    StoresBounded(s.entities, Run(s, n).entities, m);
    ReceivedAtMost(s, n);
  }

  lemma TradedAtMost(s: State)
    ensures Traded(s).received <= Traded(s).transfers
  {
    hide Settled;
    hide TotalsTo;
    hide Sweep;
    FundsConserved(Settled(s), |Settled(s).entities|);
  }

  lemma {:induction false} ReceivedAtMost(s: State, n: nat)
    ensures Ledgers(s, n).received <= Ledgers(s, n).transfers
  {
    hide Traded;
    hide Run;
    if n > 0 {
      ReceivedAtMost(s, n - 1);
      TradedAtMost(Run(s, n - 1));
    }
  }
}
