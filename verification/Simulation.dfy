/** The phases of a tick and the tick itself, updating a world in place (the embedded modules
    `ai.rue`, `physics.rue`, `economy.rue`, `snapshot.rue` and `tick.rue`), each proved equal
    to the function that specifies it. */
module Simulation {
  import opened Metric
  import opened Model
  import opened Tick
  import opened World
  import Checksum
  import Economy
  import Runs
  import opened Traps

  // ----- counters -----

  /** How many of the first `k` entities change their state when they think. */
  function ChangesTo(s: State, k: nat): nat
    requires k <= |s.entities|
  {
    if k == 0 then 0
    else
      var e := s.entities[k - 1];
      ChangesTo(s, k - 1) + if EntityAfter(Thinking, s, e).state != e.state then 1 else 0
  }

  /** How many of the first `k` entities change their position when they move. */
  function MovesTo(s: State, k: nat): nat
    requires k <= |s.entities|
  {
    if k == 0 then 0
    else
      var (e, e') := (s.entities[k - 1], EntityAfter(Moving, s, s.entities[k - 1]));
      MovesTo(s, k - 1) + if e'.x != e.x || e'.y != e.y then 1 else 0
  }

  /** The entity whose turn it is has not changed since the sweep began, and neither has anything
      its turn depends on. */
  lemma InSweep(p: Phase, s: State, i: nat)
    requires i < |s.entities|
    ensures var s' := Sweep(p, s, i);
      && s'.entities[i] == s.entities[i]
      && EntityAfter(p, s', s.entities[i]) == EntityAfter(p, s, s.entities[i])
      && SameGround(s, s')
      && (p != Trading ==> s'.resources == s.resources && s'.treasury == s.treasury)
      && Sweep(p, s, i + 1) == Turn(p, s', i)
  {
    SweepEntities(p, s, i);
    SweepFrame(p, s, i);
    TurnDependsOnGround(p, s, Sweep(p, s, i), s.entities[i]);
    hide EntityAfter;
    hide Turn;
  }

  // ----- turns -----

  method ThinkOne(w: World, i: nat) returns (changed: bool)
    requires i < |w.entities| && TurnFits(Thinking, w.Value(), w.entities[i])
    modifies w
    ensures w.Value() == Turn(Thinking, old(w.Value()), i)
    ensures changed <==> EntityAfter(Thinking, old(w.Value()), old(w.entities[i])).state != old(w.entities[i].state)
  {
    var entity := w.entities[i];
    var decision := Choose(w.Value(), entity);
    changed := entity.alive && decision != entity.state;
    if changed {
      var goal := if decision == 2 then U64(entity.id + w.tick) % |w.tiles| else entity.goal;
      w.entities := w.entities[i := entity.(state := decision, goal := goal, updatedTick := w.tick)];
      w.AddEvent(10 + decision, entity.id, entity.goal, decision);
    } else {
      assert w.entities[i := entity] == w.entities;
      assert w.events + [] == w.events;
    }
  }

  /** The direction of an entity on one axis. */
  method DirectionOf(id: nat, tick: nat, axis: nat) returns (d: int)
    requires id * 17 + tick * 13 + axis * 7 < TWO64
    ensures d == Direction(id, tick, axis)
  {
    var mode := U64(id * 17 + tick * 13 + axis * 7) % 5;
    d := if mode == 0 then -1 else if mode == 1 then 1 else 0;
  }

  method PrepareOne(w: World, i: nat)
    requires i < |w.entities| && TurnFits(Preparing, w.Value(), w.entities[i])
    modifies w
    ensures w.Value() == Turn(Preparing, old(w.Value()), i)
  {
    var entity := w.entities[i];
    assert w.entities[i := entity] == w.entities && w.events + [] == w.events;
    if entity.alive {
      var velocityX := DirectionOf(entity.id, w.tick, 0);
      var velocityY := DirectionOf(entity.id, w.tick, 1);
      w.entities := w.entities[i := entity.(
        previousX := entity.x, previousY := entity.y, velocityX := velocityX, velocityY := velocityY,
        updatedTick := w.tick)];
    }
  }

  method IntegrateOne(w: World, i: nat) returns (moved: bool)
    requires i < |w.entities| && TurnFits(Moving, w.Value(), w.entities[i])
    modifies w
    ensures w.Value() == Turn(Moving, old(w.Value()), i)
    ensures var (e, e') := (old(w.entities[i]), EntityAfter(Moving, old(w.Value()), old(w.entities[i])));
      moved <==> e'.x != e.x || e'.y != e.y
  {
    hide Walkable;
    var entity := w.entities[i];
    assert w.entities[i := entity] == w.entities && w.events + [] == w.events;
    moved := false;
    if entity.alive {
      var nx, ny := I64(entity.x + entity.velocityX), I64(entity.y + entity.velocityY);
      var allowed := Walkable(w.Value(), nx, ny);
      var nextX := if allowed then nx else entity.x;
      var nextY := if allowed then ny else entity.y;
      moved := nextX != entity.x || nextY != entity.y;
      if !allowed {
        w.AddEvent(2, entity.id, NONE, 1);
      }
      w.entities := w.entities[i := entity.(
        x := nextX, y := nextY,
        energy := if entity.energy > 0 then entity.energy - 1 else 0,
        experience := if allowed then U64(entity.experience + 1) else entity.experience, updatedTick := w.tick)];
    }
  }

  /** The turn of a living trader, field by field. */
  lemma TradingTurn(s: State, i: nat)
    requires i < |s.entities| && s.entities[i].alive
    ensures var e := s.entities[i];
      var (made, used, transfer) := (Produced(e), Consumed(e), Transfer(e));
      var paid := s.resources + made >= used + transfer;
      var r := Turn(Trading, s, i);
      && r == s.(entities := r.entities, resources := r.resources, treasury := r.treasury)
      && r.entities == s.entities[i := e.(inventory := e.inventory + made - transfer,
                                          credits := e.credits + transfer / 2, updatedTick := s.tick)]
      && r.resources == (if paid then s.resources + made - used - transfer else s.resources + made)
      && r.treasury == (if paid then s.treasury + transfer else s.treasury)
  {
    hide Produced;
    hide Consumed;
    hide Transfer;
    assert s.events + [] == s.events;
  }

  lemma LivingAmounts(e: Entity)
    requires e.alive
    ensures Produced(e) == (if e.kind == WORKER then 3 else if e.kind == BUILDER then 1 else 0)
    ensures Consumed(e) == (if e.kind == GUARD then 2 else 1)
    ensures Transfer(e) == (if e.inventory + Produced(e) >= 8 then 4 else 0)
  {
  }

  lemma DeadAmounts(e: Entity)
    requires !e.alive
    ensures Produced(e) == Consumed(e) == Transfer(e) == 0
  {
  }

  lemma TradingFits(s: State, e: Entity)
    requires e.alive && TurnFits(Trading, s, e)
    ensures e.inventory + Produced(e) < TWO64 && s.resources + Produced(e) < TWO64
    ensures s.resources + Produced(e) >= Consumed(e) + Transfer(e) ==> s.treasury + Transfer(e) < TWO64
    ensures e.credits + Transfer(e) / 2 < TWO64
  {
    hide Produced;
    hide Consumed;
    hide Transfer;
  }

  lemma DeadTurn(p: Phase, s: State, i: nat)
    requires i < |s.entities| && !s.entities[i].alive
    ensures Turn(p, s, i) == s
  {
    var e := s.entities[i];
    assert s.entities[i := e] == s.entities && s.events + [] == s.events;
  }

  method TradeOne(w: World, i: nat) returns (made: nat, used: nat, transfer: nat, credit: nat)
    requires i < |w.entities| && TurnFits(Trading, w.Value(), w.entities[i])
    modifies w
    ensures w.Value() == Turn(Trading, old(w.Value()), i)
    ensures var e := old(w.entities[i]);
      made == Produced(e) && used == Consumed(e) && transfer == Transfer(e) && credit == Transfer(e) / 2
  {
    hide Turn;
    hide EntityAfter;
    hide Produced;
    hide Consumed;
    hide Transfer;
    hide TurnFits;
    var entity := w.entities[i];
    ghost var s := w.Value();
    made, used, transfer, credit := 0, 0, 0, 0;
    if !entity.alive {
      DeadTurn(Trading, s, i);
      DeadAmounts(entity);
    } else {
      TradingTurn(s, i);
      TradingFits(s, entity);
      LivingAmounts(entity);
      made := if entity.kind == WORKER then 3 else if entity.kind == BUILDER then 1 else 0;
      used := if entity.kind == GUARD then 2 else 1;
      var nextInventory := U64(entity.inventory + made);
      transfer := if nextInventory >= 8 then 4 else 0;
      var resources := U64(w.resources + made);
      if resources >= used + transfer {
        resources := resources - used - transfer;
        w.treasury := U64(w.treasury + transfer);
      }
      w.resources := resources;
      credit := transfer / 2;
      w.entities := w.entities[i := entity.(
        inventory := nextInventory - transfer, credits := U64(entity.credits + credit), updatedTick := w.tick)];
    }
  }

  // ----- phases -----

  method Think(w: World) returns (changed: nat)
    requires |w.entities| < TWO64 && SweepFits(Thinking, w.Value(), |w.entities|)
    modifies w
    ensures w.Value() == All(Thinking, old(w.Value()))
    ensures changed == ChangesTo(old(w.Value()), |old(w.entities)|)
  {
    hide EntityAfter;
    hide Turn;
    ghost var s := w.Value();
    changed := 0;
    var i := 0;
    while i < |w.entities|
      invariant |w.entities| == |s.entities| && i <= |w.entities|
      invariant w.Value() == Sweep(Thinking, s, i)
      invariant changed == ChangesTo(s, i) <= i
    {
      InSweep(Thinking, s, i);
      SweepFitsAt(Thinking, s, |s.entities|, i);
      var differs := ThinkOne(w, i);
      if differs {
        changed := U64(changed + 1);
      }
      i := i + 1;
    }
  }

  method Prepare(w: World)
    requires SweepFits(Preparing, w.Value(), |w.entities|)
    modifies w
    ensures w.Value() == All(Preparing, old(w.Value()))
  {
    hide EntityAfter;
    hide Turn;
    ghost var s := w.Value();
    var i := 0;
    while i < |w.entities|
      invariant |w.entities| == |s.entities| && i <= |w.entities|
      invariant w.Value() == Sweep(Preparing, s, i)
    {
      InSweep(Preparing, s, i);
      SweepFitsAt(Preparing, s, |s.entities|, i);
      PrepareOne(w, i);
      i := i + 1;
    }
  }

  method Integrate(w: World) returns (moved: nat)
    requires |w.entities| < TWO64 && SweepFits(Moving, w.Value(), |w.entities|)
    modifies w
    ensures w.Value() == All(Moving, old(w.Value()))
    ensures moved == MovesTo(old(w.Value()), |old(w.entities)|)
  {
    hide EntityAfter;
    hide Turn;
    ghost var s := w.Value();
    moved := 0;
    var i := 0;
    while i < |w.entities|
      invariant |w.entities| == |s.entities| && i <= |w.entities|
      invariant w.Value() == Sweep(Moving, s, i)
      invariant moved == MovesTo(s, i) <= i
    {
      InSweep(Moving, s, i);
      SweepFitsAt(Moving, s, |s.entities|, i);
      var differs := IntegrateOne(w, i);
      if differs {
        moved := U64(moved + 1);
      }
      i := i + 1;
    }
  }

  /** The books after the first `i` turns of a trading phase that started in `s`. */
  ghost predicate Booked(s: State, i: nat, out: Economy.Ledger)
    requires i <= |s.entities|
  {
    var t := Economy.TotalsTo(s, i);
    && out.produced == t.produced && out.consumed == t.consumed
    && out.transfers == t.transfers && out.credits == t.credits
    && out.digest == Digest(Mix(OFFSET_BASIS, s.tick), Economy.LedgerWords(s.entities, i))
  }

  method Book(out: Economy.Ledger, e: Entity, made: nat, used: nat, transfer: nat, credit: nat,
              ghost s: State, ghost i: nat)
    returns (out': Economy.Ledger)
    requires i < |s.entities| && e == s.entities[i] && Booked(s, i, out)
    requires made == Produced(e) && used == Consumed(e) && transfer == Transfer(e) && credit == Transfer(e) / 2
    requires TotalsFit(Economy.TotalsTo(s, i + 1)) && (e.alive ==> e.id + made * 17 + transfer * 31 < TWO64)
    ensures Booked(s, i + 1, out')
  {
    hide Mix;
    hide Digest;
    hide Sweep;
    hide Produced;
    hide Consumed;
    hide Transfer;
    hide Affords;
    out' := out.(produced := U64(out.produced + made), consumed := U64(out.consumed + used),
                 transfers := U64(out.transfers + transfer), credits := U64(out.credits + credit));
    if e.alive {
      DigestSnoc(Mix(OFFSET_BASIS, s.tick), Economy.LedgerWords(s.entities, i), e.id + made * 17 + transfer * 31);
      out' := out'.(digest := Mix(out.digest, U64(e.id + made * 17 + transfer * 31)));
    }
  }

  method Trade(w: World) returns (out: Economy.Ledger)
    requires TradeFits(w.Value())
    modifies w
    ensures w.Value() == All(Trading, old(w.Value()))
    ensures out == Economy.LedgerOf(old(w.Value()))
  {
    hide EntityAfter;
    hide Turn;
    hide Booked;
    hide Mix;
    ghost var s := w.Value();
    var before := U64(w.resources + w.treasury);
    out := Economy.Ledger(0, 0, 0, 0, Mix(OFFSET_BASIS, w.tick), false);
    BooksOpen(s, out);
    var i := 0;
    while i < |w.entities|
      invariant |w.entities| == |s.entities| && i <= |w.entities|
      invariant w.Value() == Sweep(Trading, s, i)
      invariant Booked(s, i, out)
    {
      InSweep(Trading, s, i);
      TradeTurnFits(s, i);
      var entity := w.entities[i];
      var made, used, transfer, credit := TradeOne(w, i);
      out := Book(out, entity, made, used, transfer, credit, s, i);
      i := i + 1;
    }
    Economy.PhaseConserves(s);
    BooksClose(s, out);
    out := out.(valid := U64(w.resources + w.treasury + out.consumed + out.credits) >= before);
  }

  lemma TradeTurnFits(s: State, i: nat)
    requires TradeFits(s) && i < |s.entities|
    ensures TurnFits(Trading, Sweep(Trading, s, i), s.entities[i]) && TotalsFit(Economy.TotalsTo(s, i + 1))
    ensures var e := s.entities[i]; e.alive ==> e.id + Produced(e) * 17 + Transfer(e) * 31 < TWO64
  {
    hide Sweep;
    hide Economy.TotalsTo;
    SweepFitsAt(Trading, s, |s.entities|, i);
    TotalsGrow(s, i + 1, |s.entities|);
  }

  lemma BooksOpen(s: State, out: Economy.Ledger)
    requires out == Economy.Ledger(0, 0, 0, 0, Mix(OFFSET_BASIS, s.tick), false)
    ensures Booked(s, 0, out)
  {
  }

  lemma BooksClose(s: State, out: Economy.Ledger)
    requires Booked(s, |s.entities|, out)
    ensures out.(valid := true) == Economy.LedgerOf(s)
    ensures out.consumed == Economy.TotalsTo(s, |s.entities|).consumed
    ensures out.credits == Economy.TotalsTo(s, |s.entities|).credits
  {
  }

  // ----- the tick -----

  method Capture(w: World) returns (value: Snapshot)
    requires Checksum.Castable(w.Value())
    modifies w`snapshots
    ensures value == Captured(old(w.Value()))
    ensures w.snapshots == old(w.snapshots) + [value]
  {
    var checksum := Checksum.Compute(w.Value());
    value := Snapshot(w.tick, |w.entities|, |w.events|, |w.commands|, checksum);
    w.snapshots := w.snapshots + [value];
  }

  datatype TickResult = TickResult(
    tick: nat, aiChanges: nat, moved: nat, produced: nat, events: nat, checksum: nat, valid: bool)

  /** What a tick from `s` reports. */
  function Report(s: State): TickResult {
    var s0 := s.(tick := s.tick + 1);
    var s2 := All(Preparing, All(Thinking, s0));
    var s3 := All(Moving, s2);
    TickResult(s.tick + 1, ChangesTo(s0, |s0.entities|), MovesTo(s2, |s2.entities|),
               Economy.TotalsTo(s3, |s3.entities|).produced, |Step(s).events|, Checksum.Of(Step(s)), s.valid)
  }

  lemma PhasesKeep(s: State)
    ensures var r := All(Trading, All(Moving, All(Preparing, All(Thinking, s))));
      r.tick == s.tick && r.questsCompleted == s.questsCompleted
  {
    hide Sweep;
    var s1 := All(Thinking, s);
    var s2 := All(Preparing, s1);
    var s3 := All(Moving, s2);
    SweepFrame(Thinking, s, |s.entities|);
    SweepFrame(Preparing, s1, |s1.entities|);
    SweepFrame(Moving, s2, |s2.entities|);
    SweepFrame(Trading, s3, |s3.entities|);
  }

  /** Everything a tick does before its snapshot. */
  method Act(w: World) returns (aiChanges: nat, moved: nat, ledger: Economy.Ledger)
    requires |w.entities| < TWO64 && w.tick + 1 < TWO64 && PhasesFit(w.Value())
    requires (w.tick + 1) % 3 == 0 ==> w.questsCompleted + 1 < TWO64
    modifies w
    ensures w.Value() == Acted(old(w.Value()))
    ensures var s0 := old(w.Value()).(tick := old(w.tick) + 1);
      var s2 := All(Preparing, All(Thinking, s0));
      && aiChanges == ChangesTo(s0, |s0.entities|) && moved == MovesTo(s2, |s2.entities|)
      && ledger == Economy.LedgerOf(All(Moving, s2))
  {
    hide Sweep;
    hide SweepFits;
    hide TradeFits;
    hide ChangesTo;
    hide MovesTo;
    hide Economy.LedgerOf;
    w.tick := U64(w.tick + 1);
    PhasesKeep(w.Value());
    hide All;
    aiChanges := Think(w);
    Prepare(w);
    moved := Integrate(w);
    ledger := Trade(w);
    if w.tick % 3 == 0 {
      w.questsCompleted := U64(w.questsCompleted + 1);
    }
  }

  method TickStep(w: World) returns (out: TickResult)
    requires StepFits(w.Value())
    modifies w
    ensures w.Value() == Step(old(w.Value()))
    ensures out == Report(old(w.Value()))
    ensures out.checksum == Checksum.Of(w.Value()) && out.valid == old(w.valid)
  {
    hide Acted;
    hide Checksum.Of;
    hide Checksum.Castable;
    hide Report;
    hide ChangesTo;
    hide MovesTo;
    hide All;
    hide Economy.LedgerOf;
    ghost var s := w.Value();
    TickFacts(s);
    var aiChanges, moved, ledger := Act(w);
    ReportOf(s, aiChanges, moved, ledger);
    var captured := Capture(w);
    out := TickResult(w.tick, aiChanges, moved, ledger.produced, |w.events|, captured.checksum,
                      ledger.valid && w.valid && captured.tick == w.tick);
  }

  lemma ReportOf(s: State, aiChanges: nat, moved: nat, ledger: Economy.Ledger)
    requires var s0 := s.(tick := s.tick + 1);
      var s2 := All(Preparing, All(Thinking, s0));
      && aiChanges == ChangesTo(s0, |s0.entities|) && moved == MovesTo(s2, |s2.entities|)
      && ledger == Economy.LedgerOf(All(Moving, s2))
    ensures Report(s) == TickResult(s.tick + 1, aiChanges, moved, ledger.produced, |Acted(s).events|,
                                    Captured(Acted(s)).checksum, ledger.valid && s.valid)
    ensures ledger.valid
  {
    TickFacts(s);
    hide Sweep;
    hide ChangesTo;
    hide MovesTo;
  }

  lemma TickFacts(s: State)
    ensures Acted(s).tick == s.tick + 1 && Acted(s).valid == s.valid && Acted(s).events == Step(s).events
    ensures Captured(Acted(s)).checksum == Checksum.Of(Step(s)) && Captured(Acted(s)).tick == s.tick + 1
  {
    StepFrame(s);
    Runs.SnapshotOfStep(s);
    hide All;
  }
}
