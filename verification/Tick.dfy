/** One simulation tick as a function on world values (the embedded modules `ai.rue`,
    `physics.rue`, `economy.rue`, `snapshot.rue` and `tick.rue`).  Each phase sweeps over the
    entities in index order. */
module Tick {
  import opened Model
  import Checksum

  datatype Phase = Thinking | Preparing | Moving | Trading

  // ----- what one entity does in a phase -----

  function Choose(s: State, e: Entity): nat {
    if !e.alive then 0
    else if e.health < 35 then 5
    else if e.energy < 20 then 4
    else if e.kind == WORKER && s.resources > 0 then 1
    else if e.kind == SCOUT then 2
    else if e.kind == BUILDER && s.treasury >= 10 then 3
    else if e.kind == GUARD then 6
    else 7
  }

  function Direction(id: nat, tick: nat, axis: nat): int {
    var mode := (id * 17 + tick * 13 + axis * 7) % 5;
    if mode == 0 then -1 else if mode == 1 then 1 else 0
  }

  function Produced(e: Entity): nat {
    if !e.alive then 0 else if e.kind == WORKER then 3 else if e.kind == BUILDER then 1 else 0
  }

  function Consumed(e: Entity): nat {
    if !e.alive then 0 else if e.kind == GUARD then 2 else 1
  }

  function Transfer(e: Entity): nat {
    if e.alive && e.inventory + Produced(e) >= 8 then 4 else 0
  }

  function EntityAfter(p: Phase, s: State, e: Entity): Entity {
    if !e.alive then e
    else
      match p
      case Thinking =>
        var d := Choose(s, e);
        if d == e.state then e
        else
          e.(state := d, updatedTick := s.tick,
             goal := if d == 2 && |s.tiles| > 0 then (e.id + s.tick) % |s.tiles| else e.goal)
      case Preparing =>
        e.(previousX := e.x, previousY := e.y, updatedTick := s.tick,
           velocityX := Direction(e.id, s.tick, 0), velocityY := Direction(e.id, s.tick, 1))
      case Moving =>
        var (nx, ny) := (e.x + e.velocityX, e.y + e.velocityY);
        var allowed := Walkable(s, nx, ny);
        e.(x := if allowed then nx else e.x, y := if allowed then ny else e.y,
           energy := if e.energy > 0 then e.energy - 1 else 0,
           experience := e.experience + (if allowed then 1 else 0), updatedTick := s.tick)
      case Trading =>
        e.(inventory := e.inventory + Produced(e) - Transfer(e), credits := e.credits + Transfer(e) / 2,
           updatedTick := s.tick)
  }

  /** The event an entity leaves in a phase, if any. */
  function EventsOf(p: Phase, s: State, e: Entity): seq<Event> {
    if !e.alive then []
    else
      match p
      case Thinking =>
        var d := Choose(s, e);
        if d == e.state then [] else [Event(s.tick, 10 + d, e.id, e.goal, d, s.nextSequence)]
      case Moving =>
        if Walkable(s, e.x + e.velocityX, e.y + e.velocityY) then []
        else [Event(s.tick, 2, e.id, NONE, 1, s.nextSequence)]
      case _ => []
  }

  predicate Affords(s: State, e: Entity) {
    s.resources + Produced(e) >= Consumed(e) + Transfer(e)
  }

  /** Entity `i` takes its turn in phase `p`. */
  function Turn(p: Phase, s: State, i: nat): State
    requires i < |s.entities|
  {
    var e := s.entities[i];
    var left := EventsOf(p, s, e);
    var s' := s.(entities := s.entities[i := EntityAfter(p, s, e)],
                 events := s.events + left, nextSequence := s.nextSequence + |left|);
    if p != Trading then s'
    else if Affords(s, e) then
      s'.(resources := s.resources + Produced(e) - Consumed(e) - Transfer(e), treasury := s.treasury + Transfer(e))
    else
      s'.(resources := s.resources + Produced(e))
  }

  /** The world after the first `k` entities have taken their turns. */
  function Sweep(p: Phase, s: State, k: nat): (r: State)
    ensures |r.entities| == |s.entities|
  {
    if k == 0 then s
    else
      var s' := Sweep(p, s, k - 1);
      if k - 1 < |s.entities| then Turn(p, s', k - 1) else s'
  }

  function All(p: Phase, s: State): State {
    Sweep(p, s, |s.entities|)
  }

  // ----- one tick -----

  function Captured(s: State): Snapshot {
    Snapshot(s.tick, |s.entities|, |s.events|, |s.commands|, Checksum.Of(s))
  }

  /** Everything a tick does before the snapshot is taken. */
  function Acted(s: State): State {
    var s4 := All(Trading, All(Moving, All(Preparing, All(Thinking, s.(tick := s.tick + 1)))));
    if s4.tick % 3 == 0 then s4.(questsCompleted := s4.questsCompleted + 1) else s4
  }

  function Step(s: State): State {
    var s' := Acted(s);
    s'.(snapshots := s'.snapshots + [Captured(s')])
  }

  /** A run of `n` ticks. */
  function Run(s: State, n: nat): State {
    if n == 0 then s else Step(Run(s, n - 1))
  }

  // ----- what a sweep does, entity by entity -----

  /** The parts of a world that no turn touches. */
  ghost predicate SameGround(a: State, b: State) {
    b == a.(entities := b.entities, events := b.events, nextSequence := b.nextSequence,
            resources := b.resources, treasury := b.treasury)
  }

  /** What a turn writes. */
  lemma TurnShape(p: Phase, s: State, i: nat)
    requires i < |s.entities|
    ensures var (r, e) := (Turn(p, s, i), s.entities[i]);
      && SameGround(s, r) && (p != Trading ==> r.resources == s.resources && r.treasury == s.treasury)
      && r.entities == s.entities[i := EntityAfter(p, s, e)] && r.events == s.events + EventsOf(p, s, e)
  {
    hide EntityAfter;
    hide EventsOf;
    hide Affords;
  }

  lemma SameGroundChain(a: State, b: State, c: State)
    requires SameGround(a, b) && SameGround(b, c)
    ensures SameGround(a, c)
  {
  }

  /** One more turn of a sweep. */
  lemma NextTurn(p: Phase, s: State, k: nat)
    requires 0 < k <= |s.entities|
    ensures Sweep(p, s, k) == Turn(p, Sweep(p, s, k - 1), k - 1)
  {
    hide Turn;
  }

  lemma {:induction false} SweepFrame(p: Phase, s: State, k: nat)
    ensures SameGround(s, Sweep(p, s, k))
    ensures p != Trading ==> Sweep(p, s, k).resources == s.resources && Sweep(p, s, k).treasury == s.treasury
  {
    hide Turn;
    if k > 0 {
      SweepFrame(p, s, k - 1);
      if k <= |s.entities| {
        var before, after := Sweep(p, s, k - 1), Sweep(p, s, k);
        NextTurn(p, s, k);
        TurnShape(p, before, k - 1);
        SameGroundChain(s, before, after);
      }
    }
  }

  /** An entity's turn does not depend on the turns before it in the same sweep. */
  lemma {:induction false} SweepEntities(p: Phase, s: State, k: nat)
    requires k <= |s.entities|
    ensures forall i :: 0 <= i < |s.entities| ==>
      Sweep(p, s, k).entities[i] == if i < k then EntityAfter(p, s, s.entities[i]) else s.entities[i]
  {
    hide EntityAfter;
    hide Turn;
    hide SameGround;
    if k > 0 {
      SweepEntities(p, s, k - 1);
      SweepFrame(p, s, k - 1);
      NextTurn(p, s, k);
      hide Sweep;
      var before := Sweep(p, s, k - 1);
      TurnDependsOnGround(p, s, before, s.entities[k - 1]);
      TurnShape(p, before, k - 1);
    }
  }

  lemma TurnDependsOnGround(p: Phase, a: State, b: State, e: Entity)
    requires SameGround(a, b) && (p != Trading ==> a.resources == b.resources && a.treasury == b.treasury)
    ensures EntityAfter(p, a, e) == EntityAfter(p, b, e)
  {
  }

  /** One tick, seen by one entity. */
  function EntityStep(s: State, e: Entity): Entity {
    var s' := s.(tick := s.tick + 1);
    EntityAfter(Trading, s', EntityAfter(Moving, s', EntityAfter(Preparing, s', EntityAfter(Thinking, s', e))))
  }

  lemma StepEntities(s: State, i: nat)
    requires i < |s.entities|
    ensures |Step(s).entities| == |s.entities|
    ensures Step(s).entities[i] == EntityStep(s, s.entities[i])
  {
    hide EntityAfter;
    hide Turn;
    var s0 := s.(tick := s.tick + 1);
    var s1 := All(Thinking, s0);
    var s2 := All(Preparing, s1);
    var s3 := All(Moving, s2);
    SweepEntities(Thinking, s0, |s.entities|);
    SweepEntities(Preparing, s1, |s.entities|);
    SweepEntities(Moving, s2, |s.entities|);
    SweepEntities(Trading, s3, |s.entities|);
    SweepFrame(Thinking, s0, |s.entities|);
    SweepFrame(Preparing, s1, |s.entities|);
    SweepFrame(Moving, s2, |s.entities|);
    TurnDependsOnGround(Preparing, s0, s1, s1.entities[i]);
    TurnDependsOnGround(Moving, s0, s2, s2.entities[i]);
    TurnDependsOnGround(Trading, s0, s3, s3.entities[i]);
  }

  lemma StepFrame(s: State)
    ensures var s' := Step(s);
      s' == s.(tick := s.tick + 1, entities := s'.entities, events := s'.events, nextSequence := s'.nextSequence,
               resources := s'.resources, treasury := s'.treasury, questsCompleted := s'.questsCompleted,
               snapshots := s.snapshots + [Captured(Acted(s))])
    ensures |Step(s).entities| == |s.entities|
  {
    hide Turn;
    hide Captured;
    var s0 := s.(tick := s.tick + 1);
    var s1 := All(Thinking, s0);
    var s2 := All(Preparing, s1);
    var s3 := All(Moving, s2);
    SweepFrame(Thinking, s0, |s.entities|);
    SweepFrame(Preparing, s1, |s.entities|);
    SweepFrame(Moving, s2, |s.entities|);
    SweepFrame(Trading, s3, |s.entities|);
  }
}
