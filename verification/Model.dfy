/** Compact-index simulation state shared by every Caldera module (the embedded module
    `model.rue`).  Numeric fields are natural numbers; where 64-bit width matters the
    modules that use them say so. */
module Model {
  import opened Metric

  /** The largest 64-bit value stands for "no index". */
  const NONE: nat := MAX64

  const WORKER := 1
  const SCOUT := 2
  const BUILDER := 3
  const GUARD := 4

  const PLAIN := 1
  const WALL := 2
  const WATER := 3
  const FOREST := 4

  datatype Entity = Entity(
    id: nat, kind: nat, faction: nat,
    x: int, y: int, previousX: int, previousY: int,
    velocityX: int, velocityY: int,
    health: nat, energy: nat, state: nat, goal: nat,
    inventory: nat, credits: nat, experience: nat,
    bornTick: nat, updatedTick: nat, alive: bool)

  datatype Tile = Tile(
    x: nat, y: nat, terrain: nat, height: nat,
    resource: nat, occupant: nat, region: nat,
    walkable: bool, visible: bool)

  datatype Event = Event(tick: nat, kind: nat, actor: nat, target: nat, value: nat, sequence: nat)

  datatype Command = Command(tick: nat, kind: nat, actor: nat, x: int, y: int, value: nat, accepted: bool)

  datatype Snapshot = Snapshot(tick: nat, entityCount: nat, eventCount: nat, commandCount: nat, checksum: nat)

  datatype Diagnostic = Diagnostic(code: nat, subject: nat, detail: nat)

  /** The whole value of a world. */
  datatype State = State(
    seed: nat, tick: nat, width: nat, height: nat,
    entities: seq<Entity>, tiles: seq<Tile>, events: seq<Event>,
    commands: seq<Command>, snapshots: seq<Snapshot>, diagnostics: seq<Diagnostic>,
    resources: nat, treasury: nat, questsCompleted: nat,
    scriptSteps: nat, rollbackCount: nat,
    nextEntity: nat, nextSequence: nat, valid: bool)

  function TileIndex(s: State, x: nat, y: nat): nat {
    if x >= s.width || y >= s.height then NONE else y * s.width + x
  }

  /** An index past the end of the tile list reads as the empty tile, which is walkable. */
  predicate Walkable(s: State, x: int, y: int) {
    if x < 0 || y < 0 then false
    else
      var index := TileIndex(s, x, y);
      index != NONE && (index < |s.tiles| ==> s.tiles[index].walkable)
  }
}
