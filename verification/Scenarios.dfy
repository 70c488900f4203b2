/** Parsed scenario declarations (the embedded module `scenario_model.rue`). */
module Scenarios {

  datatype EntitySpec = EntitySpec(kind: nat, faction: nat, x: nat, y: nat)

  datatype TileSpec = TileSpec(x: nat, y: nat, terrain: nat)

  datatype Scenario = Scenario(
    width: nat, height: nat, ticks: nat,
    entities: seq<EntitySpec>, tiles: seq<TileSpec>,
    expectedEntities: nat, errors: nat, valid: bool)

  const DEFAULT := Scenario(8, 8, 4, [], [], 0, 0, true)
}
