/** World generation: terrain, tiles and entities (the embedded module `worldgen.rue`).  What the
    searches, the scheduler, the simulation and the audits demand of a world is proved of every
    world generated here. */
module Worldgen {
  import opened Metric
  import opened Model
  import opened Scenarios
  import opened Paths
  import opened World

  const SEED := 0xCADA1078

  // ----- the generated world as a function -----

  function Terrain(seed: nat, x: nat, y: nat): nat {
    var value := Xor(Xor(seed, x + 17), (y + 31) * 97 % TWO64) * PRIME % TWO64;
    if value % 23 == 0 then WATER else if value % 17 == 0 then FOREST else PLAIN
  }

  predicate Passable(terrain: nat) {
    terrain != WATER && terrain != WALL
  }

  function Height(seed: nat, x: nat, y: nat): nat {
    (x * 7 + y * 11 + seed) % 19
  }

  function Resource(seed: nat, x: nat, y: nat): nat {
    (x * 13 + y * 5 + seed) % 29
  }

  function Region(x: nat, y: nat): nat {
    x / 4 + y / 4 * 8
  }

  function FreshTile(seed: nat, x: nat, y: nat): Tile {
    var kind := Terrain(seed, x, y);
    Tile(x, y, kind, Height(seed, x, y), Resource(seed, x, y), NONE, Region(x, y), Passable(kind), false)
  }

  function Row(seed: nat, y: nat, n: nat): seq<Tile> {
    if n == 0 then [] else Row(seed, y, n - 1) + [FreshTile(seed, n - 1, y)]
  }

  function Rows(seed: nat, width: nat, n: nat): seq<Tile> {
    if n == 0 then [] else Rows(seed, width, n - 1) + Row(seed, n - 1, width)
  }

  function Ground(seed: nat, width: nat, height: nat): State {
    State(seed, 0, width, height, [], Rows(seed, width, height), [], [], [], [], 0, 0, 0, 0, 0, 1, 1, true)
  }

  function FreshEntity(s: State, kind: nat, faction: nat, x: nat, y: nat): Entity {
    Entity(s.nextEntity, kind, faction, x, y, x, y, 0, 0, 100, 100, 1, NONE, kind * 2, 10 + faction * 3, 0,
           s.tick, s.tick, true)
  }

  function Occupied(s: State, x: nat, y: nat, id: nat): seq<Tile> {
    var index := TileIndex(s, x, y);
    if index < |s.tiles| then s.tiles[index := s.tiles[index].(occupant := id, visible := true)] else s.tiles
  }

  function Arrived(s: State, kind: nat, faction: nat, x: nat, y: nat): State {
    s.(nextEntity := s.nextEntity + 1, entities := s.entities + [FreshEntity(s, kind, faction, x, y)],
       tiles := Occupied(s, x, y, s.nextEntity))
  }

  function Diagnosed(s: State, code: nat, subject: nat, detail: nat): State {
    s.(diagnostics := s.diagnostics + [Diagnostic(code, subject, detail)], valid := false)
  }

  function Painted(s: State, spec: TileSpec, i: nat): State {
    var index := TileIndex(s, spec.x, spec.y);
    if index == NONE then Diagnosed(s, 1001, i, 1)
    else if index < |s.tiles| then
      s.(tiles := s.tiles[index := s.tiles[index].(terrain := spec.terrain, walkable := Passable(spec.terrain))])
    else s
  }

  function Placed(s: State, spec: EntitySpec, i: nat): State {
    if spec.x >= s.width || spec.y >= s.height then Diagnosed(s, 1002, i, 2)
    else Arrived(s, spec.kind, spec.faction, spec.x, spec.y)
  }

  function PaintedBy(s: State, specs: seq<TileSpec>, k: nat): State
    requires k <= |specs|
  {
    if k == 0 then s else Painted(PaintedBy(s, specs, k - 1), specs[k - 1], k - 1)
  }

  function PlacedBy(s: State, specs: seq<EntitySpec>, k: nat): State
    requires k <= |specs|
  {
    if k == 0 then s else Placed(PlacedBy(s, specs, k - 1), specs[k - 1], k - 1)
  }

  /** The world of a scenario. */
  function Generate(input: Scenario): State {
    var s := PaintedBy(Ground(SEED, input.width, input.height), input.tiles, |input.tiles|);
    PlacedBy(s, input.entities, |input.entities|).(
      resources := |input.entities| * 50, treasury := |input.entities| * 25)
  }

  function DemoSize(scale: nat): nat {
    8 + scale * 2
  }

  function DemoSpec(scale: nat, i: nat): EntitySpec {
    EntitySpec(i % 4 + 1, i % 3 + 1, 1 + i * 3 % (DemoSize(scale) - 2), 1 + i * 5 % (DemoSize(scale) - 2))
  }

  function DemoPlaced(scale: nat, k: nat): State {
    if k == 0 then Ground(SEED + scale, DemoSize(scale), DemoSize(scale))
    else
      var spec := DemoSpec(scale, k - 1);
      Arrived(DemoPlaced(scale, k - 1), spec.kind, spec.faction, spec.x, spec.y)
  }

  /** The demonstration world. */
  function DemoWorld(scale: nat): State {
    DemoPlaced(scale, 8 * scale).(resources := 400 * scale, treasury := 250 * scale)
  }

  // ----- where generation traps -----

  /** The sums of the last cell fit, and so do those of every other cell. */
  predicate GroundFits(seed: nat, width: nat, height: nat) {
    width > 0 && height > 0 ==>
      (width - 1) * 13 + (height - 1) * 5 + seed < TWO64 && (width - 1) * 7 + (height - 1) * 11 + seed < TWO64
  }

  /** The sums of a new entity fit. */
  predicate SettlerFits(kind: nat, faction: nat) {
    kind * 2 < TWO64 && 10 + faction * 3 < TWO64
  }

  /** A world of 2^64 - 1 tiles or more cannot be allocated. */
  predicate Allocatable(width: nat, height: nat) {
    width * height < NONE
  }

  /** Generating the world of a scenario does not trap. */
  predicate WorldFits(input: Scenario) {
    && Allocatable(input.width, input.height) && GroundFits(SEED, input.width, input.height)
    && |input.entities| * 50 < TWO64
    && forall i :: 0 <= i < |input.entities| && EntityInGrid(input.entities[i], input.width, input.height) ==>
         SettlerFits(input.entities[i].kind, input.entities[i].faction)
  }

  predicate DemoFits(scale: nat) {
    Allocatable(DemoSize(scale), DemoSize(scale)) && 400 * scale < TWO64
  }

  lemma CellFits(seed: nat, width: nat, height: nat, x: nat, y: nat)
    requires GroundFits(seed, width, height) && x < width && y < height
    ensures x * 7 + y * 11 + seed < TWO64 && x * 13 + y * 5 + seed < TWO64
    ensures x + 17 < TWO64 && y + 31 < TWO64 && x < TWO63 && y < TWO63
  {
  }

  // ----- generation in place -----

  method MakeTile(seed: nat, x: nat, y: nat) returns (t: Tile)
    requires x * 7 + y * 11 + seed < TWO64 && x * 13 + y * 5 + seed < TWO64
    requires x + 17 < TWO64 && y + 31 < TWO64
    ensures t == FreshTile(seed, x, y)
  {
    hide Xor;
    var value := Xor(Xor(seed, U64(x + 17)), U64(y + 31) * 97 % TWO64) * PRIME % TWO64;
    var kind := if value % 23 == 0 then WATER else if value % 17 == 0 then FOREST else PLAIN;
    t := Tile(x, y, kind, U64(x * 7 + y * 11 + seed) % 19, U64(x * 13 + y * 5 + seed) % 29, NONE,
              x / 4 + y / 4 * 8, kind != WATER && kind != WALL, false);
  }

  method AddTiles(w: World)
    requires w.tiles == [] && GroundFits(w.seed, w.width, w.height)
    modifies w`tiles
    ensures w.tiles == Rows(w.seed, w.width, w.height)
  {
    hide FreshTile;
    var y := 0;
    while y < w.height
      invariant y <= w.height && w.tiles == Rows(w.seed, w.width, y)
    {
      var x := 0;
      while x < w.width
        invariant x <= w.width && w.tiles == Rows(w.seed, w.width, y) + Row(w.seed, y, x)
      {
        CellFits(w.seed, w.width, w.height, x, y);
        var tile := MakeTile(w.seed, x, y);
        w.tiles := w.tiles + [tile];
        x := x + 1;
      }
      y := y + 1;
    }
  }

  /** A new world with its tiles. */
  method NewGround(seed: nat, width: nat, height: nat) returns (w: World)
    requires Allocatable(width, height) && GroundFits(seed, width, height)
    ensures fresh(w) && w.Value() == Ground(seed, width, height) && Laid(w.Value())
  {
    hide Laid;
    hide Rows;
    w := new World(seed, width, height);
    AddTiles(w);
    GroundIsLaid(seed, width, height);
  }

  method MakeEntity(w: World, id: nat, kind: nat, faction: nat, x: nat, y: nat) returns (e: Entity)
    requires SettlerFits(kind, faction) && x < TWO63 && y < TWO63
    ensures e == FreshEntity(w.Value().(nextEntity := id), kind, faction, x, y)
  {
    var (px, py) := (I64(x), I64(y));
    e := Entity(id, kind, faction, px, py, px, py, 0, 0, 100, 100, 1, NONE,
                U64(kind * 2), U64(10 + U64(faction * 3)), 0, w.tick, w.tick, true);
  }

  method AddEntity(w: World, kind: nat, faction: nat, x: nat, y: nat) returns (id: nat)
    requires Laid(w.Value()) && x < TWO63 && y < TWO63
    requires SettlerFits(kind, faction) && w.nextEntity + 1 < TWO64
    modifies w
    ensures w.Value() == Arrived(old(w.Value()), kind, faction, x, y) && id == old(w.nextEntity)
  {
    hide Laid;
    InBounds(w.Value(), x, y);
    id := w.nextEntity;
    w.nextEntity := U64(w.nextEntity + 1);
    var entity := MakeEntity(w, id, kind, faction, x, y);
    w.entities := w.entities + [entity];
    var tile := TileIndex(w.Value(), x, y);
    if tile != NONE {
      var current := w.tiles[tile];
      w.tiles := w.tiles[tile := current.(occupant := id, visible := true)];
    }
  }

  lemma ArrivedCounts(s: State, kind: nat, faction: nat, x: nat, y: nat)
    ensures Arrived(s, kind, faction, x, y).nextEntity == s.nextEntity + 1
  {
  }

  method MakeDemoSpec(scale: nat, i: nat) returns (spec: EntitySpec)
    requires i < 8 * scale && 400 * scale < TWO64
    ensures spec == DemoSpec(scale, i) && SettlerFits(spec.kind, spec.faction) && spec.x < TWO63 && spec.y < TWO63
  {
    var size := 8 + scale * 2;
    var x := 1 + U64(i * 3) % (size - 2);
    var y := 1 + U64(i * 5) % (size - 2);
    spec := EntitySpec(i % 4 + 1, i % 3 + 1, x, y);
  }

  lemma SquareGrows(n: nat)
    ensures n >= 8 ==> n * n >= 8 * n
  {
  }

  lemma DemoBounds(scale: nat)
    requires DemoFits(scale)
    ensures DemoSize(scale) == 8 + scale * 2 && Allocatable(DemoSize(scale), DemoSize(scale))
    ensures GroundFits(SEED + scale, DemoSize(scale), DemoSize(scale))
    ensures 400 * scale < TWO64 - 400
  {
    SquareGrows(DemoSize(scale));
  }

  /** The `k`-th placement, and what a placement may not change. */
  lemma NextPlaced(scale: nat, k: nat)
    requires Laid(DemoPlaced(scale, k))
    ensures var (s, spec) := (DemoPlaced(scale, k), DemoSpec(scale, k));
      && DemoPlaced(scale, k + 1) == Arrived(s, spec.kind, spec.faction, spec.x, spec.y)
      && Laid(DemoPlaced(scale, k + 1)) && DemoPlaced(scale, k + 1).nextEntity == s.nextEntity + 1
  {
    hide Laid;
    hide DemoSpec;
    var (s, spec) := (DemoPlaced(scale, k), DemoSpec(scale, k));
    ArrivedCounts(s, spec.kind, spec.faction, spec.x, spec.y);
    ArrivedIsLaid(s, spec.kind, spec.faction, spec.x, spec.y);
  }

  /** Places the entities of the demonstration one after the other. */
  method PlaceDemo(w: World, scale: nat)
    requires w.Value() == DemoPlaced(scale, 0) && Laid(w.Value()) && 400 * scale < TWO64 - 400
    modifies w
    ensures w.Value() == DemoPlaced(scale, 8 * scale)
  {
    hide Arrived;
    hide Laid;
    hide DemoSpec;
    assert w.nextEntity == 1;
    hide DemoPlaced;
    var i := 0;
    while i < U64(8 * scale)
      invariant i <= 8 * scale && w.Value() == DemoPlaced(scale, i)
      invariant Laid(w.Value()) && w.nextEntity == i + 1
    {
      var spec := MakeDemoSpec(scale, i);
      NextPlaced(scale, i);
      var _ := AddEntity(w, spec.kind, spec.faction, spec.x, spec.y);
      i := i + 1;
    }
  }

  lemma DemoStarts(scale: nat)
    ensures DemoPlaced(scale, 0) == Ground(SEED + scale, DemoSize(scale), DemoSize(scale))
  {
  }

  method Demo(scale: nat) returns (w: World)
    requires DemoFits(scale)
    ensures fresh(w) && w.Value() == DemoWorld(scale)
  {
    hide DemoSize;
    hide DemoPlaced;
    hide Ground;
    DemoStarts(scale);
    hide DemoFits;
    hide Allocatable;
    hide GroundFits;
    DemoBounds(scale);
    hide Laid;
    hide Rows;
    var size := U64(8 + scale * 2);
    w := NewGround(U64(SEED + scale), size, size);
    PlaceDemo(w, scale);
    w.resources := U64(400 * scale);
    w.treasury := U64(250 * scale);
  }

  method Paint(w: World, spec: TileSpec, i: nat)
    requires Laid(w.Value())
    modifies w
    ensures w.Value() == Painted(old(w.Value()), spec, i)
  {
    hide Laid;
    hide Passable;
    InBounds(w.Value(), spec.x, spec.y);
    var index := TileIndex(w.Value(), spec.x, spec.y);
    if index == NONE {
      w.AddDiagnostic(1001, i, 1);
    } else {
      var was := w.tiles[index];
      w.tiles := w.tiles[index := was.(terrain := spec.terrain, walkable := Passable(spec.terrain))];
    }
  }

  method Place(w: World, spec: EntitySpec, i: nat)
    requires Laid(w.Value())
    requires EntityInGrid(spec, w.width, w.height) ==>
      SettlerFits(spec.kind, spec.faction) && spec.x < TWO63 && spec.y < TWO63 && w.nextEntity + 1 < TWO64
    modifies w
    ensures w.Value() == Placed(old(w.Value()), spec, i)
  {
    hide Arrived;
    hide Laid;
    if spec.x >= w.width || spec.y >= w.height {
      w.AddDiagnostic(1002, i, 2);
    } else {
      var _ := AddEntity(w, spec.kind, spec.faction, spec.x, spec.y);
    }
  }

  method PaintAll(w: World, specs: seq<TileSpec>)
    requires Laid(w.Value())
    modifies w
    ensures w.Value() == PaintedBy(old(w.Value()), specs, |specs|) && Laid(w.Value())
  {
    hide Laid;
    hide Painted;
    var i := 0;
    while i < |specs|
      invariant i <= |specs| && Laid(w.Value())
      invariant w.Value() == PaintedBy(old(w.Value()), specs, i)
    {
      PaintedIsLaid(w.Value(), specs[i], i);
      Paint(w, specs[i], i);
      i := i + 1;
    }
  }

  lemma PlacedCounts(s: State, spec: EntitySpec, i: nat)
    ensures Placed(s, spec, i).nextEntity <= s.nextEntity + 1
    ensures Placed(s, spec, i).width == s.width && Placed(s, spec, i).height == s.height
  {
  }

  method PlaceAll(w: World, specs: seq<EntitySpec>)
    requires Laid(w.Value()) && w.nextEntity + |specs| < TWO64
    requires forall i :: 0 <= i < |specs| && EntityInGrid(specs[i], w.width, w.height) ==>
      SettlerFits(specs[i].kind, specs[i].faction) && specs[i].x < TWO63 && specs[i].y < TWO63
    modifies w
    ensures w.Value() == PlacedBy(old(w.Value()), specs, |specs|) && Laid(w.Value())
  {
    hide Laid;
    hide Placed;
    var i := 0;
    while i < |specs|
      invariant i <= |specs| && Laid(w.Value()) && w.nextEntity <= old(w.nextEntity) + i
      invariant w.width == old(w.width) && w.height == old(w.height)
      invariant w.Value() == PlacedBy(old(w.Value()), specs, i)
    {
      PlacedCounts(w.Value(), specs[i], i);
      PlacedIsLaid(w.Value(), specs[i], i);
      Place(w, specs[i], i);
      i := i + 1;
    }
  }

  lemma {:induction false} PaintedCounts(s: State, specs: seq<TileSpec>, k: nat)
    requires k <= |specs|
    ensures var r := PaintedBy(s, specs, k);
      r.nextEntity == s.nextEntity && r.seed == s.seed && r.width == s.width && r.height == s.height
  {
    hide TileIndex;
    if k > 0 {
      PaintedCounts(s, specs, k - 1);
    }
  }

  lemma {:induction false} PlacedShape(s: State, specs: seq<EntitySpec>, k: nat)
    requires k <= |specs|
    ensures var r := PlacedBy(s, specs, k);
      r.seed == s.seed && r.width == s.width && r.height == s.height
  {
    hide Occupied;
    if k > 0 {
      PlacedShape(s, specs, k - 1);
    }
  }

  lemma GeneratedShape(input: Scenario)
    ensures var s := Generate(input);
      && s.seed == SEED && s.width == input.width && s.height == input.height
      && s.resources == 50 * |input.entities| && s.treasury == 25 * |input.entities|
  {
    hide PaintedBy;
    hide PlacedBy;
    var ground := Ground(SEED, input.width, input.height);
    PaintedCounts(ground, input.tiles, |input.tiles|);
    PlacedShape(PaintedBy(ground, input.tiles, |input.tiles|), input.entities, |input.entities|);
  }

  lemma PlacesFit(input: Scenario)
    requires WorldFits(input)
    ensures Allocatable(input.width, input.height) && GroundFits(SEED, input.width, input.height)
    ensures |input.entities| * 50 < TWO64
    ensures forall i :: 0 <= i < |input.entities| && EntityInGrid(input.entities[i], input.width, input.height) ==>
      SettlerFits(input.entities[i].kind, input.entities[i].faction)
      && input.entities[i].x < TWO63 && input.entities[i].y < TWO63
  {
    hide SettlerFits;
  }

  lemma PaintedIsSized(input: Scenario)
    ensures var r := PaintedBy(Ground(SEED, input.width, input.height), input.tiles, |input.tiles|);
      r.nextEntity == 1 && r.width == input.width && r.height == input.height
  {
    PaintedCounts(Ground(SEED, input.width, input.height), input.tiles, |input.tiles|);
  }

  method FromScenario(input: Scenario) returns (w: World)
    requires WorldFits(input)
    ensures fresh(w) && w.Value() == Generate(input)
  {
    hide WorldFits;
    hide Allocatable;
    hide GroundFits;
    hide SettlerFits;
    hide EntityInGrid;
    PlacesFit(input);
    hide Rows;
    hide Laid;
    hide PaintedBy;
    hide PlacedBy;
    w := NewGround(SEED, input.width, input.height);
    PaintedIsSized(input);
    hide Ground;
    PaintAll(w, input.tiles);
    PlaceAll(w, input.entities);
    w.resources := U64(|input.entities| * 50);
    w.treasury := U64(|input.entities| * 25);
  }

  // ----- tiles -----

  /** Row-major, and passable exactly where the terrain is. */
  ghost predicate Laid(s: State) {
    RowMajor(s) && forall i :: 0 <= i < |s.tiles| ==> (s.tiles[i].walkable <==> Passable(s.tiles[i].terrain))
  }

  lemma InBounds(s: State, x: nat, y: nat)
    requires Laid(s)
    ensures |s.tiles| < NONE
    ensures var index := TileIndex(s, x, y);
      (index == NONE <==> x >= s.width || y >= s.height) && (index != NONE ==> index < |s.tiles|)
  {
    if x < s.width && y < s.height {
      TileAt(s, x, y);
    }
  }

  lemma {:induction false} RowAt(seed: nat, y: nat, n: nat)
    ensures |Row(seed, y, n)| == n
    ensures forall x :: 0 <= x < n ==> Row(seed, y, n)[x] == FreshTile(seed, x, y)
  {
    hide FreshTile;
    if n > 0 {
      RowAt(seed, y, n - 1);
    }
  }

  ghost predicate TileOk(t: Tile, i: int, seed: nat, width: nat, n: nat) {
    t.x < width && t.y < n && i == t.y * width + t.x && t == FreshTile(seed, t.x, t.y)
  }

  lemma {:induction false} RowsAt(seed: nat, width: nat, n: nat)
    ensures |Rows(seed, width, n)| == n * width
    ensures forall i :: 0 <= i < |Rows(seed, width, n)| ==> TileOk(Rows(seed, width, n)[i], i, seed, width, n)
  {
    hide Terrain;
    if n > 0 {
      RowsAt(seed, width, n - 1);
      RowAt(seed, n - 1, width);
      assert (n - 1) * width + width == n * width;
    }
  }

  lemma GroundIsLaid(seed: nat, width: nat, height: nat)
    requires width * height < NONE
    ensures Laid(Ground(seed, width, height))
  {
    hide Terrain;
    RowsAt(seed, width, height);
    var s := Ground(seed, width, height);
    forall i | 0 <= i < |s.tiles|
      ensures s.tiles[i].x < width && s.tiles[i].y < height && i == s.tiles[i].y * width + s.tiles[i].x
      ensures s.tiles[i].walkable <==> Passable(s.tiles[i].terrain)
    {
      assert TileOk(s.tiles[i], i, seed, width, height);
    }
  }

  lemma PaintedIsLaid(s: State, spec: TileSpec, i: nat)
    requires Laid(s)
    ensures Laid(Painted(s, spec, i))
  {
    hide Passable;
    hide TileIndex;
  }

  lemma ArrivedIsLaid(s: State, kind: nat, faction: nat, x: nat, y: nat)
    requires Laid(s)
    ensures Laid(Arrived(s, kind, faction, x, y))
  {
    hide Passable;
    hide TileIndex;
  }

  lemma PlacedIsLaid(s: State, spec: EntitySpec, i: nat)
    requires Laid(s)
    ensures Laid(Placed(s, spec, i))
  {
    hide Laid;
    hide Arrived;
    ArrivedIsLaid(s, spec.kind, spec.faction, spec.x, spec.y);
    if spec.x >= s.width || spec.y >= s.height {
      DiagnosedIsLaid(s, 1002, i, 2);
    }
  }

  lemma DiagnosedIsLaid(s: State, code: nat, subject: nat, detail: nat)
    requires Laid(s)
    ensures Laid(Diagnosed(s, code, subject, detail))
  {
  }

  // ----- what is true of every generated world -----

  ghost predicate Settler(s: State, i: nat)
    requires i < |s.entities|
  {
    var e := s.entities[i];
    && e.id == i + 1 && e.alive && e.energy == 100 && e.health == 100
    && 0 <= e.x < s.width && 0 <= e.y < s.height && e.velocityX == 0 && e.velocityY == 0
    && e.bornTick == 0 && e.inventory == e.kind * 2 && e.credits == 10 + e.faction * 3
    && e.experience == 0 && e.state == 1 && e.goal == NONE
  }

  /** A world before its first tick: entities numbered from 1 stand, alive and rested, inside the
      grid; nothing has happened yet; and the world is valid exactly while nothing is diagnosed. */
  ghost predicate Newborn(s: State) {
    && s.tick == 0 && s.events == [] && s.commands == [] && s.snapshots == [] && s.nextSequence == 1
    && s.questsCompleted == 0 && s.rollbackCount == 0
    && s.nextEntity == |s.entities| + 1
    && (s.valid <==> s.diagnostics == [])
    && forall i :: 0 <= i < |s.entities| ==> Settler(s, i)
  }

  lemma PaintedIsNewborn(s: State, spec: TileSpec, i: nat)
    requires Newborn(s)
    ensures Newborn(Painted(s, spec, i)) && Painted(s, spec, i).entities == s.entities
  {
    hide Passable;
    hide TileIndex;
    var s' := Painted(s, spec, i);
    forall k | 0 <= k < |s'.entities| ensures Settler(s', k) {
      assert Settler(s, k);
    }
  }

  lemma ArrivedIsNewborn(s: State, kind: nat, faction: nat, x: nat, y: nat)
    requires Newborn(s) && x < s.width && y < s.height
    ensures Newborn(Arrived(s, kind, faction, x, y))
  {
    hide Occupied;
    var s' := Arrived(s, kind, faction, x, y);
    forall k | 0 <= k < |s'.entities| ensures Settler(s', k) {
      if k < |s.entities| {
        assert Settler(s, k);
      }
    }
  }

  lemma PlacedIsNewborn(s: State, spec: EntitySpec, i: nat)
    requires Newborn(s)
    ensures Newborn(Placed(s, spec, i))
  {
    hide Arrived;
    var s' := Placed(s, spec, i);
    if spec.x < s.width && spec.y < s.height {
      ArrivedIsNewborn(s, spec.kind, spec.faction, spec.x, spec.y);
    } else {
      forall k | 0 <= k < |s'.entities| ensures Settler(s', k) {
        assert Settler(s, k);
      }
    }
  }

  lemma {:induction false} PaintedByIsNewborn(s: State, specs: seq<TileSpec>, k: nat)
    requires k <= |specs| && Laid(s) && Newborn(s)
    ensures Laid(PaintedBy(s, specs, k)) && Newborn(PaintedBy(s, specs, k))
  {
    hide Laid;
    hide Newborn;
    hide Painted;
    if k > 0 {
      PaintedByIsNewborn(s, specs, k - 1);
      PaintedIsLaid(PaintedBy(s, specs, k - 1), specs[k - 1], k - 1);
      PaintedIsNewborn(PaintedBy(s, specs, k - 1), specs[k - 1], k - 1);
    }
  }

  lemma {:induction false} PlacedByIsNewborn(s: State, specs: seq<EntitySpec>, k: nat)
    requires k <= |specs| && Laid(s) && Newborn(s)
    ensures Laid(PlacedBy(s, specs, k)) && Newborn(PlacedBy(s, specs, k))
  {
    hide Laid;
    hide Newborn;
    hide Placed;
    if k > 0 {
      PlacedByIsNewborn(s, specs, k - 1);
      PlacedIsLaid(PlacedBy(s, specs, k - 1), specs[k - 1], k - 1);
      PlacedIsNewborn(PlacedBy(s, specs, k - 1), specs[k - 1], k - 1);
    }
  }

  lemma GroundIsNewborn(seed: nat, width: nat, height: nat)
    ensures Newborn(Ground(seed, width, height))
  {
    hide Rows;
  }

  /** Every scenario gives a well-laid newborn world. */
  lemma GeneratedIsNewborn(input: Scenario)
    requires input.width * input.height < NONE
    ensures Laid(Generate(input)) && Newborn(Generate(input))
  {
    hide PaintedBy;
    hide PlacedBy;
    hide Ground;
    var ground := Ground(SEED, input.width, input.height);
    GroundIsLaid(SEED, input.width, input.height);
    GroundIsNewborn(SEED, input.width, input.height);
    PaintedByIsNewborn(ground, input.tiles, |input.tiles|);
    var s := PaintedBy(ground, input.tiles, |input.tiles|);
    PlacedByIsNewborn(s, input.entities, |input.entities|);
    var s' := PlacedBy(s, input.entities, |input.entities|);
    FundsDoNotMatter(s', |input.entities| * 50, |input.entities| * 25);
  }

  lemma FundsDoNotMatter(s: State, resources: nat, treasury: nat)
    requires Laid(s) && Newborn(s)
    ensures Laid(s.(resources := resources, treasury := treasury))
    ensures Newborn(s.(resources := resources, treasury := treasury))
  {
    var s' := s.(resources := resources, treasury := treasury);
    forall k | 0 <= k < |s'.entities| ensures Settler(s', k) {
      assert Settler(s, k);
    }
  }

  lemma {:induction false} DemoPlacedIsNewborn(scale: nat, k: nat)
    requires DemoSize(scale) * DemoSize(scale) < NONE
    ensures Laid(DemoPlaced(scale, k)) && Newborn(DemoPlaced(scale, k))
    ensures var s := DemoPlaced(scale, k);
      |s.entities| == k && s.width == s.height == DemoSize(scale) && s.diagnostics == []
  {
    hide Laid;
    hide Newborn;
    hide Arrived;
    hide Rows;
    if k == 0 {
      GroundIsLaid(SEED + scale, DemoSize(scale), DemoSize(scale));
      GroundIsNewborn(SEED + scale, DemoSize(scale), DemoSize(scale));
    } else {
      DemoPlacedIsNewborn(scale, k - 1);
      var (s, spec) := (DemoPlaced(scale, k - 1), DemoSpec(scale, k - 1));
      ArrivedIsLaid(s, spec.kind, spec.faction, spec.x, spec.y);
      ArrivedIsNewborn(s, spec.kind, spec.faction, spec.x, spec.y);
      ArrivedKeeps(s, spec.kind, spec.faction, spec.x, spec.y);
    }
  }

  lemma ArrivedKeeps(s: State, kind: nat, faction: nat, x: nat, y: nat)
    ensures var s' := Arrived(s, kind, faction, x, y);
      && |s'.entities| == |s.entities| + 1 && s'.width == s.width && s'.height == s.height
      && s'.diagnostics == s.diagnostics
  {
  }

  /** The demonstration world of any scale is valid and holds all its entities. */
  lemma DemoIsNewborn(scale: nat)
    requires DemoSize(scale) * DemoSize(scale) < NONE
    ensures Laid(DemoWorld(scale)) && Newborn(DemoWorld(scale))
    ensures |DemoWorld(scale).entities| == 8 * scale && DemoWorld(scale).valid
  {
    hide DemoPlaced;
    DemoPlacedIsNewborn(scale, 8 * scale);
    FundsDoNotMatter(DemoPlaced(scale, 8 * scale), 400 * scale, 250 * scale);
  }

  // ----- what a scenario's declarations become -----

  predicate TileInGrid(spec: TileSpec, width: nat, height: nat) {
    spec.x < width && spec.y < height
  }

  predicate EntityInGrid(spec: EntitySpec, width: nat, height: nat) {
    spec.x < width && spec.y < height
  }

  function TilesOff(specs: seq<TileSpec>, width: nat, height: nat, k: nat): nat
    requires k <= |specs|
  {
    if k == 0 then 0
    else TilesOff(specs, width, height, k - 1) + if TileInGrid(specs[k - 1], width, height) then 0 else 1
  }

  /** The entity specifications inside the grid, in order. */
  function Fitting(specs: seq<EntitySpec>, width: nat, height: nat, k: nat): (r: seq<EntitySpec>)
    requires k <= |specs|
    ensures |r| <= k
  {
    if k == 0 then []
    else Fitting(specs, width, height, k - 1) + if EntityInGrid(specs[k - 1], width, height) then [specs[k - 1]] else []
  }

  /** The terrain last painted on a cell, if any paint reached it. */
  function LastPaint(specs: seq<TileSpec>, x: nat, y: nat, k: nat, ground: nat): nat
    requires k <= |specs|
  {
    if k == 0 then ground
    else if specs[k - 1].x == x && specs[k - 1].y == y then specs[k - 1].terrain
    else LastPaint(specs, x, y, k - 1, ground)
  }

  lemma IndexIsPosition(s: State, x: nat, y: nat, x': nat, y': nat)
    requires Laid(s) && x < s.width && y < s.height && x' < s.width && y' < s.height
    ensures TileIndex(s, x, y) < |s.tiles|
    ensures TileIndex(s, x, y) == TileIndex(s, x', y') <==> x == x' && y == y'
  {
    TileAt(s, x, y);
    TileAt(s, x', y');
  }

  lemma PaintOne(s: State, spec: TileSpec, i: nat, x: nat, y: nat)
    requires Laid(s) && x < s.width && y < s.height
    ensures var s' := Painted(s, spec, i);
      && s'.width == s.width && s'.height == s.height && s'.entities == s.entities && |s'.tiles| == |s.tiles|
      && |s'.diagnostics| == |s.diagnostics| + (if TileInGrid(spec, s.width, s.height) then 0 else 1)
      && TileIndex(s, x, y) < |s.tiles|
      && s'.tiles[TileIndex(s, x, y)].terrain ==
           if spec.x == x && spec.y == y then spec.terrain else s.tiles[TileIndex(s, x, y)].terrain
  {
    hide Laid;
    hide Passable;
    InBounds(s, spec.x, spec.y);
    IndexIsPosition(s, x, y, x, y);
    if TileInGrid(spec, s.width, s.height) {
      IndexIsPosition(s, spec.x, spec.y, x, y);
    }
    hide TileIndex;
  }

  lemma {:induction false} PaintsAreKept(s: State, specs: seq<TileSpec>, k: nat, x: nat, y: nat)
    requires k <= |specs| && Laid(s) && x < s.width && y < s.height
    ensures var s' := PaintedBy(s, specs, k);
      && Laid(s') && s'.width == s.width && s'.height == s.height && s'.entities == s.entities
      && |s'.diagnostics| == |s.diagnostics| + TilesOff(specs, s.width, s.height, k)
      && |s'.tiles| == |s.tiles| && TileIndex(s, x, y) < |s.tiles|
      && s'.tiles[TileIndex(s, x, y)].terrain == LastPaint(specs, x, y, k, s.tiles[TileIndex(s, x, y)].terrain)
  {
    hide Laid;
    hide Painted;
    if k == 0 {
      IndexIsPosition(s, x, y, x, y);
    } else {
      PaintsAreKept(s, specs, k - 1, x, y);
      var before := PaintedBy(s, specs, k - 1);
      PaintOne(before, specs[k - 1], k - 1, x, y);
      PaintedIsLaid(before, specs[k - 1], k - 1);
    }
  }

  ghost predicate Embodies(e: Entity, spec: EntitySpec) {
    e.kind == spec.kind && e.faction == spec.faction && e.x == spec.x && e.y == spec.y
  }

  lemma PlaceOne(s: State, spec: EntitySpec, i: nat)
    ensures var s' := Placed(s, spec, i);
      && s'.width == s.width && s'.height == s.height && |s'.tiles| == |s.tiles|
      && (forall j :: 0 <= j < |s.tiles| ==> s'.tiles[j].terrain == s.tiles[j].terrain)
      && if EntityInGrid(spec, s.width, s.height) then
           && |s'.entities| == |s.entities| + 1 && s'.entities[..|s.entities|] == s.entities
           && Embodies(s'.entities[|s.entities|], spec) && s'.diagnostics == s.diagnostics
         else
           s'.entities == s.entities && |s'.diagnostics| == |s.diagnostics| + 1
  {
    hide TileIndex;
  }

  lemma {:induction false} PlacementsAreKept(s: State, specs: seq<EntitySpec>, k: nat)
    requires k <= |specs| && s.entities == []
    ensures var s' := PlacedBy(s, specs, k);
      var fitting := Fitting(specs, s.width, s.height, k);
      && s'.width == s.width && s'.height == s.height && |s'.tiles| == |s.tiles|
      && (forall j :: 0 <= j < |s.tiles| ==> s'.tiles[j].terrain == s.tiles[j].terrain)
      && |s'.diagnostics| == |s.diagnostics| + k - |fitting|
      && |s'.entities| == |fitting| && forall j :: 0 <= j < |fitting| ==> Embodies(s'.entities[j], fitting[j])
  {
    hide Placed;
    hide Embodies;
    if k > 0 {
      PlacementsAreKept(s, specs, k - 1);
      var before := PlacedBy(s, specs, k - 1);
      PlaceOne(before, specs[k - 1], k - 1);
      assert forall j :: 0 <= j < |before.entities| ==>
        PlacedBy(s, specs, k).entities[j] == PlacedBy(s, specs, k).entities[..|before.entities|][j];
    }
  }

  /** Which tiles are impassable. */
  lemma PassableMeans(terrain: nat)
    ensures Passable(terrain) <==> terrain != WALL && terrain != WATER
  {
  }

  /** The ground is water where the hash is a multiple of 23, else forest where it is one of 17, and
      plain everywhere else; never a wall. */
  lemma TerrainLaw(seed: nat, x: nat, y: nat)
    ensures var value := Xor(Xor(seed, x + 17), (y + 31) * 97 % TWO64) * 1099511628211 % TWO64;
      && (Terrain(seed, x, y) == WATER <==> value == 23 * (value / 23))
      && (Terrain(seed, x, y) == FOREST <==> value != 23 * (value / 23) && value == 17 * (value / 17))
      && (Terrain(seed, x, y) == PLAIN <==> value != 23 * (value / 23) && value != 17 * (value / 17))
  {
    hide Xor;
  }

  /** The diagnostics of the tiles off the grid, in their order. */
  function OffTiles(specs: seq<TileSpec>, width: nat, height: nat, k: nat): seq<Diagnostic>
    requires k <= |specs|
  {
    if k == 0 then []
    else
      OffTiles(specs, width, height, k - 1)
      + if TileInGrid(specs[k - 1], width, height) then [] else [Diagnostic(1001, k - 1, 1)]
  }

  function OffEntities(specs: seq<EntitySpec>, width: nat, height: nat, k: nat): seq<Diagnostic>
    requires k <= |specs|
  {
    if k == 0 then []
    else
      OffEntities(specs, width, height, k - 1)
      + if EntityInGrid(specs[k - 1], width, height) then [] else [Diagnostic(1002, k - 1, 2)]
  }

  lemma PaintDiagnoses(s: State, spec: TileSpec, i: nat)
    requires Laid(s)
    ensures var s' := Painted(s, spec, i);
      && s'.width == s.width && s'.height == s.height && Laid(s')
      && s'.diagnostics == s.diagnostics
           + if TileInGrid(spec, s.width, s.height) then [] else [Diagnostic(1001, i, 1)]
  {
    hide Passable;
    PaintedIsLaid(s, spec, i);
    hide Laid;
    InBounds(s, spec.x, spec.y);
    hide TileIndex;
    assert s.diagnostics + [] == s.diagnostics;
  }

  lemma {:induction false} PaintsDiagnose(s: State, specs: seq<TileSpec>, k: nat)
    requires k <= |specs| && Laid(s) && s.diagnostics == []
    ensures var s' := PaintedBy(s, specs, k);
      && Laid(s') && s'.width == s.width && s'.height == s.height
      && s'.diagnostics == OffTiles(specs, s.width, s.height, k)
  {
    hide Laid;
    hide Painted;
    hide TileInGrid;
    if k > 0 {
      PaintsDiagnose(s, specs, k - 1);
      PaintDiagnoses(PaintedBy(s, specs, k - 1), specs[k - 1], k - 1);
    }
  }

  lemma PlaceDiagnoses(s: State, spec: EntitySpec, i: nat)
    ensures var s' := Placed(s, spec, i);
      && s'.width == s.width && s'.height == s.height
      && s'.diagnostics == s.diagnostics
           + if EntityInGrid(spec, s.width, s.height) then [] else [Diagnostic(1002, i, 2)]
  {
    hide TileIndex;
    assert s.diagnostics + [] == s.diagnostics;
  }

  lemma {:induction false} PlacementsDiagnose(s: State, specs: seq<EntitySpec>, k: nat)
    requires k <= |specs|
    ensures var s' := PlacedBy(s, specs, k);
      && s'.width == s.width && s'.height == s.height
      && s'.diagnostics == s.diagnostics + OffEntities(specs, s.width, s.height, k)
  {
    hide Placed;
    hide EntityInGrid;
    if k == 0 {
      assert s.diagnostics + [] == s.diagnostics;
    } else {
      PlacementsDiagnose(s, specs, k - 1);
      PlaceDiagnoses(PlacedBy(s, specs, k - 1), specs[k - 1], k - 1);
    }
  }

  /** The diagnostics of a scenario: its tiles off the grid, then its entities off the grid, each
      named by its place among the declarations. */
  lemma DiagnosticsNameDeclarations(input: Scenario)
    requires input.width * input.height < NONE
    ensures Generate(input).diagnostics
      == OffTiles(input.tiles, input.width, input.height, |input.tiles|)
         + OffEntities(input.entities, input.width, input.height, |input.entities|)
  {
    hide Laid;
    hide PaintedBy;
    hide PlacedBy;
    hide OffTiles;
    hide OffEntities;
    var ground := Ground(SEED, input.width, input.height);
    GroundIsLaid(SEED, input.width, input.height);
    PaintsDiagnose(ground, input.tiles, |input.tiles|);
    PlacementsDiagnose(PaintedBy(ground, input.tiles, |input.tiles|), input.entities, |input.entities|);
  }

  /** A cell shows the last entity that stands on it, if any does. */
  ghost predicate Shows(s: State, x: nat, y: nat)
    requires TileIndex(s, x, y) < |s.tiles|
  {
    var t := s.tiles[TileIndex(s, x, y)];
    && (t.visible <==> exists j :: 0 <= j < |s.entities| && s.entities[j].x == x && s.entities[j].y == y)
    && (!t.visible ==> t.occupant == NONE)
    && (t.visible ==>
          && 1 <= t.occupant <= |s.entities|
          && s.entities[t.occupant - 1].x == x && s.entities[t.occupant - 1].y == y
          && forall j :: t.occupant <= j < |s.entities| ==> !(s.entities[j].x == x && s.entities[j].y == y))
  }

  lemma PaintShows(s: State, spec: TileSpec, i: nat, x: nat, y: nat)
    requires Laid(s) && x < s.width && y < s.height && TileIndex(s, x, y) < |s.tiles| && Shows(s, x, y)
    ensures var s' := Painted(s, spec, i);
      && Laid(s') && s'.width == s.width && s'.height == s.height
      && TileIndex(s', x, y) < |s'.tiles| && Shows(s', x, y)
      && s'.entities == s.entities && s'.nextEntity == s.nextEntity
  {
    hide Passable;
    PaintedIsLaid(s, spec, i);
    hide Laid;
    InBounds(s, spec.x, spec.y);
  }

  lemma PlaceShows(s: State, spec: EntitySpec, i: nat, x: nat, y: nat)
    requires Laid(s) && x < s.width && y < s.height && TileIndex(s, x, y) < |s.tiles| && Shows(s, x, y)
    requires s.nextEntity == |s.entities| + 1
    ensures var s' := Placed(s, spec, i);
      && s'.width == s.width && s'.height == s.height && s'.nextEntity == |s'.entities| + 1
      && TileIndex(s', x, y) < |s'.tiles| && Shows(s', x, y)
  {
    hide Laid;
    if EntityInGrid(spec, s.width, s.height) {
      IndexIsPosition(s, spec.x, spec.y, x, y);
      var s' := Placed(s, spec, i);
      var n := |s.entities|;
      assert forall j :: 0 <= j < n ==> s'.entities[j] == s.entities[j];
      assert s'.entities[n].x == spec.x && s'.entities[n].y == spec.y;
    }
  }

  lemma {:induction false} PaintsShow(s: State, specs: seq<TileSpec>, k: nat, x: nat, y: nat)
    requires k <= |specs| && Laid(s) && x < s.width && y < s.height
    requires TileIndex(s, x, y) < |s.tiles| && Shows(s, x, y)
    ensures var s' := PaintedBy(s, specs, k);
      && Laid(s') && s'.width == s.width && s'.height == s.height
      && TileIndex(s', x, y) < |s'.tiles| && Shows(s', x, y)
      && s'.entities == s.entities && s'.nextEntity == s.nextEntity
  {
    hide Laid;
    hide Painted;
    hide Shows;
    hide TileIndex;
    if k > 0 {
      PaintsShow(s, specs, k - 1, x, y);
      PaintShows(PaintedBy(s, specs, k - 1), specs[k - 1], k - 1, x, y);
    }
  }

  lemma {:induction false} PlacementsShow(s: State, specs: seq<EntitySpec>, k: nat, x: nat, y: nat)
    requires k <= |specs| && Laid(s) && x < s.width && y < s.height
    requires TileIndex(s, x, y) < |s.tiles| && Shows(s, x, y) && s.nextEntity == |s.entities| + 1
    ensures var s' := PlacedBy(s, specs, k);
      && Laid(s') && s'.width == s.width && s'.height == s.height && s'.nextEntity == |s'.entities| + 1
      && TileIndex(s', x, y) < |s'.tiles| && Shows(s', x, y)
  {
    hide Laid;
    hide Placed;
    hide Shows;
    hide TileIndex;
    if k > 0 {
      PlacementsShow(s, specs, k - 1, x, y);
      var before := PlacedBy(s, specs, k - 1);
      PlaceShows(before, specs[k - 1], k - 1, x, y);
      PlacedIsLaid(before, specs[k - 1], k - 1);
    }
  }

  /** Each cell of a generated world shows the last entity declared there, if any is. */
  lemma CellsShowSettlers(input: Scenario, x: nat, y: nat)
    requires input.width * input.height < NONE && x < input.width && y < input.height
    ensures TileIndex(Generate(input), x, y) < |Generate(input).tiles| && Shows(Generate(input), x, y)
  {
    hide Laid;
    hide PaintedBy;
    hide PlacedBy;
    var ground := Ground(SEED, input.width, input.height);
    GroundIsLaid(SEED, input.width, input.height);
    GroundShows(SEED, input.width, input.height, x, y);
    PaintsShow(ground, input.tiles, |input.tiles|, x, y);
    PlacementsShow(PaintedBy(ground, input.tiles, |input.tiles|), input.entities, |input.entities|, x, y);
  }

  lemma GroundShows(seed: nat, width: nat, height: nat, x: nat, y: nat)
    requires width * height < NONE && x < width && y < height
    ensures var s := Ground(seed, width, height);
      TileIndex(s, x, y) < |s.tiles| && Shows(s, x, y)
  {
    hide Terrain;
    hide RowMajor;
    var s := Ground(seed, width, height);
    GroundIsLaid(seed, width, height);
    TileAt(s, x, y);
    RowsAt(seed, width, height);
    assert TileOk(s.tiles[TileIndex(s, x, y)], TileIndex(s, x, y), seed, width, height);
  }

  /** Every declaration inside the grid takes effect, the last paint of a cell winning; every other
      one is diagnosed; and nothing else is. */
  lemma DeclarationsTakeEffect(input: Scenario, x: nat, y: nat)
    requires input.width * input.height < NONE && x < input.width && y < input.height
    ensures var s := Generate(input);
      var fitting := Fitting(input.entities, input.width, input.height, |input.entities|);
      && |s.entities| == |fitting| && (forall j :: 0 <= j < |fitting| ==> Embodies(s.entities[j], fitting[j]))
      && |s.diagnostics|
         == TilesOff(input.tiles, input.width, input.height, |input.tiles|) + |input.entities| - |fitting|
      && TileIndex(s, x, y) < |s.tiles|
      && s.tiles[TileIndex(s, x, y)].terrain == LastPaint(input.tiles, x, y, |input.tiles|, Terrain(SEED, x, y))
      && (s.tiles[TileIndex(s, x, y)].walkable <==> s.tiles[TileIndex(s, x, y)].terrain !in {WALL, WATER})
  {
    CellsFollowTerrain(input, TileIndex(Generate(input), x, y));
    hide Laid;
    hide PaintedBy;
    hide PlacedBy;
    hide LastPaint;
    hide Embodies;
    var ground := Ground(SEED, input.width, input.height);
    GroundIsLaid(SEED, input.width, input.height);
    GroundTerrain(SEED, input.width, input.height, x, y);
    PaintsAreKept(ground, input.tiles, |input.tiles|, x, y);
    PlacementsAreKept(PaintedBy(ground, input.tiles, |input.tiles|), input.entities, |input.entities|);
  }

  lemma CellsFollowTerrain(input: Scenario, i: nat)
    requires input.width * input.height < NONE
    ensures var ts := Generate(input).tiles;
      i < |ts| ==> (ts[i].walkable <==> ts[i].terrain !in {WALL, WATER})
  {
    hide Generate;
    hide RowMajor;
    GeneratedIsNewborn(input);
    if i < |Generate(input).tiles| {
      PassableMeans(Generate(input).tiles[i].terrain);
    }
  }

  lemma GroundTerrain(seed: nat, width: nat, height: nat, x: nat, y: nat)
    requires width * height < NONE && x < width && y < height
    ensures var s := Ground(seed, width, height);
      TileIndex(s, x, y) < |s.tiles| && s.tiles[TileIndex(s, x, y)].terrain == Terrain(seed, x, y)
  {
    hide Terrain;
    hide RowMajor;
    var s := Ground(seed, width, height);
    GroundIsLaid(seed, width, height);
    TileAt(s, x, y);
    RowsAt(seed, width, height);
    assert TileOk(s.tiles[TileIndex(s, x, y)], TileIndex(s, x, y), seed, width, height);
  }
}
