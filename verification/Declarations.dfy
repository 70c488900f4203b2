/** What the statements of a scenario declare, statement by statement: entities and tiles are listed
    in their order, the last size, tick count and expectation hold, and what remains is default. */
module Declarations {
  import opened Tokens
  import opened Scenarios
  import opened Language
  import Parser

  const KINDS := [WORKER, SCOUT, BUILDER, GUARD]

  const TERRAINS := [PLAIN, WALL, WATER, FOREST]

  /** How many of the first `k` statements declare an entity. */
  function EntitiesTo(stmts: seq<Stmt>, k: nat): (n: nat)
    requires k <= |stmts|
    ensures n <= k
  {
    if k == 0 then 0 else EntitiesTo(stmts, k - 1) + if stmts[k - 1].Entity? then 1 else 0
  }

  function TilesTo(stmts: seq<Stmt>, k: nat): (n: nat)
    requires k <= |stmts|
    ensures n <= k
  {
    if k == 0 then 0 else TilesTo(stmts, k - 1) + if stmts[k - 1].Tile? then 1 else 0
  }

  /** The effect of one statement after the others. */
  lemma {:induction false} EffectsSnoc(stmts: seq<Stmt>, s: Stmt, out: Scenario)
    ensures Effects(stmts + [s], out) == Effect(s, Effects(stmts, out))
    decreases |stmts|
  {
    hide Effect;
    if stmts == [] {
      assert [] + [s] == [s] && [s][1..] == [];
    } else {
      assert (stmts + [s])[1..] == stmts[1..] + [s];
      EffectsSnoc(stmts[1..], s, Effect(stmts[0], out));
    }
  }

  lemma NextEffect(stmts: seq<Stmt>, k: nat, out: Scenario)
    requires k < |stmts|
    ensures Effects(stmts[..k + 1], out) == Effect(stmts[k], Effects(stmts[..k], out))
  {
    hide Effect;
    assert stmts[..k + 1] == stmts[..k] + [stmts[k]];
    EffectsSnoc(stmts[..k], stmts[k], out);
  }

  /** The scenario that the first `k` statements declare. */
  function After(stmts: seq<Stmt>, k: nat): Scenario
    requires k <= |stmts|
  {
    Effects(stmts[..k], DEFAULT)
  }

  lemma {:induction false} ListsGrow(stmts: seq<Stmt>, k: nat)
    requires k <= |stmts|
    ensures |After(stmts, k).entities| == EntitiesTo(stmts, k) && |After(stmts, k).tiles| == TilesTo(stmts, k)
  {
    if k > 0 {
      ListsGrow(stmts, k - 1);
      NextEffect(stmts, k - 1, DEFAULT);
    }
    hide Effects;
  }

  /** What is declared stays in its place. */
  lemma {:induction false} ListsAreKept(stmts: seq<Stmt>, i: nat, k: nat)
    requires i <= k <= |stmts|
    ensures After(stmts, i).entities <= After(stmts, k).entities && After(stmts, i).tiles <= After(stmts, k).tiles
    decreases k
  {
    hide Effects;
    if i < k {
      ListsAreKept(stmts, i, k - 1);
      NextEffect(stmts, k - 1, DEFAULT);
    }
  }

  /** The number of an entity or of a terrain names its word. */
  lemma NumbersNameKinds(kind: Kind)
    ensures var n := Parser.EntityKind(kind);
      kind in KINDS <==> 1 <= n <= 4 && KINDS[n - 1] == kind
    ensures var n := Parser.TerrainKind(kind);
      kind in TERRAINS <==> 1 <= n <= 4 && TERRAINS[n - 1] == kind
    ensures kind !in KINDS ==> Parser.EntityKind(kind) == 0
    ensures kind !in TERRAINS ==> Parser.TerrainKind(kind) == 0
  {
  }

  lemma AllOfThem(stmts: seq<Stmt>)
    ensures var (r, d) := (After(stmts, |stmts|), Declares(stmts));
      && d.entities == r.entities && d.tiles == r.tiles && d.width == r.width && d.height == r.height
      && d.ticks == r.ticks && d.expectedEntities == r.expectedEntities
  {
    hide Effects;
    assert stmts[..|stmts|] == stmts;
  }

  /** An entity statement declares the entity at its place among the entities. */
  lemma EntityIsDeclared(stmts: seq<Stmt>, k: nat)
    requires AllOk(stmts) && k < |stmts| && stmts[k].Entity?
    ensures EntitiesTo(stmts, k) < |Declares(stmts).entities| == EntitiesTo(stmts, |stmts|)
    ensures var (e, s) := (Declares(stmts).entities[EntitiesTo(stmts, k)], stmts[k]);
      && 1 <= e.kind <= 4 && KINDS[e.kind - 1] == s.kind && e.faction == s.faction && e.x == s.x && e.y == s.y
  {
    hide Effects;
    AllOfThem(stmts);
    ListsGrow(stmts, |stmts|);
    ListsGrow(stmts, k);
    NextEffect(stmts, k, DEFAULT);
    ListsAreKept(stmts, k + 1, |stmts|);
    hide Declares;
    assert StmtOk(stmts[k]);
    NumbersNameKinds(stmts[k].kind);
  }

  /** A tile statement declares the tile at its place among the tiles. */
  lemma TileIsDeclared(stmts: seq<Stmt>, k: nat)
    requires AllOk(stmts) && k < |stmts| && stmts[k].Tile?
    ensures TilesTo(stmts, k) < |Declares(stmts).tiles| == TilesTo(stmts, |stmts|)
    ensures var (t, s) := (Declares(stmts).tiles[TilesTo(stmts, k)], stmts[k]);
      && 1 <= t.terrain <= 4 && TERRAINS[t.terrain - 1] == s.terrain && t.x == s.x && t.y == s.y
  {
    hide Effects;
    AllOfThem(stmts);
    ListsGrow(stmts, |stmts|);
    ListsGrow(stmts, k);
    NextEffect(stmts, k, DEFAULT);
    ListsAreKept(stmts, k + 1, |stmts|);
    hide Declares;
    assert StmtOk(stmts[k]);
    NumbersNameKinds(stmts[k].terrain);
  }

  /** The statement at `i` is the last of its sort. */
  ghost predicate IsLast(stmts: seq<Stmt>, i: nat) {
    && i < |stmts|
    && forall j :: i < j < |stmts| ==>
         && (stmts[i].World? ==> !stmts[j].World?)
         && (stmts[i].Tick? ==> !stmts[j].Tick?)
         && (stmts[i].Expect? ==> !stmts[j].Expect?)
  }

  /** A size stays until the next one. */
  lemma {:induction false} SizeIsKept(stmts: seq<Stmt>, i: nat, k: nat)
    requires i <= k <= |stmts| && forall j :: i <= j < k ==> !stmts[j].World?
    ensures After(stmts, k).width == After(stmts, i).width && After(stmts, k).height == After(stmts, i).height
    decreases k
  {
    hide Effects;
    if i < k {
      SizeIsKept(stmts, i, k - 1);
      NextEffect(stmts, k - 1, DEFAULT);
    }
  }

  lemma {:induction false} TicksAreKept(stmts: seq<Stmt>, i: nat, k: nat)
    requires i <= k <= |stmts| && forall j :: i <= j < k ==> !stmts[j].Tick?
    ensures After(stmts, k).ticks == After(stmts, i).ticks
    decreases k
  {
    hide Effects;
    if i < k {
      TicksAreKept(stmts, i, k - 1);
      NextEffect(stmts, k - 1, DEFAULT);
    }
  }

  lemma {:induction false} ExpectationIsKept(stmts: seq<Stmt>, i: nat, k: nat)
    requires i <= k <= |stmts| && forall j :: i <= j < k ==> !stmts[j].Expect?
    ensures After(stmts, k).expectedEntities == After(stmts, i).expectedEntities
    decreases k
  {
    hide Effects;
    if i < k {
      ExpectationIsKept(stmts, i, k - 1);
      NextEffect(stmts, k - 1, DEFAULT);
    }
  }

  /** The last size, tick count and expectation hold. */
  lemma LastOneHolds(stmts: seq<Stmt>, i: nat)
    requires IsLast(stmts, i)
    ensures var d := Declares(stmts);
      && (stmts[i].World? ==> d.width == stmts[i].width && d.height == stmts[i].height)
      && (stmts[i].Tick? ==> d.ticks == stmts[i].ticks)
      && (stmts[i].Expect? ==> d.expectedEntities == stmts[i].entities)
  {
    hide Effects;
    AllOfThem(stmts);
    NextEffect(stmts, i, DEFAULT);
    hide Declares;
    match stmts[i]
    case World(_, _) => SizeIsKept(stmts, i + 1, |stmts|);
    case Tick(_) => TicksAreKept(stmts, i + 1, |stmts|);
    case Expect(_) => ExpectationIsKept(stmts, i + 1, |stmts|);
    case _ =>
  }

  /** What no statement declares has its default. */
  lemma DefaultsHold(stmts: seq<Stmt>)
    ensures var d := Declares(stmts);
      && ((forall j :: 0 <= j < |stmts| ==> !stmts[j].World?) ==> d.width == 8 && d.height == 8)
      && ((forall j :: 0 <= j < |stmts| ==> !stmts[j].Tick?) ==> d.ticks == 4)
      && ((forall j :: 0 <= j < |stmts| ==> !stmts[j].Expect?) ==> d.expectedEntities == 0)
  {
    AllOfThem(stmts);
    assert After(stmts, 0) == DEFAULT;
    hide Effects;
    hide Declares;
    hide After;
    if forall j :: 0 <= j < |stmts| ==> !stmts[j].World? {
      SizeIsKept(stmts, 0, |stmts|);
    }
    if forall j :: 0 <= j < |stmts| ==> !stmts[j].Tick? {
      TicksAreKept(stmts, 0, |stmts|);
    }
    if forall j :: 0 <= j < |stmts| ==> !stmts[j].Expect? {
      ExpectationIsKept(stmts, 0, |stmts|);
    }
  }

  /** A scenario is valid exactly when its grid is not empty, some entity is declared, and as many
      as it expects, if it expects any. */
  lemma ValidIff(stmts: seq<Stmt>)
    ensures var (d, n) := (Declares(stmts), EntitiesTo(stmts, |stmts|));
      d.valid <==>
        d.width > 0 && d.height > 0 && n > 0 && (d.expectedEntities != 0 ==> d.expectedEntities == n)
  {
    hide Effects;
    ListsGrow(stmts, |stmts|);
    assert stmts[..|stmts|] == stmts;
  }
}
