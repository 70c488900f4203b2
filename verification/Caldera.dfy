/** The program itself: running a scenario file (the embedded module `main.rue`), the stress test
    and the self-test (`stress.rue`, `selftest.rue`), over every input. */
module Caldera {
  import opened Metric
  import opened Model
  import opened Scenarios
  import opened World
  import Accounts
  import Audits
  import Bounds
  import Checksum
  import Language
  import Lexer
  import Navigation
  import NavigationOracle
  import Parser
  import Paths
  import Replay
  import Runs
  import Scheduler
  import Script
  import Tick
  import Tokens
  import Traps
  import Words
  import Worldgen

  // ----- every reachable state -----

  /** What the searches and the audits demand of a world. */
  ghost predicate Healthy(s: State) {
    Paths.RowMajor(s) && Runs.EventsOk(s) && Runs.SnapshotsOk(s)
  }

  lemma NewbornIsHealthy(s: State)
    requires Worldgen.Laid(s) && Worldgen.Newborn(s)
    ensures Healthy(s)
  {
  }

  lemma RowMajorIsGround(a: State, b: State)
    requires Paths.RowMajor(a) && a.width == b.width && a.height == b.height && a.tiles == b.tiles
    ensures Paths.RowMajor(b)
  {
  }

  /** Every state reachable from a newborn world is healthy, has taken one snapshot for each tick,
      and has entities whose energy has counted down from 100. */
  lemma ReachableIsHealthy(s: State, n: nat)
    requires Worldgen.Laid(s) && Worldgen.Newborn(s)
    ensures var r := Tick.Run(s, n);
      && Healthy(r) && r.tick == n && |r.snapshots| == n && r.valid == s.valid && |r.entities| == |s.entities|
      && forall i :: 0 <= i < |r.entities| ==>
          r.entities[i].alive && r.entities[i].energy == if n < 100 then 100 - n else 0
  {
    hide Worldgen.Laid;
    hide Tick.Step;
    hide Runs.EventsOk;
    hide Paths.RowMajor;
    var r := Tick.Run(s, n);
    NewbornIsHealthy(s);
    Runs.RunKeepsWorld(s, n);
    RowMajorIsGround(s, r);
    forall i | 0 <= i < |r.entities|
      ensures r.entities[i].alive && r.entities[i].energy == if n < 100 then 100 - n else 0
    {
      assert Worldgen.Settler(s, i);
      Runs.RunOfEntity(s, n, i);
    }
    Runs.RunKeepsTimeline(s, n);
    Runs.RunTakesSnapshots(s, n);
    Runs.RunKeepsSnapshotsOk(s, n);
  }

  // ----- running a scenario -----

  datatype Stage = Syntax | Malformed | Semantic | ScriptDisagrees | Diagnosed | RunInvalid

  /** Exit code 0 with its run and final world, exit code 1 with the stage that failed, or neither:
      an arithmetic trap, or the parser's endless loop. */
  datatype Exit =
    | Done(run: Replay.BatchResult, final: State)
    | Rejected(stage: Stage)
    | Trapped
    | Hung

  predicate InGrid(s: Scenario) {
    && (forall i :: 0 <= i < |s.tiles| ==> Worldgen.TileInGrid(s.tiles[i], s.width, s.height))
    && forall i :: 0 <= i < |s.entities| ==> Worldgen.EntityInGrid(s.entities[i], s.width, s.height)
  }

  /** Neither evaluator of the script traps. */
  predicate ScriptFits(s: Scenario) {
    Script.Meaning(s).Ok? && Script.OperandsFit(s)
  }

  /** The first world of a scenario's run. */
  function Opening(s: Scenario): State {
    Worldgen.Generate(s).(scriptSteps := 6 * |s.entities| + 6)
  }

  /** Nothing from the script to the end of the run traps; a world with diagnostics does not run. */
  predicate Fits(s: Scenario) {
    ScriptFits(s) && Worldgen.WorldFits(s) && (InGrid(s) ==> Replay.BatchFits(Opening(s), s.ticks))
  }

  lemma {:induction false} NoTilesOff(specs: seq<TileSpec>, width: nat, height: nat, k: nat)
    requires k <= |specs|
    ensures Worldgen.TilesOff(specs, width, height, k) == 0 <==>
      forall i :: 0 <= i < k ==> Worldgen.TileInGrid(specs[i], width, height)
  {
    hide Worldgen.TileInGrid;
    if k > 0 {
      NoTilesOff(specs, width, height, k - 1);
    }
  }

  lemma {:induction false} AllFitting(specs: seq<EntitySpec>, width: nat, height: nat, k: nat)
    requires k <= |specs|
    ensures |Worldgen.Fitting(specs, width, height, k)| == k <==>
      forall i :: 0 <= i < k ==> Worldgen.EntityInGrid(specs[i], width, height)
    ensures |Worldgen.Fitting(specs, width, height, k)| == k ==> Worldgen.Fitting(specs, width, height, k) == specs[..k]
  {
    hide Worldgen.EntityInGrid;
    if k > 0 {
      AllFitting(specs, width, height, k - 1);
      assert specs[..k] == specs[..k - 1] + [specs[k - 1]];
    }
  }

  lemma DiagnosedIffOffGrid(s: Scenario)
    requires s.width > 0 && s.height > 0 && s.width * s.height < NONE
    ensures Worldgen.Generate(s).diagnostics == [] <==> InGrid(s)
  {
    hide Worldgen.Generate;
    Worldgen.DeclarationsTakeEffect(s, 0, 0);
    NoTilesOff(s.tiles, s.width, s.height, |s.tiles|);
    AllFitting(s.entities, s.width, s.height, |s.entities|);
  }

  lemma OperandsGiveSums(s: Scenario)
    requires Script.OperandsFit(s)
    ensures Script.SumsFit(s.entities)
  {
    forall i | 0 <= i < |s.entities| ensures s.entities[i].x + s.entities[i].y < TWO64 {
      assert Script.EntityFits(s.entities[i]);
    }
  }

  /** From a parsed scenario to the end of its run. */
  method Play(scenario: Scenario) returns (exit: Exit)
    requires scenario.valid ==> scenario.width > 0 && scenario.height > 0
    ensures exit == Rejected(Semantic) <==> !scenario.valid
    ensures exit == Trapped <==> scenario.valid && !Fits(scenario)
    ensures exit == Rejected(Diagnosed) <==> scenario.valid && Fits(scenario) && !InGrid(scenario)
    ensures exit.Done? <==> scenario.valid && Fits(scenario) && InGrid(scenario)
    ensures exit.Done? ==>
      exit.final == Tick.Run(Opening(scenario), scenario.ticks)
      && Replay.IsBatch(Opening(scenario), scenario.ticks, exit.run) && exit.run.valid
  {
    hide Script.Meaning;
    hide Script.OperandsFit;
    hide Script.SumsFit;
    hide Worldgen.Generate;
    hide Worldgen.WorldFits;
    hide Replay.IsBatch;
    hide Replay.BatchFits;
    hide Tick.Run;
    hide InGrid;
    hide Healthy;
    if !scenario.valid {
      return Rejected(Semantic);
    }
    if Script.OperandsFit(scenario) {
      OperandsGiveSums(scenario);
    }
    var program := Script.Lower(scenario);
    if program.Overflow? {
      return Trapped;
    }
    var script := Script.Verify(scenario, program.value);
    if script.Overflow? {
      return Trapped;
    }
    if !script.value.valid {
      return Rejected(ScriptDisagrees);
    }
    if !Worldgen.WorldFits(scenario) {
      return Trapped;
    }
    WorldIsAllocated(scenario);
    var world := Worldgen.FromScenario(scenario);
    DiagnosedIffOffGrid(scenario);
    if |world.diagnostics| > 0 {
      return Rejected(Diagnosed);
    }
    world.scriptSteps := script.value.vmSteps;
    ghost var opening := world.Value();
    assert opening == Opening(scenario);
    OpeningIsHealthy(scenario);
    if !Replay.BatchFits(world.Value(), scenario.ticks) {
      return Trapped;
    }
    var run := Replay.RunBatch(world, scenario.ticks);
    BatchIsValid(opening, scenario.ticks, run);
    exit := if run.valid && script.value.valid then Done(run, world.Value()) else Rejected(RunInvalid);
  }

  lemma WorldIsAllocated(s: Scenario)
    requires Worldgen.WorldFits(s)
    ensures s.width * s.height < NONE
  {
  }

  lemma OpeningIsNewborn(s: Scenario)
    requires s.width * s.height < NONE
    ensures Worldgen.Laid(Opening(s)) && Worldgen.Newborn(Opening(s))
  {
    hide Worldgen.Generate;
    Worldgen.GeneratedIsNewborn(s);
    StepsDoNotMatter(Worldgen.Generate(s), 6 * |s.entities| + 6);
  }

  lemma StepsDoNotMatter(s: State, steps: nat)
    requires Worldgen.Laid(s) && Worldgen.Newborn(s)
    ensures Worldgen.Laid(s.(scriptSteps := steps)) && Worldgen.Newborn(s.(scriptSteps := steps))
  {
    var s' := s.(scriptSteps := steps);
    forall k | 0 <= k < |s'.entities| ensures Worldgen.Settler(s', k) {
      assert Worldgen.Settler(s, k);
    }
  }

  lemma OpeningIsHealthy(s: Scenario)
    requires s.width * s.height < NONE
    ensures Healthy(Opening(s)) && Runs.EventsOk(Opening(s))
    ensures Opening(s).valid <==> Worldgen.Generate(s).diagnostics == []
  {
    hide Worldgen.Generate;
    OpeningIsNewborn(s);
    NewbornIsHealthy(Opening(s));
  }

  lemma BatchIsValid(s: State, count: nat, run: Replay.BatchResult)
    requires Replay.IsBatch(s, count, run) && s.valid && Runs.EventsOk(s)
    ensures run.valid
  {
    hide Runs.EventsOk;
  }

  /** Scanned without errors, but with errors in the statements. */
  ghost predicate Misspelled(source: seq<Lexer.Byte>) {
    var scan := Lexer.ScanFrom(source, 0);
    && scan.Scanned? && scan.errors == 0
    && var parsed := Parser.ParseFrom(scan.tokens, 0, 0, DEFAULT); parsed.Parsed? && parsed.scenario.errors > 0
  }

  /** The whole command, outcome by outcome.  It succeeds exactly on the texts that spell complete
      statements declaring a valid scenario, inside its grid, whose arithmetic fits 64 bits to the
      end, and then leaves the world that the ticks of that scenario give.  The script's two
      evaluators never disagree, and no run is ever found invalid. */
  method Execute(source: seq<Lexer.Byte>) returns (exit: Exit)
    ensures exit == Rejected(Syntax) <==>
      Lexer.ScanFrom(source, 0).Scanned? && Lexer.ScanFrom(source, 0).errors > 0
    ensures exit == Hung <==> Language.HangsOn(source)
    ensures exit == Rejected(Malformed) <==> Misspelled(source)
    ensures exit == Rejected(Semantic) <==>
      exists stmts :: Language.Spells(source, stmts) && !Language.Declares(stmts).valid
    ensures exit == Rejected(Diagnosed) <==> exists stmts ::
      && Language.Spells(source, stmts) && Language.Declares(stmts).valid
      && Fits(Language.Declares(stmts)) && !InGrid(Language.Declares(stmts))
    ensures exit == Trapped <==>
      || Lexer.ScanFrom(source, 0).Overflow?
      || exists stmts ::
           Language.Spells(source, stmts) && Language.Declares(stmts).valid && !Fits(Language.Declares(stmts))
    ensures exit.Done? <==> exists stmts ::
      && Language.Spells(source, stmts) && Language.Declares(stmts).valid
      && Fits(Language.Declares(stmts)) && InGrid(Language.Declares(stmts))
    ensures forall stmts :: Language.Spells(source, stmts) && exit.Done? ==>
      && exit.final == Tick.Run(Opening(Language.Declares(stmts)), Language.Declares(stmts).ticks)
      && Replay.IsBatch(Opening(Language.Declares(stmts)), Language.Declares(stmts).ticks, exit.run) && exit.run.valid
  {
    hide Language.Spells;
    hide Language.Accepts;
    hide Language.HangsOn;
    hide Misspelled;
    hide Lexer.ScanFrom;
    hide Language.Effects;
    hide Fits;
    hide InGrid;
    hide Opening;
    hide Tick.Run;
    hide Replay.IsBatch;
    Language.AcceptedIffSpelling(source);
    var outcome, failure := Read(source);
    if outcome.None? {
      exit := failure;
      return;
    }
    var scenario := outcome.value;
    AcceptedIsNothingElse(source, scenario);
    forall stmts | Language.Spells(source, stmts) ensures Language.Declares(stmts) == scenario {
      OneScenario(source, stmts, scenario);
    }
    assert exists stmts :: Language.Spells(source, stmts);
    exit := Play(scenario);
  }

  datatype Option<+T> = None | Some(value: T)

  lemma AcceptedIsNothingElse(source: seq<Lexer.Byte>, scenario: Scenario)
    requires Language.Accepts(source, scenario)
    ensures Lexer.ScanFrom(source, 0).Scanned? && Lexer.ScanFrom(source, 0).errors == 0
    ensures !Language.HangsOn(source) && !Misspelled(source)
  {
  }

  /** Scanning and parsing: the accepted scenario, or why there is none. */
  method Read(source: seq<Lexer.Byte>) returns (scenario: Option<Scenario>, failure: Exit)
    ensures scenario.Some? ==> Language.Accepts(source, scenario.value)
    ensures scenario.Some? && scenario.value.valid ==> scenario.value.width > 0 && scenario.value.height > 0
    ensures scenario.None? ==> !exists s :: Language.Accepts(source, s)
    ensures scenario.None? ==>
      (failure == Trapped <==> Lexer.ScanFrom(source, 0).Overflow?)
      && (failure == Rejected(Syntax) <==>
            Lexer.ScanFrom(source, 0).Scanned? && Lexer.ScanFrom(source, 0).errors > 0)
      && (failure == Hung <==> Language.HangsOn(source))
      && (failure == Rejected(Malformed) <==> Misspelled(source))
      && failure in {Trapped, Rejected(Syntax), Hung, Rejected(Malformed)}
  {
    hide Lexer.ScanFrom;
    scenario, failure := None, Trapped;
    var scanned := Lexer.ScanAll(source);
    if scanned.Overflow? {
      return;
    }
    if scanned.errors > 0 {
      return None, Rejected(Syntax);
    }
    var parsed := Parser.Parse(scanned.tokens);
    if parsed.Hangs? {
      return None, Hung;
    }
    if parsed.scenario.errors > 0 {
      return None, Rejected(Malformed);
    }
    ParsedIsFinished(scanned.tokens, 0, 0, DEFAULT);
    return Some(parsed.scenario), Trapped;
  }

  lemma {:induction false} ParsedIsFinished(tokens: seq<Tokens.Token>, c: nat, errors: nat, out: Scenario)
    requires c <= |tokens|
    ensures var r := Parser.ParseFrom(tokens, c, errors, out);
      r.Parsed? && r.scenario.valid ==> r.scenario.width > 0 && r.scenario.height > 0
    decreases |tokens| - c
  {
    hide Parser.Faults;
    hide Parser.Declared;
    if c < |tokens| && tokens[c].kind != Tokens.EOF {
      if Parser.Arity(tokens[c].kind) > 0 {
        ParsedIsFinished(tokens, Parser.Forward(tokens, c, Parser.Arity(tokens[c].kind)),
                         errors + Parser.Faults(tokens, c), Parser.Declared(tokens, c, out));
      } else if Parser.StopAt(tokens, c + 1) < |tokens| {
        ParsedIsFinished(tokens, Parser.AfterStop(tokens, c + 1), errors + 1, out);
      }
    }
  }

  lemma OneScenario(source: seq<Lexer.Byte>, stmts: seq<Language.Stmt>, scenario: Scenario)
    requires Language.Spells(source, stmts) && Language.Accepts(source, scenario)
    ensures Language.Declares(stmts) == scenario
  {
    hide Language.Spells;
    Language.SpellingIsAccepted(source, stmts);
  }

  // ----- which scenarios fit -----

  /** Room for a whole scenario, from its declarations alone. */
  predicate ScenarioRoomy(s: Scenario) {
    var n := |s.entities|;
    && n * 75 + 10 * (n * s.ticks) + 20 * n + 20 * s.ticks + 1000 < TWO64 && Audits.OrderedPairs(n) < TWO64
    && s.width * s.height < NONE && Worldgen.GroundFits(Worldgen.SEED, s.width, s.height)
    && s.width + Checksum.SHIFT <= TWO63 && s.height + Checksum.SHIFT <= TWO63
    && forall i :: 0 <= i < n ==> SpecRoomy(s.entities[i], n, s.ticks)
  }

  predicate SpecRoomy(e: EntitySpec, n: nat, ticks: nat) {
    e.kind * 11 + e.faction * 10 + n + 2 * ticks + 1000 < TWO64
  }

  /** What can be checked before the run is enough: a roomy scenario whose script does not trap does
      not trap at all. */
  lemma RoomyScenarioFits(s: Scenario)
    requires ScriptFits(s) && ScenarioRoomy(s) && s.width > 0 && s.height > 0
    ensures Fits(s)
    ensures InGrid(s) ==> Bounds.Roomy(Opening(s), s.ticks)
  {
    hide ScriptFits;
    hide Worldgen.GroundFits;
    hide Replay.BatchFits;
    hide Opening;
    hide Bounds.Roomy;
    forall i | 0 <= i < |s.entities|
      ensures Worldgen.SettlerFits(s.entities[i].kind, s.entities[i].faction)
    {
      assert SpecRoomy(s.entities[i], |s.entities|, s.ticks);
    }
    if InGrid(s) {
      OpeningIsRoomy(s);
      OpeningIsNewborn(s);
      Bounds.RoomyRunFits(Opening(s), s.ticks);
    }
  }

  lemma OpeningEntities(s: Scenario)
    requires InGrid(s) && s.width > 0 && s.height > 0 && s.width * s.height < NONE
    ensures |Opening(s).entities| == |s.entities|
    ensures forall i :: 0 <= i < |s.entities| ==>
      Opening(s).entities[i].kind == s.entities[i].kind && Opening(s).entities[i].faction == s.entities[i].faction
    ensures Opening(s).width == s.width && Opening(s).height == s.height
    ensures Opening(s).resources == 50 * |s.entities| && Opening(s).treasury == 25 * |s.entities|
  {
    hide Worldgen.Generate;
    hide Worldgen.LastPaint;
    hide Worldgen.TileInGrid;
    AllFitting(s.entities, s.width, s.height, |s.entities|);
    Worldgen.DeclarationsTakeEffect(s, 0, 0);
    assert s.entities[..|s.entities|] == s.entities;
    Worldgen.GeneratedShape(s);
  }

  lemma OpeningIsRoomy(s: Scenario)
    requires ScenarioRoomy(s) && InGrid(s) && s.width > 0 && s.height > 0
    ensures Bounds.Roomy(Opening(s), s.ticks)
  {
    hide Opening;
    hide InGrid;
    hide Worldgen.GroundFits;
    hide Audits.OrderedPairs;
    OpeningEntities(s);
    var o := Opening(s);
    forall i | 0 <= i < |o.entities| ensures Bounds.RoomFor(o.entities[i], |o.entities|, s.ticks) {
      assert SpecRoomy(s.entities[i], |s.entities|, s.ticks);
    }
  }

  /** A scenario with an entity always traps after so many ticks: the last direction overflows. */
  lemma TooManyTicksDoNotFit(s: Scenario)
    requires InGrid(s) && s.width > 0 && s.height > 0 && s.entities != [] && s.ticks > 0
    requires |s.entities| * 17 + s.ticks * 13 + 7 >= TWO64
    ensures !Fits(s)
  {
    hide Opening;
    hide Traps.StepsFit;
    hide InGrid;
    if Worldgen.WorldFits(s) {
      OpeningIsNewborn(s);
      OpeningEntities(s);
      Bounds.TooManyTicksTrap(Opening(s), s.ticks);
    }
  }

  /** One worker of a faction so large that its credits overflow. */
  const HUGE_FACTION := DEFAULT.(entities := [EntitySpec(WORKER, TWO63 - 1, 0, 0)])

  /** The script accepts that scenario, and generating its world traps. */
  lemma HugeFactionDoesNotFit()
    ensures HUGE_FACTION == Language.Declares([Language.Entity(Tokens.WORKER, TWO63 - 1, 0, 0)])
    ensures HUGE_FACTION.valid && InGrid(HUGE_FACTION) && ScriptFits(HUGE_FACTION) && !Fits(HUGE_FACTION)
  {
    hide Mix;
    var s := HUGE_FACTION;
    var e := Language.Entity(Tokens.WORKER, TWO63 - 1, 0, 0);
    assert [e][1..] == [] && [] + s.entities == s.entities;
    assert Language.Effects([e], DEFAULT) == Language.Effects([], Language.Effect(e, DEFAULT)) == s;
    assert s.entities[1..] == [];
    assert Script.Entry(s.entities[0], 64).Ok?;
    assert Script.Evaluate(Script.Entry(s.entities[0], 64), s.entities[1..]).Ok?;
    assert Script.Evaluate(Script.Ok(64), s.entities).Ok?;
    assert Script.EntityFits(s.entities[0]);
    assert Worldgen.EntityInGrid(s.entities[0], s.width, s.height);
    assert InGrid(s);
    assert !Worldgen.SettlerFits(s.entities[0].kind, s.entities[0].faction);
    assert !Worldgen.WorldFits(s);
  }

  // ----- goods that vanish -----

  /** In a scenario of workers and builders only, a run of 58 ticks or more loses goods. */
  lemma LongRunsLoseGoods(s: Scenario)
    requires InGrid(s) && s.width > 0 && s.height > 0 && s.width * s.height < NONE && s.entities != []
    requires forall i :: 0 <= i < |s.entities| ==> s.entities[i].kind == WORKER || s.entities[i].kind == BUILDER
    requires s.ticks >= 58
    ensures Accounts.Ledgers(Opening(s), s.ticks).received < Accounts.Ledgers(Opening(s), s.ticks).transfers
  {
    hide Opening;
    hide InGrid;
    hide Accounts.Ledgers;
    var o := Opening(s);
    OpeningIsNewborn(s);
    OpeningEntities(s);
    forall i | 0 <= i < |o.entities|
      ensures Accounts.Producer(o.entities[i]) && o.entities[i].inventory <= 8 && o.entities[i].alive
    {
      assert Worldgen.Settler(o, i);
    }
    AllAliveCount(o.entities, |o.entities|);
    Bounds.ProductGrows(|o.entities|, 58, s.ticks);
    Accounts.ProducersLoseGoods(o, s.ticks);
  }

  lemma {:induction false} AllAliveCount(es: seq<Entity>, k: nat)
    requires k <= |es| && forall i :: 0 <= i < |es| ==> es[i].alive
    ensures Accounts.Living(es, k) == k
  {
    if k > 0 {
      AllAliveCount(es, k - 1);
    }
  }

  // ----- the oracles, over every generated world -----

  /** Simulates the same ticks in a batch and in a replay of a sound baseline: both are valid and
      they agree. */
  method Race(baseline: World, count: nat)
    returns (ok: bool, final: State, run: Replay.BatchResult, replayed: Replay.ReplayResult)
    requires Runs.EventsOk(baseline.Value()) && baseline.valid && Replay.BatchFits(baseline.Value(), count)
    ensures ok && final == Tick.Run(baseline.Value(), count)
    ensures Replay.IsBatch(baseline.Value(), count, run) && replayed == Replay.Replayed(baseline.Value(), count)
  {
    hide Runs.EventsOk;
    hide Replay.Reports;
    hide Replay.SumsFit;
    hide Audits.AuditFits;
    hide Traps.StepsFit;
    hide Checksum.Castable;
    hide Checksum.Of;
    hide Tick.Run;
    hide Digest;
    ghost var s := baseline.Value();
    var world := Clone(baseline);
    run := Replay.RunBatch(world, count);
    replayed := Replay.RunReplay(baseline, count);
    var replayOk := Replay.ReplayAgrees(baseline, count, replayed);
    var checksum := Checksum.Compute(world.Value());
    ok := run.valid && replayOk && replayed.finalChecksum == checksum;
    final := world.Value();
  }

  method Corners(s: State) returns (ok: bool)
    requires Paths.RowMajor(s) && s.width > 0 && s.height > 0
    ensures ok
  {
    var path;
    ok, path := NavigationOracle.CrossCheck(s, 0, 0, s.width - 1, s.height - 1);
  }

  /** Room for a demonstration world and twice as many ticks as its scale. */
  predicate DemoRoomy(scale: nat) {
    Worldgen.DemoFits(scale) && 200 * (scale * scale) + 1000 * scale + 10000 < TWO64
  }

  lemma {:induction false} DemoEntities(scale: nat, k: nat)
    ensures var s := Worldgen.DemoPlaced(scale, k);
      && |s.entities| == k && s.width == s.height == Worldgen.DemoSize(scale) && s.seed == Worldgen.SEED + scale
      && forall i :: 0 <= i < k ==> s.entities[i].kind <= 4 && s.entities[i].faction <= 3
  {
    hide Worldgen.Occupied;
    hide Worldgen.Rows;
    if k > 0 {
      DemoEntities(scale, k - 1);
      DemoSpecSmall(scale, k - 1);
      hide Worldgen.DemoSpec;
    }
  }

  lemma DemoSpecSmall(scale: nat, i: nat)
    ensures Worldgen.DemoSpec(scale, i).kind <= 4 && Worldgen.DemoSpec(scale, i).faction <= 3
  {
  }

  lemma DemoArithmetic(scale: nat)
    requires DemoRoomy(scale)
    ensures var n := 8 * scale;
      && n * (2 * scale) == 16 * (scale * scale) && Audits.OrderedPairs(n) < TWO64
      && 650 * scale + 10 * (n * (2 * scale)) + 20 * n + 20 * (2 * scale) + 1000 < TWO64
  {
    var n := 8 * scale;
    assert n * n == 64 * (scale * scale);
    assert n > 0 ==> n * (n - 1) == n * n - n;
    assert n * (2 * scale) == 16 * (scale * scale);
  }

  lemma DemoIsRoomy(scale: nat)
    requires DemoRoomy(scale)
    ensures Bounds.Roomy(Worldgen.DemoWorld(scale), 2 * scale)
  {
    hide Worldgen.DemoPlaced;
    hide Audits.OrderedPairs;
    var s := Worldgen.DemoWorld(scale);
    DemoEntities(scale, 8 * scale);
    DemoArithmetic(scale);
    forall i | 0 <= i < |s.entities| ensures Bounds.RoomFor(s.entities[i], |s.entities|, 2 * scale) {
    }
  }

  lemma DemoRun(scale: nat)
    requires DemoRoomy(scale)
    ensures var (s, n) := (Worldgen.DemoWorld(scale), 2 * scale);
      && Runs.EventsOk(s) && s.valid && Replay.BatchFits(s, n)
      && Paths.RowMajor(Tick.Run(s, n)) && Tick.Run(s, n).width > 0 && Tick.Run(s, n).height > 0
  {
    hide Worldgen.Laid;
    hide Worldgen.DemoPlaced;
    hide Worldgen.Newborn;
    hide Bounds.Roomy;
    hide Replay.BatchFits;
    hide Tick.Run;
    var (s, n) := (Worldgen.DemoWorld(scale), 2 * scale);
    Worldgen.DemoIsNewborn(scale);
    NewbornIsHealthy(s);
    ReachableIsHealthy(s, n);
    Runs.RunKeepsWorld(s, n);
    Worldgen.DemoPlacedIsNewborn(scale, 8 * scale);
    DemoIsRoomy(scale);
    Bounds.RoomyRunFits(s, n);
  }

  /** What one round of the stress test finds, without its generated suites. */
  datatype Round = Round(entities: nat, ticks: nat, events: nat, digest: nat, valid: bool)

  /** One round: the run is valid, and neither the path nor the replay disagrees with its oracle. */
  method Once(scale: nat) returns (round: Round)
    requires DemoRoomy(scale)
    ensures round.valid
    ensures var (s, n) := (Worldgen.DemoWorld(scale), 2 * scale);
      && round.entities == |s.entities| && round.ticks == n && round.events == |Tick.Run(s, n).events|
      && round.digest == Mix(Checksum.Of(Tick.Run(s, n)), Replay.Replayed(s, n).timelineDigest)
  {
    hide Worldgen.DemoWorld;
    hide Paths.RowMajor;
    hide Runs.EventsOk;
    hide Replay.BatchFits;
    hide Replay.Reports;
    hide Replay.Timeline;
    hide Checksum.Of;
    hide Digest;
    hide Mix;
    hide Tick.Run;
    DemoRun(scale);
    var baseline := Worldgen.Demo(scale);
    var replayOk, final, run, replayed := Race(baseline, U64(scale * 2));
    var pathOk := Corners(final);
    var oracleMismatches := if pathOk && replayOk then 0 else 1;
    round := Round(run.entities, run.ticks, run.events, Mix(run.checksum, replayed.timelineDigest),
                   run.valid && oracleMismatches == 0);
  }

  /** The stress test, without its generated suites: at every scale two rounds are valid and agree. */
  method Stress(scale: nat) returns (mismatch: int, valid: bool)
    requires DemoRoomy(scale)
    ensures mismatch == 0 && valid
  {
    hide Worldgen.DemoWorld;
    hide Checksum.Of;
    hide Mix;
    hide Tick.Run;
    hide Replay.Replayed;
    var first := Once(scale);
    var second := Once(scale);
    mismatch :=
      if first.digest == second.digest && first.entities == second.entities
         && first.events == second.events && first.ticks == second.ticks then 0
      else 1;
    valid := first.valid && second.valid && mismatch == 0;
  }

  /** The schedule and a path from the first entity to itself, checked by their oracles. */
  method PlanningChecks(s: State) returns (ok: bool)
    requires Paths.RowMajor(s) && Scheduler.Rankable(s.entities) && Worldgen.Newborn(s) && 0 < |s.entities| < NONE
    ensures ok
  {
    hide Paths.RowMajor;
    hide Scheduler.Rankable;
    var scheduleOk := Scheduler.CrossCheck(s.entities);
    assert Worldgen.Settler(s, 0);
    var first := s.entities[0];
    var pathOk, path := NavigationOracle.CrossCheck(s, first.x, first.y, first.x, first.y);
    InsideHasIndex(s, first.x, first.y);
    ok := scheduleOk && pathOk && path.valid;
  }

  lemma InsideHasIndex(s: State, x: nat, y: nat)
    requires Paths.RowMajor(s) && x < s.width && y < s.height
    ensures TileIndex(s, x, y) != NONE
  {
    Paths.TileAt(s, x, y);
  }

  /** The timeline and the snapshots after a run, checked by their audits. */
  method TimelineChecks(s: State, count: nat) returns (ok: bool)
    requires Runs.EventsOk(s) && Runs.SnapshotsOk(s) && |s.snapshots| == count && s.tick + 1 < TWO64
    ensures ok
  {
    hide Runs.EventsOk;
    var timeline := Audits.AuditEvents(s);
    var snapshots := Audits.AuditSnapshots(s);
    ok := timeline.valid && snapshots.valid && snapshots.count == count;
  }

  /** The self-test's checks of the schedule, a path, the run and its audits, on any generated
      world after any number of ticks that has room: none of them traps, and none can fail. */
  method SelfTest(baseline: World, count: nat) returns (failures: int)
    requires Worldgen.Laid(baseline.Value()) && Worldgen.Newborn(baseline.Value()) && baseline.valid
    requires 0 < |baseline.entities| && Bounds.Roomy(baseline.Value(), count)
    ensures failures == 0
  {
    hide Worldgen.Laid;
    hide Worldgen.Newborn;
    hide Replay.BatchFits;
    hide Paths.RowMajor;
    hide Runs.EventsOk;
    hide Runs.SnapshotsOk;
    hide Tick.Run;
    hide Scheduler.Rankable;
    hide Replay.IsBatch;
    hide Bounds.Roomy;
    NewbornIsHealthy(baseline.Value());
    ReachableIsHealthy(baseline.Value(), count);
    Bounds.RoomyRunFits(baseline.Value(), count);
    Bounds.RoomyIsNarrow(baseline.Value(), count);
    RanksAtStart(baseline.Value(), count);
    failures := 0;
    var planningOk := PlanningChecks(baseline.Value());
    if !planningOk {
      failures := failures + 1;
    }
    var runsOk := Replay.CrossCheck(baseline, count);
    if !runsOk {
      failures := failures + 1;
    }
    var raceOk, final, run, replayed := Race(baseline, count);
    if !raceOk {
      failures := failures + 1;
    }
    var timelineOk := TimelineChecks(final, count);
    if !timelineOk {
      failures := failures + 1;
    }
  }

  lemma RanksAtStart(s: State, ticks: nat)
    requires Worldgen.Newborn(s) && Bounds.Roomy(s, ticks)
    ensures Scheduler.Rankable(s.entities) && |s.entities| < NONE && s.rollbackCount + 1 < TWO64
  {
    hide Scheduler.Rankable;
    Bounds.RoomyRunRanks(s, ticks, 0);
  }

  /** Every hashed field of every state of a roomy scenario's run is a 64-bit word, so the checksum
      detects every single fault in it. */
  lemma ScenarioWordsFit(s: Scenario, k: nat)
    requires ScriptFits(s) && ScenarioRoomy(s) && InGrid(s) && s.width > 0 && s.height > 0 && k <= s.ticks
    requires forall i :: 0 <= i < |s.tiles| ==> s.tiles[i].terrain < TWO64
    ensures AllU64(Checksum.Words(Tick.Run(Opening(s), k)))
  {
    hide ScriptFits;
    hide Worldgen.Generate;
    hide InGrid;
    hide Tick.Run;
    hide Checksum.Words;
    hide Checksum.TileWords;
    hide ScenarioRoomy;
    RoomyScenarioFits(s);
    RoomyDimensions(s);
    OpeningIsNewborn(s);
    OpeningEntities(s);
    OpeningIsRoomy(s);
    Words.GeneratedIsSpelled(s);
    OpeningSeed(s);
    Words.ReachableWordsFit(Opening(s), s.ticks, k);
  }

  lemma RoomyDimensions(s: Scenario)
    requires ScenarioRoomy(s)
    ensures s.width * s.height < NONE && s.width < TWO64 && s.height < TWO64 && 6 * |s.entities| + 6 < TWO64
  {
  }

  lemma OpeningSeed(s: Scenario)
    ensures Opening(s).seed == Worldgen.SEED
  {
    hide Worldgen.Generate;
    Worldgen.GeneratedShape(s);
  }
}
