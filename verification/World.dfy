/** The world as the program keeps it: an object whose lists and counters the phases update in
    place, and its deep clone (the embedded modules `model.rue` and `world_clone.rue`). */
module World {
  import opened Model

  class World {
    var seed: nat
    var tick: nat
    var width: nat
    var height: nat
    var entities: seq<Entity>
    var tiles: seq<Tile>
    var events: seq<Event>
    var commands: seq<Command>
    var snapshots: seq<Snapshot>
    var diagnostics: seq<Diagnostic>
    var resources: nat
    var treasury: nat
    var questsCompleted: nat
    var scriptSteps: nat
    var rollbackCount: nat
    var nextEntity: nat
    var nextSequence: nat
    var valid: bool

    constructor (seed: nat, width: nat, height: nat)
      ensures Value() ==
        State(seed, 0, width, height, [], [], [], [], [], [], 0, 0, 0, 0, 0, 1, 1, true)
    {
      this.seed, this.width, this.height := seed, width, height;
      tick, entities, tiles, events, commands, snapshots, diagnostics := 0, [], [], [], [], [], [];
      resources, treasury, questsCompleted, scriptSteps, rollbackCount := 0, 0, 0, 0, 0;
      nextEntity, nextSequence, valid := 1, 1, true;
    }

    constructor From(s: State)
      ensures Value() == s
    {
      seed, tick, width, height := s.seed, s.tick, s.width, s.height;
      entities, tiles, events, commands := s.entities, s.tiles, s.events, s.commands;
      snapshots, diagnostics, resources, treasury := s.snapshots, s.diagnostics, s.resources, s.treasury;
      questsCompleted, scriptSteps, rollbackCount := s.questsCompleted, s.scriptSteps, s.rollbackCount;
      nextEntity, nextSequence, valid := s.nextEntity, s.nextSequence, s.valid;
    }

    /** The present value of the world. */
    function Value(): State
      reads this
    {
      State(seed, tick, width, height, entities, tiles, events, commands, snapshots, diagnostics,
            resources, treasury, questsCompleted, scriptSteps, rollbackCount, nextEntity, nextSequence, valid)
    }

    method AddEvent(kind: nat, actor: nat, target: nat, value: nat)
      modifies this`events, this`nextSequence
      ensures events == old(events) + [Event(tick, kind, actor, target, value, old(nextSequence))]
      ensures nextSequence == old(nextSequence) + 1
    {
      events := events + [Event(tick, kind, actor, target, value, nextSequence)];
      nextSequence := nextSequence + 1;
    }

    method AddDiagnostic(code: nat, subject: nat, detail: nat)
      modifies this`diagnostics, this`valid
      ensures diagnostics == old(diagnostics) + [Diagnostic(code, subject, detail)] && !valid
    {
      diagnostics := diagnostics + [Diagnostic(code, subject, detail)];
      valid := false;
    }
  }

  /** Pushes the elements of a list one by one onto a new list. */
  method CopyList<T>(source: seq<T>) returns (out: seq<T>)
    ensures out == source
  {
    out := [];
    var i := 0;
    while i < |source|
      invariant i <= |source| && out == source[..i]
    {
      out := out + [source[i]];
      i := i + 1;
    }
  }

  /** A new world of equal value.  Nothing is shared with the source, and nothing in it changes. */
  method Clone(source: World) returns (out: World)
    ensures fresh(out) && out.Value() == source.Value()
  {
    var s := source.Value();
    var entities := CopyList(s.entities);
    var tiles := CopyList(s.tiles);
    var events := CopyList(s.events);
    var commands := CopyList(s.commands);
    var snapshots := CopyList(s.snapshots);
    var diagnostics := CopyList(s.diagnostics);
    out := new World.From(s.(entities := entities, tiles := tiles, events := events,
                             commands := commands, snapshots := snapshots, diagnostics := diagnostics));
  }
}
