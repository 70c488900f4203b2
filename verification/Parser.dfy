/** The predictive parser of the scenario language (the embedded module `parser.rue`). */
module Parser {
  import Model
  import opened Scenarios
  import opened Tokens

  /** The parser reads past the end of its tokens as INVALID and never as EOF, so once it has
      consumed the last token both of its loops run forever.  `Hangs` stands for that. */
  datatype Outcome = Parsed(scenario: Scenario) | Hangs

  function EntityKind(kind: Kind): nat {
    match kind
    case WORKER => Model.WORKER
    case SCOUT => Model.SCOUT
    case BUILDER => Model.BUILDER
    case GUARD => Model.GUARD
    case _ => 0
  }

  function TerrainKind(kind: Kind): nat {
    match kind
    case PLAIN => Model.PLAIN
    case WALL => Model.WALL
    case WATER => Model.WATER
    case FOREST => Model.FOREST
    case _ => 0
  }

  // ----- the token cursor -----

  function At(tokens: seq<Token>, i: nat): Token {
    if i < |tokens| then tokens[i] else EMPTY
  }

  function Forward(tokens: seq<Token>, cursor: nat, n: nat): nat {
    if cursor + n < |tokens| then cursor + n else |tokens|
  }

  function Miss(t: Token, kind: Kind): nat {
    if t.kind != kind then 1 else 0
  }

  class State {
    const tokens: seq<Token>
    var cursor: nat
    var errors: nat

    constructor (tokens: seq<Token>)
      ensures this.tokens == tokens && cursor == 0 && errors == 0
    {
      this.tokens, cursor, errors := tokens, 0, 0;
    }

    function Peek(): Token
      reads this
    {
      At(tokens, cursor)
    }

    method Advance() returns (value: Token)
      requires cursor <= |tokens|
      modifies this
      ensures value == At(tokens, old(cursor))
      ensures cursor == Forward(tokens, old(cursor), 1) && errors == old(errors)
    {
      value := Peek();
      if cursor < |tokens| {
        cursor := cursor + 1;
      }
    }

    method Take(kind: Kind) returns (value: Token)
      requires cursor <= |tokens|
      modifies this
      ensures value == At(tokens, old(cursor))
      ensures cursor == Forward(tokens, old(cursor), 1) && errors == old(errors) + Miss(value, kind)
    {
      value := Advance();
      if value.kind != kind {
        errors := errors + 1;
      }
    }

    /** Skips to the next semicolon or EOF, and over the semicolon; false if there is neither. */
    method Recover() returns (ok: bool)
      requires cursor <= |tokens|
      modifies this
      ensures ok <==> StopAt(tokens, old(cursor)) < |tokens|
      ensures ok ==> cursor == AfterStop(tokens, old(cursor)) && errors == old(errors)
    {
      while Peek().kind != SEMI && Peek().kind != EOF
        invariant cursor <= |tokens| && errors == old(errors)
        invariant StopAt(tokens, cursor) == StopAt(tokens, old(cursor))
        decreases |tokens| - cursor
      {
        if cursor == |tokens| {
          return false;
        }
        var _ := Advance();
      }
      if Peek().kind == SEMI {
        var _ := Advance();
      }
      ok := true;
    }
  }

  /** The position of the next semicolon or EOF, or the end. */
  function StopAt(tokens: seq<Token>, c: nat): (stop: nat)
    requires c <= |tokens|
    ensures c <= stop <= |tokens|
    decreases |tokens| - c
  {
    if c < |tokens| && tokens[c].kind != SEMI && tokens[c].kind != EOF then StopAt(tokens, c + 1) else c
  }

  function AfterStop(tokens: seq<Token>, c: nat): nat
    requires c <= |tokens| && StopAt(tokens, c) < |tokens|
  {
    var stop := StopAt(tokens, c);
    if tokens[stop].kind == SEMI then stop + 1 else stop
  }

  /** The cursor after `n` tokens have been consumed, one after the other. */
  function After(tokens: seq<Token>, c: nat, n: nat): nat {
    if n == 0 then c else Forward(tokens, After(tokens, c, n - 1), 1)
  }

  /** Once the last token is consumed both loops go on for ever: however many tokens are consumed
      after that, neither EOF nor a semicolon is seen, and no statement begins. */
  lemma {:induction false} NoProgressAtEnd(tokens: seq<Token>, n: nat)
    ensures After(tokens, |tokens|, n) == |tokens|
    ensures At(tokens, After(tokens, |tokens|, n)).kind !in {EOF, SEMI}
    ensures Arity(At(tokens, After(tokens, |tokens|, n)).kind) == 0
  {
    if n > 0 {
      NoProgressAtEnd(tokens, n - 1);
    }
  }

  /** The recovery loop ends after consuming `n` tokens. */
  predicate Ends(tokens: seq<Token>, c: nat, n: nat) {
    At(tokens, After(tokens, c, n)).kind in {EOF, SEMI}
  }

  /** The recovery loop ends, after some number of tokens, exactly when a semicolon or an EOF is
      left to find. */
  lemma {:induction false} RecoveryEndsIffStop(tokens: seq<Token>, c: nat)
    requires c <= |tokens|
    ensures (exists n: nat :: Ends(tokens, c, n)) <==> StopAt(tokens, c) < |tokens|
    decreases |tokens| - c
  {
    if c == |tokens| {
      forall n: nat ensures !Ends(tokens, c, n) {
        NoProgressAtEnd(tokens, n);
      }
    } else if tokens[c].kind in {EOF, SEMI} {
      assert Ends(tokens, c, 0);
    } else {
      var next := c + 1;
      RecoveryEndsIffStop(tokens, next);
      if n: nat :| Ends(tokens, c, n) {
        assert n > 0;
        AfterNext(tokens, c, n - 1);
        assert Ends(tokens, next, n - 1);
      }
      if n: nat :| Ends(tokens, next, n) {
        AfterNext(tokens, c, n);
        assert Ends(tokens, c, n + 1);
      }
    }
  }

  lemma {:induction false} AfterNext(tokens: seq<Token>, c: nat, n: nat)
    requires c < |tokens|
    ensures After(tokens, c, n + 1) == After(tokens, c + 1, n)
  {
    if n > 0 {
      AfterNext(tokens, c, n - 1);
    }
  }

  // ----- the parse as a function -----

  /** The number of tokens a statement consumes, whatever they are; 0 if no statement starts here. */
  function Arity(kind: Kind): nat {
    match kind
    case WORLD => 4
    case ENTITY => 6
    case TILE => 5
    case TICK => 3
    case EXPECT => 4
    case _ => 0
  }

  /** The tokens of the statement at `c` that are not what the statement needs there. */
  function Faults(tokens: seq<Token>, c: nat): nat {
    var (t1, t2, t3) := (At(tokens, c + 1), At(tokens, c + 2), At(tokens, c + 3));
    var (t4, t5) := (At(tokens, c + 4), At(tokens, c + 5));
    match At(tokens, c).kind
    case WORLD => Miss(t1, NUMBER) + Miss(t2, NUMBER) + Miss(t3, SEMI)
    case ENTITY =>
      (if EntityKind(t1.kind) == 0 then 1 else 0)
      + Miss(t2, NUMBER) + Miss(t3, NUMBER) + Miss(t4, NUMBER) + Miss(t5, SEMI)
    case TILE =>
      Miss(t1, NUMBER) + Miss(t2, NUMBER) + (if TerrainKind(t3.kind) == 0 then 1 else 0) + Miss(t4, SEMI)
    case TICK => Miss(t1, NUMBER) + Miss(t2, SEMI)
    case EXPECT => Miss(t1, ENTITIES) + Miss(t2, NUMBER) + Miss(t3, SEMI)
    case _ => 0
  }

  /** The effect of the statement at `c`. */
  function Declared(tokens: seq<Token>, c: nat, out: Scenario): Scenario {
    var (t1, t2, t3, t4) := (At(tokens, c + 1), At(tokens, c + 2), At(tokens, c + 3), At(tokens, c + 4));
    match At(tokens, c).kind
    case WORLD => out.(width := t1.number, height := t2.number)
    case ENTITY => out.(entities := out.entities + [EntitySpec(EntityKind(t1.kind), t2.number, t3.number, t4.number)])
    case TILE => out.(tiles := out.tiles + [TileSpec(t1.number, t2.number, TerrainKind(t3.kind))])
    case TICK => out.(ticks := t1.number)
    case EXPECT => out.(expectedEntities := t2.number)
    case _ => out
  }

  function Finish(out: Scenario, errors: nat): Scenario {
    out.(errors := errors,
         valid := errors == 0 && out.width > 0 && out.height > 0 && |out.entities| > 0
                  && (out.expectedEntities == 0 || out.expectedEntities == |out.entities|))
  }

  function ParseFrom(tokens: seq<Token>, c: nat, errors: nat, out: Scenario): Outcome
    requires c <= |tokens|
    decreases |tokens| - c
  {
    if c == |tokens| then Hangs
    else if tokens[c].kind == EOF then Parsed(Finish(out, errors))
    else if Arity(tokens[c].kind) > 0 then
      ParseFrom(tokens, Forward(tokens, c, Arity(tokens[c].kind)), errors + Faults(tokens, c), Declared(tokens, c, out))
    else if StopAt(tokens, c + 1) == |tokens| then Hangs
    else
      ParseFrom(tokens, AfterStop(tokens, c + 1), errors + 1, out)
  }

  /** Parses the rest of a statement whose first token has been consumed. */
  method Statement(state: State, kind: Kind, out: Scenario, ghost c: nat) returns (out': Scenario)
    requires c < |state.tokens| && state.cursor == c + 1
    requires kind == state.tokens[c].kind && Arity(kind) > 0
    modifies state
    ensures state.cursor == Forward(state.tokens, c, Arity(kind))
    ensures state.errors == old(state.errors) + Faults(state.tokens, c)
    ensures out' == Declared(state.tokens, c, out)
  {
    hide Miss;
    hide EntityKind;
    hide TerrainKind;
    match kind {
      case WORLD =>
        var width := state.Take(NUMBER);
        var height := state.Take(NUMBER);
        var _ := state.Take(SEMI);
        out' := out.(width := width.number, height := height.number);
      case ENTITY =>
        var kindToken := state.Advance();
        var faction := state.Take(NUMBER);
        var x := state.Take(NUMBER);
        var y := state.Take(NUMBER);
        var _ := state.Take(SEMI);
        var entity := EntityKind(kindToken.kind);
        if entity == 0 {
          state.errors := state.errors + 1;
        }
        out' := out.(entities := out.entities + [EntitySpec(entity, faction.number, x.number, y.number)]);
      case TILE =>
        var x := state.Take(NUMBER);
        var y := state.Take(NUMBER);
        var terrainToken := state.Advance();
        var _ := state.Take(SEMI);
        var terrain := TerrainKind(terrainToken.kind);
        if terrain == 0 {
          state.errors := state.errors + 1;
        }
        out' := out.(tiles := out.tiles + [TileSpec(x.number, y.number, terrain)]);
      case TICK =>
        var ticks := state.Take(NUMBER);
        var _ := state.Take(SEMI);
        out' := out.(ticks := ticks.number);
      case EXPECT =>
        var _ := state.Take(ENTITIES);
        var count := state.Take(NUMBER);
        var _ := state.Take(SEMI);
        out' := out.(expectedEntities := count.number);
    }
  }

  method Parse(tokens: seq<Token>) returns (r: Outcome)
    ensures r == ParseFrom(tokens, 0, 0, DEFAULT)
  {
    hide Faults;
    hide Declared;
    var state := new State(tokens);
    var out := DEFAULT;
    while state.Peek().kind != EOF
      invariant fresh(state) && state.tokens == tokens && state.cursor <= |tokens|
      invariant ParseFrom(tokens, state.cursor, state.errors, out) == ParseFrom(tokens, 0, 0, DEFAULT)
      decreases |tokens| - state.cursor
    {
      if state.cursor == |tokens| {
        return Hangs;
      }
      ghost var c := state.cursor;
      var statement := state.Advance();
      if Arity(statement.kind) > 0 {
        out := Statement(state, statement.kind, out, c);
      } else {
        state.errors := state.errors + 1;
        var ok := state.Recover();
        if !ok {
          return Hangs;
        }
      }
    }
    r := Parsed(Finish(out, state.errors));
  }
}
