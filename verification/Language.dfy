/** The scenario language: what the lexer and the parser together accept, and what they make
    of it. */
module Language {
  import opened Tokens
  import opened Parser
  import opened Scenarios
  import Lexer
  import Numerals
  import Spelling

  datatype Stmt =
    | World(width: nat, height: nat)
    | Entity(kind: Kind, faction: nat, x: nat, y: nat)
    | Tile(x: nat, y: nat, terrain: Kind)
    | Tick(ticks: nat)
    | Expect(entities: nat)

  predicate StmtOk(s: Stmt) {
    match s
    case Entity(kind, _, _, _) => EntityKind(kind) != 0
    case Tile(_, _, terrain) => TerrainKind(terrain) != 0
    case _ => true
  }

  predicate AllOk(stmts: seq<Stmt>) {
    forall k :: 0 <= k < |stmts| ==> StmtOk(stmts[k])
  }

  function Spell(s: Stmt): seq<Lexeme> {
    match s
    case World(w, h) => [Word(WORLD), Num(w), Num(h), Word(SEMI)]
    case Entity(kind, faction, x, y) => [Word(ENTITY), Word(kind), Num(faction), Num(x), Num(y), Word(SEMI)]
    case Tile(x, y, terrain) => [Word(TILE), Num(x), Num(y), Word(terrain), Word(SEMI)]
    case Tick(n) => [Word(TICK), Num(n), Word(SEMI)]
    case Expect(n) => [Word(EXPECT), Word(ENTITIES), Num(n), Word(SEMI)]
  }

  function SpellAll(stmts: seq<Stmt>): seq<Lexeme> {
    if stmts == [] then [Word(EOF)] else Spell(stmts[0]) + SpellAll(stmts[1..])
  }

  /** What a statement declares. */
  function Effect(s: Stmt, out: Scenario): Scenario {
    match s
    case World(w, h) => out.(width := w, height := h)
    case Entity(kind, faction, x, y) => out.(entities := out.entities + [EntitySpec(EntityKind(kind), faction, x, y)])
    case Tile(x, y, terrain) => out.(tiles := out.tiles + [TileSpec(x, y, TerrainKind(terrain))])
    case Tick(n) => out.(ticks := n)
    case Expect(n) => out.(expectedEntities := n)
  }

  function Effects(stmts: seq<Stmt>, out: Scenario): Scenario {
    if stmts == [] then out else Effects(stmts[1..], Effect(stmts[0], out))
  }

  /** The scenario that statements declare. */
  function Declares(stmts: seq<Stmt>): Scenario {
    Finish(Effects(stmts, DEFAULT), 0)
  }

  // ----- one statement -----

  lemma LexemeAt(tokens: seq<Token>, c: nat, s: Stmt, k: nat)
    requires c + |Spell(s)| <= |tokens| && Lexemes(tokens)[c..c + |Spell(s)|] == Spell(s) && k < |Spell(s)|
    ensures LexemeOf(At(tokens, c + k)) == Spell(s)[k]
  {
    assert Lexemes(tokens)[c..c + |Spell(s)|][k] == Lexemes(tokens)[c + k];
  }

  lemma SpelledStatement(tokens: seq<Token>, c: nat, s: Stmt, out: Scenario)
    requires StmtOk(s)
    requires c + |Spell(s)| <= |tokens| && Lexemes(tokens)[c..c + |Spell(s)|] == Spell(s)
    ensures Arity(At(tokens, c).kind) == |Spell(s)|
    ensures Faults(tokens, c) == 0 && Declared(tokens, c, out) == Effect(s, out)
  {
    forall k: nat | k < |Spell(s)| ensures LexemeOf(At(tokens, c + k)) == Spell(s)[k] {
      LexemeAt(tokens, c, s, k);
    }
    hide Lexemes;
    assert LexemeOf(At(tokens, c + 0)) == Spell(s)[0];
    assert LexemeOf(At(tokens, c + 1)) == Spell(s)[1];
    assert LexemeOf(At(tokens, c + 2)) == Spell(s)[2];
    if |Spell(s)| > 3 {
      assert LexemeOf(At(tokens, c + 3)) == Spell(s)[3];
    }
    if |Spell(s)| > 4 {
      assert LexemeOf(At(tokens, c + 4)) == Spell(s)[4];
    }
    if |Spell(s)| > 5 {
      assert LexemeOf(At(tokens, c + 5)) == Spell(s)[5];
    }
  }

  /** The statement that begins at `c`, if nothing is wrong with it. */
  function StmtAt(tokens: seq<Token>, c: nat): Stmt {
    var (t1, t2, t3, t4) := (At(tokens, c + 1), At(tokens, c + 2), At(tokens, c + 3), At(tokens, c + 4));
    match At(tokens, c).kind
    case WORLD => World(t1.number, t2.number)
    case ENTITY => Entity(t1.kind, t2.number, t3.number, t4.number)
    case TILE => Tile(t1.number, t2.number, t3.kind)
    case TICK => Tick(t1.number)
    case _ => Expect(t2.number)
  }

  lemma FaultlessStatement(tokens: seq<Token>, c: nat, out: Scenario)
    requires c + Arity(At(tokens, c).kind) <= |tokens| && Arity(At(tokens, c).kind) > 0
    requires Faults(tokens, c) == 0
    ensures var s := StmtAt(tokens, c);
      && StmtOk(s) && |Spell(s)| == Arity(At(tokens, c).kind)
      && Lexemes(tokens)[c..c + |Spell(s)|] == Spell(s) && Declared(tokens, c, out) == Effect(s, out)
  {
    var s := StmtAt(tokens, c);
    var n := |Spell(s)|;
    assert n == Arity(At(tokens, c).kind);
    forall k | 0 <= k < n ensures Lexemes(tokens)[c..c + n][k] == Spell(s)[k] {
      assert Lexemes(tokens)[c..c + n][k] == Lexemes(tokens)[c + k] == LexemeOf(At(tokens, c + k));
      assert k == 0 || k == 1 || k == 2 || k == 3 || k == 4 || k == 5;
    }
  }

  // ----- whole token streams -----

  /** The tokens from `c` on begin with these statements and an EOF. */
  ghost predicate Begins(tokens: seq<Token>, c: nat, stmts: seq<Stmt>) {
    && AllOk(stmts)
    && c + |SpellAll(stmts)| <= |tokens|
    && Lexemes(tokens)[c..c + |SpellAll(stmts)|] == SpellAll(stmts)
  }

  lemma SplitSlice<T>(s: seq<T>, c: nat, head: seq<T>, tail: seq<T>)
    requires c + |head| + |tail| <= |s|
    ensures s[c..c + |head| + |tail|] == head + tail <==>
      s[c..c + |head|] == head && s[c + |head|..c + |head| + |tail|] == tail
  {
    var all := s[c..c + |head| + |tail|];
    assert all[..|head|] == s[c..c + |head|];
    assert all[|head|..] == s[c + |head|..c + |head| + |tail|];
    assert (head + tail)[..|head|] == head && (head + tail)[|head|..] == tail;
    assert all == all[..|head|] + all[|head|..];
  }

  lemma AllOkStep(stmts: seq<Stmt>)
    requires stmts != []
    ensures AllOk(stmts) <==> StmtOk(stmts[0]) && AllOk(stmts[1..])
  {
    hide StmtOk;
    assert stmts == [stmts[0]] + stmts[1..];
  }

  lemma BeginsStep(tokens: seq<Token>, c: nat, stmts: seq<Stmt>)
    requires stmts != [] && StmtOk(stmts[0]) && c + |Spell(stmts[0])| <= |tokens|
    ensures Begins(tokens, c, stmts) <==>
      && Lexemes(tokens)[c..c + |Spell(stmts[0])|] == Spell(stmts[0])
      && Begins(tokens, c + |Spell(stmts[0])|, stmts[1..])
  {
    hide Spell;
    hide AllOk;
    hide StmtOk;
    AllOkStep(stmts);
    assert SpellAll(stmts) == Spell(stmts[0]) + SpellAll(stmts[1..]);
    hide SpellAll;
    if c + |SpellAll(stmts)| <= |tokens| {
      SplitSlice(Lexemes(tokens), c, Spell(stmts[0]), SpellAll(stmts[1..]));
    }
  }

  /** Complete statements parse to their declarations, adding no error; the parser never hangs. */
  lemma {:induction false} StatementsParse(tokens: seq<Token>, c: nat, stmts: seq<Stmt>, errors: nat, out: Scenario)
    requires Begins(tokens, c, stmts)
    ensures ParseFrom(tokens, c, errors, out) == Parsed(Finish(Effects(stmts, out), errors))
    decreases |stmts|
  {
    hide Faults;
    hide Declared;
    hide Effect;
    if stmts == [] {
      assert LexemeOf(tokens[c]) == Lexemes(tokens)[c..c + 1][0] == Word(EOF);
    } else {
      var s := stmts[0];
      BeginsStep(tokens, c, stmts);
      SpelledStatement(tokens, c, s, out);
      StatementsParse(tokens, c + |Spell(s)|, stmts[1..], errors, Effect(s, out));
    }
  }

  lemma {:induction false} ErrorsOnlyGrow(tokens: seq<Token>, c: nat, errors: nat, out: Scenario)
    requires c <= |tokens|
    ensures var r := ParseFrom(tokens, c, errors, out); r.Parsed? ==> r.scenario.errors >= errors
    decreases |tokens| - c
  {
    hide Faults;
    hide Declared;
    if c < |tokens| && tokens[c].kind != EOF {
      if Arity(tokens[c].kind) > 0 {
        ErrorsOnlyGrow(tokens, Forward(tokens, c, Arity(tokens[c].kind)),
                       errors + Faults(tokens, c), Declared(tokens, c, out));
      } else if StopAt(tokens, c + 1) < |tokens| {
        ErrorsOnlyGrow(tokens, AfterStop(tokens, c + 1), errors + 1, out);
      }
    }
  }

  lemma EofBegins(tokens: seq<Token>, c: nat)
    requires c < |tokens| && tokens[c].kind == EOF
    ensures Begins(tokens, c, [])
  {
    assert Lexemes(tokens)[c..c + 1] == [Word(EOF)];
  }

  lemma FaultlessBegins(tokens: seq<Token>, c: nat, out: Scenario, rest: seq<Stmt>)
    requires c + Arity(At(tokens, c).kind) <= |tokens| && Arity(At(tokens, c).kind) > 0
    requires Faults(tokens, c) == 0
    requires Begins(tokens, c + Arity(At(tokens, c).kind), rest)
    ensures Begins(tokens, c, [StmtAt(tokens, c)] + rest)
  {
    hide Begins;
    hide Faults;
    hide Spell;
    hide StmtAt;
    hide Declared;
    hide StmtOk;
    FaultlessStatement(tokens, c, out);
    var stmts := [StmtAt(tokens, c)] + rest;
    assert stmts[1..] == rest;
    BeginsStep(tokens, c, stmts);
  }

  /** A statement cut short by the end of the tokens leaves the parser where it cannot end. */
  lemma CutShortHangs(tokens: seq<Token>, c: nat, errors: nat, out: Scenario)
    requires c < |tokens| && tokens[c].kind != EOF && Arity(tokens[c].kind) > 0
    requires c + Arity(tokens[c].kind) >= |tokens|
    ensures ParseFrom(tokens, c, errors, out).Hangs?
  {
    hide Faults;
    hide Declared;
  }

  /** Recovers the statements behind a parse that found nothing wrong. */
  lemma {:induction false} ParseIsStatements(tokens: seq<Token>, c: nat, errors: nat, out: Scenario)
    returns (stmts: seq<Stmt>)
    requires c <= |tokens|
    requires ParseFrom(tokens, c, errors, out).Parsed? && ParseFrom(tokens, c, errors, out).scenario.errors == errors
    ensures Begins(tokens, c, stmts)
    decreases |tokens| - c
  {
    hide Faults;
    hide Declared;
    hide Begins;
    hide StmtAt;
    if tokens[c].kind == EOF {
      EofBegins(tokens, c);
      stmts := [];
    } else if Arity(tokens[c].kind) > 0 {
      if c + Arity(tokens[c].kind) >= |tokens| {
        CutShortHangs(tokens, c, errors, out);
      }
      var next := c + Arity(tokens[c].kind);
      ErrorsOnlyGrow(tokens, next, errors + Faults(tokens, c), Declared(tokens, c, out));
      var rest := ParseIsStatements(tokens, next, errors, Declared(tokens, c, out));
      FaultlessBegins(tokens, c, out, rest);
      stmts := [StmtAt(tokens, c)] + rest;
    } else {
      ErrorsOnlyGrow(tokens, AfterStop(tokens, c + 1), errors + 1, out);
    }
  }

  // ----- whole texts -----

  /** The text is some spelling of the statements: any letter case, any blanks and comments. */
  ghost predicate Spells(source: seq<Lexer.Byte>, stmts: seq<Stmt>) {
    AllOk(stmts) && exists pieces :: SpelledBy(source, stmts, pieces)
  }

  ghost predicate SpelledBy(source: seq<Lexer.Byte>, stmts: seq<Stmt>, pieces: seq<Spelling.Piece>) {
    && Spelling.WellSpelled(pieces) && Spelling.Text(pieces) == source
    && Lexemes(Spelling.TokensOf(pieces, 0)) == SpellAll(stmts)
  }

  /** Scanned without errors and parsed without errors, to this scenario. */
  ghost predicate Accepts(source: seq<Lexer.Byte>, scenario: Scenario) {
    var scan := Lexer.ScanFrom(source, 0);
    && scan.Scanned? && scan.errors == 0
    && ParseFrom(scan.tokens, 0, 0, DEFAULT) == Parsed(scenario) && scenario.errors == 0
  }

  /** Every spelling of complete statements is accepted, and gives exactly their declarations. */
  lemma SpellingIsAccepted(source: seq<Lexer.Byte>, stmts: seq<Stmt>)
    requires Spells(source, stmts)
    ensures Accepts(source, Finish(Effects(stmts, DEFAULT), 0))
  {
    var pieces :| SpelledBy(source, stmts, pieces);
    assert source[0..] == source;
    Spelling.ScanSpelling(source, 0, pieces);
    var tokens := Spelling.TokensOf(pieces, 0);
    assert |tokens| == |Lexemes(tokens)|;
    assert Lexemes(tokens)[0..|tokens|] == SpellAll(stmts);
    StatementsParse(tokens, 0, stmts, 0, DEFAULT);
  }

  lemma {:induction false} EofEndsSpelling(stmts: seq<Stmt>)
    ensures |SpellAll(stmts)| > 0 && SpellAll(stmts)[|SpellAll(stmts)| - 1] == Word(EOF)
  {
    if stmts != [] {
      EofEndsSpelling(stmts[1..]);
    }
  }

  /** Whatever is accepted is a spelling of complete statements. */
  lemma AcceptedIsSpelling(source: seq<Lexer.Byte>, scenario: Scenario) returns (stmts: seq<Stmt>)
    requires Accepts(source, scenario)
    ensures Spells(source, stmts) && scenario == Finish(Effects(stmts, DEFAULT), 0)
  {
    assert source[0..] == source;
    var pieces := Spelling.Decompose(source, 0);
    Spelling.ScanSpelling(source, 0, pieces);
    var tokens := Spelling.TokensOf(pieces, 0);
    stmts := ParseIsStatements(tokens, 0, 0, DEFAULT);
    StatementsParse(tokens, 0, stmts, 0, DEFAULT);
    Lexer.ScanIsWellScanned(source, 0);
    EofEndsSpelling(stmts);
    var n := |SpellAll(stmts)|;
    assert Lexemes(tokens)[0..n][n - 1] == LexemeOf(tokens[n - 1]);
    assert Lexemes(tokens) == Lexemes(tokens)[0..n];
    assert SpelledBy(source, stmts, pieces);
  }

  /** The language: a text is accepted exactly when it spells complete statements. */
  lemma AcceptedIffSpelling(source: seq<Lexer.Byte>)
    ensures (exists scenario :: Accepts(source, scenario)) <==> (exists stmts :: Spells(source, stmts))
  {
    if scenario :| Accepts(source, scenario) {
      var stmts := AcceptedIsSpelling(source, scenario);
    }
    if stmts :| Spells(source, stmts) {
      SpellingIsAccepted(source, stmts);
    }
  }

  lemma SpellIsPrefixCode(s: Stmt, t: Stmt, x: seq<Lexeme>, y: seq<Lexeme>)
    requires Spell(s) + x == Spell(t) + y
    ensures s == t && x == y
  {
    var (a, b) := (Spell(s) + x, Spell(t) + y);
    assert a[0] == b[0] && |Spell(s)| == |Spell(t)|;
    assert Spell(s) == a[..|Spell(s)|] == b[..|Spell(t)|] == Spell(t);
    assert x == a[|Spell(s)|..] && y == b[|Spell(t)|..];
    assert Spell(s)[1] == Spell(t)[1] && Spell(s)[2] == Spell(t)[2];
    assert |Spell(s)| > 4 ==> Spell(s)[3] == Spell(t)[3];
    assert |Spell(s)| > 5 ==> Spell(s)[4] == Spell(t)[4];
  }

  lemma {:induction false} SpellAllInjective(a: seq<Stmt>, b: seq<Stmt>)
    requires SpellAll(a) == SpellAll(b)
    ensures a == b
  {
    if a != [] && b != [] {
      SpellIsPrefixCode(a[0], b[0], SpellAll(a[1..]), SpellAll(b[1..]));
      SpellAllInjective(a[1..], b[1..]);
    }
  }

  /** The language is unambiguous: a text spells at most one list of statements. */
  lemma SpellingIsUnambiguous(source: seq<Lexer.Byte>, a: seq<Stmt>, b: seq<Stmt>)
    requires Spells(source, a) && Spells(source, b)
    ensures a == b
  {
    hide Spelling.WellSpelled;
    hide SpellAll;
    var p :| SpelledBy(source, a, p);
    var q :| SpelledBy(source, b, q);
    assert source[0..] == source;
    Spelling.ScanSpelling(source, 0, p);
    Spelling.ScanSpelling(source, 0, q);
    SpellAllInjective(a, b);
  }

  // ----- where the parser hangs -----

  /** Every statement keyword has as many tokens after it, before the last one, as it consumes. */
  predicate RoomForStatements(tokens: seq<Token>) {
    forall c :: 0 <= c < |tokens| ==> c + Arity(tokens[c].kind) < |tokens|
  }

  /** With EOF last and room for every statement, the parser returns, errors or not. */
  lemma {:induction false} RoomMeansNoHang(tokens: seq<Token>, c: nat, errors: nat, out: Scenario)
    requires c < |tokens| && tokens[|tokens| - 1].kind == EOF && RoomForStatements(tokens)
    ensures ParseFrom(tokens, c, errors, out).Parsed?
    decreases |tokens| - c
  {
    hide Faults;
    hide Declared;
    if tokens[c].kind != EOF {
      if Arity(tokens[c].kind) > 0 {
        RoomMeansNoHang(tokens, c + Arity(tokens[c].kind), errors + Faults(tokens, c), Declared(tokens, c, out));
      } else {
        StopsByEof(tokens, c + 1);
        RoomMeansNoHang(tokens, AfterStop(tokens, c + 1), errors + 1, out);
      }
    }
  }

  lemma {:induction false} StopsByEof(tokens: seq<Token>, c: nat)
    requires c < |tokens| && tokens[|tokens| - 1].kind == EOF
    ensures StopAt(tokens, c) < |tokens| && AfterStop(tokens, c) < |tokens|
    decreases |tokens| - c
  {
    if tokens[c].kind != SEMI && tokens[c].kind != EOF {
      StopsByEof(tokens, c + 1);
    }
  }

  /** A statement may begin at `d` when the parser reads from `c`. */
  ghost predicate Reached(tokens: seq<Token>, c: nat, d: nat)
    requires c <= |tokens|
    decreases |tokens| - c
  {
    c == d ||
    (c < |tokens| && tokens[c].kind != EOF
     && if Arity(tokens[c].kind) > 0 then Reached(tokens, Forward(tokens, c, Arity(tokens[c].kind)), d)
        else StopAt(tokens, c + 1) < |tokens| && Reached(tokens, AfterStop(tokens, c + 1), d))
  }

  /** A statement that begins at `d` takes the last token, or more. */
  ghost predicate CutShort(tokens: seq<Token>, d: nat) {
    d < |tokens| && Arity(tokens[d].kind) > 0 && d + Arity(tokens[d].kind) >= |tokens|
  }

  /** On streams that end in EOF, as every scan does, the parser loops forever exactly when some
      statement it comes to has fewer tokens left before that EOF than it consumes. */
  lemma {:induction false} HangsIffCutShort(tokens: seq<Token>, c: nat, errors: nat, out: Scenario)
    requires c < |tokens| && tokens[|tokens| - 1].kind == EOF
    ensures ParseFrom(tokens, c, errors, out).Hangs? <==> exists d :: Reached(tokens, c, d) && CutShort(tokens, d)
    decreases |tokens| - c
  {
    hide Faults;
    hide Declared;
    assert Reached(tokens, c, c);
    if tokens[c].kind != EOF {
      var n := Arity(tokens[c].kind);
      if n > 0 && c + n >= |tokens| {
        assert CutShort(tokens, c);
      } else if n > 0 {
        HangsIffCutShort(tokens, c + n, errors + Faults(tokens, c), Declared(tokens, c, out));
        assert forall d :: Reached(tokens, c, d) <==> d == c || Reached(tokens, c + n, d);
      } else {
        StopsByEof(tokens, c + 1);
        HangsIffCutShort(tokens, AfterStop(tokens, c + 1), errors + 1, out);
        assert forall d :: Reached(tokens, c, d) <==> d == c || Reached(tokens, AfterStop(tokens, c + 1), d);
      }
    }
  }

  /** Statements of which only the last semicolon is missing. */
  function Unterminated(stmts: seq<Stmt>): seq<Lexeme>
    requires stmts != []
  {
    var spelled := Spell(stmts[0]);
    if |stmts| == 1 then spelled[..|spelled| - 1] + [Word(EOF)] else spelled + Unterminated(stmts[1..])
  }

  /** The keyword of a statement says how many tokens it takes. */
  lemma KeywordArity(s: Stmt)
    requires StmtOk(s)
    ensures |Spell(s)| > 1 && Spell(s)[0].Word? && Spell(s)[0].kind != EOF && Arity(Spell(s)[0].kind) == |Spell(s)|
  {
  }

  lemma UnterminatedShape(stmts: seq<Stmt>)
    requires stmts != [] && AllOk(stmts)
    ensures var (n, u) := (|Spell(stmts[0])|, Unterminated(stmts));
      && |u| >= n && u[0] == Spell(stmts[0])[0]
      && (if |stmts| == 1 then |u| == n else u[n..] == Unterminated(stmts[1..]))
  {
    hide Spell;
    KeywordArity(stmts[0]);
  }

  /** A missing last semicolon is never reported: the EOF is consumed in its place, and the
      parser hangs. */
  lemma {:induction false} MissingSemicolonHangs(
    tokens: seq<Token>, c: nat, stmts: seq<Stmt>, errors: nat, out: Scenario)
    requires stmts != [] && AllOk(stmts) && c <= |tokens|
    requires Lexemes(tokens)[c..] == Unterminated(stmts)
    ensures ParseFrom(tokens, c, errors, out).Hangs?
    decreases |stmts|
  {
    hide Faults;
    hide Declared;
    hide Spell;
    hide Unterminated;
    hide Arity;
    hide StmtOk;
    var n := |Spell(stmts[0])|;
    KeywordArity(stmts[0]);
    UnterminatedShape(stmts);
    var rest := Lexemes(tokens)[c..];
    assert LexemeOf(tokens[c]) == rest[0];
    assert Arity(tokens[c].kind) == n by {
      hide ParseFrom;
    }
    if |stmts| > 1 {
      assert Lexemes(tokens)[c + n..] == rest[n..];
      MissingSemicolonHangs(tokens, c + n, stmts[1..], errors + Faults(tokens, c), Declared(tokens, c, out));
    }
  }

  /** The text is some spelling of statements of which only the last semicolon is missing. */
  ghost predicate SpellsUnterminated(source: seq<Lexer.Byte>, stmts: seq<Stmt>) {
    && stmts != [] && AllOk(stmts)
    && exists pieces ::
      && Spelling.WellSpelled(pieces) && Spelling.Text(pieces) == source
      && Lexemes(Spelling.TokensOf(pieces, 0)) == Unterminated(stmts)
  }

  /** Scanned without errors, and the parser never returns. */
  ghost predicate HangsOn(source: seq<Lexer.Byte>) {
    var scan := Lexer.ScanFrom(source, 0);
    scan.Scanned? && scan.errors == 0 && ParseFrom(scan.tokens, 0, 0, DEFAULT).Hangs?
  }

  /** Every text that lacks only the last semicolon makes the program loop forever. */
  lemma UnterminatedTextHangs(source: seq<Lexer.Byte>, stmts: seq<Stmt>)
    requires SpellsUnterminated(source, stmts)
    ensures HangsOn(source)
  {
    hide Spelling.WellSpelled;
    hide Unterminated;
    var pieces :| Spelling.WellSpelled(pieces) && Spelling.Text(pieces) == source
      && Lexemes(Spelling.TokensOf(pieces, 0)) == Unterminated(stmts);
    assert source[0..] == source;
    Spelling.ScanSpelling(source, 0, pieces);
    var tokens := Spelling.TokensOf(pieces, 0);
    assert Lexemes(tokens)[0..] == Lexemes(tokens);
    MissingSemicolonHangs(tokens, 0, stmts, 0, DEFAULT);
  }

  /** The bytes of TICK 4 and nothing more. */
  const TICK_FOUR: seq<Lexer.Byte> := [84, 73, 67, 75, 32, 52]

  lemma TickFourPieces() returns (pieces: seq<Spelling.Piece>)
    ensures Spelling.WellSpelled(pieces) && Spelling.Text(pieces) == TICK_FOUR
    ensures Spelling.TokensOf(pieces, 0) == [Token(TICK, 0, 0), Token(NUMBER, 4, 5), Token(EOF, 0, 6)]
  {
    hide Spelling.WellSpelled;
    hide Spelling.Text;
    hide Spelling.TokensOf;
    var word: seq<Lexer.Byte>, digits: seq<Lexer.Byte> := [84, 73, 67, 75], [52];
    var p, q, r := Spelling.Name(word, TICK), Spelling.Space(32), Spelling.Number(digits, 4);
    assert Lexer.Reads(word, TICK);
    assert digits == Numerals.Zeros(0) + Numerals.Numeral(4);
    Spelling.NoPieces();
    Spelling.ConsSpelling(r, []);
    Spelling.ConsSpelling(q, [r] + []);
    Spelling.ConsSpelling(p, [q] + ([r] + []));
    Spelling.ConsTokens(r, [], 5);
    Spelling.ConsTokens(q, [r] + [], 4);
    Spelling.ConsTokens(p, [q] + ([r] + []), 0);
    NoTokens(6);
    pieces := [p] + ([q] + ([r] + []));
    assert word + ([32] + ([52] + [])) == TICK_FOUR;
  }

  lemma NoTokens(offset: nat)
    ensures Spelling.WellSpelled([]) && Spelling.TokensOf([], offset) == [Token(EOF, 0, offset)]
  {
  }

  lemma TickFourHangs()
    ensures HangsOn(TICK_FOUR)
  {
    hide Spelling.WellSpelled;
    hide HangsOn;
    var pieces := TickFourPieces();
    var tokens := Spelling.TokensOf(pieces, 0);
    assert Lexemes(tokens) == [Word(TICK), Num(4), Word(EOF)] == Unterminated([Tick(4)]);
    UnterminatedTextHangs(TICK_FOUR, [Tick(4)]);
  }
}
