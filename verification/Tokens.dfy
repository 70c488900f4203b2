/** Tokens of the scenario language (the embedded module `token.rue`). */
module Tokens {

  datatype Kind =
    | EOF | NUMBER
    | WORLD | ENTITY | TILE | TICK | EXPECT
    | WORKER | SCOUT | BUILDER | GUARD
    | PLAIN | WALL | WATER | FOREST
    | ENTITIES | SEMI | INVALID

  datatype Token = Token(kind: Kind, number: nat, offset: nat)

  const EMPTY := Token(INVALID, 0, 0)

  /** The text of each keyword; other kinds have none. */
  function Keyword(kind: Kind): string {
    match kind
    case WORLD => "WORLD"
    case ENTITY => "ENTITY"
    case TILE => "TILE"
    case TICK => "TICK"
    case EXPECT => "EXPECT"
    case WORKER => "WORKER"
    case SCOUT => "SCOUT"
    case BUILDER => "BUILDER"
    case GUARD => "GUARD"
    case PLAIN => "PLAIN"
    case WALL => "WALL"
    case WATER => "WATER"
    case FOREST => "FOREST"
    case ENTITIES => "ENTITIES"
    case _ => ""
  }

  /** What the parser looks at: the value of a number, the kind of anything else. */
  datatype Lexeme = Num(value: nat) | Word(kind: Kind)

  function LexemeOf(t: Token): Lexeme {
    if t.kind == NUMBER then Num(t.number) else Word(t.kind)
  }

  function Lexemes(tokens: seq<Token>): seq<Lexeme> {
    seq(|tokens|, i requires 0 <= i < |tokens| => LexemeOf(tokens[i]))
  }
}
