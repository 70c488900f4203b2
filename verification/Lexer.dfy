/** The byte lexer of the scenario language (the embedded module `lexer.rue`). */
module Lexer {
  import opened Metric
  import opened Tokens

  type Byte = n: nat | n < 256

  /** `Overflow` is the trap of a decimal number that does not fit 64 bits. */
  datatype Scan = Scanned(tokens: seq<Token>, errors: nat) | Overflow

  predicate Alpha(b: Byte) {
    65 <= b <= 90 || 97 <= b <= 122 || b == 95
  }

  predicate Digit(b: Byte) {
    48 <= b <= 57
  }

  predicate Blank(b: Byte) {
    b == 32 || b == 9 || b == 10 || b == 13
  }

  function Upper(b: Byte): Byte {
    if 97 <= b <= 122 then b - 32 else b
  }

  function UpperText(word: seq<Byte>): string {
    seq(|word|, i requires 0 <= i < |word| => Upper(word[i]) as char)
  }

  function TextKind(text: string): (kind: Kind)
    ensures kind !in {EOF, NUMBER, SEMI}
  {
    if text == "WORLD" then WORLD
    else if text == "ENTITY" then ENTITY
    else if text == "TILE" then TILE
    else if text == "TICK" then TICK
    else if text == "EXPECT" then EXPECT
    else if text == "WORKER" then WORKER
    else if text == "SCOUT" then SCOUT
    else if text == "BUILDER" then BUILDER
    else if text == "GUARD" then GUARD
    else if text == "PLAIN" then PLAIN
    else if text == "WALL" then WALL
    else if text == "WATER" then WATER
    else if text == "FOREST" then FOREST
    else if text == "ENTITIES" then ENTITIES
    else INVALID
  }

  function WordKind(word: seq<Byte>): (kind: Kind)
    ensures kind !in {EOF, NUMBER, SEMI}
  {
    TextKind(UpperText(word))
  }

  /** The word is the keyword of the kind, each letter in either case. */
  predicate Reads(word: seq<Byte>, kind: Kind) {
    var text := Keyword(kind);
    && text != "" && |word| == |text|
    && forall k :: 0 <= k < |word| ==> word[k] == text[k] as int || word[k] == text[k] as int + 32
  }

  lemma KeywordsAreLetters(kind: Kind)
    ensures forall k :: 0 <= k < |Keyword(kind)| ==> 'A' <= Keyword(kind)[k] <= 'Z'
  {
  }

  lemma ReadsIsUpperText(word: seq<Byte>, kind: Kind)
    ensures Reads(word, kind) <==> Keyword(kind) != "" && UpperText(word) == Keyword(kind)
  {
    hide Keyword;
    KeywordsAreLetters(kind);
    var text := Keyword(kind);
    if |word| == |text| {
      forall k | 0 <= k < |word|
        ensures UpperText(word)[k] == text[k] <==> word[k] == text[k] as int || word[k] == text[k] as int + 32
      {
      }
    }
  }

  lemma KeywordHasKind(kind: Kind)
    ensures Keyword(kind) != "" ==> TextKind(Keyword(kind)) == kind
  {
  }

  lemma KindHasKeyword(text: string)
    ensures TextKind(text) != INVALID ==> text != "" && Keyword(TextKind(text)) == text
  {
  }

  /** A word has a keyword's kind exactly when it reads as that keyword, in either case. */
  lemma WordKindReads(word: seq<Byte>, kind: Kind)
    requires kind != INVALID
    ensures WordKind(word) == kind <==> Reads(word, kind)
  {
    hide Reads;
    hide UpperText;
    hide TextKind;
    hide Keyword;
    ReadsIsUpperText(word, kind);
    KeywordHasKind(kind);
    KindHasKeyword(UpperText(word));
  }

  lemma ReadWordsAreLetters(word: seq<Byte>, kind: Kind)
    requires Reads(word, kind)
    ensures word != [] && kind !in {INVALID, NUMBER, SEMI, EOF} && forall k :: 0 <= k < |word| ==> Alpha(word[k])
  {
    KeywordsAreLetters(kind);
    assert kind in {INVALID, NUMBER, SEMI, EOF} ==> Keyword(kind) == "";
    hide Keyword;
  }

  // ----- runs of bytes -----

  /** The end of the run, from `i` on, of bytes that are digits, letters, or on the same line. */
  datatype Class = Digits | Letters | Line

  predicate InClass(c: Class, b: Byte) {
    match c
    case Digits => Digit(b)
    case Letters => Alpha(b)
    case Line => b != 10
  }

  function RunEnd(source: seq<Byte>, c: Class, i: nat): (end: nat)
    requires i <= |source|
    ensures i <= end <= |source|
    ensures forall k :: i <= k < end ==> InClass(c, source[k])
    ensures end < |source| ==> !InClass(c, source[end])
    decreases |source| - i
  {
    if i < |source| && InClass(c, source[i]) then RunEnd(source, c, i + 1) else i
  }

  /** The decimal value of the digits from `a` to `b`. */
  function Value(source: seq<Byte>, a: nat, b: nat): nat
    requires a <= b <= |source| && forall k :: a <= k < b ==> Digit(source[k])
  {
    if a == b then 0 else assert Digit(source[b - 1]); Value(source, a, b - 1) * 10 + (source[b - 1] - 48)
  }

  // ----- the scan as a function -----

  function After(tokens: seq<Token>, errors: nat, rest: Scan): Scan {
    match rest
    case Overflow => Overflow
    case Scanned(ts, es) => Scanned(tokens + ts, errors + es)
  }

  /** One turn of the lexer's loop. */
  datatype Turn = Turn(tokens: seq<Token>, errors: nat, next: nat) | Trap

  function Lex(source: seq<Byte>, i: nat): (t: Turn)
    requires i < |source|
    ensures t.Turn? ==> i < t.next <= |source|
  {
    var b := source[i];
    if Blank(b) then Turn([], 0, i + 1)
    else if b == 35 then Turn([], 0, RunEnd(source, Line, i))
    else if b == 59 then Turn([Token(SEMI, 0, i)], 0, i + 1)
    else if Digit(b) then
      var end := RunEnd(source, Digits, i);
      if Value(source, i, end) >= TWO64 then Trap else Turn([Token(NUMBER, Value(source, i, end), i)], 0, end)
    else if Alpha(b) then
      var end := RunEnd(source, Letters, i);
      var kind := WordKind(source[i..end]);
      Turn([Token(kind, 0, i)], if kind == INVALID then 1 else 0, end)
    else
      Turn([Token(INVALID, 0, i)], 1, i + 1)
  }

  function ScanFrom(source: seq<Byte>, i: nat): Scan
    requires i <= |source|
    decreases |source| - i
  {
    if i == |source| then Scanned([Token(EOF, 0, i)], 0)
    else
      match Lex(source, i)
      case Trap => Overflow
      case Turn(tokens, errors, next) => After(tokens, errors, ScanFrom(source, next))
  }

  // ----- the loop -----

  lemma {:induction false} ValueGrows(source: seq<Byte>, a: nat, m: nat, b: nat)
    requires a <= m <= b <= |source| && forall k :: a <= k < b ==> Digit(source[k])
    ensures Value(source, a, m) <= Value(source, a, b)
    decreases b
  {
    if m < b {
      ValueGrows(source, a, m, b - 1);
    }
  }

  method ScanNumber(source: seq<Byte>, start: nat) returns (overflow: bool, number: nat, i: nat)
    requires start < |source| && Digit(source[start])
    ensures var end := RunEnd(source, Digits, start);
      if overflow then Value(source, start, end) >= TWO64
      else i == end && number == Value(source, start, end) < TWO64
  {
    overflow, number, i := false, 0, start;
    while i < |source| && Digit(source[i])
      invariant start <= i <= |source| && forall k :: start <= k < i ==> Digit(source[k])
      invariant RunEnd(source, Digits, i) == RunEnd(source, Digits, start)
      invariant number == Value(source, start, i) < TWO64
    {
      var next := number * 10 + (source[i] - 48);
      if next >= TWO64 {
        ValueGrows(source, start, i + 1, RunEnd(source, Digits, start));
        return true, 0, i;
      }
      number, i := next, i + 1;
    }
  }

  method SkipRun(source: seq<Byte>, c: Class, start: nat) returns (i: nat)
    requires start < |source| && InClass(c, source[start])
    ensures start < i == RunEnd(source, c, start)
  {
    i := start;
    while i < |source| && InClass(c, source[i])
      invariant start <= i <= |source| && RunEnd(source, c, i) == RunEnd(source, c, start)
    {
      i := i + 1;
    }
  }

  /** Compares a word, in upper case, with a text. */
  method WordEq(source: seq<Byte>, start: nat, end: nat, value: string) returns (eq: bool)
    requires start <= end <= |source|
    ensures eq <==> UpperText(source[start..end]) == value
  {
    if end - start != |value| {
      return false;
    }
    var text := UpperText(source[start..end]);
    var i := 0;
    while i < |value|
      invariant i <= |value| && text[..i] == value[..i]
    {
      assert text[i] == Upper(source[start + i]) as char;
      if Upper(source[start + i]) as char != value[i] {
        assert text[i] != value[i];
        return false;
      }
      i := i + 1;
    }
    assert text[..i] == text && value[..i] == value;
    eq := true;
  }

  method ScanWord(source: seq<Byte>, start: nat, end: nat) returns (kind: Kind)
    requires start <= end <= |source|
    ensures kind == WordKind(source[start..end])
  {
    hide UpperText;
    var eq := WordEq(source, start, end, "WORLD");
    if eq { return WORLD; }
    eq := WordEq(source, start, end, "ENTITY");
    if eq { return ENTITY; }
    eq := WordEq(source, start, end, "TILE");
    if eq { return TILE; }
    eq := WordEq(source, start, end, "TICK");
    if eq { return TICK; }
    eq := WordEq(source, start, end, "EXPECT");
    if eq { return EXPECT; }
    eq := WordEq(source, start, end, "WORKER");
    if eq { return WORKER; }
    eq := WordEq(source, start, end, "SCOUT");
    if eq { return SCOUT; }
    eq := WordEq(source, start, end, "BUILDER");
    if eq { return BUILDER; }
    eq := WordEq(source, start, end, "GUARD");
    if eq { return GUARD; }
    eq := WordEq(source, start, end, "PLAIN");
    if eq { return PLAIN; }
    eq := WordEq(source, start, end, "WALL");
    if eq { return WALL; }
    eq := WordEq(source, start, end, "WATER");
    if eq { return WATER; }
    eq := WordEq(source, start, end, "FOREST");
    if eq { return FOREST; }
    eq := WordEq(source, start, end, "ENTITIES");
    kind := if eq then ENTITIES else INVALID;
  }

  lemma AfterAfter(tokens: seq<Token>, errors: nat, turn: Turn, rest: Scan)
    requires turn.Turn?
    ensures After(tokens, errors, After(turn.tokens, turn.errors, rest)) ==
      After(tokens + turn.tokens, errors + turn.errors, rest)
  {
    if rest.Scanned? {
      assert tokens + (turn.tokens + rest.tokens) == (tokens + turn.tokens) + rest.tokens;
    }
  }

  method ScanAll(source: seq<Byte>) returns (out: Scan)
    ensures out == ScanFrom(source, 0)
  {
    hide WordKind;
    hide Value;
    var tokens: seq<Token>, errors: nat, i := [], 0, 0;
    while i < |source|
      invariant i <= |source|
      invariant After(tokens, errors, ScanFrom(source, i)) == ScanFrom(source, 0)
    {
      var byte := source[i];
      ghost var tokens0, errors0, turn := tokens, errors, Lex(source, i);
      if byte == 32 || byte == 9 || byte == 10 || byte == 13 {
        i := i + 1;
      } else if byte == 35 {
        i := SkipRun(source, Line, i);
      } else if byte == 59 {
        tokens := tokens + [Token(SEMI, 0, i)];
        i := i + 1;
      } else if Digit(byte) {
        var start := i;
        var overflow, number;
        overflow, number, i := ScanNumber(source, start);
        if overflow {
          return Overflow;
        }
        tokens := tokens + [Token(NUMBER, number, start)];
      } else if Alpha(byte) {
        var start := i;
        i := SkipRun(source, Letters, start);
        var kind := ScanWord(source, start, i);
        if kind == INVALID {
          errors := errors + 1;
        }
        tokens := tokens + [Token(kind, 0, start)];
      } else {
        errors := errors + 1;
        tokens := tokens + [Token(INVALID, 0, i)];
        i := i + 1;
      }
      assert tokens == tokens0 + turn.tokens && errors == errors0 + turn.errors && i == turn.next;
      AfterAfter(tokens0, errors0, turn, ScanFrom(source, i));
    }
    tokens := tokens + [Token(EOF, 0, |source|)];
    out := Scanned(tokens, errors);
  }

  // ----- what every scan looks like -----

  function InvalidCount(tokens: seq<Token>): nat {
    if tokens == [] then 0 else (if tokens[0].kind == INVALID then 1 else 0) + InvalidCount(tokens[1..])
  }

  /** A number token carries the value of the whole digit run around its offset. */
  ghost predicate CarriesRun(source: seq<Byte>, t: Token) {
    t.kind == NUMBER ==>
      && t.offset < |source| && Digit(source[t.offset])
      && (t.offset > 0 ==> !Digit(source[t.offset - 1]))
      && t.number == Value(source, t.offset, RunEnd(source, Digits, t.offset)) < TWO64
  }

  /** One EOF, at the end, and strictly increasing offsets. */
  ghost predicate InOrder(i: nat, end: nat, tokens: seq<Token>) {
    && |tokens| > 0 && tokens[|tokens| - 1] == Token(EOF, 0, end)
    && (forall k :: 0 <= k < |tokens| - 1 ==> tokens[k].kind != EOF)
    && (forall k :: 0 <= k < |tokens| ==> i <= tokens[k].offset)
    && (forall j, k :: 0 <= j < k < |tokens| ==> tokens[j].offset < tokens[k].offset)
  }

  ghost predicate AllCarryRuns(source: seq<Byte>, tokens: seq<Token>) {
    forall k :: 0 <= k < |tokens| ==> CarriesRun(source, tokens[k])
  }

  /** The tokens are in order, numbers carry their values, and each invalid token is one error. */
  ghost predicate WellScanned(source: seq<Byte>, i: nat, tokens: seq<Token>, errors: nat) {
    InOrder(i, |source|, tokens) && AllCarryRuns(source, tokens) && errors == InvalidCount(tokens)
  }

  lemma OneTurn(source: seq<Byte>, i: nat)
    requires i < |source| && (i > 0 ==> !Digit(source[i - 1]) || !Digit(source[i])) && Lex(source, i).Turn?
    ensures var Turn(emitted, errors, next) := Lex(source, i);
      && (emitted == [] ||
               (|emitted| == 1 && emitted[0].kind != EOF && emitted[0].offset == i && CarriesRun(source, emitted[0])))
      && errors == InvalidCount(emitted)
      && (next < |source| ==> !Digit(source[next - 1]) || !Digit(source[next]))
  {
    hide WordKind;
    var Turn(emitted, errors, next) := Lex(source, i);
    assert InClass(Letters, source[next - 1]) || InClass(Digits, source[next - 1]) || next == i + 1
           || (next < |source| ==> source[next] == 10);
  }

  lemma EmptyScan(source: seq<Byte>, i: nat)
    requires i <= |source|
    ensures WellScanned(source, i, [Token(EOF, 0, |source|)], 0)
  {
    var tokens := [Token(EOF, 0, |source|)];
    assert tokens[1..] == [];
    assert CarriesRun(source, tokens[0]);
  }

  lemma {:induction false} ScanIsWellScanned(source: seq<Byte>, i: nat)
    requires i <= |source| && (0 < i < |source| ==> !Digit(source[i - 1]) || !Digit(source[i]))
    ensures var scan := ScanFrom(source, i);
      scan.Scanned? ==> WellScanned(source, i, scan.tokens, scan.errors)
    decreases |source| - i
  {
    hide WellScanned;
    hide CarriesRun;
    hide Lex;
    hide InvalidCount;
    EmptyScan(source, i);
    if i < |source| && Lex(source, i).Turn? {
      OneTurn(source, i);
      var Turn(emitted, errors, next) := Lex(source, i);
      ScanIsWellScanned(source, next);
      var rest := ScanFrom(source, next);
      if rest.Scanned? {
        PrependWellScanned(source, i, next, emitted, rest.tokens, rest.errors);
      }
    }
  }

  lemma PrependWellScanned(source: seq<Byte>, i: nat, next: nat, emitted: seq<Token>, tokens: seq<Token>, errors: nat)
    requires WellScanned(source, next, tokens, errors) && i < next
    requires emitted == [] ||
      (|emitted| == 1 && emitted[0].kind != EOF && emitted[0].offset == i && CarriesRun(source, emitted[0]))
    ensures WellScanned(source, i, emitted + tokens, InvalidCount(emitted) + errors)
  {
    hide CarriesRun;
    hide InOrder;
    hide AllCarryRuns;
    hide InvalidCount;
    ConsInvalid(emitted, tokens);
    if emitted == [] {
      assert emitted + tokens == tokens;
      EarlierStart(i, next, |source|, tokens);
    } else {
      assert emitted == [emitted[0]];
      ConsInOrder(i, next, |source|, emitted[0], tokens);
      ConsCarriesRun(source, emitted[0], tokens);
    }
  }

  lemma ConsInvalid(emitted: seq<Token>, tokens: seq<Token>)
    requires |emitted| <= 1
    ensures InvalidCount(emitted + tokens) == InvalidCount(emitted) + InvalidCount(tokens)
  {
    if emitted == [] {
      assert emitted + tokens == tokens;
    } else {
      assert (emitted + tokens)[1..] == tokens && emitted[1..] == [];
    }
  }

  lemma EarlierStart(i: nat, next: nat, end: nat, tokens: seq<Token>)
    requires InOrder(next, end, tokens) && i < next
    ensures InOrder(i, end, tokens)
  {
  }

  lemma ConsInOrder(i: nat, next: nat, end: nat, t: Token, tokens: seq<Token>)
    requires InOrder(next, end, tokens) && i < next && t.kind != EOF && t.offset == i
    ensures InOrder(i, end, [t] + tokens)
  {
  }

  lemma ConsCarriesRun(source: seq<Byte>, t: Token, tokens: seq<Token>)
    requires CarriesRun(source, t) && AllCarryRuns(source, tokens)
    ensures AllCarryRuns(source, [t] + tokens)
  {
    hide CarriesRun;
  }
}
