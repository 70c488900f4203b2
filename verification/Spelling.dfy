/** What texts the lexer accepts.  A text is cut into pieces: blanks, comments, words, numbers
    and semicolons.  Scanning a text of well-separated pieces gives exactly their tokens, and
    every text that scans without errors is such a text. */
module Spelling {
  import opened Metric
  import opened Tokens
  import opened Lexer
  import opened Numerals

  datatype Piece =
    | Space(b: Byte)
    | Comment(body: seq<Byte>)
    | Name(word: seq<Byte>, kind: Kind)
    | Number(digits: seq<Byte>, value: nat)
    | Semicolon

  function Bytes(p: Piece): seq<Byte> {
    match p
    case Space(b) => [b]
    case Comment(body) => [35] + body
    case Name(word, _) => word
    case Number(digits, _) => digits
    case Semicolon => [59]
  }

  function Text(pieces: seq<Piece>): seq<Byte> {
    if pieces == [] then [] else Bytes(pieces[0]) + Text(pieces[1..])
  }

  /** Words are keywords in either case, numbers decimal numerals that fit 64 bits. */
  ghost predicate PieceOk(p: Piece) {
    match p
    case Space(b) => b == 9 || b == 10 || b == 13 || b == 32
    case Comment(body) => 10 !in body
    case Name(word, kind) => Reads(word, kind)
    case Number(digits, value) => IsDecimal(digits, value) && value < TWO64
    case Semicolon => true
  }

  /** What the lexer computes from a piece's bytes. */
  lemma PieceIsRun(p: Piece)
    requires PieceOk(p)
    ensures p.Name? ==>
      p.word != [] && (forall k :: 0 <= k < |p.word| ==> Alpha(p.word[k])) && WordKind(p.word) == p.kind != INVALID
    ensures p.Number? ==>
      && p.digits != [] && (forall k :: 0 <= k < |p.digits| ==> Digit(p.digits[k]))
      && Value(p.digits, 0, |p.digits|) == p.value < TWO64
  {
    hide Reads;
    hide IsDecimal;
    hide WordKind;
    hide Value;
    if p.Name? {
      ReadWordsAreLetters(p.word, p.kind);
      WordKindReads(p.word, p.kind);
    } else if p.Number? {
      DecimalIsDigits(p.digits, p.value);
      DecimalIsValue(p.digits, p.value);
    }
  }

  /** Two words or two numbers need something between them, and a comment ends at a newline. */
  ghost predicate MayFollow(p: Piece, q: Piece) {
    match p
    case Comment(_) => q == Space(10)
    case Name(_, _) => !q.Name?
    case Number(_, _) => !q.Number?
    case _ => true
  }

  ghost predicate WellSpelled(pieces: seq<Piece>) {
    && (forall k :: 0 <= k < |pieces| ==> PieceOk(pieces[k]))
    && (forall k :: 0 < k < |pieces| ==> MayFollow(pieces[k - 1], pieces[k]))
  }

  /** The tokens of a piece that starts at `offset`. */
  function TokensOfPiece(p: Piece, offset: nat): seq<Token> {
    match p
    case Name(_, kind) => [Token(kind, 0, offset)]
    case Number(_, value) => [Token(NUMBER, value, offset)]
    case Semicolon => [Token(SEMI, 0, offset)]
    case _ => []
  }

  function TokensOf(pieces: seq<Piece>, offset: nat): seq<Token> {
    if pieces == [] then [Token(EOF, 0, offset)]
    else
      TokensOfPiece(pieces[0], offset) + TokensOf(pieces[1..], offset + |Bytes(pieces[0])|)
  }

  // ----- scanning a spelling gives back its tokens -----

  lemma {:induction false} RunEndUnique(source: seq<Byte>, c: Class, i: nat, end: nat)
    requires i <= end <= |source|
    requires forall k :: i <= k < end ==> InClass(c, source[k])
    requires end < |source| ==> !InClass(c, source[end])
    ensures RunEnd(source, c, i) == end
    decreases end - i
  {
    if i < end {
      RunEndUnique(source, c, i + 1, end);
    }
  }

  /** The byte after a piece cannot extend it. */
  lemma NextByteEndsRun(pieces: seq<Piece>, c: Class)
    requires WellSpelled(pieces) && |pieces| > 1
    requires (c == Digits && pieces[0].Number?) || (c == Letters && pieces[0].Name?)
      || (c == Line && pieces[0].Comment?)
    ensures |Text(pieces[1..])| > 0 && !InClass(c, Text(pieces[1..])[0])
  {
    hide PieceOk;
    var q := pieces[1];
    PieceIsRun(q);
    SpaceIsBlank(q);
    assert MayFollow(pieces[0], q);
    assert Text(pieces[1..])[0] == Bytes(q)[0];
    if q.Name? {
      assert Alpha(q.word[0]);
    } else if q.Number? {
      assert Digit(q.digits[0]);
    }
  }

  lemma SpaceIsBlank(p: Piece)
    requires PieceOk(p)
    ensures p.Space? ==> Blank(p.b) && !Digit(p.b) && !Alpha(p.b)
    ensures p.Comment? ==> 10 !in p.body
  {
  }

  /** The class of bytes that a piece is a run of. */
  predicate RunPiece(p: Piece, c: Class) {
    match c
    case Digits => p.Number?
    case Letters => p.Name?
    case Line => p.Comment?
  }

  /** A run piece in the text is scanned as one maximal run. */
  lemma RunOfPiece(source: seq<Byte>, i: nat, pieces: seq<Piece>, c: Class)
    requires WellSpelled(pieces) && pieces != [] && RunPiece(pieces[0], c)
    requires i <= |source| && source[i..] == Text(pieces)
    ensures i + |Bytes(pieces[0])| <= |source|
    ensures RunEnd(source, c, i) == i + |Bytes(pieces[0])|
  {
    hide PieceOk;
    var bytes := Bytes(pieces[0]);
    assert PieceOk(pieces[0]);
    PieceIsRun(pieces[0]);
    SpaceIsBlank(pieces[0]);
    var end := i + |bytes|;
    forall k | i <= k < end ensures InClass(c, source[k]) {
      assert source[k] == source[i..][k - i] == bytes[k - i];
    }
    if end < |source| {
      assert source[end] == source[i..][|bytes|] == Text(pieces[1..])[0];
      NextByteEndsRun(pieces, c);
    }
    RunEndUnique(source, c, i, end);
  }

  lemma FirstByte(p: Piece)
    requires PieceOk(p)
    ensures Bytes(p) != []
    ensures p.Name? ==> Alpha(Bytes(p)[0])
    ensures p.Number? ==> Digit(Bytes(p)[0])
    ensures Bytes(p)[0] == 10 ==> p == Space(10)
  {
    hide PieceOk;
    PieceIsRun(p);
    assert p.Name? ==> Alpha(p.word[0]);
    assert p.Number? ==> Digit(p.digits[0]);
  }

  /** The first piece and the rest of a spelled text. */
  lemma TextStep(source: seq<Byte>, i: nat, pieces: seq<Piece>)
    requires i <= |source| && source[i..] == Text(pieces) && WellSpelled(pieces) && pieces != []
    ensures PieceOk(pieces[0]) && WellSpelled(pieces[1..])
    ensures var end := i + |Bytes(pieces[0])|;
      i < end <= |source| && source[i..end] == Bytes(pieces[0]) && source[end..] == Text(pieces[1..])
  {
    var bytes := Bytes(pieces[0]);
    FirstByte(pieces[0]);
    assert source[i..][..|bytes|] == bytes;
    assert source[i..][|bytes|..] == Text(pieces[1..]);
  }

  /** One turn of the lexer takes exactly one piece. */
  lemma LexPiece(source: seq<Byte>, i: nat, p: Piece)
    requires PieceOk(p)
    requires i < i + |Bytes(p)| <= |source| && source[i..i + |Bytes(p)|] == Bytes(p)
    requires forall c :: RunPiece(p, c) ==> RunEnd(source, c, i) == i + |Bytes(p)|
    ensures Lex(source, i) == Turn(TokensOfPiece(p, i), 0, i + |Bytes(p)|)
  {
    hide Lex;
    assert RunPiece(p, Line) || RunPiece(p, Letters) || RunPiece(p, Digits) || p.Space? || p.Semicolon?;
    if p.Name? {
      LexWord(source, i, p);
    } else if p.Number? {
      LexNumber(source, i, p);
    } else {
      LexOther(source, i, p);
    }
  }

  lemma LexOther(source: seq<Byte>, i: nat, p: Piece)
    requires PieceOk(p) && !p.Name? && !p.Number?
    requires i < i + |Bytes(p)| <= |source| && source[i..i + |Bytes(p)|] == Bytes(p)
    requires p.Comment? ==> RunEnd(source, Line, i) == i + |Bytes(p)|
    ensures Lex(source, i) == Turn([], 0, i + |Bytes(p)|) || p.Semicolon?
    ensures p.Semicolon? ==> Lex(source, i) == Turn([Token(SEMI, 0, i)], 0, i + 1)
  {
    hide WordKind;
    hide Value;
    hide RunEnd;
    SpaceIsBlank(p);
    assert source[i] == source[i..i + |Bytes(p)|][0] == Bytes(p)[0];
  }

  lemma LexWord(source: seq<Byte>, i: nat, p: Piece)
    requires PieceOk(p) && p.Name?
    requires i < i + |p.word| <= |source| && source[i..i + |p.word|] == p.word
    requires RunEnd(source, Letters, i) == i + |p.word|
    ensures Lex(source, i) == Turn([Token(p.kind, 0, i)], 0, i + |p.word|)
  {
    hide WordKind;
    hide Value;
    hide RunEnd;
    hide PieceOk;
    PieceIsRun(p);
    assert source[i] == source[i..i + |p.word|][0] == p.word[0];
    assert Alpha(p.word[0]);
  }

  lemma LexNumber(source: seq<Byte>, i: nat, p: Piece)
    requires PieceOk(p) && p.Number?
    requires i < i + |p.digits| <= |source| && source[i..i + |p.digits|] == p.digits
    requires RunEnd(source, Digits, i) == i + |p.digits|
    ensures Lex(source, i) == Turn([Token(NUMBER, p.value, i)], 0, i + |p.digits|)
  {
    hide WordKind;
    hide Value;
    hide RunEnd;
    hide PieceOk;
    PieceIsRun(p);
    assert source[i] == source[i..i + |p.digits|][0] == p.digits[0];
    assert Digit(p.digits[0]);
    ValueShift(source, i, p.digits, |p.digits|);
  }

  lemma ScanTurn(source: seq<Byte>, i: nat, tokens: seq<Token>, next: nat, rest: seq<Token>)
    requires i < |source| && Lex(source, i) == Turn(tokens, 0, next) && ScanFrom(source, next) == Scanned(rest, 0)
    ensures ScanFrom(source, i) == Scanned(tokens + rest, 0)
  {
    hide Lex;
  }

  /** Scanning a spelling gives exactly its tokens, at their offsets, without errors. */
  lemma {:induction false} ScanSpelling(source: seq<Byte>, i: nat, pieces: seq<Piece>)
    requires i <= |source| && source[i..] == Text(pieces)
    requires WellSpelled(pieces)
    ensures ScanFrom(source, i) == Scanned(TokensOf(pieces, i), 0)
    decreases |pieces|
  {
    hide WellSpelled;
    hide Lex;
    hide TokensOfPiece;
    hide PieceOk;
    hide RunEnd;
    hide RunPiece;
    if pieces == [] {
      assert i == |source|;
    } else {
      hide Text;
      hide Bytes;
      hide ScanFrom;
      var p, end := pieces[0], i + |Bytes(pieces[0])|;
      TextStep(source, i, pieces);
      forall c | RunPiece(p, c) ensures RunEnd(source, c, i) == end {
        RunOfPiece(source, i, pieces, c);
      }
      LexPiece(source, i, p);
      ScanSpelling(source, end, pieces[1..]);
      ScanTurn(source, i, TokensOfPiece(p, i), end, TokensOf(pieces[1..], end));
    }
  }

  // ----- every text that scans without errors is a spelling -----

  /** The piece taken by one turn that makes no error, and the byte that starts the rest. */
  lemma PieceOfTurn(source: seq<Byte>, i: nat) returns (p: Piece)
    requires i < |source| && Lex(source, i).Turn? && Lex(source, i).errors == 0
    ensures var end := Lex(source, i).next;
      && PieceOk(p) && Bytes(p) == source[i..end]
      && (end < |source| ==>
           && (p.Comment? ==> source[end] == 10)
           && (p.Name? ==> !Alpha(source[end]))
           && (p.Number? ==> !Digit(source[end])))
  {
    hide Value;
    hide WordKind;
    hide Alpha;
    hide Digit;
    hide Reads;
    hide IsDecimal;
    var b, end := source[i], Lex(source, i).next;
    if Blank(b) {
      p := Space(b);
    } else if b == 35 {
      p := Comment(source[i + 1..end]);
    } else if b == 59 {
      p := Semicolon;
    } else if Digit(b) {
      p := NumberOfTurn(source, i);
    } else {
      p := NameOfTurn(source, i);
    }
  }

  lemma NumberOfTurn(source: seq<Byte>, i: nat) returns (p: Piece)
    requires i < |source| && Digit(source[i]) && Lex(source, i).Turn?
    ensures var end := Lex(source, i).next;
      p.Number? && p.digits == source[i..end] && PieceOk(p) && (end < |source| ==> !Digit(source[end]))
  {
    hide Value;
    hide IsDecimal;
    var end := RunEnd(source, Digits, i);
    assert !Blank(source[i]) && Lex(source, i).next == end;
    var digits := source[i..end];
    ValueShift(source, i, digits, end - i);
    DecimalIsValue(digits, Value(digits, 0, |digits|));
    p := Number(digits, Value(digits, 0, |digits|));
  }

  lemma NameOfTurn(source: seq<Byte>, i: nat) returns (p: Piece)
    requires i < |source| && Lex(source, i).Turn? && Lex(source, i).errors == 0
    requires !Blank(source[i]) && source[i] != 35 && source[i] != 59 && !Digit(source[i])
    ensures var end := Lex(source, i).next;
      p.Name? && p.word == source[i..end] && PieceOk(p) && (end < |source| ==> !Alpha(source[end]))
  {
    hide Value;
    hide WordKind;
    hide Blank;
    hide Digit;
    hide Reads;
    var word := source[i..Lex(source, i).next];
    WordKindReads(word, WordKind(word));
    p := Name(word, WordKind(word));
  }

  lemma NoPieces()
    ensures WellSpelled([]) && Text([]) == []
  {
  }

  lemma ConsSpelling(p: Piece, rest: seq<Piece>)
    requires PieceOk(p) && WellSpelled(rest) && (rest != [] ==> MayFollow(p, rest[0]))
    ensures WellSpelled([p] + rest) && Text([p] + rest) == Bytes(p) + Text(rest)
  {
    assert ([p] + rest)[1..] == rest;
  }

  lemma ConsTokens(p: Piece, rest: seq<Piece>, offset: nat)
    ensures TokensOf([p] + rest, offset) == TokensOfPiece(p, offset) + TokensOf(rest, offset + |Bytes(p)|)
  {
    assert ([p] + rest)[1..] == rest;
  }

  lemma PiecesFollow(source: seq<Byte>, p: Piece, end: nat, rest: seq<Piece>)
    requires end <= |source| && source[end..] == Text(rest) && WellSpelled(rest)
    requires end < |source| ==>
      && (p.Comment? ==> source[end] == 10)
      && (p.Name? ==> !Alpha(source[end]))
      && (p.Number? ==> !Digit(source[end]))
    ensures rest != [] ==> MayFollow(p, rest[0])
  {
    if rest != [] {
      FirstPiece(rest);
      FirstByte(rest[0]);
      assert source[end] == source[end..][0];
    }
  }

  lemma FirstPiece(pieces: seq<Piece>)
    requires WellSpelled(pieces) && pieces != []
    ensures Text(pieces) != [] && PieceOk(pieces[0]) && Bytes(pieces[0]) != []
    ensures Text(pieces)[0] == Bytes(pieces[0])[0]
  {
    FirstByte(pieces[0]);
  }

  /** Undoes a scan without errors: cuts the text from `i` on into pieces. */
  lemma {:induction false} Decompose(source: seq<Byte>, i: nat) returns (pieces: seq<Piece>)
    requires i <= |source| && ScanFrom(source, i).Scanned? && ScanFrom(source, i).errors == 0
    ensures WellSpelled(pieces) && source[i..] == Text(pieces)
    decreases |source| - i
  {
    hide Lex;
    hide PieceOk;
    hide WellSpelled;
    hide Text;
    hide MayFollow;
    NoPieces();
    if i == |source| {
      pieces := [];
    } else {
      var p := PieceOfTurn(source, i);
      var end := Lex(source, i).next;
      var rest := Decompose(source, end);
      PiecesFollow(source, p, end, rest);
      ConsSpelling(p, rest);
      assert source[i..] == source[i..end] + source[end..];
      pieces := [p] + rest;
    }
  }

  /** A text scans without errors exactly when it is a spelling. */
  lemma CleanScanIffSpelling(source: seq<Byte>)
    ensures (ScanFrom(source, 0).Scanned? && ScanFrom(source, 0).errors == 0) <==>
      exists pieces :: WellSpelled(pieces) && Text(pieces) == source
  {
    assert source[0..] == source;
    if ScanFrom(source, 0).Scanned? && ScanFrom(source, 0).errors == 0 {
      var pieces := Decompose(source, 0);
    }
    if pieces :| WellSpelled(pieces) && Text(pieces) == source {
      ScanSpelling(source, 0, pieces);
    }
  }
}
