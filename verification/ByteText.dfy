/** Byte strings and other texts, with the operations of Python's `bytes` and `str` that the
    scripts use. */
module ByteText {

  type Byte = n: nat | n < 256
  type Bytes = seq<Byte>

  /** `data[a:b]`, with bounds clamped to the data. */
  function Slice(data: Bytes, a: nat, b: nat): Bytes {
    var hi := if b < |data| then b else |data|;
    if a < hi then data[a..hi] else []
  }

  predicate OccursAt<T(==)>(part: seq<T>, data: seq<T>, k: nat) {
    k + |part| <= |data| && data[k..k + |part|] == part
  }

  ghost predicate Within<T>(part: seq<T>, data: seq<T>) {
    exists k: nat :: OccursAt(part, data, k)
  }

  /** The first occurrence at or after `k`, or -1. */
  function Find<T(==)>(part: seq<T>, data: seq<T>, k: nat): (r: int)
    ensures r >= 0 ==> r >= k && OccursAt(part, data, r)
    ensures forall j: nat :: k <= j && (r < 0 || j < r) ==> !OccursAt(part, data, j)
    decreases |data| - k
  {
    if k + |part| > |data| then -1
    else if OccursAt(part, data, k) then k
    else Find(part, data, k + 1)
  }

  predicate Contains<T(==)>(part: seq<T>, data: seq<T>) {
    Find(part, data, 0) >= 0
  }

  lemma ContainsIsWithin<T>(part: seq<T>, data: seq<T>)
    ensures Contains(part, data) <==> Within(part, data)
  {
  }

  /** The token before every byte and after the last one. */
  function Interleave(data: Bytes, token: Bytes): Bytes {
    if data == [] then token else token + [data[0]] + Interleave(data[1..], token)
  }

  /** Replaces every occurrence, left to right; an empty part occurs around every byte. */
  function Replace(data: Bytes, part: Bytes, token: Bytes): Bytes
    decreases |data|
  {
    var r := Find(part, data, 0);
    if part == [] then Interleave(data, token)
    else if r < 0 then data
    else data[..r] + token + Replace(data[r + |part|..], part, token)
  }

  // ----- what replacing gives -----

  /** The pieces with a separator between any two. */
  function Glue(pieces: seq<Bytes>, sep: Bytes): Bytes
    requires pieces != []
  {
    if |pieces| == 1 then pieces[0] else pieces[0] + (sep + Glue(pieces[1..], sep))
  }

  /** The data cut at the leftmost occurrences of a part, one after the other. */
  ghost predicate CutAt(data: Bytes, part: Bytes, pieces: seq<Bytes>) {
    && pieces != [] && data == Glue(pieces, part) && !Within(part, pieces[|pieces| - 1])
    && forall k :: 0 <= k < |pieces| - 1 ==> Leftmost(pieces[k], part)
  }

  /** No occurrence begins inside a piece that the part follows. */
  ghost predicate Leftmost(piece: Bytes, part: Bytes) {
    forall j: nat :: j < |piece| ==> !OccursAt(part, piece + part, j)
  }

  lemma FirstIsLeftmost(piece: Bytes, part: Bytes, rest: Bytes)
    ensures OccursAt(part, piece + (part + rest), |piece|)
    ensures Leftmost(piece, part) <==> forall j: nat :: j < |piece| ==> !OccursAt(part, piece + (part + rest), j)
  {
    var (short, all) := (piece + part, piece + (part + rest));
    assert all == short + rest;
    forall j: nat | j < |piece| ensures OccursAt(part, short, j) <==> OccursAt(part, all, j) {
      assert short[j..j + |part|] == all[j..j + |part|];
    }
    assert all[|piece|..|piece| + |part|] == part;
  }

  /** The first occurrence of a part is where the first piece ends. */
  lemma FoundAfterFirst(piece: Bytes, part: Bytes, rest: Bytes)
    requires Leftmost(piece, part) && part != []
    ensures var data := piece + (part + rest);
      Find(part, data, 0) == |piece| && data[..|piece|] == piece && data[|piece| + |part|..] == rest
  {
    hide Leftmost;
    hide OccursAt;
    FirstIsLeftmost(piece, part, rest);
    var r := Find(part, piece + (part + rest), 0);
    assert r == |piece|;
  }

  lemma GlueCons(pieces: seq<Bytes>, sep: Bytes)
    requires |pieces| > 1
    ensures Glue(pieces, sep) == pieces[0] + (sep + Glue(pieces[1..], sep))
  {
  }

  lemma RestIsCut(data: Bytes, part: Bytes, pieces: seq<Bytes>)
    requires CutAt(data, part, pieces) && |pieces| > 1
    ensures Leftmost(pieces[0], part) && CutAt(Glue(pieces[1..], part), part, pieces[1..])
  {
    hide Leftmost;
    hide Within;
    hide Glue;
    var rest := pieces[1..];
    assert rest[|rest| - 1] == pieces[|pieces| - 1];
    forall k | 0 <= k < |rest| - 1 ensures Leftmost(rest[k], part) {
      assert rest[k] == pieces[k + 1];
    }
  }

  /** Where the first piece ends. */
  lemma FirstPiece(data: Bytes, part: Bytes, pieces: seq<Bytes>)
    requires part != [] && CutAt(data, part, pieces)
    ensures |pieces| == 1 ==> Find(part, data, 0) < 0 && data == pieces[0]
    ensures |pieces| > 1 ==>
      var r := Find(part, data, 0);
      && r >= 0 && r + |part| <= |data| && data[..r] == pieces[0]
      && CutAt(data[r + |part|..], part, pieces[1..])
  {
    if |pieces| > 1 {
      var rest := Glue(pieces[1..], part);
      RestIsCut(data, part, pieces);
      GlueCons(pieces, part);
      hide CutAt;
      hide Leftmost;
      hide Glue;
      hide Find;
      assert data == pieces[0] + (part + rest) by {
        CutIsGlue(data, part, pieces);
      }
      FoundAfterFirst(pieces[0], part, rest);
    } else {
      assert !Within(part, data);
    }
  }

  lemma CutIsGlue(data: Bytes, part: Bytes, pieces: seq<Bytes>)
    requires CutAt(data, part, pieces)
    ensures pieces != [] && data == Glue(pieces, part)
  {
  }

  /** Replacing puts the token for each of the leftmost occurrences, and leaves the rest alone. */
  lemma {:induction false} ReplaceMeans(data: Bytes, part: Bytes, token: Bytes, pieces: seq<Bytes>)
    requires part != [] && CutAt(data, part, pieces)
    ensures Replace(data, part, token) == Glue(pieces, token)
    decreases |pieces|
  {
    hide CutAt;
    hide Find;
    assert pieces != [] by {
      CutIsSome(data, part, pieces);
    }
    FirstPiece(data, part, pieces);
    if |pieces| > 1 {
      var r := Find(part, data, 0);
      ReplaceMeans(data[r + |part|..], part, token, pieces[1..]);
      assert data[..r] + token + Glue(pieces[1..], token) == data[..r] + (token + Glue(pieces[1..], token));
    }
  }

  lemma CutIsSome(data: Bytes, part: Bytes, pieces: seq<Bytes>)
    requires CutAt(data, part, pieces)
    ensures pieces != []
  {
  }

  /** Data can be cut so in exactly one way. */
  lemma {:induction false} CutExists(data: Bytes, part: Bytes) returns (pieces: seq<Bytes>)
    requires part != []
    ensures CutAt(data, part, pieces)
    decreases |data|
  {
    hide Leftmost;
    var r := Find(part, data, 0);
    if r < 0 {
      pieces := [data];
    } else {
      var rest := CutExists(data[r + |part|..], part);
      pieces := [data[..r]] + rest;
      assert pieces[1..] == rest;
      assert data == data[..r] + (part + data[r + |part|..]);
      FirstIsLeftmost(data[..r], part, data[r + |part|..]);
    }
  }

  lemma {:induction false} CutIsUnique(data: Bytes, part: Bytes, a: seq<Bytes>, b: seq<Bytes>)
    requires part != [] && CutAt(data, part, a) && CutAt(data, part, b)
    ensures a == b
    decreases |a|
  {
    hide CutAt;
    hide Find;
    CutIsSome(data, part, a);
    CutIsSome(data, part, b);
    FirstPiece(data, part, a);
    FirstPiece(data, part, b);
    if |a| > 1 && |b| > 1 {
      var r := Find(part, data, 0);
      CutIsUnique(data[r + |part|..], part, a[1..], b[1..]);
      assert a == [a[0]] + a[1..] && b == [b[0]] + b[1..];
    }
  }

  // ----- parts of parts -----

  lemma SliceWithin(data: Bytes, a: nat, b: nat)
    ensures Within(Slice(data, a, b), data)
  {
    var hi := if b < |data| then b else |data|;
    if a < hi {
      assert OccursAt(data[a..hi], data, a);
    } else {
      assert OccursAt([], data, 0);
    }
  }

  lemma WithinChain<T>(a: seq<T>, b: seq<T>, c: seq<T>)
    requires Within(a, b) && Within(b, c)
    ensures Within(a, c)
  {
    var i: nat :| OccursAt(a, b, i);
    var j: nat :| OccursAt(b, c, j);
    forall k | 0 <= k < |a| ensures c[j + i + k] == a[k] {
      assert c[j..j + |b|][i + k] == b[i + k] && b[i..i + |a|][k] == a[k];
    }
    assert OccursAt(a, c, j + i);
  }

  // ----- trimming and decimal numbers -----

  predicate Space(b: Byte) {
    b == 32 || 9 <= b <= 13 || 28 <= b <= 31
  }

  predicate Digit(b: Byte) {
    48 <= b <= 57
  }

  /** How many bytes remain when trailing bytes of one kind are dropped. */
  function Kept(s: Bytes, drop: Byte -> bool): (n: nat)
    ensures n <= |s|
  {
    if s != [] && drop(s[|s| - 1]) then Kept(s[..|s| - 1], drop) else |s|
  }

  function TrimEnd(s: Bytes, drop: Byte -> bool): Bytes {
    s[..Kept(s, drop)]
  }

  function TrimStart(s: Bytes): Bytes {
    if s != [] && Space(s[0]) then TrimStart(s[1..]) else s
  }

  predicate AllDigits(s: Bytes) {
    s != [] && forall k :: 0 <= k < |s| ==> Digit(s[k])
  }

  function Decimal(s: Bytes): nat
    requires forall k :: 0 <= k < |s| ==> Digit(s[k])
  {
    if s == [] then 0 else
      assert Digit(s[|s| - 1]);
      Decimal(s[..|s| - 1]) * 10 + (s[|s| - 1] - 48)
  }

  /** The decimal spelling of a number. */
  function Spell(n: nat): Bytes {
    if n < 10 then [48 + n] else Spell(n / 10) + [48 + n % 10]
  }

  /** Padded on the right with spaces. */
  function PadRight(s: Bytes, width: nat): Bytes {
    if |s| < width then s + seq(width - |s|, _ => 32) else s
  }
}
