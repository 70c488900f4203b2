/** Texts made of pieces with a separator before each and one after the last, and what can be
    found in them. */
module Joining {
  import opened ByteText

  /** The pieces with a separator before each and one after the last. */
  function Joined(sep: char, pieces: seq<string>): string {
    if pieces == [] then [sep] else [sep] + pieces[0] + Joined(sep, pieces[1..])
  }

  // ----- splitting a text at its separators -----

  ghost predicate Solid(sep: char, piece: string) {
    sep !in piece
  }

  ghost predicate AllSolid(sep: char, pieces: seq<string>) {
    forall i :: 0 <= i < |pieces| ==> Solid(sep, pieces[i])
  }

  function Split(sep: char, piece: string): (r: seq<string>)
    ensures r != []
    ensures AllSolid(sep, r)
  {
    if piece == [] then [[]]
    else if piece[0] == sep then [[]] + Split(sep, piece[1..])
    else
      var rest := Split(sep, piece[1..]);
      [[piece[0]] + rest[0]] + rest[1..]
  }

  function SplitAll(sep: char, pieces: seq<string>): (r: seq<string>)
    ensures AllSolid(sep, r)
    ensures |r| >= |pieces|
  {
    if pieces == [] then [] else Split(sep, pieces[0]) + SplitAll(sep, pieces[1..])
  }

  lemma JoinFirst(sep: char, first: string, rest: seq<string>, c: char)
    ensures Joined(sep, [first] + rest) == [sep] + first + Joined(sep, rest)
    ensures Joined(sep, [[c] + first] + rest) == [sep] + ([c] + Joined(sep, [first] + rest)[1..])
  {
    assert ([first] + rest)[1..] == rest && ([[c] + first] + rest)[1..] == rest;
  }

  lemma {:induction false} JoinSplit(sep: char, piece: string)
    ensures Joined(sep, Split(sep, piece)) == [sep] + piece + [sep]
  {
    hide Joined;
    if piece == [] {
      JoinNone(sep);
    } else {
      JoinSplit(sep, piece[1..]);
      var rest := Split(sep, piece[1..]);
      JoinFirst(sep, [], rest, ' ');
      JoinFirst(sep, rest[0], rest[1..], piece[0]);
      assert rest == [rest[0]] + rest[1..];
      assert Joined(sep, rest)[1..] == piece[1..] + [sep];
    }
  }

  lemma JoinNone(sep: char)
    ensures Joined(sep, []) == [sep] && Joined(sep, [[]]) == [sep] + [] + [sep]
  {
  }

  lemma {:induction false} JoinSize(sep: char, pieces: seq<string>)
    ensures |Joined(sep, pieces)| > |pieces| && Joined(sep, pieces)[0] == sep
  {
    if pieces != [] {
      JoinSize(sep, pieces[1..]);
    }
  }

  lemma {:induction false} JoinConcat(sep: char, a: seq<string>, b: seq<string>)
    ensures |Joined(sep, a)| > 0 && Joined(sep, a)[|Joined(sep, a)| - 1] == sep && Joined(sep, b)[0] == sep
    ensures Joined(sep, a + b) == Joined(sep, a)[..|Joined(sep, a)| - 1] + Joined(sep, b)
  {
    if a == [] {
      assert a + b == b;
    } else {
      JoinConcat(sep, a[1..], b);
      assert (a + b)[1..] == a[1..] + b;
    }
  }

  /** Separators inside the pieces cannot be told from separators between them. */
  lemma {:induction false} JoinIgnoresGrouping(sep: char, pieces: seq<string>)
    ensures Joined(sep, SplitAll(sep, pieces)) == Joined(sep, pieces)
  {
    if pieces != [] {
      var (first, rest) := (pieces[0], pieces[1..]);
      JoinSplit(sep, first);
      JoinConcat(sep, Split(sep, first), SplitAll(sep, rest));
      JoinIgnoresGrouping(sep, rest);
      assert Joined(sep, Split(sep, first))[..|first| + 1] == [sep] + first;
    }
  }

  lemma {:induction false} SolidIsWhole(sep: char, piece: string)
    requires Solid(sep, piece)
    ensures Split(sep, piece) == [piece]
  {
    if piece != [] {
      SolidIsWhole(sep, piece[1..]);
      assert piece == [piece[0]] + piece[1..];
    }
  }

  lemma {:induction false} SolidAreWhole(sep: char, pieces: seq<string>)
    requires AllSolid(sep, pieces)
    ensures SplitAll(sep, pieces) == pieces
  {
    if pieces != [] {
      SolidIsWhole(sep, pieces[0]);
      SolidAreWhole(sep, pieces[1..]);
    }
  }

  // ----- substrings of joined texts are runs of pieces -----

  ghost predicate Begins<T>(run: seq<T>, all: seq<T>) {
    |run| <= |all| && all[..|run|] == run
  }

  lemma FirstSeparator(sep: char, a: string, x: string)
    requires Solid(sep, a) && |x| > 0 && x[0] == sep
    ensures |a + x| > |a| && (a + x)[|a|] == sep
    ensures forall i :: 0 <= i < |a| ==> (a + x)[i] != sep
  {
    assert forall i :: 0 <= i < |a| ==> (a + x)[i] == a[i];
  }

  /** The first solid piece ends where the first separator is. */
  lemma SameFirst(sep: char, a: string, x: string, b: string, y: string)
    requires Solid(sep, a) && Solid(sep, b) && |x| > 0 && x[0] == sep && |y| > 0 && y[0] == sep
    requires Begins(a + x, b + y)
    ensures a == b && Begins(x, y)
  {
    var (s, t) := (a + x, b + y);
    FirstSeparator(sep, a, x);
    FirstSeparator(sep, b, y);
    assert forall i :: 0 <= i < |s| ==> s[i] == t[..|s|][i] == t[i];
    assert |a| == |b|;
    assert a == s[..|a|] && b == t[..|a|];
    assert x == s[|a|..] && y[..|x|] == t[..|s|][|a|..];
  }

  lemma {:induction false} TextBeginsMeansBegins(sep: char, qs: seq<string>, ps: seq<string>)
    requires AllSolid(sep, qs) && AllSolid(sep, ps) && Begins(Joined(sep, qs), Joined(sep, ps))
    ensures Begins(qs, ps)
  {
    JoinSize(sep, qs);
    if qs != [] && ps != [] {
      var (x, y) := (Joined(sep, qs[1..]), Joined(sep, ps[1..]));
      JoinSize(sep, qs[1..]);
      JoinSize(sep, ps[1..]);
      JoinedHead(sep, qs);
      JoinedHead(sep, ps);
      hide Joined;
      DropSeparator(sep, qs[0] + x, ps[0] + y);
      SameFirst(sep, qs[0], x, ps[0], y);
      TextBeginsMeansBegins(sep, qs[1..], ps[1..]);
      assert qs == [qs[0]] + qs[1..] && ps[..|qs|] == [ps[0]] + ps[1..][..|qs| - 1];
    }
  }

  lemma JoinedHead(sep: char, pieces: seq<string>)
    requires pieces != []
    ensures Joined(sep, pieces) == [sep] + (pieces[0] + Joined(sep, pieces[1..]))
  {
    assert [sep] + pieces[0] + Joined(sep, pieces[1..]) == [sep] + (pieces[0] + Joined(sep, pieces[1..]));
  }

  lemma DropSeparator(sep: char, s: string, t: string)
    ensures Begins([sep] + s, [sep] + t) ==> Begins(s, t)
  {
    if Begins([sep] + s, [sep] + t) {
      assert ([sep] + t)[..|s| + 1][1..] == t[..|s|] && ([sep] + s)[1..] == s;
    }
  }

  /** Past the first piece an occurrence lies in the rest; inside it there is none. */
  lemma PastFirst(sep: char, text: string, p: string, r: string, k: nat)
    requires Solid(sep, p) && |r| > 0 && r[0] == sep && |text| > 0 && text[0] == sep
    requires k > 0 && OccursAt(text, [sep] + (p + r), k)
    ensures k > |p| && OccursAt(text, r, k - 1 - |p|)
  {
    var (all, tail) := ([sep] + (p + r), p + r);
    FirstSeparator(sep, p, r);
    assert tail[k - 1] == all[k..k + |text|][0] == sep;
    var j := k - 1 - |p|;
    assert r[j..j + |text|] == tail[k - 1..k - 1 + |text|] == all[k..k + |text|];
  }

  lemma OccursInTail<T>(part: seq<T>, data: seq<T>, k: nat)
    requires data != [] && OccursAt(part, data[1..], k)
    ensures OccursAt(part, data, k + 1)
  {
    assert data[k + 1..k + 1 + |part|] == data[1..][k..k + |part|];
  }

  /** A joined text can only occur where a piece starts. */
  lemma {:induction false} OccursAtPiece(sep: char, qs: seq<string>, ps: seq<string>, k: nat) returns (i: nat)
    requires qs != [] && AllSolid(sep, qs) && AllSolid(sep, ps) && OccursAt(Joined(sep, qs), Joined(sep, ps), k)
    ensures OccursAt(qs, ps, i)
    decreases |ps|
  {
    hide Solid;
    JoinSize(sep, qs);
    if ps == [] || k == 0 {
      TextBeginsMeansBegins(sep, qs, ps);
      i := 0;
    } else {
      JoinSize(sep, ps[1..]);
      assert Joined(sep, ps) == [sep] + (ps[0] + Joined(sep, ps[1..]));
      PastFirst(sep, Joined(sep, qs), ps[0], Joined(sep, ps[1..]), k);
      var j := OccursAtPiece(sep, qs, ps[1..], k - 1 - |ps[0]|);
      OccursInTail(qs, ps, j);
      i := j + 1;
    }
  }

  lemma Around<T>(part: seq<T>, data: seq<T>, i: nat)
    requires OccursAt(part, data, i)
    ensures data == data[..i] + (part + data[i + |part|..])
  {
  }

  lemma Embedded(before: string, text: string, part: string)
    requires |part| <= |text| && text[..|part|] == part
    ensures Within(part, before + text)
  {
    assert OccursAt(part, before + text, |before|);
  }

  lemma JoinBegins(sep: char, a: seq<string>, b: seq<string>)
    ensures Begins(Joined(sep, a), Joined(sep, a + b))
  {
    hide Joined;
    JoinConcat(sep, a, b);
    JoinSize(sep, b);
    var (s, t) := (Joined(sep, a), Joined(sep, b));
    assert (s[..|s| - 1] + t)[..|s|] == s[..|s| - 1] + t[..1];
  }

  lemma RunOccurs(sep: char, qs: seq<string>, ps: seq<string>, i: nat)
    requires OccursAt(qs, ps, i)
    ensures Within(Joined(sep, qs), Joined(sep, ps))
  {
    hide Joined;
    var (a, b) := (ps[..i], ps[i + |qs|..]);
    Around(qs, ps, i);
    JoinConcat(sep, a, qs + b);
    JoinBegins(sep, qs, b);
    Embedded(Joined(sep, a)[..|Joined(sep, a)| - 1], Joined(sep, qs + b), Joined(sep, qs));
  }

  lemma RunsAreSubstrings(sep: char, qs: seq<string>, ps: seq<string>)
    requires qs != [] && AllSolid(sep, qs) && AllSolid(sep, ps)
    ensures Within(Joined(sep, qs), Joined(sep, ps)) <==> Within(qs, ps)
  {
    if k: nat :| OccursAt(Joined(sep, qs), Joined(sep, ps), k) {
      var i := OccursAtPiece(sep, qs, ps, k);
    }
    if i: nat :| OccursAt(qs, ps, i) {
      RunOccurs(sep, qs, ps, i);
    }
  }
}
