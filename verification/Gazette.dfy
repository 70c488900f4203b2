/** The corpus oracle's comparison of event streams: `Extract`, `event_text`, `contains_run` and
    `run_within` of `scripts/gazette-corpus-diff.py`.  A stream is encoded as one text with a
    separator around every event, and a run of events is looked for as a substring. */
module Gazette {
  import opened ByteText
  import opened Joining
  import opened Ordering

  const SEP: char := '\U{1e}'
  const UNIT: char := '\U{1f}'

  /** A tag and its rendered attributes or text. */
  datatype Event = Event(tag: string, extra: string)

  function Encode(e: Event): string {
    e.tag + [UNIT] + e.extra
  }

  function Encodings(es: seq<Event>): (r: seq<string>)
    ensures |r| == |es|
  {
    seq(|es|, i requires 0 <= i < |es| => Encode(es[i]))
  }

  /** The text of a stream; the empty stream has two separators. */
  function EventText(es: seq<Event>): string {
    if es == [] then [SEP, SEP] else Joined(SEP, Encodings(es))
  }

  function ContainsRun(page: seq<Event>, body: seq<Event>): bool {
    body == [] || Contains(EventText(body), EventText(page))
  }

  // ----- what the comparison decides -----

  /** The pieces of a stream's text. */
  function Pieces(es: seq<Event>): (r: seq<string>)
    ensures AllSolid(SEP, r)
    ensures r != []
  {
    if es == [] then [[]] else SplitAll(SEP, Encodings(es))
  }

  lemma TextOfPieces(es: seq<Event>)
    ensures EventText(es) == Joined(SEP, Pieces(es))
  {
    if es == [] {
      assert Joined(SEP, [[]]) == [SEP] + [] + Joined(SEP, []);
    } else {
      JoinIgnoresGrouping(SEP, Encodings(es));
    }
  }

  /** For every two streams, whatever characters their events hold: the body is found exactly when
      its text, cut at the separators, is a run of the page's. */
  lemma FoundIffPieces(page: seq<Event>, body: seq<Event>)
    ensures ContainsRun(page, body) <==> body == [] || Within(Pieces(body), Pieces(page))
  {
    hide Pieces;
    if body != [] {
      TextOfPieces(page);
      TextOfPieces(body);
      RunsAreSubstrings(SEP, Pieces(body), Pieces(page));
      ContainsIsWithin(EventText(body), EventText(page));
    }
  }

  /** No event of the stream holds a separator, and no extra holds the unit separator. */
  ghost predicate Clean(es: seq<Event>) {
    forall i :: 0 <= i < |es| ==> SEP !in es[i].tag && CleanExtra(es[i].extra)
  }

  ghost predicate CleanExtra(extra: string) {
    SEP !in extra && UNIT !in extra
  }

  lemma LastUnit(e: Event)
    requires UNIT !in e.extra
    ensures |Encode(e)| == |e.tag| + 1 + |e.extra| && Encode(e)[|e.tag|] == UNIT
    ensures forall i :: |e.tag| < i < |Encode(e)| ==> Encode(e)[i] != UNIT
  {
    assert forall i :: |e.tag| < i < |Encode(e)| ==> Encode(e)[i] == e.extra[i - |e.tag| - 1];
  }

  lemma EncodeInjective(a: Event, b: Event)
    requires UNIT !in a.extra && UNIT !in b.extra && Encode(a) == Encode(b)
    ensures a == b
  {
    LastUnit(a);
    LastUnit(b);
    var s := Encode(a);
    assert |a.tag| == |b.tag|;
    assert a.tag == s[..|a.tag|] && b.tag == s[..|a.tag|];
    assert a.extra == s[|a.tag| + 1..] && b.extra == s[|a.tag| + 1..];
  }

  lemma SameSlice(body: seq<Event>, page: seq<Event>)
    requires |body| == |page| && Clean(body) && Clean(page)
    ensures Encodings(body) == Encodings(page) <==> body == page
  {
    hide Encode;
    if Encodings(body) == Encodings(page) {
      forall k | 0 <= k < |body| ensures body[k] == page[k] {
        assert Encodings(body)[k] == Encodings(page)[k];
        EncodeInjective(body[k], page[k]);
      }
    }
  }

  lemma EncodingsOccur(body: seq<Event>, page: seq<Event>, i: nat)
    requires Clean(body) && Clean(page)
    ensures OccursAt(Encodings(body), Encodings(page), i) <==> OccursAt(body, page, i)
  {
    hide Encode;
    if i + |body| <= |page| {
      SameSlice(body, page[i..i + |body|]);
      assert Encodings(page)[i..i + |body|] == Encodings(page[i..i + |body|]);
    }
  }

  lemma CleanPieces(es: seq<Event>)
    requires Clean(es) && es != []
    ensures Pieces(es) == Encodings(es)
  {
    SolidAreWhole(SEP, Encodings(es));
  }

  /** For clean streams the body is found exactly when its events are a run of the page's. */
  lemma ContainsRunIsRun(page: seq<Event>, body: seq<Event>)
    requires Clean(page) && Clean(body)
    ensures ContainsRun(page, body) <==> Within(body, page)
  {
    hide ContainsRun;
    hide Encodings;
    hide Pieces;
    FoundIffPieces(page, body);
    if body == [] {
      assert OccursAt(body, page, 0);
      EmptyIsFound(page);
    } else if page == [] {
      NothingInEmptyPage(body);
      assert forall i: nat :: !OccursAt(body, page, i);
    } else {
      CleanPieces(page);
      CleanPieces(body);
      assert forall i: nat :: OccursAt(Encodings(body), Encodings(page), i) <==> OccursAt(body, page, i) by {
        forall i: nat ensures OccursAt(Encodings(body), Encodings(page), i) <==> OccursAt(body, page, i) {
          EncodingsOccur(body, page, i);
        }
      }
    }
  }

  lemma EmptyIsFound(page: seq<Event>)
    ensures ContainsRun(page, [])
  {
  }

  lemma NothingInEmptyPage(body: seq<Event>)
    requires body != []
    ensures !Within(Pieces(body), Pieces([]))
  {
    hide Pieces;
    TextOfPieces(body);
    TextOfPieces([]);
    TextIsLong(body);
    if i: nat :| OccursAt(Pieces(body), Pieces([]), i) {
      RunOccurs(SEP, Pieces(body), Pieces([]), i);
    }
  }

  /** An encoded event is never empty. */
  lemma TextIsLong(es: seq<Event>)
    requires es != []
    ensures |EventText(es)| >= 3
  {
    JoinSize(SEP, Encodings(es)[1..]);
    assert Joined(SEP, Encodings(es)) == [SEP] + Encode(es[0]) + Joined(SEP, Encodings(es)[1..]);
  }

  /** A run of events is always found, clean or not. */
  lemma RunIsAlwaysFound(page: seq<Event>, body: seq<Event>)
    requires Within(body, page)
    ensures ContainsRun(page, body)
  {
    if body != [] {
      var i: nat :| OccursAt(body, page, i);
      assert page != [];
      assert Encodings(page)[i..i + |body|] == Encodings(body);
      RunOccurs(SEP, Encodings(body), Encodings(page), i);
      ContainsIsWithin(EventText(body), EventText(page));
    }
  }

  /** With a separator in a tag, an event can be found that the page does not hold. */
  lemma SeparatorInTagIsMistaken()
    ensures var page := [Event("<p", ""), Event("<b", "")];
      var body := [Event("<p" + [UNIT, SEP] + "<b", "")];
      ContainsRun(page, body) && !Within(body, page)
  {
    var page := [Event("<p", ""), Event("<b", "")];
    var body := [Event("<p" + [UNIT, SEP] + "<b", "")];
    var (p, b) := (Encode(page[0]), Encode(page[1]));
    assert Encodings(page) == [p, b] && [p, b][1..] == [b] && [b][1..] == [];
    assert EventText(page) == [SEP] + p + ([SEP] + b + [SEP]);
    assert Encodings(body) == [Encode(body[0])] && [Encode(body[0])][1..] == [];
    assert EventText(body) == [SEP] + Encode(body[0]) + [SEP];
    assert EventText(body) == EventText(page);
    assert OccursAt(EventText(body), EventText(page), 0);
    ContainsIsWithin(EventText(body), EventText(page));
    assert forall i: nat :: OccursAt(body, page, i) ==> page[i] == page[i..i + 1][0] == body[0];
  }

  // ----- the direct search -----

  /** Looks for a run element by element. */
  method RunWithin<T(==)>(haystack: seq<T>, needle: seq<T>) returns (found: bool)
    ensures found <==> Within(needle, haystack)
  {
    if needle == [] {
      assert OccursAt(needle, haystack, 0);
      return true;
    }
    var start := 0;
    while start < |haystack| - |needle| + 1
      invariant forall k: nat :: k < start ==> !OccursAt(needle, haystack, k)
    {
      if haystack[start..start + |needle|] == needle {
        assert OccursAt(needle, haystack, start);
        return true;
      }
      start := start + 1;
    }
    found := false;
  }

  /** On clean streams the substring test and the direct search decide the same. */
  method CrossCheck(page: seq<Event>, body: seq<Event>) returns (ok: bool)
    requires Clean(page) && Clean(body)
    ensures ok
  {
    ContainsRunIsRun(page, body);
    var direct := RunWithin(page, body);
    ok := direct == ContainsRun(page, body);
  }

  // ----- the extraction -----

  /** The characters at which `split` cuts, among the ASCII ones; the separators are two of them. */
  predicate Space(c: char) {
    c == ' ' || '\U{9}' <= c <= '\U{d}' || '\U{1c}' <= c <= '\U{1f}'
  }

  /** `" ".join(data.split())`: words with single spaces between them. */
  function Squash(data: string): string {
    if data == [] then []
    else if Space(data[0]) then Squash(data[1..])
    else
      var word := WordEnd(data, 0);
      var rest := Squash(data[word..]);
      data[..word] + (if rest == [] then [] else " " + rest)
  }

  function WordEnd(data: string, i: nat): (end: nat)
    requires i <= |data|
    ensures i <= end <= |data|
    ensures i < |data| && !Space(data[i]) ==> i < end
    ensures forall k :: i <= k < end ==> !Space(data[k])
    ensures end < |data| ==> Space(data[end])
    decreases |data| - i
  {
    if i < |data| && !Space(data[i]) then WordEnd(data, i + 1) else i
  }

  /** Squashed text has no other space than single blanks between words. */
  ghost predicate Squashed(s: string) {
    && (forall k :: 0 <= k < |s| && Space(s[k]) ==>
          s[k] == ' ' && 0 < k < |s| - 1 && !Space(s[k - 1]) && !Space(s[k + 1]))
  }

  lemma {:induction false} SquashSquashes(data: string)
    ensures Squashed(Squash(data))
    ensures Squash(data) == [] <==> forall k :: 0 <= k < |data| ==> Space(data[k])
    decreases |data|
  {
    if data != [] {
      if Space(data[0]) {
        SquashSquashes(data[1..]);
        assert forall k :: 0 < k < |data| ==> data[k] == data[1..][k - 1];
      } else {
        SquashSquashes(data[WordEnd(data, 0)..]);
      }
    }
  }

  predicate IsWord(word: string) {
    word != "" && forall k :: 0 <= k < |word| ==> !Space(word[k])
  }

  predicate IsGap(gap: string) {
    forall k :: 0 <= k < |gap| ==> Space(gap[k])
  }

  /** Gaps and words by turns, with a gap at both ends. */
  function Weave(gaps: seq<string>, words: seq<string>): string
    requires |gaps| == |words| + 1
  {
    if words == [] then gaps[0] else gaps[0] + (words[0] + Weave(gaps[1..], words[1..]))
  }

  /** The text cut at its spaces: there is one between any two words, and perhaps at the ends. */
  ghost predicate CutInto(data: string, gaps: seq<string>, words: seq<string>) {
    && |gaps| == |words| + 1 && data == Weave(gaps, words)
    && (forall k :: 0 <= k < |words| ==> IsWord(words[k]))
    && (forall k :: 0 <= k < |gaps| ==> IsGap(gaps[k]))
    && forall k :: 0 < k < |words| ==> gaps[k] != ""
  }

  /** The words with one blank between any two. */
  function Spaced(words: seq<string>): string {
    if words == [] then "" else words[0] + (if |words| == 1 then "" else " " + Spaced(words[1..]))
  }

  lemma {:induction false} GapIsDropped(gap: string, rest: string)
    requires IsGap(gap)
    ensures Squash(gap + rest) == Squash(rest)
  {
    if gap == "" {
      assert gap + rest == rest;
    } else {
      assert (gap + rest)[1..] == gap[1..] + rest;
      GapIsDropped(gap[1..], rest);
    }
  }

  lemma {:induction false} WordEndIs(data: string, i: nat, end: nat)
    requires i <= end <= |data| && (forall k :: i <= k < end ==> !Space(data[k]))
    requires end < |data| ==> Space(data[end])
    ensures WordEnd(data, i) == end
    decreases end - i
  {
    if i < end {
      WordEndIs(data, i + 1, end);
    }
  }

  lemma WordIsTaken(word: string, rest: string)
    requires IsWord(word) && (rest != "" ==> Space(rest[0]))
    ensures Squash(word + rest) == word + if Squash(rest) == [] then [] else " " + Squash(rest)
  {
    hide Space;
    var data := word + rest;
    assert data[0] == word[0];
    forall k | 0 <= k < |word| ensures !Space(data[k]) {
      assert data[k] == word[k];
    }
    WordEndIs(data, 0, |word|);
    assert data[..|word|] == word && data[|word|..] == rest;
  }

  lemma CutAfter(gaps: seq<string>, words: seq<string>)
    requires words != [] && |gaps| == |words| + 1 && CutInto(Weave(gaps, words), gaps, words)
    ensures CutInto(Weave(gaps[1..], words[1..]), gaps[1..], words[1..])
    ensures var rest := Weave(gaps[1..], words[1..]); rest != "" ==> Space(rest[0])
  {
    hide Space;
    var rest := Weave(gaps[1..], words[1..]);
    if |words| == 1 {
      assert IsGap(gaps[1]);
    } else {
      assert gaps[1] != "" && IsGap(gaps[1]) && rest[0] == gaps[1][0];
    }
  }

  /** Squashing keeps the words of a text, all of them and in their order, and nothing else. */
  lemma {:induction false} SquashKeepsWords(data: string, gaps: seq<string>, words: seq<string>)
    requires CutInto(data, gaps, words)
    ensures Squash(data) == Spaced(words)
    decreases |words|
  {
    hide Space;
    hide Squash;
    hide IsWord;
    if words == [] {
      GapIsDropped(gaps[0], "");
      assert gaps[0] + "" == gaps[0];
      NothingSquashed();
    } else {
      var rest := Weave(gaps[1..], words[1..]);
      CutAfter(gaps, words);
      GapIsDropped(gaps[0], words[0] + rest);
      WordIsTaken(words[0], rest);
      SquashKeepsWords(rest, gaps[1..], words[1..]);
      SpacedIsEmpty(words[1..]);
    }
  }

  lemma NothingSquashed()
    ensures Squash("") == ""
  {
  }

  lemma SpacedIsEmpty(words: seq<string>)
    requires forall k :: 0 <= k < |words| ==> IsWord(words[k])
    ensures Spaced(words) == "" <==> words == []
  {
  }

  /** Every text can be cut so. */
  lemma {:induction false} WordsExist(data: string) returns (gaps: seq<string>, words: seq<string>)
    ensures CutInto(data, gaps, words)
    decreases |data|
  {
    hide Space;
    if data == "" {
      gaps, words := [""], [];
    } else if Space(data[0]) {
      var gs, ws := WordsExist(data[1..]);
      gaps, words := [[data[0]] + gs[0]] + gs[1..], ws;
      MoreGap(data[0], gs, ws);
      assert data == [data[0]] + data[1..];
    } else {
      var end := WordEnd(data, 0);
      var gs, ws := WordsExist(data[end..]);
      gaps, words := [""] + gs, [data[..end]] + ws;
      assert gaps[1..] == gs && words[1..] == ws;
      assert data == data[..end] + data[end..];
      assert "" + data == data;
      StartsWithGap(data[end..], gs, ws);
    }
  }

  lemma MoreGap(c: char, gaps: seq<string>, words: seq<string>)
    requires |gaps| == |words| + 1
    ensures Weave([[c] + gaps[0]] + gaps[1..], words) == [c] + Weave(gaps, words)
  {
    var more := [[c] + gaps[0]] + gaps[1..];
    assert more[1..] == gaps[1..];
  }

  lemma StartsWithGap(data: string, gaps: seq<string>, words: seq<string>)
    requires CutInto(data, gaps, words) && (data != "" ==> Space(data[0]))
    ensures words != [] ==> gaps[0] != ""
  {
    hide Space;
    WeaveHead(gaps, words);
  }

  lemma WeaveHead(gaps: seq<string>, words: seq<string>)
    requires |gaps| == |words| + 1
    ensures words != [] && gaps[0] == "" && IsWord(words[0]) ==>
      Weave(gaps, words) != "" && !Space(Weave(gaps, words)[0])
  {
    hide Space;
  }

  lemma SquashedIsClean(s: string)
    requires Squashed(s)
    ensures CleanExtra(s)
  {
    assert Space(SEP) && Space(UNIT) && SEP != ' ' && UNIT != ' ';
  }

  // ----- the attributes that count -----

  datatype Value = Missing | Given(text: string)

  datatype Attribute = Attribute(name: string, value: Value)

  const KEPT := {"href", "src", "alt", "id", "start"}

  /** The attribute is the last of its name. */
  ghost predicate LastOfName(a: Attribute, attrs: seq<Attribute>, i: nat) {
    i < |attrs| && attrs[i] == a && forall j :: i < j < |attrs| ==> attrs[j].name != a.name
  }

  /** Of each name that counts the last attribute, by ascending name. */
  ghost predicate IsKept(kept: seq<Attribute>, attrs: seq<Attribute>) {
    && (forall i, j :: 0 <= i < j < |kept| ==> Less(kept[i].name, kept[j].name))
    && forall a :: a in kept <==>
         a.name in {"href", "src", "alt", "id", "start"} && exists i: nat :: LastOfName(a, attrs, i)
  }

  /** The attributes by name; a later one replaces an earlier one. */
  function Keep(attrs: seq<Attribute>): map<string, Value> {
    if attrs == [] then map[]
    else
      var (front, last) := (attrs[..|attrs| - 1], attrs[|attrs| - 1]);
      if last.name in KEPT then Keep(front)[last.name := last.value] else Keep(front)
  }

  lemma {:induction false} KeepIsLast(attrs: seq<Attribute>, a: Attribute)
    ensures a.name in Keep(attrs) && Keep(attrs)[a.name] == a.value <==>
      a.name in KEPT && exists i: nat :: LastOfName(a, attrs, i)
  {
    if attrs != [] {
      var (front, last) := (attrs[..|attrs| - 1], attrs[|attrs| - 1]);
      KeepIsLast(front, a);
      assert attrs == front + [last];
      LastOfMore(front, last, a);
    }
  }

  lemma LastOfMore(front: seq<Attribute>, last: Attribute, a: Attribute)
    ensures (exists i: nat :: LastOfName(a, front + [last], i)) <==>
      if last.name == a.name then last == a else exists i: nat :: LastOfName(a, front, i)
  {
    var all := front + [last];
    assert all[|front|] == last && forall j :: 0 <= j < |front| ==> all[j] == front[j];
    if i: nat :| LastOfName(a, all, i) {
      if last.name != a.name {
        assert LastOfName(a, front, i);
      }
    }
    if last == a {
      assert LastOfName(a, all, |front|);
    }
    if i: nat :| LastOfName(a, front, i) && last.name != a.name {
      assert LastOfName(a, all, i);
    }
  }

  /** There is only one such list. */
  lemma {:induction false} SameKept(a: seq<Attribute>, b: seq<Attribute>)
    requires forall i, j :: 0 <= i < j < |a| ==> Less(a[i].name, a[j].name)
    requires forall i, j :: 0 <= i < j < |b| ==> Less(b[i].name, b[j].name)
    requires forall x :: x in a <==> x in b
    ensures a == b
    decreases |a|
  {
    hide Less;
    assert b != [] ==> b[0] in b;
    if a != [] {
      assert a[0] in a && a[0] in b;
      var k :| 0 <= k < |b| && b[k] == a[0];
      var m :| 0 <= m < |a| && a[m] == b[0];
      LessIsTotal(a[0].name, b[0].name);
      assert a[0] == b[0];
      forall x ensures x in a[1..] <==> x in b[1..] {
        LessIsTotal(a[0].name, a[0].name);
        assert x in a <==> x == a[0] || x in a[1..];
        assert x in b <==> x == b[0] || x in b[1..];
      }
      SameKept(a[1..], b[1..]);
      assert a == [a[0]] + a[1..] && b == [b[0]] + b[1..];
    }
  }

  lemma KeptIsUnique(a: seq<Attribute>, b: seq<Attribute>, attrs: seq<Attribute>)
    requires IsKept(a, attrs) && IsKept(b, attrs)
    ensures a == b
  {
    hide Less;
    hide LastOfName;
    SameKept(a, b);
  }

  /** Collects the attributes that count and sorts them. */
  method KeepAttributes(attrs: seq<Attribute>) returns (kept: seq<Attribute>)
    ensures IsKept(kept, attrs)
  {
    hide Less;
    hide LastOfName;
    var keep: map<string, Value> := map[];
    var i := 0;
    while i < |attrs|
      invariant i <= |attrs| && keep == Keep(attrs[..i])
    {
      assert attrs[..i + 1][..i] == attrs[..i];
      if attrs[i].name in KEPT {
        keep := keep[attrs[i].name := attrs[i].value];
      }
      i := i + 1;
    }
    assert attrs[..i] == attrs;
    var names := Sorted(keep.Keys);
    kept := seq(|names|, k requires 0 <= k < |names| => assert names[k] in names; Attribute(names[k], keep[names[k]]));
    forall a: Attribute
      ensures a in kept <==> a.name in KEPT && exists i: nat :: LastOfName(a, attrs, i)
    {
      KeepIsLast(attrs, a);
      if a.name in names {
        var k :| 0 <= k < |names| && names[k] == a.name;
        assert kept[k].name == a.name;
      }
    }
  }

  const VOID := {"br", "hr", "img", "input", "meta", "link"}

  /** The listener that collects the events of a page.  Attributes are rendered by Python's `repr`,
      which escapes control characters. */
  class Extract {
    var events: seq<Event>

    constructor ()
      ensures events == []
    {
      events := [];
    }

    method HandleStartTag(tag: string, attrs: seq<Attribute>, render: seq<Attribute> -> string)
      requires forall kept :: CleanExtra(render(kept))
      modifies this
      ensures exists kept :: IsKept(kept, attrs) && events == old(events) + [Event("<" + tag, render(kept))]
      ensures old(Clean(events)) && SEP !in tag ==> Clean(events)
    {
      var kept := KeepAttributes(attrs);
      events := events + [Event("<" + tag, render(kept))];
    }

    method HandleEndTag(tag: string)
      modifies this
      ensures events == old(events)
        + if tag in {"br", "hr", "img", "input", "meta", "link"} then [] else [Event(">" + tag, "()")]
      ensures old(Clean(events)) && SEP !in tag ==> Clean(events)
    {
      if tag !in VOID {
        events := events + [Event(">" + tag, "()")];
      }
    }

    method HandleData(data: string)
      modifies this
      ensures events == old(events) + if Squash(data) == [] then [] else [Event("#text", Squash(data))]
      ensures old(Clean(events)) ==> Clean(events)
    {
      var squashed := Squash(data);
      SquashSquashes(data);
      SquashedIsClean(squashed);
      if squashed != [] {
        events := events + [Event("#text", squashed)];
      }
    }
  }
}
