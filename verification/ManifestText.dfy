/** The text of a source manifest: written by `scripts/rue-program-derive-manifest.py`, read by the
    compiler (`crates/rue/src/source_loader.rs`). */
module ManifestText {
  import opened Joining
  import opened PosixPath

  const HASH: char := '#'
  const BACKSLASH: char := '\\'
  const NEWLINE: char := '\n'

  // ----- one entry -----

  function Escape(entry: string): string {
    if entry == "" then ""
    else if entry[0] == HASH then [BACKSLASH, HASH] + Escape(entry[1..])
    else [entry[0]] + Escape(entry[1..])
  }

  /** What the reader makes of the rest of a line, a backslash pending or not. */
  function Unescape(raw: string, escaped: bool): string {
    if raw == "" then (if escaped then [BACKSLASH] else "")
    else if escaped then
      (if raw[0] == HASH then [HASH] else [BACKSLASH, raw[0]]) + Unescape(raw[1..], false)
    else if raw[0] == BACKSLASH then Unescape(raw[1..], true)
    else if raw[0] == HASH then ""
    else [raw[0]] + Unescape(raw[1..], false)
  }

  /** The characters of Unicode's White_Space property, at which the reader trims. */
  predicate White(c: char) {
    '\U{9}' <= c <= '\U{d}'
    || c in {' ', '\U{85}', '\U{a0}', '\U{1680}', '\U{2028}', '\U{2029}', '\U{202f}', '\U{205f}', '\U{3000}'}
    || '\U{2000}' <= c <= '\U{200a}'
  }

  function TrimStart(text: string): string {
    if text != "" && White(text[0]) then TrimStart(text[1..]) else text
  }

  function TrimEnd(text: string): string {
    if text != "" && White(text[|text| - 1]) then TrimEnd(text[..|text| - 1]) else text
  }

  function Trim(text: string): string {
    TrimEnd(TrimStart(text))
  }

  function ParseEntry(raw: string): string {
    Trim(Unescape(raw, false))
  }

  /** What one character adds to the entry, if it does not end it. */
  function Emitted(ch: char, escaped: bool): string {
    if escaped then (if ch == HASH then [HASH] else [BACKSLASH, ch])
    else if ch == BACKSLASH then ""
    else [ch]
  }

  lemma UnescapeStep(entry: string, raw: string, i: nat, escaped: bool)
    requires i < |raw|
    ensures escaped || raw[i] != HASH ==>
      entry + Unescape(raw[i..], escaped) ==
      entry + Emitted(raw[i], escaped) + Unescape(raw[i + 1..], !escaped && raw[i] == BACKSLASH)
    ensures !escaped && raw[i] == HASH ==> entry + Unescape(raw[i..], escaped) == entry
  {
    assert raw[i..][1..] == raw[i + 1..];
  }

  /** The reader's loop. */
  method ReadEntry(raw: string) returns (r: string)
    ensures r == ParseEntry(raw)
  {
    hide Unescape;
    hide Trim;
    var entry := "";
    var escaped := false;
    var i := 0;
    WholeUnescapes(raw);
    while i < |raw|
      invariant i <= |raw|
      invariant entry + Unescape(raw[i..], escaped) == Unescape(raw, false)
    {
      var ch := raw[i];
      UnescapeStep(entry, raw, i, escaped);
      if escaped {
        if ch == HASH {
          entry := entry + [HASH];
        } else {
          entry := entry + [BACKSLASH, ch];
        }
        escaped := false;
      } else if ch == BACKSLASH {
        assert entry + "" == entry;
        escaped := true;
      } else if ch == HASH {
        return Trim(entry);
      } else {
        entry := entry + [ch];
      }
      i := i + 1;
    }
    UnescapesAtEnd(entry, raw[i..], escaped);
    if escaped {
      entry := entry + [BACKSLASH];
    }
    r := Trim(entry);
  }

  lemma WholeUnescapes(raw: string)
    ensures "" + Unescape(raw[0..], false) == Unescape(raw, false)
  {
    assert raw[0..] == raw;
  }

  lemma UnescapesAtEnd(entry: string, rest: string, escaped: bool)
    requires rest == ""
    ensures entry + Unescape(rest, escaped) == if escaped then entry + [BACKSLASH] else entry
  {
  }

  /** No hash follows an odd number of backslashes (one of them pending or not). */
  predicate Plain(entry: string, pending: bool) {
    if entry == "" then true
    else if entry[0] == HASH then !pending && Plain(entry[1..], false)
    else if entry[0] == BACKSLASH then Plain(entry[1..], !pending)
    else Plain(entry[1..], false)
  }

  function Pending(pending: bool): string {
    if pending then [BACKSLASH] else ""
  }

  lemma EscapeHead(entry: string)
    requires entry != ""
    ensures Escape(entry) != ""
    ensures entry[0] == HASH ==> |Escape(entry)| >= 2 && Escape(entry)[0] == BACKSLASH
    ensures entry[0] == HASH ==> Escape(entry)[1..][0] == HASH && Escape(entry)[1..][1..] == Escape(entry[1..])
    ensures entry[0] != HASH ==> Escape(entry)[0] == entry[0] && Escape(entry)[1..] == Escape(entry[1..])
  {
  }

  lemma {:induction false} UnescapeUndoesEscape(entry: string, pending: bool)
    requires Plain(entry, pending)
    ensures Unescape(Escape(entry), pending) == Pending(pending) + entry
  {
    hide Escape;
    if entry == "" {
      EscapeNothing();
    } else {
      EscapeHead(entry);
      assert entry == [entry[0]] + entry[1..];
      UnescapeUndoesEscape(entry[1..], entry[0] == BACKSLASH && !pending);
    }
  }

  lemma EscapeNothing()
    ensures Escape("") == ""
  {
  }

  /** What becomes of the first character, escaped and unescaped, unless it is a hash after a
      pending backslash. */
  lemma UnescapeHead(entry: string, pending: bool)
    requires entry != "" && !(entry[0] == HASH && pending)
    ensures var next := entry[0] == BACKSLASH && !pending;
      var front := if next then [] else Pending(pending) + [entry[0]];
      Unescape(Escape(entry), pending) == front + Unescape(Escape(entry[1..]), next)
  {
    hide Escape;
    EscapeHead(entry);
    var next := entry[0] == BACKSLASH && !pending;
    var x := Unescape(Escape(entry[1..]), next);
    if next {
      assert [] + x == x;
    } else if pending {
      assert Escape(entry)[0] == entry[0];
    }
  }

  lemma HashIsCut(entry: string)
    requires entry != "" && entry[0] == HASH
    ensures Unescape(Escape(entry), true) == [BACKSLASH, BACKSLASH]
  {
    hide Escape;
    EscapeHead(entry);
  }

  /** A hash after an odd number of backslashes ends the entry, in two backslashes. */
  lemma {:induction false} OddBackslashesCut(entry: string, pending: bool)
    requires !Plain(entry, pending)
    ensures var r := Unescape(Escape(entry), pending);
      r != "" && r[|r| - 1] == BACKSLASH && r[0] == (if pending then BACKSLASH else entry[0])
      && r != Pending(pending) + entry
  {
    assert entry == [entry[0]] + entry[1..];
    if entry[0] == HASH && pending {
      HashIsCut(entry);
      assert (Pending(pending) + entry)[1] == HASH;
    } else {
      hide Escape;
      hide Unescape;
      var (tail, next) := (entry[1..], entry[0] == BACKSLASH && !pending);
      OddBackslashesCut(tail, next);
      var (r, x) := (Unescape(Escape(entry), pending), Unescape(Escape(tail), next));
      var front := if next then [] else Pending(pending) + [entry[0]];
      UnescapeHead(entry, pending);
      assert Pending(pending) + entry == front + (Pending(next) + tail);
      assert r[|front|..] == x && (front + (Pending(next) + tail))[|front|..] == Pending(next) + tail;
    }
  }

  predicate Trimmed(text: string) {
    text != "" ==> !White(text[0]) && !White(text[|text| - 1])
  }

  lemma {:induction false} TrimStartShape(text: string)
    ensures TrimStart(text) != "" ==> !White(TrimStart(text)[0])
    ensures text != "" && !White(text[0]) ==> TrimStart(text) == text
  {
    if text != "" && White(text[0]) {
      TrimStartShape(text[1..]);
    }
  }

  lemma {:induction false} TrimEndShape(text: string)
    ensures TrimEnd(text) != "" ==>
      !White(TrimEnd(text)[|TrimEnd(text)| - 1]) && text != "" && TrimEnd(text)[0] == text[0]
    ensures text != "" && !White(text[|text| - 1]) ==> TrimEnd(text) == text
  {
    if text != "" && White(text[|text| - 1]) {
      TrimEndShape(text[..|text| - 1]);
    }
  }

  lemma TrimIsTrimmed(text: string)
    ensures Trimmed(Trim(text))
    ensures Trimmed(text) ==> Trim(text) == text
  {
    TrimStartShape(text);
    TrimEndShape(TrimStart(text));
  }

  /** An entry is read back exactly when white space does not surround it and no hash follows an
      odd number of backslashes: escaping leaves backslashes alone. */
  lemma EntryReadsBack(entry: string)
    ensures ParseEntry(Escape(entry)) == entry <==> Trimmed(entry) && Plain(entry, false)
  {
    hide Escape;
    hide Unescape;
    hide White;
    hide Trim;
    var r := Unescape(Escape(entry), false);
    TrimIsTrimmed(r);
    TrimIsTrimmed(entry);
    if Plain(entry, false) {
      UnescapeUndoesEscape(entry, false);
      assert r == entry;
    } else {
      OddBackslashesCut(entry, false);
      assert Pending(false) + entry == entry;
      BackslashIsBlack();
    }
  }

  lemma BackslashIsBlack()
    ensures !White(BACKSLASH)
  {
  }

  /** A file named with a backslash before a hash is granted under another name. */
  lemma BackslashHashIsLost()
    ensures ParseEntry(Escape([BACKSLASH, HASH])) != [BACKSLASH, HASH]
  {
    EntryReadsBack([BACKSLASH, HASH]);
    assert [BACKSLASH, HASH][1..] == [HASH];
  }

  // ----- the whole text -----

  function WithoutReturn(line: string): string {
    if line != "" && line[|line| - 1] == '\r' then line[..|line| - 1] else line
  }

  /** The lines of a text: what ends in a newline, and a last line without one if it is not empty. */
  function Lines(text: string): seq<string> {
    var pieces := Split(NEWLINE, text);
    var n := |pieces| - 1;
    seq(n, i requires 0 <= i < n => WithoutReturn(pieces[i])) + if pieces[n] == "" then [] else [pieces[n]]
  }

  /** The paths that a manifest in a directory declares. */
  function Declared(dir: Path, text: string): set<Path> {
    set i | 0 <= i < |Lines(text)| && ParseEntry(Lines(text)[i]) != ""
      :: Normal(JoinPath(Render(dir), ParseEntry(Lines(text)[i])))
  }

  method Load(dir: Path, text: string) returns (declared: set<Path>)
    ensures declared == Declared(dir, text)
  {
    hide ParseEntry;
    hide Lines;
    hide Normal;
    declared := {};
    var lines := Lines(text);
    var i := 0;
    while i < |lines|
      invariant i <= |lines|
      invariant declared ==
        set k | 0 <= k < i && ParseEntry(lines[k]) != "" :: Normal(JoinPath(Render(dir), ParseEntry(lines[k])))
    {
      var entry := ReadEntry(lines[i]);
      if entry != "" {
        declared := declared + {Normal(JoinPath(Render(dir), entry))};
      }
      i := i + 1;
    }
  }

  /** The line that grants an entry, relative to the manifest's directory. */
  function Line(cwd: Path, dir: string, entry: string): string {
    Escape(Relpath(cwd, entry, dir))
  }

  /** The text of a manifest: its lines, each ended by a newline; a lone newline if there is none. */
  function Text(lines: seq<string>): string {
    var text := Joined(NEWLINE, if lines == [] then [""] else lines);
    if text == "" then "" else text[1..]
  }

  function LinesOf(cwd: Path, dir: string, order: seq<string>): seq<string> {
    seq(|order|, i requires 0 <= i < |order| => Line(cwd, dir, order[i]))
  }

  lemma SplitText(lines: seq<string>)
    requires lines != [] && AllSolid(NEWLINE, lines)
    ensures Split(NEWLINE, Text(lines)) == lines + [""]
  {
    hide Joined;
    hide Split;
    var pieces := Split(NEWLINE, Text(lines));
    JoinSplit(NEWLINE, Text(lines));
    JoinSize(NEWLINE, lines);
    JoinConcat(NEWLINE, lines, [""]);
    JoinNone(NEWLINE);
    var (s, t) := (Joined(NEWLINE, pieces), Joined(NEWLINE, lines + [""]));
    assert s == t;
    assert Begins(s, t) && Begins(t, s);
    TextBeginsMeansBegins(NEWLINE, pieces, lines + [""]);
    TextBeginsMeansBegins(NEWLINE, lines + [""], pieces);
  }

  lemma {:induction false} EscapeShape(entry: string)
    ensures NEWLINE !in entry ==> NEWLINE !in Escape(entry)
    ensures entry != "" ==> Escape(entry) != "" && Escape(entry)[|Escape(entry)| - 1] == entry[|entry| - 1]
  {
    if entry != "" {
      EscapeShape(entry[1..]);
      assert entry == [entry[0]] + entry[1..];
    }
  }

  /** A relative path that a line can carry. */
  predicate Legible(text: string) {
    text != "" && Trimmed(text) && Plain(text, false) && NEWLINE !in text
  }

  lemma LineReadsBack(text: string)
    requires Legible(text)
    ensures Solid(NEWLINE, Escape(text)) && WithoutReturn(Escape(text)) == Escape(text)
    ensures ParseEntry(Escape(text)) == text
  {
    EscapeShape(text);
    EntryReadsBack(text);
    assert White('\r');
  }

  ghost predicate Grantable(cwd: Path, dir: string, entry: string) {
    Slashes(entry) == 0 && Legible(Relpath(cwd, entry, dir))
  }

  lemma LineGrants(cwd: Path, dir: string, entry: string)
    requires Tidy(cwd) && cwd.slashes > 0 && Slashes(dir) == 0 && Grantable(cwd, dir, entry)
    ensures Normal(JoinPath(Render(Abspath(cwd, dir)), ParseEntry(Line(cwd, dir, entry)))) == Abspath(cwd, entry)
    ensures ParseEntry(Line(cwd, dir, entry)) != ""
  {
    hide ParseEntry;
    hide Legible;
    hide Relpath;
    hide Normal;
    hide Escape;
    LineReadsBack(Relpath(cwd, entry, dir));
    AbspathIsRooted(cwd, dir);
    AbspathIsRooted(cwd, entry);
    RelpathResolves(cwd, entry, dir);
    LegibleIsNot(Relpath(cwd, entry, dir));
  }

  lemma LegibleIsNot(text: string)
    requires Legible(text)
    ensures text != ""
  {
  }

  /** The manifest means what was derived: read in its own directory, from whatever working
      directory, it declares exactly the entries it was written for, in whatever order. */
  lemma ManifestDeclaresEntries(cwd: Path, dir: string, order: seq<string>)
    requires Tidy(cwd) && cwd.slashes > 0 && Slashes(dir) == 0
    requires forall i :: 0 <= i < |order| ==> Grantable(cwd, dir, order[i])
    ensures Declared(Abspath(cwd, dir), Text(LinesOf(cwd, dir, order)))
      == set i | 0 <= i < |order| :: Abspath(cwd, order[i])
  {
    hide ParseEntry;
    hide Line;
    hide Grantable;
    hide Normal;
    hide Abspath;
    var lines := LinesOf(cwd, dir, order);
    var text := Text(lines);
    LinesOfText(cwd, dir, order);
    forall i | 0 <= i < |order|
      ensures ParseEntry(lines[i]) != ""
      ensures Normal(JoinPath(Render(Abspath(cwd, dir)), ParseEntry(lines[i]))) == Abspath(cwd, order[i])
    {
      LineGrants(cwd, dir, order[i]);
    }
    if order == [] {
      EmptyEntry();
    }
    hide Lines;
    hide Text;
    assert |order| == |lines|;
  }

  lemma EmptyEntry()
    ensures ParseEntry("") == ""
  {
  }

  lemma LinesOfText(cwd: Path, dir: string, order: seq<string>)
    requires forall i :: 0 <= i < |order| ==> Grantable(cwd, dir, order[i])
    ensures Lines(Text(LinesOf(cwd, dir, order))) == if order == [] then [""] else LinesOf(cwd, dir, order)
  {
    hide Split;
    hide Relpath;
    hide Joined;
    hide Legible;
    hide Escape;
    var lines := if order == [] then [""] else LinesOf(cwd, dir, order);
    forall i | 0 <= i < |order| ensures Solid(NEWLINE, lines[i]) && WithoutReturn(lines[i]) == lines[i] {
      LineReadsBack(Relpath(cwd, order[i], dir));
    }
    assert Text(LinesOf(cwd, dir, order)) == Text(lines);
    SplitText(lines);
    assert (lines + [""])[..|lines|] == lines;
  }
}
