/** Archives as they are written, with SysV, BSD and GNU member names: the parser reads back what
    was written. */
module Writing {
  import opened ByteText
  import opened Archive

  /** How a member's name is stored: with a slash after it in the header, before the payload, at an
      offset of the string table, or as the string table itself. */
  datatype Style = ShortName | BsdName | GnuName(offset: nat) | GnuTable

  datatype Item = Item(
    name: Bytes, style: Style, mtime: Bytes, uid: Bytes, gid: Bytes, mode: Bytes, payload: Bytes)

  function NameText(t: Item): Bytes {
    match t.style
    case ShortName => t.name + [47]
    case BsdName => [35, 49, 47] + Spell(|t.name|)
    case GnuName(offset) => [47] + Spell(offset)
    case GnuTable => [47, 47]
  }

  function Body(t: Item): Bytes {
    if t.style.BsdName? then t.name + t.payload else t.payload
  }

  function Header(t: Item): Bytes {
    PadRight(NameText(t), 16) + t.mtime + t.uid + t.gid + t.mode + PadRight(Spell(|Body(t)|), 10) + [96, 10]
  }

  /** A member, with a byte of padding after an odd one. */
  function Write(t: Item): Bytes {
    Header(t) + Body(t) + if |Body(t)| % 2 == 1 then [10] else []
  }

  function WriteAll(items: seq<Item>): Bytes {
    if items == [] then [] else Write(items[0]) + WriteAll(items[1..])
  }

  function TableBy(t: Item, table: Bytes): Bytes {
    if t.style.GnuTable? then t.payload else table
  }

  predicate EndsWith(s: Bytes, b: Byte) {
    s != [] && s[|s| - 1] == b
  }

  /** The item can be written in its style, after the string table if it needs one. */
  predicate Fits(t: Item, table: Bytes) {
    && |t.mtime| == 12 && |t.uid| == 6 && |t.gid| == 6 && |t.mode| == 8
    && |Spell(|Body(t)|)| <= 10 && |NameText(t)| <= 16
    && match t.style
       case ShortName => !EndsWith(t.name, 47) && !IsBsd(t.name + [47])
       case BsdName => !EndsWith(t.name, 0)
       case GnuName(offset) => 10 !in t.name && OccursAt(t.name + [47, 10], table, offset)
       case GnuTable => t.name == [47, 47]
  }

  predicate FitsAll(items: seq<Item>, table: Bytes) {
    items == [] || (Fits(items[0], table) && FitsAll(items[1..], TableBy(items[0], table)))
  }

  function FormatBy(style: Style): NameFormat {
    match style
    case ShortName => Short
    case BsdName => BsdLong
    case GnuName(_) => GnuLongReference
    case GnuTable => GnuStringTable
  }

  /** The member is the item. */
  ghost predicate Matches(m: Member, t: Item) {
    && m.name == t.name && m.format == FormatBy(t.style) && m.payload == t.payload
    && m.memberSize == |Body(t)| && m.nameStorageSize == (if t.style.BsdName? then |t.name| else 0)
    && m.mtimeField == t.mtime && m.uidField == t.uid && m.gidField == t.gid && m.modeField == t.mode
    && m.canonicalSizeField && (m.canonicalBsdNameField <==> t.style.BsdName?)
  }

  // ----- numbers and trimming -----

  lemma {:induction false} SpellReads(n: nat)
    ensures AllDigits(Spell(n)) && Decimal(Spell(n)) == n
  {
    if n < 10 {
      assert Spell(n)[..0] == [];
    } else {
      SpellReads(n / 10);
      var front := Spell(n / 10);
      assert Spell(n)[..|front|] == front;
      assert Spell(n)[|front|] == 48 + n % 10;
    }
  }

  lemma {:induction false} PaddingIsTrimmed(s: Bytes, spaces: nat)
    requires s != [] && !Space(s[|s| - 1])
    ensures TrimEnd(s + seq(spaces, _ => 32), (b: Byte) => Space(b)) == s
  {
    var all := s + seq(spaces, _ => 32);
    if spaces == 0 {
      assert all == s;
    } else {
      PaddingIsTrimmed(s, spaces - 1);
      assert all[..|all| - 1] == s + seq(spaces - 1, _ => 32);
    }
  }

  lemma PaddedIsTrimmed(s: Bytes, width: nat)
    requires s != [] && !Space(s[|s| - 1])
    ensures TrimEnd(PadRight(s, width), (b: Byte) => Space(b)) == s
  {
    PaddingIsTrimmed(s, if |s| < width then width - |s| else 0);
    assert s + seq(0, _ => 32) == s;
  }

  lemma LastIsTrimmed(s: Bytes, b: Byte)
    requires !EndsWith(s, b)
    ensures TrimEnd(s, (c: Byte) => c == b) == s && TrimEnd(s + [b], (c: Byte) => c == b) == s
  {
    assert (s + [b])[..|s|] == s;
  }

  lemma NameTextEnds(t: Item, table: Bytes)
    requires Fits(t, table)
    ensures NameText(t) != [] && !Space(NameText(t)[|NameText(t)| - 1])
  {
    SpellReads(|t.name|);
    if t.style.GnuName? {
      SpellReads(t.style.offset);
    }
  }

  // ----- the header -----

  /** The fields of a written header, wherever it stands. */
  lemma HeaderFields(t: Item, table: Bytes)
    requires Fits(t, table)
    ensures |Header(t)| == 60
    ensures var h := Header(t);
      && Slice(h, 0, 16) == PadRight(NameText(t), 16) && Slice(h, 16, 28) == t.mtime
      && Slice(h, 28, 34) == t.uid && Slice(h, 34, 40) == t.gid && Slice(h, 40, 48) == t.mode
      && Slice(h, 48, 58) == PadRight(Spell(|Body(t)|), 10) && Slice(h, 58, 60) == [96, 10]
  {
    hide Spell;
    hide NameText;
    hide Body;
    var (name, size) := (PadRight(NameText(t), 16), PadRight(Spell(|Body(t)|), 10));
    assert |name| == 16 && |size| == 10;
    hide PadRight;
    SevenFields(name, t.mtime, t.uid, t.gid, t.mode, size, [96, 10]);
  }

  lemma SevenFields(a: Bytes, b: Bytes, c: Bytes, d: Bytes, e: Bytes, f: Bytes, g: Bytes)
    requires |a| == 16 && |b| == 12 && |c| == 6 && |d| == 6 && |e| == 8 && |f| == 10 && |g| == 2
    ensures var h := a + b + c + d + e + f + g;
      && Slice(h, 0, 16) == a && Slice(h, 16, 28) == b && Slice(h, 28, 34) == c && Slice(h, 34, 40) == d
      && Slice(h, 40, 48) == e && Slice(h, 48, 58) == f && Slice(h, 58, 60) == g
  {
  }

  lemma DigitsStart(s: Bytes)
    requires AllDigits(s)
    ensures TrimStart(s) == s && s != [] && !Space(s[|s| - 1])
  {
    assert Digit(s[0]) && Digit(s[|s| - 1]);
  }

  lemma HeaderSize(t: Item, table: Bytes)
    requires Fits(t, table)
    ensures SizeOk(Header(t)) && Size(Header(t)) == |Body(t)|
    ensures RawName(Header(t)) == NameText(t)
  {
    hide Spell;
    hide NameText;
    hide Body;
    hide PadRight;
    hide TrimEnd;
    hide Slice;
    hide Fits;
    hide AllDigits;
    hide Decimal;
    var n := |Body(t)|;
    HeaderFields(t, table);
    SpellReads(n);
    DigitsStart(Spell(n));
    PaddedIsTrimmed(Spell(n), 10);
    NameTextEnds(t, table);
    PaddedIsTrimmed(NameText(t), 16);
    hide Header;
  }

  /** The name format of a written member. */
  lemma FormatIsRead(t: Item, table: Bytes)
    requires Fits(t, table)
    ensures FormatOf(NameText(t), table) == FormatBy(t.style)
    ensures t.style.BsdName? ==>
      var digits := TrimStart(NameText(t)[3..]); AllDigits(digits) && Decimal(digits) == |t.name|
    ensures t.style.GnuName? ==>
      |NameText(t)| > 1 && AllDigits(NameText(t)[1..]) && Decimal(NameText(t)[1..]) == t.style.offset
  {
    hide Spell;
    hide Decimal;
    var text := NameText(t);
    if t.style.BsdName? {
      SpellReads(|t.name|);
      DigitsStart(Spell(|t.name|));
      assert text[..3] == [35, 49, 47] && text[3..] == Spell(|t.name|);
    } else if t.style.GnuName? {
      SpellReads(t.style.offset);
      assert text[1..] == Spell(t.style.offset);
      assert Digit(text[1..][0]);
      assert text[0] == 47;
    } else if t.style.ShortName? {
      ShortIsShort(t.name, table);
    }
  }

  lemma ShortIsShort(name: Bytes, table: Bytes)
    requires !EndsWith(name, 47) && !IsBsd(name + [47])
    ensures FormatOf(name + [47], table) == Short
  {
    var text := name + [47];
    if |text| > 1 {
      assert !Digit(text[1..][|text| - 2]);
    }
    assert |name| == 1 ==> text[0] == name[0] != 47;
  }

  /** The string table gives back the name at its offset. */
  lemma TableNameIsRead(name: Bytes, table: Bytes, offset: nat)
    requires 10 !in name && OccursAt(name + [47, 10], table, offset)
    ensures TableName(table, offset) == name
  {
    var (line, mark) := (name + [47, 10], [47, 10]);
    assert table[offset..offset + |line|] == line;
    forall j | 0 <= j < |line| ensures table[offset + j] == line[j] {
      assert table[offset..offset + |line|][j] == line[j];
    }
    var last := offset + |name|;
    assert table[last] == line[|name|] == 47 && table[last + 1] == line[|name| + 1] == 10;
    assert OccursAt(mark, table, last) by {
      assert table[last..last + 2] == mark;
    }
    forall j | 0 <= j <= |name| ensures line[j] != 10 {
      assert line[j] == (name + [47])[j];
    }
    var end := Find(mark, table, offset);
    assert offset <= end <= last && OccursAt(mark, table, end);
    assert table[end..end + 2][1] == 10 && table[end + 1] == line[end + 1 - offset];
    assert end == last;
    assert table[offset..last] == table[offset..offset + |line|][..|name|] == name;
  }

  // ----- one member -----

  /** The parts of a written member in the data around it. */
  lemma PartsInPlace(before: Bytes, t: Item, after: Bytes, table: Bytes)
    requires Fits(t, table)
    ensures var data := before + (Write(t) + after);
      var start := |before| + HEADER;
      var (end, next) := (start + |Body(t)|, |before| + |Write(t)|);
      && end <= |data| && next == end + |Body(t)| % 2 && next <= |data|
      && data[|before|..start] == Header(t) && data[start..end] == Body(t)
  {
    hide Header;
    hide Body;
    HeaderFields(t, table);
    var data := before + (Write(t) + after);
    var pad: Bytes := if |Body(t)| % 2 == 1 then [10] else [];
    assert data == before + Header(t) + Body(t) + (pad + after);
  }

  /** The name and the payload that the parser takes from a written body. */
  lemma BodyIsRead(t: Item, table: Bytes)
    requires Fits(t, table)
    ensures var (body, raw) := (Body(t), NameText(t));
      && (t.style.BsdName? ==>
            Slice(body, 0, |t.name|) == t.name && Slice(body, |t.name|, |body|) == t.payload
            && TrimEnd(t.name, (b: Byte) => b == 0) == t.name)
      && (!t.style.BsdName? ==> body == t.payload)
      && (t.style.ShortName? ==> TrimEnd(raw, (b: Byte) => b == 47) == t.name)
      && (t.style.GnuName? ==> TableName(table, t.style.offset) == t.name)
  {
    hide Spell;
    hide TrimEnd;
    hide TableName;
    match t.style
    case ShortName => LastIsTrimmed(t.name, 47);
    case BsdName =>
      LastIsTrimmed(t.name, 0);
      assert Body(t)[..|t.name|] == t.name && Body(t)[|t.name|..] == t.payload;
    case GnuName(offset) => TableNameIsRead(t.name, table, offset);
    case GnuTable =>
  }

  /** A written member is read back, whatever stands around it. */
  lemma MemberIsRead(before: Bytes, t: Item, after: Bytes, table: Bytes)
    requires Fits(t, table)
    ensures var data := before + (Write(t) + after);
      && |before| + HEADER <= |data|
      && var turn := MemberAt(data, |before|, table);
         turn.Turn? && Matches(turn.member, t) && turn.next == |before| + |Write(t)|
  {
    hide Header;
    hide Write;
    hide Body;
    hide NameText;
    hide Spell;
    hide Decimal;
    hide PadRight;
    hide TrimEnd;
    hide TrimStart;
    hide Slice;
    hide RawName;
    hide SizeOk;
    hide Size;
    hide FormatOf;
    hide TableName;
    hide AllDigits;
    hide Fits;
    var data := before + (Write(t) + after);
    PartsInPlace(before, t, after, table);
    HeaderFields(t, table);
    HeaderSize(t, table);
    FormatIsRead(t, table);
    BodyIsRead(t, table);
    CanonicalBsd(t, table);
  }

  lemma CanonicalBsd(t: Item, table: Bytes)
    requires Fits(t, table)
    ensures t.style.BsdName? ==> PadRight(NameText(t), 16) == PadRight([35, 49, 47] + Spell(|t.name|), 16)
    ensures t.style.GnuTable? ==> t.name == [47, 47]
  {
    hide Spell;
    hide PadRight;
  }

  // ----- whole archives -----

  /** The members are the items, each numbered by the earlier ones of its name. */
  ghost predicate AllMatch(ms: seq<Member>, items: seq<Item>) {
    |ms| == |items| && forall k :: 0 <= k < |ms| ==> Matches(ms[k], items[k])
  }

  lemma MatchesAnyNumber(m: Member, t: Item, n: nat)
    requires Matches(m, t)
    ensures Matches(m.(occurrence := n), t)
  {
    hide Body;
  }

  lemma {:induction false} MembersAreRead(before: Bytes, items: seq<Item>, table: Bytes, occurrences: map<Bytes, nat>)
    requires FitsAll(items, table)
    ensures var r := ParseFrom(before + WriteAll(items), |before|, table, occurrences);
      r.Archive? && AllMatch(r.members, items) && r.trailing == []
    decreases |items|
  {
    hide MemberAt;
    hide Write;
    hide Fits;
    hide Matches;
    hide Slice;
    var data := before + WriteAll(items);
    if items == [] {
      assert data == before;
      NothingLeft(data);
    } else {
      var (t, rest) := (items[0], items[1..]);
      MemberIsRead(before, t, WriteAll(rest), table);
      var Turn(m, next) := MemberAt(data, |before|, table);
      var n := Seen(occurrences, m.name);
      assert data == (before + Write(t)) + WriteAll(rest);
      TableIsKept(m, t, table);
      MembersAreRead(before + Write(t), rest, TableBy(t, table), occurrences[m.name := n + 1]);
      MatchesAnyNumber(m, t, n);
      var r := ParseFrom(data, next, TableAfter(m, table), occurrences[m.name := n + 1]);
      ConsMatches(m.(occurrence := n), r.members, t, rest);
      assert items == [t] + rest;
    }
  }

  lemma NothingLeft(data: Bytes)
    ensures Slice(data, |data|, |data|) == []
  {
  }

  lemma TableIsKept(m: Member, t: Item, table: Bytes)
    requires Matches(m, t)
    ensures TableAfter(m, table) == TableBy(t, table)
  {
    hide Body;
  }

  lemma ConsMatches(m: Member, ms: seq<Member>, t: Item, items: seq<Item>)
    requires Matches(m, t) && AllMatch(ms, items)
    ensures AllMatch([m] + ms, [t] + items)
  {
    hide Matches;
  }

  /** The round trip: whatever fits is read back from what was written, member for member, with
      nothing left over. */
  lemma WrittenIsRead(items: seq<Item>)
    requires FitsAll(items, [])
    ensures var r := Parse(MAGIC + WriteAll(items));
      r.Archive? && AllMatch(r.members, items) && r.trailing == []
  {
    hide ParseFrom;
    hide WriteAll;
    hide FitsAll;
    hide AllMatch;
    MembersAreRead(MAGIC, items, [], map[]);
    assert (MAGIC + WriteAll(items))[0..8] == MAGIC;
  }
}
