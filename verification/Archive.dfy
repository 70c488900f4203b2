/** The `ar` archive parser, `parse_ar_details` of
    `scripts/check-reproducible-build-metadata.py`: SysV, BSD and GNU member names, every byte
    of the input retained. */
module Archive {
  import opened ByteText

  const MAGIC: Bytes := [33, 60, 97, 114, 99, 104, 62, 10]

  const HEADER := 60

  datatype NameFormat = Short | BsdLong | GnuStringTable | GnuLongReference

  datatype Member = Member(
    name: Bytes, occurrence: nat, format: NameFormat,
    memberSize: nat, nameStorageSize: nat,
    canonicalBsdNameField: bool, canonicalSizeField: bool,
    nameEncoding: Bytes, nameField: Bytes, mtimeField: Bytes, uidField: Bytes, gidField: Bytes,
    modeField: Bytes, sizeField: Bytes, trailerField: Bytes, payload: Bytes, padding: Bytes)

  datatype Reason = NotArchive | BadHeader | BadSize | Truncated | BadNameSize

  datatype Parsed = Archive(members: seq<Member>, trailing: Bytes) | Error(reason: Reason)

  // ----- header fields -----

  function RawName(header: Bytes): Bytes {
    TrimEnd(Slice(header, 0, 16), (b: Byte) => Space(b))
  }

  /** The decimal size field; blank counts as zero. */
  function SizeText(header: Bytes): Bytes {
    TrimStart(TrimEnd(Slice(header, 48, 58), (b: Byte) => Space(b)))
  }

  predicate SizeOk(header: Bytes) {
    SizeText(header) == [] || AllDigits(SizeText(header))
  }

  function Size(header: Bytes): nat
    requires SizeOk(header)
  {
    if SizeText(header) == [] then 0 else Decimal(SizeText(header))
  }

  predicate IsBsd(raw: Bytes) {
    |raw| >= 3 && raw[..3] == [35, 49, 47]
  }

  predicate IsGnuTable(raw: Bytes) {
    raw == [47, 47]
  }

  predicate IsGnuReference(raw: Bytes, table: Bytes) {
    |raw| > 1 && raw[0] == 47 && AllDigits(raw[1..]) && table != []
  }

  function FormatOf(raw: Bytes, table: Bytes): NameFormat {
    if IsBsd(raw) then BsdLong
    else if IsGnuTable(raw) then GnuStringTable
    else if IsGnuReference(raw, table) then GnuLongReference
    else Short
  }

  /** The name that a GNU string table holds at an offset. */
  function TableName(table: Bytes, offset: nat): Bytes {
    var end := Find([47, 10], table, offset);
    Slice(table, offset, if end < 0 then |table| else end)
  }

  // ----- one member -----

  datatype Turn = Turn(member: Member, next: nat) | Fail(reason: Reason)

  /** The member whose header starts at `offset`; its occurrence number is left to the caller. */
  function MemberAt(data: Bytes, offset: nat, table: Bytes): (t: Turn)
    requires offset + HEADER <= |data|
    ensures t.Turn? ==> t.next >= offset + HEADER
  {
    var header := data[offset..offset + HEADER];
    if Slice(header, 58, 60) != [96, 10] then Fail(BadHeader)
    else if !SizeOk(header) then Fail(BadSize)
    else
      var size := Size(header);
      var start, end := offset + HEADER, offset + HEADER + size;
      if end > |data| then Fail(Truncated)
      else
        var raw, body := RawName(header), data[start..end];
        var format := FormatOf(raw, table);
        if format == BsdLong && !AllDigits(TrimStart(raw[3..])) then Fail(BadNameSize)
        else
          var nameSize := if format == BsdLong then Decimal(TrimStart(raw[3..])) else 0;
          var encoding := if format == BsdLong then Slice(body, 0, nameSize) else Slice(header, 0, 16);
          var name :=
            match format
            case BsdLong => TrimEnd(encoding, (b: Byte) => b == 0)
            case GnuStringTable => [47, 47]
            case GnuLongReference => TableName(table, Decimal(raw[1..]))
            case Short => TrimEnd(raw, (b: Byte) => b == 47);
          Turn(
            Member(
              name, 0, format, size, nameSize,
              format == BsdLong && Slice(header, 0, 16) == PadRight([35, 49, 47] + Spell(nameSize), 16),
              Slice(header, 48, 58) == PadRight(Spell(size), 10),
              encoding, Slice(header, 0, 16), Slice(header, 16, 28), Slice(header, 28, 34), Slice(header, 34, 40),
              Slice(header, 40, 48), Slice(header, 48, 58), Slice(header, 58, 60),
              if format == BsdLong then Slice(body, nameSize, size) else body,
              Slice(data, end, end + size % 2)),
            end + size % 2)
  }

  function TableAfter(m: Member, table: Bytes): Bytes {
    if m.format == GnuStringTable then m.payload else table
  }

  function Seen(occurrences: map<Bytes, nat>, name: Bytes): nat {
    if name in occurrences then occurrences[name] else 0
  }

  function Cons(m: Member, rest: Parsed): Parsed {
    match rest
    case Archive(members, trailing) => Archive([m] + members, trailing)
    case Error(_) => rest
  }

  /** The members from `offset` on, given the GNU string table and the names seen so far. */
  function ParseFrom(data: Bytes, offset: nat, table: Bytes, occurrences: map<Bytes, nat>): Parsed
    decreases |data| - offset
  {
    if offset + HEADER > |data| then Archive([], Slice(data, offset, |data|))
    else
      match MemberAt(data, offset, table)
      case Fail(reason) => Error(reason)
      case Turn(m, next) =>
        var n := Seen(occurrences, m.name);
        Cons(m.(occurrence := n), ParseFrom(data, next, TableAfter(m, table), occurrences[m.name := n + 1]))
  }

  function Parse(data: Bytes): Parsed {
    if Slice(data, 0, 8) != MAGIC then Error(NotArchive) else ParseFrom(data, 8, [], map[])
  }

  function Append(members: seq<Member>, rest: Parsed): Parsed {
    match rest
    case Archive(ms, trailing) => Archive(members + ms, trailing)
    case Error(_) => rest
  }

  method ParseDetails(data: Bytes) returns (r: Parsed)
    ensures r == Parse(data)
  {
    hide MemberAt;
    if Slice(data, 0, 8) != MAGIC {
      return Error(NotArchive);
    }
    var offset := 8;
    var members: seq<Member> := [];
    var table: Bytes := [];
    var occurrences: map<Bytes, nat> := map[];
    while offset < |data|
      invariant Append(members, ParseFrom(data, offset, table, occurrences)) == Parse(data)
      decreases |data| - offset
    {
      if offset + HEADER > |data| {
        break;
      }
      var turn := MemberAt(data, offset, table);
      if turn.Fail? {
        return Error(turn.reason);
      }
      var occurrence := Seen(occurrences, turn.member.name);
      var member := turn.member.(occurrence := occurrence);
      AppendCons(members, member, ParseFrom(data, turn.next, TableAfter(turn.member, table),
                                            occurrences[member.name := occurrence + 1]));
      occurrences := occurrences[member.name := occurrence + 1];
      members := members + [member];
      if member.format == GnuStringTable {
        table := member.payload;
      }
      offset := turn.next;
    }
    r := Archive(members, Slice(data, offset, |data|));
  }

  lemma AppendCons(members: seq<Member>, m: Member, rest: Parsed)
    ensures Append(members, Cons(m, rest)) == Append(members + [m], rest)
  {
    if rest.Archive? {
      assert members + ([m] + rest.members) == (members + [m]) + rest.members;
    }
  }

  // ----- nothing is lost -----

  /** The bytes of a member, from its parsed parts. */
  function MemberBytes(m: Member): Bytes {
    HeaderBytes(m) + BodyBytes(m) + m.padding
  }

  function AllBytes(members: seq<Member>): Bytes {
    if members == [] then [] else MemberBytes(members[0]) + AllBytes(members[1..])
  }

  lemma HeaderParts(h: Bytes)
    requires |h| == HEADER
    ensures Slice(h, 0, 16) + Slice(h, 16, 28) + Slice(h, 28, 34) + Slice(h, 34, 40) + Slice(h, 40, 48)
      + Slice(h, 48, 58) + Slice(h, 58, 60) == h
  {
  }

  lemma SplitBody(body: Bytes, n: nat)
    ensures Slice(body, 0, n) + Slice(body, n, |body|) == body
  {
  }

  function HeaderBytes(m: Member): Bytes {
    m.nameField + m.mtimeField + m.uidField + m.gidField + m.modeField + m.sizeField + m.trailerField
  }

  function BodyBytes(m: Member): Bytes {
    (if m.format == BsdLong then m.nameEncoding else []) + m.payload
  }

  /** The stored regions of a parsed member. */
  lemma MemberRegions(data: Bytes, offset: nat, table: Bytes, m: Member, next: nat)
    requires offset + HEADER <= |data| && MemberAt(data, offset, table) == Turn(m, next)
    ensures offset + HEADER + m.memberSize <= |data| && next == offset + HEADER + m.memberSize + m.memberSize % 2
    ensures var (header, end) := (data[offset..offset + HEADER], offset + HEADER + m.memberSize);
      var body := data[offset + HEADER..end];
      && m.nameField == Slice(header, 0, 16) && m.mtimeField == Slice(header, 16, 28)
      && m.uidField == Slice(header, 28, 34) && m.gidField == Slice(header, 34, 40)
      && m.modeField == Slice(header, 40, 48) && m.sizeField == Slice(header, 48, 58)
      && m.trailerField == Slice(header, 58, 60) && m.padding == Slice(data, end, next)
      && (m.format == BsdLong ==>
            m.nameEncoding == Slice(body, 0, m.nameStorageSize)
            && m.payload == Slice(body, m.nameStorageSize, m.memberSize))
      && (m.format != BsdLong ==> m.payload == body)
  {
    hide RawName;
    hide SizeOk;
    hide Size;
    hide FormatOf;
    hide TableName;
    hide TrimStart;
    hide TrimEnd;
    hide Spell;
    hide PadRight;
    hide AllDigits;
    hide Decimal;
    hide Slice;
  }

  lemma MemberParts(data: Bytes, offset: nat, table: Bytes, m: Member, next: nat)
    requires offset + HEADER <= |data| && MemberAt(data, offset, table) == Turn(m, next)
    ensures var (start, end) := (offset + HEADER, offset + HEADER + m.memberSize);
      && end <= |data| && next == end + m.memberSize % 2
      && HeaderBytes(m) == data[offset..start] && BodyBytes(m) == data[start..end]
      && m.padding == Slice(data, end, next)
  {
    hide MemberAt;
    hide Slice;
    MemberRegions(data, offset, table, m, next);
    HeaderParts(data[offset..offset + HEADER]);
    SplitBody(data[offset + HEADER..offset + HEADER + m.memberSize], m.nameStorageSize);
  }

  /** One member's parts are exactly the bytes between its header and the next one. */
  lemma MemberLossless(data: Bytes, offset: nat, table: Bytes)
    requires offset + HEADER <= |data| && MemberAt(data, offset, table).Turn?
    ensures var Turn(m, next) := MemberAt(data, offset, table);
      MemberBytes(m) == Slice(data, offset, next)
  {
    hide MemberAt;
    hide HeaderBytes;
    hide BodyBytes;
    hide Slice;
    var Turn(m, next) := MemberAt(data, offset, table);
    var (start, end) := (offset + HEADER, offset + HEADER + m.memberSize);
    MemberParts(data, offset, table, m, next);
    ThreeSlices(data, offset, start, end, next);
  }

  lemma ThreeSlices(data: Bytes, offset: nat, start: nat, end: nat, next: nat)
    requires offset <= start <= end <= |data| && end <= next
    ensures data[offset..start] + data[start..end] + Slice(data, end, next) == Slice(data, offset, next)
  {
    assert data[offset..start] + data[start..end] == data[offset..end];
  }

  /** One member and what is parsed after it. */
  lemma ParseNext(data: Bytes, offset: nat, table: Bytes, occurrences: map<Bytes, nat>)
    returns (m: Member, next: nat, rest: Parsed)
    requires ParseFrom(data, offset, table, occurrences).Archive? && offset + HEADER <= |data|
    ensures MemberAt(data, offset, table) == Turn(m, next) && next > offset
    ensures var n := Seen(occurrences, m.name);
      && rest == ParseFrom(data, next, TableAfter(m, table), occurrences[m.name := n + 1]) && rest.Archive?
      && ParseFrom(data, offset, table, occurrences)
         == Archive([m.(occurrence := n)] + rest.members, rest.trailing)
  {
    hide MemberAt;
    hide Seen;
    hide TableAfter;
    m, next := MemberAt(data, offset, table).member, MemberAt(data, offset, table).next;
    rest := ParseFrom(data, next, TableAfter(m, table), occurrences[m.name := Seen(occurrences, m.name) + 1]);
  }

  lemma AllBytesCons(m: Member, rest: seq<Member>)
    ensures AllBytes([m] + rest) == MemberBytes(m) + AllBytes(rest)
  {
    hide MemberBytes;
  }

  lemma {:induction false} TailLossless(data: Bytes, offset: nat, table: Bytes, occurrences: map<Bytes, nat>)
    requires ParseFrom(data, offset, table, occurrences).Archive?
    ensures var r := ParseFrom(data, offset, table, occurrences);
      AllBytes(r.members) + r.trailing == Slice(data, offset, |data|)
    decreases |data| - offset
  {
    hide MemberAt;
    hide MemberBytes;
    hide TableAfter;
    hide Seen;
    if offset + HEADER > |data| {
      assert AllBytes([]) + Slice(data, offset, |data|) == Slice(data, offset, |data|);
    } else {
      hide ParseFrom;
      hide AllBytes;
      hide Slice;
      var m, next, rest := ParseNext(data, offset, table, occurrences);
      var n := Seen(occurrences, m.name);
      MemberLossless(data, offset, table);
      TailLossless(data, next, TableAfter(m, table), occurrences[m.name := n + 1]);
      OccurrenceIsNotStored(m, n);
      AllBytesCons(m.(occurrence := n), rest.members);
      SlicesJoin(data, offset, next, MemberBytes(m), AllBytes(rest.members), rest.trailing);
    }
  }

  lemma SlicesJoin(data: Bytes, offset: nat, next: nat, front: Bytes, middle: Bytes, last: Bytes)
    requires offset <= next && front == Slice(data, offset, next) && middle + last == Slice(data, next, |data|)
    ensures (front + middle) + last == Slice(data, offset, |data|)
  {
    assert (front + middle) + last == front + (middle + last);
  }

  lemma OccurrenceIsNotStored(m: Member, n: nat)
    ensures MemberBytes(m.(occurrence := n)) == MemberBytes(m)
  {
  }

  /** Every accepted input is rebuilt exactly from what the parser returns. */
  lemma ParseIsLossless(data: Bytes)
    requires Parse(data).Archive?
    ensures MAGIC + AllBytes(Parse(data).members) + Parse(data).trailing == data
  {
    hide ParseFrom;
    TailLossless(data, 8, [], map[]);
    assert Slice(data, 0, 8) + Slice(data, 8, |data|) == data;
  }

  // ----- occurrence numbers -----

  function CountName(members: seq<Member>, name: Bytes): nat {
    if members == [] then 0 else (if members[0].name == name then 1 else 0) + CountName(members[1..], name)
  }

  /** Each member is numbered by how many earlier members have its name, so the pair of name and
      number identifies a member of an archive. */
  lemma {:induction false} OccurrencesCount(
    data: Bytes, offset: nat, table: Bytes, occurrences: map<Bytes, nat>, k: nat)
    requires ParseFrom(data, offset, table, occurrences).Archive?
    requires k < |ParseFrom(data, offset, table, occurrences).members|
    ensures var ms := ParseFrom(data, offset, table, occurrences).members;
      ms[k].occurrence == Seen(occurrences, ms[k].name) + CountName(ms[..k], ms[k].name)
    decreases |data| - offset
  {
    hide MemberAt;
    hide TableAfter;
    if offset + HEADER <= |data| {
      hide ParseFrom;
      var m, next, rest := ParseNext(data, offset, table, occurrences);
      var n := Seen(occurrences, m.name);
      if k > 0 {
        OccurrencesCount(data, next, TableAfter(m, table), occurrences[m.name := n + 1], k - 1);
        CountNameCons(m.(occurrence := n), rest.members, k);
      }
    }
  }

  lemma CountNameCons(m: Member, rest: seq<Member>, k: nat)
    requires 0 < k <= |rest|
    ensures var name := rest[k - 1].name;
      CountName(([m] + rest)[..k], name) == (if m.name == name then 1 else 0) + CountName(rest[..k - 1], name)
  {
    assert ([m] + rest)[..k][1..] == rest[..k - 1];
  }
}
