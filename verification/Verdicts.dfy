/** What each list of the report says about the files themselves: which differences, in terms of
    their bytes and of their bytes once build paths are replaced, put an entry where
    (`compare_records` of `scripts/check-reproducible-build-metadata.py`). */
module Verdicts {
  import opened ByteText
  import opened Archive
  import opened Records
  import opened Compare
  import Reproducible

  /** The bytes recorded as a member's payload; a GNU string table is recorded as a name instead. */
  function Payload(m: Member): Bytes {
    if m.format == GnuStringTable then [] else m.payload
  }

  /** Two byte strings differ, and also once each one's build paths are replaced. */
  ghost predicate DifferForReal(x: Bytes, y: Bytes, r1: seq<Replacement>, r2: seq<Replacement>) {
    x != y && Normalize(x, r1) != Normalize(y, r2)
  }

  /** Two byte strings differ, but not once each one's build paths are replaced. */
  ghost predicate DifferByPaths(x: Bytes, y: Bytes, r1: seq<Replacement>, r2: seq<Replacement>) {
    x != y && Normalize(x, r1) == Normalize(y, r2)
  }

  lemma RecordsDiffer(x: Bytes, y: Bytes, r1: seq<Replacement>, r2: seq<Replacement>)
    ensures var (a, b) := (BytesRecord(x, r1), BytesRecord(y, r2));
      && (Differs(a, b) <==> x != y)
      && (a.normalizedSha == b.normalizedSha <==> Normalize(x, r1) == Normalize(y, r2))
      && (a.embeddedPaths != [] <==> Leaks(x, r1))
  {
    hide Normalize;
    hide EmbeddedPaths;
    hide Leaks;
    EmbeddedIffLeaks(x, r1);
  }

  lemma InIf(condition: bool, e: Entry, x: Entry)
    ensures x in If(condition, e) <==> condition && x == e
  {
  }

  lemma InFive(a: seq<Entry>, b: seq<Entry>, c: seq<Entry>, d: seq<Entry>, e: seq<Entry>, x: Entry)
    ensures x in a + b + c + d + e <==> x in a || x in b || x in c || x in d || x in e
  {
  }

  // ----- one pair of members -----

  /** The entries about a pair of members that list no fields. */
  lemma PlainEntries(key: Key, index: nat, a: MemberRecord, b: MemberRecord, cls: Class)
    ensures Entry(cls, key, InMember(index)) in MemberEntries(key, index, a, b) <==>
      || (cls == PathLeak && MemberPaths(a) + MemberPaths(b) != [])
      || (cls == PathOnlyPayload && Differs(a.payload, b.payload)
          && a.payload.normalizedSha == b.payload.normalizedSha)
      || (cls == PayloadDifference && Differs(a.payload, b.payload)
          && a.payload.normalizedSha != b.payload.normalizedSha)
  {
    hide If;
    hide MetadataChanges;
    hide NameChanges;
    hide FormatChanges;
    hide PathOnlyNames;
    hide MemberPaths;
    hide Differs;
    var x := Entry(cls, key, InMember(index));
    var (metadata, names, format) := (MetadataChanges(a, b), NameChanges(a, b), FormatChanges(a, b));
    var nameClass := if PathOnlyNames(a, b) then PathOnlyName else ArchiveFormat;
    var payloadClass :=
      if a.payload.normalizedSha == b.payload.normalizedSha then PathOnlyPayload else PayloadDifference;
    var (leaks, differs) := (MemberPaths(a) + MemberPaths(b) != [], Differs(a.payload, b.payload));
    InIf(metadata != [], Entry(ArchiveMetadata, key, Fields(index, metadata)), x);
    InIf(leaks, Entry(PathLeak, key, InMember(index)), x);
    InIf(names != [], Entry(nameClass, key, Fields(index, names)), x);
    InIf(format != [], Entry(ArchiveFormat, key, Fields(index, format)), x);
    InIf(differs, Entry(payloadClass, key, InMember(index)), x);
    InFive(If(metadata != [], Entry(ArchiveMetadata, key, Fields(index, metadata))),
           If(leaks, Entry(PathLeak, key, InMember(index))),
           If(names != [], Entry(nameClass, key, Fields(index, names))),
           If(format != [], Entry(ArchiveFormat, key, Fields(index, format))),
           If(differs, Entry(payloadClass, key, InMember(index))), x);
  }

  /** Some build path occurs in what is recorded of a member. */
  ghost predicate MemberLeaks(m: Member, rs: seq<Replacement>) {
    Leaks(m.payload, rs) || Leaks(m.name, rs) || Leaks(m.nameEncoding, rs)
  }

  lemma EmptyLeaks(data: Bytes, rs: seq<Replacement>)
    requires Leaks([], rs)
    ensures Leaks(data, rs)
  {
    var k :| 0 <= k < |rs| && Within(rs[k].path, []);
    assert OccursAt(rs[k].path, data, 0);
  }

  lemma MemberPathsLeak(m: Member, rs: seq<Replacement>)
    ensures MemberPaths(RecordMember(m, rs)) != [] <==> MemberLeaks(m, rs)
  {
    hide Normalize;
    hide EmbeddedPaths;
    hide Leaks;
    EmbeddedIffLeaks(m.payload, rs);
    EmbeddedIffLeaks([], rs);
    EmbeddedIffLeaks(m.name, rs);
    EmbeddedIffLeaks(m.nameEncoding, rs);
    if Leaks([], rs) {
      EmptyLeaks(m.payload, rs);
    }
  }

  /** What the report says about the payloads of a pair of members: they are listed as path-only
      exactly when they differ and agree once build paths are replaced, as different exactly when
      they differ and do not, and as leaking exactly when a build path occurs in either member. */
  lemma PayloadVerdict(key: Key, index: nat, m: Member, n: Member, r1: seq<Replacement>, r2: seq<Replacement>)
    ensures var es := MemberEntries(key, index, RecordMember(m, r1), RecordMember(n, r2));
      && (Entry(PathOnlyPayload, key, InMember(index)) in es <==> DifferByPaths(Payload(m), Payload(n), r1, r2))
      && (Entry(PayloadDifference, key, InMember(index)) in es <==> DifferForReal(Payload(m), Payload(n), r1, r2))
      && (Entry(PathLeak, key, InMember(index)) in es <==> MemberLeaks(m, r1) || MemberLeaks(n, r2))
  {
    hide BytesRecord;
    hide Normalize;
    hide MemberEntries;
    hide MemberPaths;
    hide Differs;
    hide MemberLeaks;
    var (a, b) := (RecordMember(m, r1), RecordMember(n, r2));
    assert a.payload == BytesRecord(Payload(m), r1) && b.payload == BytesRecord(Payload(n), r2);
    hide RecordMember;
    PlainEntries(key, index, a, b, PathOnlyPayload);
    PlainEntries(key, index, a, b, PayloadDifference);
    PlainEntries(key, index, a, b, PathLeak);
    RecordsDiffer(Payload(m), Payload(n), r1, r2);
    MemberPathsLeak(m, r1);
    MemberPathsLeak(n, r2);
  }

  /** The bytes that a field names; only a GNU string table has a name table. */
  function BytesOf(m: Member, f: Field): Option<Bytes> {
    match f
    case MtimeField => Some(m.mtimeField)
    case UidField => Some(m.uidField)
    case GidField => Some(m.gidField)
    case ModeField => Some(m.modeField)
    case NameDigest => Some(m.name)
    case NameEncoding => Some(m.nameEncoding)
    case NameTable => if m.format == GnuStringTable then Some(m.payload) else None
    case NameField => Some(m.nameField)
    case SizeField => Some(m.sizeField)
    case TrailerField => Some(m.trailerField)
    case Padding => Some(m.padding)
  }

  ghost predicate FieldDiffers(m: Member, n: Member, f: Field) {
    BytesOf(m, f) != BytesOf(n, f)
  }

  /** Every part of the names that differs agrees once build paths are replaced. */
  ghost predicate NamesAgree(m: Member, n: Member, r1: seq<Replacement>, r2: seq<Replacement>) {
    forall f :: f in {NameDigest, NameEncoding, NameTable} && FieldDiffers(m, n, f) ==>
      && BytesOf(m, f).Some? && BytesOf(n, f).Some?
      && Normalize(BytesOf(m, f).value, r1) == Normalize(BytesOf(n, f).value, r2)
  }

  /** The members are stored with BSD names as the format prescribes, and only their names' lengths
      differ. */
  ghost predicate OnlyBsdLengths(m: Member, n: Member) {
    && m.format == BsdLong && n.format == BsdLong
    && m.canonicalBsdNameField && n.canonicalBsdNameField && m.canonicalSizeField && n.canonicalSizeField
    && m.memberSize == m.nameStorageSize + |m.payload| && n.memberSize == n.nameStorageSize + |n.payload|
    && |m.payload| == |n.payload| && m.nameStorageSize != n.nameStorageSize
  }

  lemma RegionIsBytes(m: Member, rs: seq<Replacement>, f: Field)
    ensures RegionOf(RecordMember(m, rs), f)
      == if BytesOf(m, f).Some? then Some(BytesRecord(BytesOf(m, f).value, rs)) else None
  {
    hide BytesRecord;
  }

  lemma RegionsDiffer(m: Member, n: Member, r1: seq<Replacement>, r2: seq<Replacement>, f: Field)
    ensures var (a, b) := (RecordMember(m, r1), RecordMember(n, r2));
      && (RegionChanged(a, b, f) <==> FieldDiffers(m, n, f))
      && (NormalizedAlike(a, b, f) <==>
            && BytesOf(m, f).Some? && BytesOf(n, f).Some?
            && Normalize(BytesOf(m, f).value, r1) == Normalize(BytesOf(n, f).value, r2))
  {
    hide BytesRecord;
    hide Normalize;
    hide RegionOf;
    hide RecordMember;
    hide BytesOf;
    hide Differs;
    RegionIsBytes(m, r1, f);
    RegionIsBytes(n, r2, f);
    if BytesOf(m, f).Some? && BytesOf(n, f).Some? {
      RecordsDiffer(BytesOf(m, f).value, BytesOf(n, f).value, r1, r2);
    }
  }

  lemma NamesAgreeIff(m: Member, n: Member, r1: seq<Replacement>, r2: seq<Replacement>)
    ensures SameButForPaths(RecordMember(m, r1), RecordMember(n, r2)) <==> NamesAgree(m, n, r1, r2)
  {
    hide Normalize;
    hide RecordMember;
    hide RegionChanged;
    hide NormalizedAlike;
    hide FieldDiffers;
    hide BytesOf;
    forall f: Field
      ensures RegionChanged(RecordMember(m, r1), RecordMember(n, r2), f) <==> FieldDiffers(m, n, f)
      ensures NormalizedAlike(RecordMember(m, r1), RecordMember(n, r2), f) <==>
        && BytesOf(m, f).Some? && BytesOf(n, f).Some?
        && Normalize(BytesOf(m, f).value, r1) == Normalize(BytesOf(n, f).value, r2)
      ensures f in NAMES <==> f in {NameDigest, NameEncoding, NameTable}
    {
      RegionsDiffer(m, n, r1, r2, f);
    }
  }

  lemma BsdLengthOnlyIff(m: Member, n: Member, r1: seq<Replacement>, r2: seq<Replacement>)
    ensures BsdLengthOnly(RecordMember(m, r1), RecordMember(n, r2)) <==>
      NameChanges(RecordMember(m, r1), RecordMember(n, r2)) != [] && NamesAgree(m, n, r1, r2) && OnlyBsdLengths(m, n)
  {
    hide NameChanges;
    hide PathOnlyNames;
    hide SameButForPaths;
    hide NamesAgree;
    hide Normalize;
    hide EmbeddedPaths;
    var (a, b) := (RecordMember(m, r1), RecordMember(n, r2));
    NamesAgreeIff(m, n, r1, r2);
    if NameChanges(a, b) != [] {
      PathOnlyMeans(a, b);
    }
    NoNamesNotPathOnly(a, b);
  }

  lemma NoNamesNotPathOnly(a: MemberRecord, b: MemberRecord)
    ensures PathOnlyNames(a, b) ==> NameChanges(a, b) != []
  {
    hide NameChanges;
  }

  lemma SomeNameDiffers(m: Member, n: Member, r1: seq<Replacement>, r2: seq<Replacement>)
    ensures NameChanges(RecordMember(m, r1), RecordMember(n, r2)) != [] <==>
      exists f :: f in {NameDigest, NameEncoding, NameTable} && FieldDiffers(m, n, f)
  {
    hide RecordMember;
    hide NameChanges;
    hide FieldDiffers;
    hide RegionChanged;
    var (a, b) := (RecordMember(m, r1), RecordMember(n, r2));
    forall f: Field
      ensures f in NameChanges(a, b) <==> f in {NameDigest, NameEncoding, NameTable} && FieldDiffers(m, n, f)
    {
      InChanges(a, b, f);
      RegionsDiffer(m, n, r1, r2, f);
    }
    if NameChanges(a, b) != [] {
      assert NameChanges(a, b)[0] in NameChanges(a, b);
    }
  }

  /** What follows from another length of a BSD name: the name field, the size, and a padding byte
      that only one of the members has. */
  ghost predicate Follows(m: Member, n: Member, r1: seq<Replacement>, r2: seq<Replacement>, f: Field) {
    && (exists g :: g in {NameDigest, NameEncoding, NameTable} && FieldDiffers(m, n, g))
    && NamesAgree(m, n, r1, r2) && OnlyBsdLengths(m, n)
    && (f == NameField || f == SizeField || (f == Padding && (m.padding == [] || n.padding == [])))
  }

  /** Which list of the report names which field of a pair of members, in terms of their bytes. */
  lemma FieldVerdict(key: Key, index: nat, m: Member, n: Member,
                     r1: seq<Replacement>, r2: seq<Replacement>, f: Field)
    ensures var es := MemberEntries(key, index, RecordMember(m, r1), RecordMember(n, r2));
      && (f in {MtimeField, UidField, GidField, ModeField} ==>
            (Lists(es, ArchiveMetadata, f) <==> FieldDiffers(m, n, f)))
      && (f in {NameDigest, NameEncoding, NameTable} ==>
            && (Lists(es, PathOnlyName, f) <==> FieldDiffers(m, n, f) && NamesAgree(m, n, r1, r2))
            && (Lists(es, ArchiveFormat, f) <==> FieldDiffers(m, n, f) && !NamesAgree(m, n, r1, r2)))
      && (f in {NameField, SizeField, TrailerField, Padding} ==>
            (Lists(es, ArchiveFormat, f) <==> FieldDiffers(m, n, f) && !Follows(m, n, r1, r2, f)))
  {
    hide MemberEntries;
    hide Lists;
    hide FieldDiffers;
    hide NamesAgree;
    hide SameButForPaths;
    hide OnlyBsdLengths;
    hide NameChanges;
    hide RegionChanged;
    hide BsdLengthOnly;
    var (a, b) := (RecordMember(m, r1), RecordMember(n, r2));
    assert a.padding.size == |m.padding| && b.padding.size == |n.padding|;
    hide RecordMember;
    MemberVerdict(key, index, a, b, f);
    RegionsDiffer(m, n, r1, r2, f);
    NamesAgreeIff(m, n, r1, r2);
    BsdLengthOnlyIff(m, n, r1, r2);
    SomeNameDiffers(m, n, r1, r2);
  }

  // ----- one pair of files -----

  /** The file as a whole, if it has bytes. */
  function WholeOf(f: File): Option<Bytes> {
    match f.contents
    case Directory => None
    case Regular(data) => Some(data)
    case Rlib(data) => Some(data)
  }

  ghost predicate FileLeaks(f: File, rs: seq<Replacement>) {
    WholeOf(f).Some? && Leaks(WholeOf(f).value, rs)
  }

  lemma PathsLeak(f: File, rs: seq<Replacement>, a: FileRecord)
    requires RecordFile(f, rs) == Ok(a)
    ensures Paths(a) != [] <==> FileLeaks(f, rs)
  {
    hide Parse;
    hide Normalize;
    hide EmbeddedPaths;
    hide Leaks;
    if WholeOf(f).Some? {
      EmbeddedIffLeaks(WholeOf(f).value, rs);
    }
  }

  lemma InFour(a: seq<Entry>, b: seq<Entry>, c: seq<Entry>, d: seq<Entry>, x: Entry)
    ensures x in a + b + c + d <==> x in a || x in b || x in c || x in d
  {
  }

  lemma InPair(key: Key, a: FileRecord, b: FileRecord, x: Entry)
    requires Shaped(a) && Shaped(b)
    ensures x in PairEntries(key, a, b) <==>
      || (x == Entry(MtimeDifference, key, Whole) && a.mtime != b.mtime)
      || (x == Entry(ModeDifference, key, Whole) && a.mode != b.mode)
      || (x == Entry(PathLeak, key, Whole) && (Paths(a) != [] || Paths(b) != []))
      || x in BytesEntries(key, a, b)
  {
    hide If;
    hide BytesEntries;
    hide Shaped;
    hide Paths;
    InIf(a.mtime != b.mtime, Entry(MtimeDifference, key, Whole), x);
    InIf(a.mode != b.mode, Entry(ModeDifference, key, Whole), x);
    InIf(Paths(a) != [] || Paths(b) != [], Entry(PathLeak, key, Whole), x);
    InFour(If(a.mtime != b.mtime, Entry(MtimeDifference, key, Whole)),
           If(a.mode != b.mode, Entry(ModeDifference, key, Whole)),
           If(Paths(a) != [] || Paths(b) != [], Entry(PathLeak, key, Whole)), BytesEntries(key, a, b), x);
  }

  /** Everything the report says about a pair of regular files, and exactly when it says it. */
  lemma RegularVerdict(key: Key, f: File, g: File, r1: seq<Replacement>, r2: seq<Replacement>,
                       a: FileRecord, b: FileRecord, x: Entry)
    requires f.contents.Regular? && g.contents.Regular?
    requires RecordFile(f, r1) == Ok(a) && RecordFile(g, r2) == Ok(b)
    ensures Shaped(a) && Shaped(b)
    ensures x in PairEntries(key, a, b) <==>
      || (x == Entry(MtimeDifference, key, Whole) && f.mtime != g.mtime)
      || (x == Entry(ModeDifference, key, Whole) && f.mode != g.mode)
      || (x == Entry(PathLeak, key, Whole) && (FileLeaks(f, r1) || FileLeaks(g, r2)))
      || (x == Entry(PathOnlyPayload, key, Whole) && DifferByPaths(f.contents.data, g.contents.data, r1, r2))
      || (x == Entry(PayloadDifference, key, Whole) && DifferForReal(f.contents.data, g.contents.data, r1, r2))
  {
    hide Normalize;
    hide EmbeddedPaths;
    hide Leaks;
    hide Paths;
    hide FileLeaks;
    hide PairEntries;
    hide Differs;
    PathsLeak(f, r1, a);
    PathsLeak(g, r2, b);
    InPair(key, a, b, x);
    RecordsDiffer(f.contents.data, g.contents.data, r1, r2);
  }

  /** Files of different kinds are different, whatever they hold. */
  lemma KindVerdict(key: Key, f: File, g: File, r1: seq<Replacement>, r2: seq<Replacement>,
                    a: FileRecord, b: FileRecord, x: Entry)
    requires RecordFile(f, r1) == Ok(a) && RecordFile(g, r2) == Ok(b)
    requires !(f.contents.Directory? && g.contents.Directory?) && !(f.contents.Regular? && g.contents.Regular?)
    requires !(f.contents.Rlib? && g.contents.Rlib?)
    ensures Shaped(a) && Shaped(b)
    ensures x in BytesEntries(key, a, b) <==> x == Entry(PayloadDifference, key, KindChanged)
  {
    hide Parse;
    hide BytesRecord;
    hide ArchiveEntries;
  }

  // ----- one pair of archives -----

  ghost predicate AboutMember(key: Key, p: seq<Member>, q: seq<Member>, r1: seq<Replacement>, r2: seq<Replacement>,
                              i: nat, x: Entry) {
    i < |p| && i < |q| && x in MemberEntries(key, i, RecordMember(p[i], r1), RecordMember(q[i], r2))
  }

  lemma {:induction false} InMembers(key: Key, p: seq<Member>, q: seq<Member>,
                                     r1: seq<Replacement>, r2: seq<Replacement>, n: nat, x: Entry)
    requires n <= |p| && n <= |q|
    ensures x in MembersEntries(key, RecordMembers(p, r1), RecordMembers(q, r2), n) <==>
      exists i: nat :: i < n && AboutMember(key, p, q, r1, r2, i, x)
  {
    hide MemberEntries;
    hide RecordMember;
    if n > 0 {
      InMembers(key, p, q, r1, r2, n - 1, x);
      var m := n - 1;
      assert AboutMember(key, p, q, r1, r2, m, x) <==>
        x in MemberEntries(key, m, RecordMembers(p, r1)[m], RecordMembers(q, r2)[m]);
    }
  }

  lemma InThree(a: seq<Entry>, b: seq<Entry>, c: seq<Entry>, x: Entry)
    ensures x in a + b + c <==> x in a || x in b || x in c
  {
  }

  /** Everything the report says about the bytes of a pair of archives: another number of members,
      other trailing bytes, and what it says of each pair of members.  The whole-archive fallback
      never appears. */
  lemma ArchiveVerdict(key: Key, f: File, g: File, r1: seq<Replacement>, r2: seq<Replacement>,
                       a: FileRecord, b: FileRecord, x: Entry)
    requires f.contents.Rlib? && g.contents.Rlib?
    requires RecordFile(f, r1) == Ok(a) && RecordFile(g, r2) == Ok(b)
    ensures Shaped(a) && Shaped(b) && Parse(f.contents.data).Archive? && Parse(g.contents.data).Archive?
    ensures var (p, q) := (Parse(f.contents.data), Parse(g.contents.data));
      x in BytesEntries(key, a, b) <==>
      || (x == Entry(ArchiveFormat, key, MemberCount) && |p.members| != |q.members|)
      || (x == Entry(ArchiveFormat, key, TrailingBytes) && p.trailing != q.trailing)
      || exists i: nat :: AboutMember(key, p.members, q.members, r1, r2, i, x)
  {
    hide Parse;
    hide Normalize;
    hide EmbeddedPaths;
    hide MembersEntries;
    hide MemberEntries;
    hide RecordMember;
    hide CountClassified;
    hide If;
    var (p, q) := (Parse(f.contents.data), Parse(g.contents.data));
    var (ms, ns) := (RecordMembers(p.members, r1), RecordMembers(q.members, r2));
    RecordsDiffer(f.contents.data, g.contents.data, r1, r2);
    RecordsDiffer(p.trailing, q.trailing, r1, r2);
    if f.contents.data != g.contents.data {
      Reproducible.DifferentArchivesAreClassified(key, f.contents.data, g.contents.data, a, b, f, g, r1, r2);
    }
    var found := ArchiveEntries(key, a, b);
    assert BytesEntries(key, a, b) == found by {
      NoFallback(found, Entry(WholeClass(a.whole.value, b.whole.value, ArchiveFormat), key, Fallback));
    }
    var n := Min(|ms|, |ns|);
    InThree(If(|ms| != |ns|, Entry(ArchiveFormat, key, MemberCount)), MembersEntries(key, ms, ns, n),
            If(Differs(a.trailing.value, b.trailing.value), Entry(ArchiveFormat, key, TrailingBytes)), x);
    InIf(|ms| != |ns|, Entry(ArchiveFormat, key, MemberCount), x);
    InIf(Differs(a.trailing.value, b.trailing.value), Entry(ArchiveFormat, key, TrailingBytes), x);
    InMembers(key, p.members, q.members, r1, r2, n, x);
  }

  lemma NoFallback(found: seq<Entry>, e: Entry)
    ensures found + If(false, e) == found
  {
  }
}
