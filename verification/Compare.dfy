/** The difference classifier, `compare_records` of
    `scripts/check-reproducible-build-metadata.py`. */
module Compare {
  import opened ByteText
  import opened Archive
  import opened Records
  import opened Ordering

  /** The lists of the report that entries go to. */
  datatype Class =
    | MtimeDifference | ModeDifference | PathLeak
    | ArchiveMetadata | ArchiveFormat | PathOnlyName | PathOnlyPayload | PayloadDifference

  datatype Field =
    | MtimeField | UidField | GidField | ModeField
    | NameDigest | NameEncoding | NameTable
    | NameField | SizeField | TrailerField | Padding

  datatype Detail =
    | Whole | KindChanged | MemberCount | TrailingBytes | Fallback
    | InMember(index: nat) | Fields(index: nat, fields: seq<Field>)

  datatype Entry = Entry(cls: Class, key: Key, detail: Detail)

  /** The lists whose lengths the classifier adds up before and after an archive. */
  predicate Classified(c: Class) {
    c in {ArchiveMetadata, ArchiveFormat, PathOnlyName, PathOnlyPayload, PayloadDifference}
  }

  function CountClassified(es: seq<Entry>): nat {
    if es == [] then 0 else CountClassified(es[..|es| - 1]) + if Classified(es[|es| - 1].cls) then 1 else 0
  }

  // ----- one pair of members -----

  predicate Differs(a: Record, b: Record) {
    a.sha != b.sha
  }

  function If<T>(condition: bool, x: T): seq<T> {
    if condition then [x] else []
  }

  function MetadataChanges(a: MemberRecord, b: MemberRecord): seq<Field> {
    If(Differs(a.mtimeField, b.mtimeField), MtimeField) + If(Differs(a.uidField, b.uidField), UidField)
    + If(Differs(a.gidField, b.gidField), GidField) + If(Differs(a.modeField, b.modeField), ModeField)
  }

  function TablePaths(t: Option<Record>): seq<Bytes> {
    if t.Some? then t.value.embeddedPaths else []
  }

  function MemberPaths(m: MemberRecord): seq<Bytes> {
    m.payload.embeddedPaths + m.nameDigest.embeddedPaths + m.nameEncoding.embeddedPaths + TablePaths(m.nameTable)
  }

  function NameChanges(a: MemberRecord, b: MemberRecord): seq<Field> {
    If(Differs(a.nameDigest, b.nameDigest), NameDigest) + If(Differs(a.nameEncoding, b.nameEncoding), NameEncoding)
    + If(a.nameTable.Some? != b.nameTable.Some?
         || (a.nameTable.Some? && b.nameTable.Some? && Differs(a.nameTable.value, b.nameTable.value)), NameTable)
  }

  /** The changed name region is the same once build paths are replaced. */
  predicate PathOnly(a: MemberRecord, b: MemberRecord, f: Field) {
    match f
    case NameDigest => a.nameDigest.normalizedSha == b.nameDigest.normalizedSha
    case NameEncoding => a.nameEncoding.normalizedSha == b.nameEncoding.normalizedSha
    case _ =>
      a.nameTable.Some? && b.nameTable.Some? && a.nameTable.value.normalizedSha == b.nameTable.value.normalizedSha
  }

  predicate PathOnlyNames(a: MemberRecord, b: MemberRecord) {
    NameChanges(a, b) != [] && forall f :: f in NameChanges(a, b) ==> PathOnly(a, b, f)
  }

  predicate CanonicalBsd(m: MemberRecord) {
    && m.format == BsdLong && m.memberSize == m.nameStorageSize + m.payload.size
    && m.canonicalBsdNameField && m.canonicalSizeField
  }

  /** A BSD long name that changed only by a build path of another length: the length fields and
      the alignment byte follow from it and are not reported again. */
  predicate BsdLengthOnly(a: MemberRecord, b: MemberRecord) {
    && PathOnlyNames(a, b) && CanonicalBsd(a) && CanonicalBsd(b)
    && a.payload.size == b.payload.size && a.nameStorageSize != b.nameStorageSize
  }

  function FormatChanges(a: MemberRecord, b: MemberRecord): seq<Field> {
    var bsd := BsdLengthOnly(a, b);
    If(Differs(a.nameField, b.nameField) && !bsd, NameField)
    + If(Differs(a.sizeField, b.sizeField) && !bsd, SizeField)
    + If(Differs(a.trailerField, b.trailerField), TrailerField)
    + If(Differs(a.padding, b.padding) && !(bsd && !(a.padding.size > 0 && b.padding.size > 0)), Padding)
  }

  function MemberEntries(key: Key, index: nat, a: MemberRecord, b: MemberRecord): seq<Entry> {
    If(MetadataChanges(a, b) != [], Entry(ArchiveMetadata, key, Fields(index, MetadataChanges(a, b))))
    + If(MemberPaths(a) + MemberPaths(b) != [], Entry(PathLeak, key, InMember(index)))
    + If(NameChanges(a, b) != [],
         Entry(if PathOnlyNames(a, b) then PathOnlyName else ArchiveFormat, key, Fields(index, NameChanges(a, b))))
    + If(FormatChanges(a, b) != [], Entry(ArchiveFormat, key, Fields(index, FormatChanges(a, b))))
    + If(Differs(a.payload, b.payload),
         Entry(if a.payload.normalizedSha == b.payload.normalizedSha then PathOnlyPayload else PayloadDifference,
               key, InMember(index)))
  }

  /** The entries of the first `n` pairs of members. */
  function MembersEntries(key: Key, a: seq<MemberRecord>, b: seq<MemberRecord>, n: nat): seq<Entry>
    requires n <= |a| && n <= |b|
  {
    if n == 0 then [] else MembersEntries(key, a, b, n - 1) + MemberEntries(key, n - 1, a[n - 1], b[n - 1])
  }

  function Min(a: nat, b: nat): nat {
    if a < b then a else b
  }

  // ----- one pair of files -----

  /** What the classifier finds member by member, and in the trailing bytes. */
  function ArchiveEntries(key: Key, a: FileRecord, b: FileRecord): seq<Entry>
    requires a.trailing.Some? && b.trailing.Some?
  {
    If(|a.members| != |b.members|, Entry(ArchiveFormat, key, MemberCount))
    + MembersEntries(key, a.members, b.members, Min(|a.members|, |b.members|))
    + If(Differs(a.trailing.value, b.trailing.value), Entry(ArchiveFormat, key, TrailingBytes))
  }

  function WholeClass(a: Record, b: Record, otherwise: Class): Class {
    if a.normalizedSha == b.normalizedSha then PathOnlyPayload else otherwise
  }

  /** Records as `RecordFile` makes them: directories have no bytes, archives have members. */
  predicate Shaped(r: FileRecord) {
    match r.kind
    case DirectoryKind => r.whole.None?
    case FileKind => r.whole.Some?
    case ArchiveKind => r.whole.Some? && r.trailing.Some?
  }

  function Paths(r: FileRecord): seq<Bytes> {
    if r.whole.Some? then r.whole.value.embeddedPaths else []
  }

  // ----- the loops -----

  lemma {:induction false} CountConcat(a: seq<Entry>, b: seq<Entry>)
    ensures CountClassified(a + b) == CountClassified(a) + CountClassified(b)
  {
    if b == [] {
      assert a + b == a;
    } else {
      var (front, last) := (b[..|b| - 1], b[|b| - 1]);
      assert (a + b)[..|a + b| - 1] == a + front;
      CountConcat(a, front);
    }
  }

  /** The recorded region of a member that a field names; only GNU tables have a name table. */
  function RegionOf(m: MemberRecord, f: Field): Option<Record> {
    match f
    case MtimeField => Some(m.mtimeField)
    case UidField => Some(m.uidField)
    case GidField => Some(m.gidField)
    case ModeField => Some(m.modeField)
    case NameDigest => Some(m.nameDigest)
    case NameEncoding => Some(m.nameEncoding)
    case NameTable => m.nameTable
    case NameField => Some(m.nameField)
    case SizeField => Some(m.sizeField)
    case TrailerField => Some(m.trailerField)
    case Padding => Some(m.padding)
  }

  predicate RegionChanged(a: MemberRecord, b: MemberRecord, f: Field) {
    var (x, y) := (RegionOf(a, f), RegionOf(b, f));
    x.Some? != y.Some? || (x.Some? && y.Some? && Differs(x.value, y.value))
  }

  /** The changed regions among some fields, in their order. */
  function ChangedAmong(fields: seq<Field>, a: MemberRecord, b: MemberRecord): seq<Field> {
    if fields == [] then []
    else
      var last := fields[|fields| - 1];
      ChangedAmong(fields[..|fields| - 1], a, b) + If(RegionChanged(a, b, last), last)
  }

  const METADATA := [MtimeField, UidField, GidField, ModeField]
  const NAMES := [NameDigest, NameEncoding, NameTable]
  const FORMAT := [NameField, SizeField, TrailerField, Padding]

  lemma ChangedSnoc(fields: seq<Field>, f: Field, a: MemberRecord, b: MemberRecord)
    ensures ChangedAmong(fields + [f], a, b) == ChangedAmong(fields, a, b) + If(RegionChanged(a, b, f), f)
  {
    hide If;
    hide RegionChanged;
    assert (fields + [f])[..|fields|] == fields;
  }

  lemma ChangedMetadataList(a: MemberRecord, b: MemberRecord)
    ensures ChangedAmong(METADATA, a, b)
      == If(RegionChanged(a, b, MtimeField), MtimeField) + If(RegionChanged(a, b, UidField), UidField)
         + If(RegionChanged(a, b, GidField), GidField) + If(RegionChanged(a, b, ModeField), ModeField)
  {
    hide If;
    hide RegionChanged;
    hide ChangedAmong;
    NothingAmong(a, b);
    ChangedSnoc([], MtimeField, a, b);
    ChangedSnoc([MtimeField], UidField, a, b);
    ChangedSnoc([MtimeField, UidField], GidField, a, b);
    ChangedSnoc([MtimeField, UidField, GidField], ModeField, a, b);
    assert [] + [MtimeField] == [MtimeField] && [MtimeField] + [UidField] == [MtimeField, UidField];
    assert [MtimeField, UidField] + [GidField] == [MtimeField, UidField, GidField];
    assert [MtimeField, UidField, GidField] + [ModeField] == METADATA;
  }

  lemma ChangedNamesList(a: MemberRecord, b: MemberRecord)
    ensures ChangedAmong(NAMES, a, b)
      == If(RegionChanged(a, b, NameDigest), NameDigest) + If(RegionChanged(a, b, NameEncoding), NameEncoding)
         + If(RegionChanged(a, b, NameTable), NameTable)
  {
    hide If;
    hide RegionChanged;
    hide ChangedAmong;
    NothingAmong(a, b);
    ChangedSnoc([], NameDigest, a, b);
    ChangedSnoc([NameDigest], NameEncoding, a, b);
    ChangedSnoc([NameDigest, NameEncoding], NameTable, a, b);
    assert [] + [NameDigest] == [NameDigest] && [NameDigest] + [NameEncoding] == [NameDigest, NameEncoding];
    assert [NameDigest, NameEncoding] + [NameTable] == NAMES;
  }

  lemma MetadataIsChanged(a: MemberRecord, b: MemberRecord)
    ensures ChangedAmong(METADATA, a, b) == MetadataChanges(a, b)
  {
    hide If;
    hide Differs;
    hide ChangedAmong;
    ChangedMetadataList(a, b);
  }

  lemma NamesAreChanged(a: MemberRecord, b: MemberRecord)
    ensures ChangedAmong(NAMES, a, b) == NameChanges(a, b)
  {
    hide If;
    hide Differs;
    hide ChangedAmong;
    ChangedNamesList(a, b);
  }

  lemma NothingAmong(a: MemberRecord, b: MemberRecord)
    ensures ChangedAmong([], a, b) == [] && ReportedAmong([], a, b) == []
  {
  }

  method ChangedMetadata(a: MemberRecord, b: MemberRecord) returns (changed: seq<Field>)
    ensures changed == MetadataChanges(a, b)
  {
    hide MetadataChanges;
    MetadataIsChanged(a, b);
    changed := [];
    var i := 0;
    while i < |METADATA|
      invariant i <= |METADATA| && changed == ChangedAmong(METADATA[..i], a, b)
    {
      var field := METADATA[i];
      assert METADATA[..i + 1][..i] == METADATA[..i];
      if RegionOf(a, field).value.sha != RegionOf(b, field).value.sha {
        changed := changed + [field];
      }
      i := i + 1;
    }
    assert METADATA[..i] == METADATA;
  }

  /** The changed name regions, and whether build paths account for all of them. */
  method ChangedNames(a: MemberRecord, b: MemberRecord) returns (changed: seq<Field>, pathOnly: bool)
    ensures changed == NameChanges(a, b) && pathOnly == PathOnlyNames(a, b)
  {
    hide NameChanges;
    hide PathOnly;
    NamesAreChanged(a, b);
    changed, pathOnly := [], false;
    var i := 0;
    while i < |NAMES|
      invariant i <= |NAMES| && changed == ChangedAmong(NAMES[..i], a, b)
      invariant changed == [] ==> !pathOnly
    {
      var field := NAMES[i];
      assert NAMES[..i + 1][..i] == NAMES[..i];
      i := i + 1;
      var x, y := RegionOf(a, field), RegionOf(b, field);
      if x.None? && y.None? {
        continue;
      }
      if x.None? || y.None? {
        changed := changed + [field];
        continue;
      }
      if x.value.sha != y.value.sha {
        changed := changed + [field];
        pathOnly := pathOnly || x.value.normalizedSha == y.value.normalizedSha;
      }
    }
    assert NAMES[..i] == NAMES;
    if changed != [] {
      forall f | f in changed ensures NormalizedAlike(a, b, f) <==> PathOnly(a, b, f) {
        NameChangesAreNames(a, b, f);
        AlikeIsPathOnly(a, b, f);
      }
      pathOnly := forall f :: f in changed ==> NormalizedAlike(a, b, f);
    }
  }

  predicate NormalizedAlike(a: MemberRecord, b: MemberRecord, f: Field) {
    var (x, y) := (RegionOf(a, f), RegionOf(b, f));
    x.Some? && y.Some? && x.value.normalizedSha == y.value.normalizedSha
  }

  lemma NameChangesAreNames(a: MemberRecord, b: MemberRecord, f: Field)
    requires f in NameChanges(a, b)
    ensures f in NAMES
  {
  }

  lemma AlikeIsPathOnly(a: MemberRecord, b: MemberRecord, f: Field)
    requires f in NAMES
    ensures NormalizedAlike(a, b, f) <==> PathOnly(a, b, f)
  {
  }

  /** A changed format region is reported unless it follows from a changed BSD name. */
  predicate Reported(a: MemberRecord, b: MemberRecord, f: Field) {
    && RegionChanged(a, b, f)
    && !(BsdLengthOnly(a, b)
         && (f == NameField || f == SizeField || (f == Padding && !(a.padding.size > 0 && b.padding.size > 0))))
  }

  function ReportedAmong(fields: seq<Field>, a: MemberRecord, b: MemberRecord): seq<Field> {
    if fields == [] then []
    else
      var last := fields[|fields| - 1];
      ReportedAmong(fields[..|fields| - 1], a, b) + If(Reported(a, b, last), last)
  }

  lemma ReportedSnoc(fields: seq<Field>, f: Field, a: MemberRecord, b: MemberRecord)
    ensures ReportedAmong(fields + [f], a, b) == ReportedAmong(fields, a, b) + If(Reported(a, b, f), f)
  {
    hide If;
    hide Reported;
    assert (fields + [f])[..|fields|] == fields;
  }

  lemma ReportedList(a: MemberRecord, b: MemberRecord)
    ensures ReportedAmong(FORMAT, a, b)
      == If(Reported(a, b, NameField), NameField) + If(Reported(a, b, SizeField), SizeField)
         + If(Reported(a, b, TrailerField), TrailerField) + If(Reported(a, b, Padding), Padding)
  {
    hide If;
    hide Reported;
    hide ReportedAmong;
    NothingAmong(a, b);
    ReportedSnoc([], NameField, a, b);
    ReportedSnoc([NameField], SizeField, a, b);
    ReportedSnoc([NameField, SizeField], TrailerField, a, b);
    ReportedSnoc([NameField, SizeField, TrailerField], Padding, a, b);
    assert [] + [NameField] == [NameField] && [NameField] + [SizeField] == [NameField, SizeField];
    assert [NameField, SizeField] + [TrailerField] == [NameField, SizeField, TrailerField];
    assert [NameField, SizeField, TrailerField] + [Padding] == FORMAT;
  }

  lemma FormatIsReported(a: MemberRecord, b: MemberRecord)
    ensures ReportedAmong(FORMAT, a, b) == FormatChanges(a, b)
  {
    hide If;
    hide Differs;
    hide BsdLengthOnly;
    hide ReportedAmong;
    ReportedList(a, b);
  }

  /** Only a name table may be missing from a record. */
  lemma RegionStored(m: MemberRecord, f: Field)
    requires f != NameTable
    ensures RegionOf(m, f).Some?
  {
  }

  method ChangedFormat(a: MemberRecord, b: MemberRecord, pathOnlyName: bool) returns (changed: seq<Field>)
    requires pathOnlyName == PathOnlyNames(a, b)
    ensures changed == FormatChanges(a, b)
  {
    hide FormatChanges;
    hide PathOnlyNames;
    FormatIsReported(a, b);
    var bsdLengthOnly :=
      && pathOnlyName && a.format == BsdLong && b.format == BsdLong
      && a.memberSize == a.nameStorageSize + a.payload.size && b.memberSize == b.nameStorageSize + b.payload.size
      && a.payload.size == b.payload.size && a.nameStorageSize != b.nameStorageSize
      && a.canonicalBsdNameField && b.canonicalBsdNameField && a.canonicalSizeField && b.canonicalSizeField;
    assert bsdLengthOnly == BsdLengthOnly(a, b);
    hide BsdLengthOnly;
    hide RegionOf;
    hide ReportedAmong;
    changed := [];
    NothingAmong(a, b);
    var i := 0;
    while i < |FORMAT|
      invariant i <= |FORMAT| && changed == ReportedAmong(FORMAT[..i], a, b)
    {
      var field := FORMAT[i];
      assert field != NameTable;
      RegionStored(a, field);
      RegionStored(b, field);
      assert FORMAT[..i + 1] == FORMAT[..i] + [field];
      ReportedSnoc(FORMAT[..i], field, a, b);
      i := i + 1;
      if RegionOf(a, field).value.sha == RegionOf(b, field).value.sha {
        continue;
      }
      var consequent := bsdLengthOnly && (field == NameField || field == SizeField);
      if field == Padding && bsdLengthOnly {
        consequent := !(a.padding.size > 0 && b.padding.size > 0);
      }
      if !consequent {
        changed := changed + [field];
      }
    }
    assert FORMAT[..i] == FORMAT;
  }

  /** Appends an entry when it applies. */
  method AppendIf(report: seq<Entry>, applies: bool, e: Entry) returns (report': seq<Entry>)
    ensures report' == report + If(applies, e)
  {
    report' := report;
    if applies {
      report' := report' + [e];
    }
  }

  lemma Regroup<T>(r: seq<T>, a: seq<T>, b: seq<T>, c: seq<T>, d: seq<T>, e: seq<T>)
    ensures r + a + b + c + d + e == r + (a + b + c + d + e)
  {
  }

  method CompareMember(key: Key, index: nat, a: MemberRecord, b: MemberRecord, report: seq<Entry>)
    returns (report': seq<Entry>)
    ensures report' == report + MemberEntries(key, index, a, b)
  {
    hide If;
    hide MetadataChanges;
    hide MemberPaths;
    hide NameChanges;
    hide PathOnlyNames;
    hide FormatChanges;
    var metadata := ChangedMetadata(a, b);
    report' := AppendIf(report, metadata != [], Entry(ArchiveMetadata, key, Fields(index, metadata)));
    report' := AppendIf(report', MemberPaths(a) + MemberPaths(b) != [], Entry(PathLeak, key, InMember(index)));
    var names, pathOnlyName := ChangedNames(a, b);
    var destination := if pathOnlyName then PathOnlyName else ArchiveFormat;
    report' := AppendIf(report', names != [], Entry(destination, key, Fields(index, names)));
    var format := ChangedFormat(a, b, pathOnlyName);
    report' := AppendIf(report', format != [], Entry(ArchiveFormat, key, Fields(index, format)));
    destination := if a.payload.normalizedSha == b.payload.normalizedSha then PathOnlyPayload else PayloadDifference;
    report' := AppendIf(report', a.payload.sha != b.payload.sha, Entry(destination, key, InMember(index)));
    Regroup(
      report, If(metadata != [], Entry(ArchiveMetadata, key, Fields(index, metadata))),
      If(MemberPaths(a) + MemberPaths(b) != [], Entry(PathLeak, key, InMember(index))),
      If(names != [], Entry(if pathOnlyName then PathOnlyName else ArchiveFormat, key, Fields(index, names))),
      If(format != [], Entry(ArchiveFormat, key, Fields(index, format))),
      If(a.payload.sha != b.payload.sha, Entry(destination, key, InMember(index))));
  }

  // ----- what the entries say about a member -----

  predicate ListsIn(e: Entry, cls: Class, f: Field) {
    e.cls == cls && e.detail.Fields? && f in e.detail.fields
  }

  /** Some entry of a list of the report names a field. */
  ghost predicate Lists(es: seq<Entry>, cls: Class, f: Field) {
    exists i :: 0 <= i < |es| && ListsIn(es[i], cls, f)
  }

  lemma ListsEither(a: seq<Entry>, b: seq<Entry>, cls: Class, f: Field)
    ensures Lists(a + b, cls, f) <==> Lists(a, cls, f) || Lists(b, cls, f)
  {
    hide ListsIn;
    var all := a + b;
    if i :| 0 <= i < |a| && ListsIn(a[i], cls, f) {
      assert ListsIn(all[i], cls, f);
    }
    if i :| 0 <= i < |b| && ListsIn(b[i], cls, f) {
      assert ListsIn(all[|a| + i], cls, f);
    }
  }

  lemma ListsIf(condition: bool, e: Entry, cls: Class, f: Field)
    ensures Lists(If(condition, e), cls, f) <==> condition && ListsIn(e, cls, f)
  {
    hide ListsIn;
    if condition {
      assert [e][0] == e;
    }
  }

  lemma ListsFields(c: Class, key: Key, index: nat, fields: seq<Field>, cls: Class, f: Field)
    ensures Lists(If(fields != [], Entry(c, key, Fields(index, fields))), cls, f) <==> cls == c && f in fields
  {
    hide Lists;
    hide If;
    ListsIf(fields != [], Entry(c, key, Fields(index, fields)), cls, f);
  }

  lemma ListsNothing(condition: bool, c: Class, key: Key, index: nat, cls: Class, f: Field)
    ensures !Lists(If(condition, Entry(c, key, InMember(index))), cls, f)
  {
    hide Lists;
    hide If;
    ListsIf(condition, Entry(c, key, InMember(index)), cls, f);
  }

  lemma ListsAny(a: seq<Entry>, b: seq<Entry>, c: seq<Entry>, d: seq<Entry>, e: seq<Entry>, cls: Class, f: Field)
    ensures Lists(a + b + c + d + e, cls, f) <==>
      Lists(a, cls, f) || Lists(b, cls, f) || Lists(c, cls, f) || Lists(d, cls, f) || Lists(e, cls, f)
  {
    hide Lists;
    ListsEither(a, b, cls, f);
    ListsEither(a + b, c, cls, f);
    ListsEither(a + b + c, d, cls, f);
    ListsEither(a + b + c + d, e, cls, f);
  }

  lemma {:induction false} InChanged(fields: seq<Field>, a: MemberRecord, b: MemberRecord, f: Field)
    ensures f in ChangedAmong(fields, a, b) <==> f in fields && RegionChanged(a, b, f)
  {
    hide RegionChanged;
    if fields != [] {
      InChanged(fields[..|fields| - 1], a, b, f);
      assert fields == fields[..|fields| - 1] + [fields[|fields| - 1]];
    }
  }

  lemma {:induction false} InReported(fields: seq<Field>, a: MemberRecord, b: MemberRecord, f: Field)
    ensures f in ReportedAmong(fields, a, b) <==> f in fields && Reported(a, b, f)
  {
    hide Reported;
    if fields != [] {
      InReported(fields[..|fields| - 1], a, b, f);
      assert fields == fields[..|fields| - 1] + [fields[|fields| - 1]];
    }
  }

  lemma InChanges(a: MemberRecord, b: MemberRecord, f: Field)
    ensures f in MetadataChanges(a, b) <==> f in METADATA && RegionChanged(a, b, f)
    ensures f in NameChanges(a, b) <==> f in NAMES && RegionChanged(a, b, f)
    ensures f in FormatChanges(a, b) <==> f in FORMAT && Reported(a, b, f)
  {
    hide MetadataChanges;
    hide NameChanges;
    hide FormatChanges;
    hide ChangedAmong;
    hide ReportedAmong;
    hide RegionChanged;
    hide Reported;
    MetadataIsChanged(a, b);
    NamesAreChanged(a, b);
    FormatIsReported(a, b);
    InChanged(METADATA, a, b, f);
    InChanged(NAMES, a, b, f);
    InReported(FORMAT, a, b, f);
  }

  /** The stored names differ at most by their build paths. */
  ghost predicate SameButForPaths(a: MemberRecord, b: MemberRecord) {
    forall f :: f in NAMES && RegionChanged(a, b, f) ==> NormalizedAlike(a, b, f)
  }

  lemma PathOnlyMeans(a: MemberRecord, b: MemberRecord)
    requires NameChanges(a, b) != []
    ensures PathOnlyNames(a, b) <==> SameButForPaths(a, b)
  {
    forall f: Field
      ensures f in NameChanges(a, b) <==> f in NAMES && RegionChanged(a, b, f)
      ensures f in NAMES ==> (NormalizedAlike(a, b, f) <==> PathOnly(a, b, f))
    {
      InChanges(a, b, f);
      if f in NAMES {
        AlikeIsPathOnly(a, b, f);
      }
    }
  }

  /** Which list of the report names a field of a pair of members: the changed ones, a name as
      path-only when all names are the same but for build paths, and a format region unless it
      follows from a changed BSD name. */
  lemma MemberVerdict(key: Key, index: nat, a: MemberRecord, b: MemberRecord, f: Field)
    ensures var es := MemberEntries(key, index, a, b);
      && (f in METADATA ==> (Lists(es, ArchiveMetadata, f) <==> RegionChanged(a, b, f)))
      && (f in NAMES ==> (Lists(es, PathOnlyName, f) <==> RegionChanged(a, b, f) && SameButForPaths(a, b)))
      && (f in NAMES ==> (Lists(es, ArchiveFormat, f) <==> RegionChanged(a, b, f) && !SameButForPaths(a, b)))
      && (f in FORMAT ==> (Lists(es, ArchiveFormat, f) <==> Reported(a, b, f)))
  {
    hide MemberEntries;
    hide Lists;
    hide MetadataChanges;
    hide NameChanges;
    hide FormatChanges;
    hide PathOnlyNames;
    hide SameButForPaths;
    hide RegionChanged;
    hide Reported;
    InChanges(a, b, f);
    if NameChanges(a, b) != [] {
      PathOnlyMeans(a, b);
    }
    OneGroup(f);
    EntriesList(key, index, a, b, ArchiveMetadata, f);
    EntriesList(key, index, a, b, PathOnlyName, f);
    EntriesList(key, index, a, b, ArchiveFormat, f);
  }

  lemma OneGroup(f: Field)
    ensures f in METADATA ==> f !in NAMES && f !in FORMAT
    ensures f in NAMES ==> f !in FORMAT
  {
  }

  lemma EntriesList(key: Key, index: nat, a: MemberRecord, b: MemberRecord, cls: Class, f: Field)
    ensures Lists(MemberEntries(key, index, a, b), cls, f) <==>
      || (cls == ArchiveMetadata && f in MetadataChanges(a, b))
      || (cls == (if PathOnlyNames(a, b) then PathOnlyName else ArchiveFormat) && f in NameChanges(a, b))
      || (cls == ArchiveFormat && f in FormatChanges(a, b))
  {
    hide Lists;
    hide If;
    hide MetadataChanges;
    hide NameChanges;
    hide FormatChanges;
    hide PathOnlyNames;
    hide MemberPaths;
    var (metadata, names, format) := (MetadataChanges(a, b), NameChanges(a, b), FormatChanges(a, b));
    var nameClass := if PathOnlyNames(a, b) then PathOnlyName else ArchiveFormat;
    var payloadClass :=
      if a.payload.normalizedSha == b.payload.normalizedSha then PathOnlyPayload else PayloadDifference;
    var (leaks, differs) := (MemberPaths(a) + MemberPaths(b) != [], Differs(a.payload, b.payload));
    ListsFields(ArchiveMetadata, key, index, metadata, cls, f);
    ListsNothing(leaks, PathLeak, key, index, cls, f);
    ListsFields(nameClass, key, index, names, cls, f);
    ListsFields(ArchiveFormat, key, index, format, cls, f);
    ListsNothing(differs, payloadClass, key, index, cls, f);
    ListsAny(If(metadata != [], Entry(ArchiveMetadata, key, Fields(index, metadata))),
             If(leaks, Entry(PathLeak, key, InMember(index))),
             If(names != [], Entry(nameClass, key, Fields(index, names))),
             If(format != [], Entry(ArchiveFormat, key, Fields(index, format))),
             If(differs, Entry(payloadClass, key, InMember(index))), cls, f);
  }

  method CompareMembers(key: Key, a: seq<MemberRecord>, b: seq<MemberRecord>, report: seq<Entry>)
    returns (report': seq<Entry>)
    ensures report' == report + MembersEntries(key, a, b, Min(|a|, |b|))
  {
    hide MemberEntries;
    report' := report;
    var index := 0;
    while index < |a| && index < |b|
      invariant index <= |a| && index <= |b|
      invariant report' == report + MembersEntries(key, a, b, index)
    {
      report' := CompareMember(key, index, a[index], b[index], report');
      index := index + 1;
    }
  }

  method CompareArchives(key: Key, a: FileRecord, b: FileRecord, report: seq<Entry>) returns (report': seq<Entry>)
    requires Shaped(a) && Shaped(b) && a.kind == b.kind == ArchiveKind
    ensures var found := ArchiveEntries(key, a, b);
      report' == report + found + If(Differs(a.whole.value, b.whole.value) && CountClassified(found) == 0,
                                     Entry(WholeClass(a.whole.value, b.whole.value, ArchiveFormat), key, Fallback))
  {
    hide MembersEntries;
    hide CountClassified;
    var classifiedBefore := CountClassified(report);
    report' := report;
    if |a.members| != |b.members| {
      report' := report' + [Entry(ArchiveFormat, key, MemberCount)];
    }
    report' := CompareMembers(key, a.members, b.members, report');
    if Differs(a.trailing.value, b.trailing.value) {
      report' := report' + [Entry(ArchiveFormat, key, TrailingBytes)];
    }
    ghost var found := ArchiveEntries(key, a, b);
    assert report' == report + found;
    CountConcat(report, found);
    var classifiedAfter := CountClassified(report');
    if Differs(a.whole.value, b.whole.value) && classifiedAfter == classifiedBefore {
      report' := report' + [Entry(WholeClass(a.whole.value, b.whole.value, ArchiveFormat), key, Fallback)];
    }
  }

  /** The entries about the bytes of two files of one key. */
  function BytesEntries(key: Key, a: FileRecord, b: FileRecord): seq<Entry>
    requires Shaped(a) && Shaped(b)
  {
    if a.kind != b.kind then [Entry(PayloadDifference, key, KindChanged)]
    else if a.kind == ArchiveKind then
      var found := ArchiveEntries(key, a, b);
      found + If(Differs(a.whole.value, b.whole.value) && CountClassified(found) == 0,
                 Entry(WholeClass(a.whole.value, b.whole.value, ArchiveFormat), key, Fallback))
    else if a.whole.Some? && Differs(a.whole.value, b.whole.value) then
      [Entry(WholeClass(a.whole.value, b.whole.value, PayloadDifference), key, Whole)]
    else []
  }

  function PairEntries(key: Key, a: FileRecord, b: FileRecord): seq<Entry>
    requires Shaped(a) && Shaped(b)
  {
    If(a.mtime != b.mtime, Entry(MtimeDifference, key, Whole))
    + If(a.mode != b.mode, Entry(ModeDifference, key, Whole))
    + If(Paths(a) != [] || Paths(b) != [], Entry(PathLeak, key, Whole))
    + BytesEntries(key, a, b)
  }

  method CompareBytes(key: Key, a: FileRecord, b: FileRecord, report: seq<Entry>) returns (report': seq<Entry>)
    requires Shaped(a) && Shaped(b)
    ensures report' == report + BytesEntries(key, a, b)
  {
    hide ArchiveEntries;
    report' := report;
    if a.kind != b.kind {
      report' := report' + [Entry(PayloadDifference, key, KindChanged)];
    } else if a.kind == ArchiveKind {
      report' := CompareArchives(key, a, b, report');
    } else if a.whole.Some? && Differs(a.whole.value, b.whole.value) {
      report' := report' + [Entry(WholeClass(a.whole.value, b.whole.value, PayloadDifference), key, Whole)];
    }
  }

  method ComparePair(key: Key, a: FileRecord, b: FileRecord, report: seq<Entry>) returns (report': seq<Entry>)
    requires Shaped(a) && Shaped(b)
    ensures report' == report + PairEntries(key, a, b)
  {
    hide If;
    hide BytesEntries;
    hide Shaped;
    var mtime := If(a.mtime != b.mtime, Entry(MtimeDifference, key, Whole));
    var mode := If(a.mode != b.mode, Entry(ModeDifference, key, Whole));
    var leaks := If(Paths(a) != [] || Paths(b) != [], Entry(PathLeak, key, Whole));
    report' := report + mtime;
    report' := report' + mode;
    report' := report' + leaks;
    report' := CompareBytes(key, a, b, report');
    assert report + mtime + mode + leaks + BytesEntries(key, a, b)
      == report + (mtime + mode + leaks + BytesEntries(key, a, b));
  }

  // ----- whole inventories -----

  datatype Report = Report(onlyInFirst: seq<Key>, onlyInSecond: seq<Key>, entries: seq<Entry>, reproducible: bool)

  /** The records by key; of records with equal keys the last one counts. */
  function ByKey(records: seq<FileRecord>): map<Key, FileRecord> {
    if records == [] then map[]
    else
      var last := records[|records| - 1];
      ByKey(records[..|records| - 1])[last.key := last]
  }

  method IndexByKey(records: seq<FileRecord>) returns (m: map<Key, FileRecord>)
    ensures m == ByKey(records)
  {
    m := map[];
    var i := 0;
    while i < |records|
      invariant i <= |records| && m == ByKey(records[..i])
    {
      assert records[..i + 1][..i] == records[..i];
      m := m[records[i].key := records[i]];
      i := i + 1;
    }
    assert records[..i] == records;
  }

  predicate AllShaped(m: map<Key, FileRecord>) {
    forall key :: key in m ==> Shaped(m[key])
  }

  /** The entries about one key, in the order reported. */
  function About(es: seq<Entry>, key: Key): seq<Entry> {
    if es == [] then []
    else About(es[..|es| - 1], key) + If(es[|es| - 1].key == key, es[|es| - 1])
  }

  lemma {:induction false} AboutConcat(a: seq<Entry>, b: seq<Entry>, key: Key)
    ensures About(a + b, key) == About(a, key) + About(b, key)
  {
    hide If;
    if b == [] {
      assert a + b == a;
    } else {
      assert (a + b)[..|a + b| - 1] == a + b[..|b| - 1];
      AboutConcat(a, b[..|b| - 1], key);
    }
  }

  predicate Keyed(es: seq<Entry>, key: Key) {
    forall k :: 0 <= k < |es| ==> es[k].key == key
  }

  lemma {:induction false} AboutOneKey(es: seq<Entry>, own: Key, key: Key)
    requires Keyed(es, own)
    ensures About(es, key) == if key == own then es else []
  {
    if es != [] {
      AboutOneKey(es[..|es| - 1], own, key);
    }
  }

  lemma KeyedConcat(a: seq<Entry>, b: seq<Entry>, key: Key)
    requires Keyed(a, key) && Keyed(b, key)
    ensures Keyed(a + b, key)
  {
  }

  lemma IfKeyed(condition: bool, e: Entry)
    ensures Keyed(If(condition, e), e.key)
  {
  }

  lemma MemberKeyed(key: Key, index: nat, a: MemberRecord, b: MemberRecord)
    ensures Keyed(MemberEntries(key, index, a, b), key)
  {
    hide If;
    hide Keyed;
    hide MetadataChanges;
    hide MemberPaths;
    hide NameChanges;
    hide PathOnlyNames;
    hide FormatChanges;
    var (c1, e1) := (MetadataChanges(a, b) != [], Entry(ArchiveMetadata, key, Fields(index, MetadataChanges(a, b))));
    var (c2, e2) := (MemberPaths(a) + MemberPaths(b) != [], Entry(PathLeak, key, InMember(index)));
    var (c3, e3) := (NameChanges(a, b) != [],
      Entry(if PathOnlyNames(a, b) then PathOnlyName else ArchiveFormat, key, Fields(index, NameChanges(a, b))));
    var (c4, e4) := (FormatChanges(a, b) != [], Entry(ArchiveFormat, key, Fields(index, FormatChanges(a, b))));
    var (c5, e5) := (Differs(a.payload, b.payload),
      Entry(if a.payload.normalizedSha == b.payload.normalizedSha then PathOnlyPayload else PayloadDifference,
            key, InMember(index)));
    IfKeyed(c1, e1);
    IfKeyed(c2, e2);
    IfKeyed(c3, e3);
    IfKeyed(c4, e4);
    IfKeyed(c5, e5);
    KeyedConcat(If(c1, e1), If(c2, e2), key);
    KeyedConcat(If(c1, e1) + If(c2, e2), If(c3, e3), key);
    KeyedConcat(If(c1, e1) + If(c2, e2) + If(c3, e3), If(c4, e4), key);
    KeyedConcat(If(c1, e1) + If(c2, e2) + If(c3, e3) + If(c4, e4), If(c5, e5), key);
  }

  lemma {:induction false} MembersKeyed(key: Key, a: seq<MemberRecord>, b: seq<MemberRecord>, n: nat)
    requires n <= |a| && n <= |b|
    ensures Keyed(MembersEntries(key, a, b, n), key)
  {
    hide MemberEntries;
    if n > 0 {
      MembersKeyed(key, a, b, n - 1);
      MemberKeyed(key, n - 1, a[n - 1], b[n - 1]);
      KeyedConcat(MembersEntries(key, a, b, n - 1), MemberEntries(key, n - 1, a[n - 1], b[n - 1]), key);
    }
  }

  lemma BytesKeyed(key: Key, a: FileRecord, b: FileRecord)
    requires Shaped(a) && Shaped(b)
    ensures Keyed(BytesEntries(key, a, b), key)
  {
    hide MembersEntries;
    hide CountClassified;
    MembersKeyed(key, a.members, b.members, Min(|a.members|, |b.members|));
  }

  lemma PairKeyed(key: Key, a: FileRecord, b: FileRecord)
    requires Shaped(a) && Shaped(b)
    ensures Keyed(PairEntries(key, a, b), key)
  {
    hide BytesEntries;
    BytesKeyed(key, a, b);
  }

  /** The report on the common keys other than the remaining ones is complete. */
  ghost predicate Complete(
    entries: seq<Entry>, left: map<Key, FileRecord>, right: map<Key, FileRecord>, remaining: set<Key>)
    requires AllShaped(left) && AllShaped(right)
  {
    forall key :: About(entries, key) ==
      if key in left.Keys && key in right.Keys && key !in remaining then PairEntries(key, left[key], right[key]) else []
  }

  lemma OnePairMore(
    entries: seq<Entry>, left: map<Key, FileRecord>, right: map<Key, FileRecord>, remaining: set<Key>, key: Key)
    requires AllShaped(left) && AllShaped(right) && Complete(entries, left, right, remaining)
    requires key in remaining && key in left && key in right
    ensures Complete(entries + PairEntries(key, left[key], right[key]), left, right, remaining - {key})
  {
    hide PairEntries;
    hide About;
    hide Shaped;
    var found := PairEntries(key, left[key], right[key]);
    PairKeyed(key, left[key], right[key]);
    forall other
      ensures About(entries + found, other) ==
        if other in left.Keys && other in right.Keys && other !in remaining - {key} then
          PairEntries(other, left[other], right[other])
        else []
    {
      AboutConcat(entries, found, other);
      AboutOneKey(found, key, other);
      assert About(entries, other) + [] == About(entries, other);
    }
  }

  /** The entries of the given keys, key by key. */
  function EntriesOf(order: seq<Key>, left: map<Key, FileRecord>, right: map<Key, FileRecord>): seq<Entry>
    requires AllShaped(left) && AllShaped(right)
    requires forall k :: 0 <= k < |order| ==> order[k] in left && order[k] in right
  {
    if order == [] then []
    else
      var last := order[|order| - 1];
      EntriesOf(order[..|order| - 1], left, right) + PairEntries(last, left[last], right[last])
  }

  /** The entries of all common keys, in ascending order of the keys. */
  ghost predicate InKeyOrder(entries: seq<Entry>, left: map<Key, FileRecord>, right: map<Key, FileRecord>)
    requires AllShaped(left) && AllShaped(right)
  {
    exists order ::
      && Sorts(order, left.Keys * right.Keys)
      && (forall k :: 0 <= k < |order| ==> order[k] in left && order[k] in right)
      && entries == EntriesOf(order, left, right)
  }

  /** The report lists, in ascending order of keys, the entries of every common key and nothing
      else, and is reproducible when no key is on one side only and nothing but modification times
      differs. */
  ghost predicate Judged(report: Report, left: map<Key, FileRecord>, right: map<Key, FileRecord>)
    requires AllShaped(left) && AllShaped(right)
  {
    && Sorts(report.onlyInFirst, left.Keys - right.Keys) && Sorts(report.onlyInSecond, right.Keys - left.Keys)
    && InKeyOrder(report.entries, left, right) && Complete(report.entries, left, right, {})
    && (report.reproducible <==>
          left.Keys == right.Keys && forall k :: 0 <= k < |report.entries| ==> report.entries[k].cls == MtimeDifference)
  }

  /** Compares two inventories key by key. */
  method CompareRecords(first: seq<FileRecord>, second: seq<FileRecord>) returns (report: Report)
    requires AllShaped(ByKey(first)) && AllShaped(ByKey(second))
    ensures Judged(report, ByKey(first), ByKey(second))
  {
    hide PairEntries;
    hide Complete;
    hide ByKey;
    hide Shaped;
    hide Sorts;
    var left := IndexByKey(first);
    var right := IndexByKey(second);
    var onlyInFirst := Sorted(left.Keys - right.Keys);
    var onlyInSecond := Sorted(right.Keys - left.Keys);
    SortsNothing(onlyInFirst, left.Keys - right.Keys);
    SortsNothing(onlyInSecond, right.Keys - left.Keys);
    var entries := CompareCommon(left, right);
    report := Report(onlyInFirst, onlyInSecond, entries,
                     onlyInFirst == [] && onlyInSecond == []
                     && forall k :: 0 <= k < |entries| ==> entries[k].cls == MtimeDifference);
  }

  lemma SortsMembers(order: seq<Key>, keys: set<Key>, i: nat)
    requires Sorts(order, keys) && i < |order|
    ensures order[i] in keys && forall j :: 0 <= j < |order| && j != i ==> order[j] != order[i]
  {
    hide Less;
    forall j | 0 <= j < |order| && j != i ensures order[j] != order[i] {
      LessIsTotal(order[i], order[j]);
    }
  }

  ghost function From(order: seq<Key>, i: nat): set<Key>
    requires i <= |order|
  {
    set k | i <= k < |order| :: order[k]
  }

  lemma FromNext(order: seq<Key>, keys: set<Key>, i: nat)
    requires Sorts(order, keys) && i < |order|
    ensures order[i] in From(order, i) && From(order, i + 1) == From(order, i) - {order[i]}
    ensures order[i] in keys
  {
    SortsMembers(order, keys, i);
  }

  lemma FromEnds(order: seq<Key>, keys: set<Key>)
    requires Sorts(order, keys)
    ensures From(order, 0) == keys && From(order, |order|) == {}
  {
    forall key | key in keys ensures key in From(order, 0) {
      assert key in order;
    }
  }

  lemma AllInKeys(order: seq<Key>, keys: set<Key>)
    requires Sorts(order, keys)
    ensures forall k :: 0 <= k < |order| ==> order[k] in keys
  {
  }

  /** The loop over the sorted common keys. */
  method CompareCommon(left: map<Key, FileRecord>, right: map<Key, FileRecord>) returns (entries: seq<Entry>)
    requires AllShaped(left) && AllShaped(right)
    ensures InKeyOrder(entries, left, right) && Complete(entries, left, right, {})
  {
    hide PairEntries;
    hide Complete;
    hide Shaped;
    hide Sorts;
    hide From;
    entries := [];
    var common := left.Keys * right.Keys;
    var order := Sorted(common);
    NothingYet(left, right);
    FromEnds(order, common);
    AllInKeys(order, common);
    var i := 0;
    while i < |order|
      invariant i <= |order|
      invariant entries == EntriesOf(order[..i], left, right)
      invariant Complete(entries, left, right, From(order, i))
    {
      var key := order[i];
      FromNext(order, common, i);
      OnePairMore(entries, left, right, From(order, i), key);
      assert order[..i + 1][..i] == order[..i];
      entries := ComparePair(key, left[key], right[key], entries);
      i := i + 1;
    }
    assert order[..i] == order;
  }

  lemma NothingYet(left: map<Key, FileRecord>, right: map<Key, FileRecord>)
    requires AllShaped(left) && AllShaped(right)
    ensures Complete([], left, right, left.Keys * right.Keys)
  {
  }
}
