/** What the verdict of the diagnostic means: `compare_records` over two inventories of
    `scripts/check-reproducible-build-metadata.py`. */
module Reproducible {
  import opened ByteText
  import opened Archive
  import opened Records
  import opened Compare

  // ----- the classifier misses nothing inside an archive -----

  lemma {:induction false} NothingCounted(es: seq<Entry>)
    ensures CountClassified(es) == 0 <==> forall k :: 0 <= k < |es| ==> !Classified(es[k].cls)
  {
    if es != [] {
      NothingCounted(es[..|es| - 1]);
    }
  }

  /** No classified entry for a pair of members means that every part of them is the same. */
  lemma SilentMembers(key: Key, index: nat, a: Member, b: Member, r1: seq<Replacement>, r2: seq<Replacement>)
    requires CountClassified(MemberEntries(key, index, RecordMember(a, r1), RecordMember(b, r2))) == 0
    ensures a.nameField == b.nameField && a.mtimeField == b.mtimeField && a.uidField == b.uidField
    ensures a.gidField == b.gidField && a.modeField == b.modeField && a.sizeField == b.sizeField
    ensures a.trailerField == b.trailerField && a.padding == b.padding
    ensures a.nameEncoding == b.nameEncoding && a.payload == b.payload
  {
    var (x, y) := (RecordMember(a, r1), RecordMember(b, r2));
    var es := MemberEntries(key, index, x, y);
    NothingCounted(es);
    SilentLists(key, index, x, y);
    assert !BsdLengthOnly(x, y);
  }

  lemma SilentLists(key: Key, index: nat, x: MemberRecord, y: MemberRecord)
    requires forall k :: 0 <= k < |MemberEntries(key, index, x, y)| ==>
      !Classified(MemberEntries(key, index, x, y)[k].cls)
    ensures MetadataChanges(x, y) == [] && NameChanges(x, y) == [] && FormatChanges(x, y) == []
    ensures !Differs(x.payload, y.payload)
  {
    hide MetadataChanges;
    hide NameChanges;
    hide FormatChanges;
    hide MemberPaths;
    hide PathOnlyNames;
    var es := MemberEntries(key, index, x, y);
    assert MetadataChanges(x, y) != [] ==> Entry(ArchiveMetadata, key, Fields(index, MetadataChanges(x, y))) in es;
    assert NameChanges(x, y) != [] ==>
        Entry(if PathOnlyNames(x, y) then PathOnlyName else ArchiveFormat, key, Fields(index, NameChanges(x, y))) in es;
    assert FormatChanges(x, y) != [] ==> Entry(ArchiveFormat, key, Fields(index, FormatChanges(x, y))) in es;
    assert Differs(x.payload, y.payload) ==>
        Entry(if x.payload.normalizedSha == y.payload.normalizedSha then PathOnlyPayload else PayloadDifference,
              key, InMember(index)) in es;
  }

  lemma {:induction false} SilentPairs(key: Key, a: seq<MemberRecord>, b: seq<MemberRecord>, n: nat, i: nat)
    requires i < n <= |a| && n <= |b| && CountClassified(MembersEntries(key, a, b, n)) == 0
    ensures CountClassified(MemberEntries(key, i, a[i], b[i])) == 0
  {
    hide MemberEntries;
    hide CountClassified;
    CountConcat(MembersEntries(key, a, b, n - 1), MemberEntries(key, n - 1, a[n - 1], b[n - 1]));
    if i < n - 1 {
      SilentPairs(key, a, b, n - 1, i);
    }
  }

  /** The format of a parsed member follows from its name field alone, as far as its layout goes. */
  ghost predicate Genuine(m: Member) {
    m.format == BsdLong <==> IsBsd(TrimEnd(m.nameField, (b: Byte) => Space(b)))
  }

  lemma MemberIsGenuine(data: Bytes, offset: nat, table: Bytes)
    requires offset + HEADER <= |data| && MemberAt(data, offset, table).Turn?
    ensures Genuine(MemberAt(data, offset, table).member)
  {
    hide SizeOk;
    hide Size;
    hide TableName;
    hide TrimEnd;
    hide Spell;
    hide PadRight;
    hide Decimal;
  }

  lemma {:induction false} AllGenuine(data: Bytes, offset: nat, table: Bytes, occurrences: map<Bytes, nat>, k: nat)
    requires ParseFrom(data, offset, table, occurrences).Archive?
    requires k < |ParseFrom(data, offset, table, occurrences).members|
    ensures Genuine(ParseFrom(data, offset, table, occurrences).members[k])
    decreases |data| - offset
  {
    hide MemberAt;
    MemberIsGenuine(data, offset, table);
    if k > 0 {
      var Turn(m, next) := MemberAt(data, offset, table);
      var n := Seen(occurrences, m.name);
      AllGenuine(data, next, TableAfter(m, table), occurrences[m.name := n + 1], k - 1);
    }
  }

  lemma {:induction false} SameMembersSameBytes(a: seq<Member>, b: seq<Member>)
    requires |a| == |b| && forall i :: 0 <= i < |a| ==> MemberBytes(a[i]) == MemberBytes(b[i])
    ensures AllBytes(a) == AllBytes(b)
  {
    hide MemberBytes;
    if a != [] {
      assert forall i :: 0 <= i < |a| - 1 ==> a[1..][i] == a[i + 1] && b[1..][i] == b[i + 1];
      SameMembersSameBytes(a[1..], b[1..]);
    }
  }

  /** Completeness: two archives that differ anywhere, in any byte, differ in some member part or
      in the trailing bytes that the classifier reports, whatever it suppresses as a consequence of
      a changed name.  So the whole-archive fallback is never reached. */
  lemma DifferentArchivesAreClassified(key: Key, x: Bytes, y: Bytes, a: FileRecord, b: FileRecord,
                                       f: File, g: File, r1: seq<Replacement>, r2: seq<Replacement>)
    requires f.contents == Rlib(x) && RecordFile(f, r1) == Ok(a)
    requires g.contents == Rlib(y) && RecordFile(g, r2) == Ok(b)
    requires x != y
    ensures CountClassified(ArchiveEntries(key, a, b)) > 0
  {
    if CountClassified(ArchiveEntries(key, a, b)) == 0 {
      SilentArchives(key, x, y, a, b, f, g, r1, r2);
      ParseIsLossless(x);
      ParseIsLossless(y);
    }
  }

  lemma SilentParts(key: Key, a: FileRecord, b: FileRecord)
    requires a.trailing.Some? && b.trailing.Some? && CountClassified(ArchiveEntries(key, a, b)) == 0
    ensures |a.members| == |b.members| && !Differs(a.trailing.value, b.trailing.value)
    ensures CountClassified(MembersEntries(key, a.members, b.members, |a.members|)) == 0
  {
    hide MembersEntries;
    hide CountClassified;
    var n := Min(|a.members|, |b.members|);
    var (first, middle, last) :=
      (If(|a.members| != |b.members|, Entry(ArchiveFormat, key, MemberCount)),
       MembersEntries(key, a.members, b.members, n),
       If(Differs(a.trailing.value, b.trailing.value), Entry(ArchiveFormat, key, TrailingBytes)));
    CountConcat(first + middle, last);
    CountConcat(first, middle);
    NothingCounted(first);
    NothingCounted(last);
    assert |a.members| != |b.members| ==> Classified(first[0].cls);
    assert Differs(a.trailing.value, b.trailing.value) ==> Classified(last[0].cls);
  }

  lemma SilentArchives(key: Key, x: Bytes, y: Bytes, a: FileRecord, b: FileRecord,
                       f: File, g: File, r1: seq<Replacement>, r2: seq<Replacement>)
    requires f.contents == Rlib(x) && RecordFile(f, r1) == Ok(a)
    requires g.contents == Rlib(y) && RecordFile(g, r2) == Ok(b)
    requires CountClassified(ArchiveEntries(key, a, b)) == 0
    ensures Parse(x).Archive? && Parse(y).Archive?
    ensures AllBytes(Parse(x).members) == AllBytes(Parse(y).members) && Parse(x).trailing == Parse(y).trailing
  {
    hide ParseFrom;
    hide RecordMember;
    hide MembersEntries;
    hide MemberEntries;
    hide CountClassified;
    hide ArchiveEntries;
    hide MemberBytes;
    hide AllBytes;
    SilentParts(key, a, b);
    var (ms, ns) := (Parse(x).members, Parse(y).members);
    forall i | 0 <= i < |ms| ensures MemberBytes(ms[i]) == MemberBytes(ns[i]) {
      SilentPairs(key, a.members, b.members, |ms|, i);
      SilentMembers(key, i, ms[i], ns[i], r1, r2);
      AllGenuine(x, 8, [], map[], i);
      AllGenuine(y, 8, [], map[], i);
      SamePartsSameBytes(ms[i], ns[i]);
    }
    SameMembersSameBytes(ms, ns);
  }

  lemma SamePartsSameBytes(a: Member, b: Member)
    requires Genuine(a) && Genuine(b)
    requires a.nameField == b.nameField && a.mtimeField == b.mtimeField && a.uidField == b.uidField
    requires a.gidField == b.gidField && a.modeField == b.modeField && a.sizeField == b.sizeField
    requires a.trailerField == b.trailerField && a.padding == b.padding
    requires a.nameEncoding == b.nameEncoding && a.payload == b.payload
    ensures MemberBytes(a) == MemberBytes(b)
  {
    hide TrimEnd;
    hide IsBsd;
  }

  // ----- identical bytes without build paths give no entry -----

  /** Everything the records look for build paths in is part of the archive. */
  ghost predicate PartsWithin(m: Member, data: Bytes) {
    Within(m.name, data) && Within(m.payload, data) && Within(m.nameEncoding, data)
  }

  lemma TrimWithin(s: Bytes, drop: Byte -> bool, data: Bytes)
    requires Within(s, data)
    ensures Within(TrimEnd(s, drop), data)
  {
    SliceWithin(s, 0, Kept(s, drop));
    assert TrimEnd(s, drop) == Slice(s, 0, Kept(s, drop));
    WithinChain(TrimEnd(s, drop), s, data);
  }

  lemma SliceOfWithin(s: Bytes, a: nat, b: nat, data: Bytes)
    requires Within(s, data)
    ensures Within(Slice(s, a, b), data)
  {
    SliceWithin(s, a, b);
    WithinChain(Slice(s, a, b), s, data);
  }

  lemma MemberPartsWithin(data: Bytes, offset: nat, table: Bytes)
    requires offset + HEADER <= |data| && MemberAt(data, offset, table).Turn? && Within(table, data)
    ensures PartsWithin(MemberAt(data, offset, table).member, data)
  {
    hide SizeOk;
    hide Size;
    hide TrimEnd;
    hide Spell;
    hide PadRight;
    hide Decimal;
    hide Find;
    hide Within;
    hide Slice;
    var Turn(m, next) := MemberAt(data, offset, table);
    var header := data[offset..offset + HEADER];
    PieceWithin(data, offset, offset + HEADER);
    PieceWithin(data, offset + HEADER, offset + HEADER + m.memberSize);
    var body := data[offset + HEADER..offset + HEADER + m.memberSize];
    SliceOfWithin(header, 0, 16, data);
    SliceOfWithin(body, 0, m.nameStorageSize, data);
    SliceOfWithin(body, m.nameStorageSize, m.memberSize, data);
    TrimWithin(m.nameEncoding, (b: Byte) => b == 0, data);
    var raw := RawName(header);
    TrimWithin(Slice(header, 0, 16), (b: Byte) => Space(b), data);
    TrimWithin(raw, (b: Byte) => b == 47, data);
    if m.format == GnuLongReference {
      var end := Find([47, 10], table, Decimal(raw[1..]));
      SliceOfWithin(table, Decimal(raw[1..]), if end < 0 then |table| else end, data);
    }
  }

  lemma PieceWithin(data: Bytes, a: nat, b: nat)
    requires a <= b <= |data|
    ensures Within(data[a..b], data)
  {
    assert OccursAt(data[a..b], data, a);
  }

  lemma {:induction false} AllPartsWithin(data: Bytes, offset: nat, table: Bytes, occurrences: map<Bytes, nat>, k: nat)
    requires ParseFrom(data, offset, table, occurrences).Archive? && Within(table, data)
    requires k < |ParseFrom(data, offset, table, occurrences).members|
    ensures PartsWithin(ParseFrom(data, offset, table, occurrences).members[k], data)
    decreases |data| - offset
  {
    hide MemberAt;
    hide Within;
    MemberPartsWithin(data, offset, table);
    if k > 0 {
      var Turn(m, next) := MemberAt(data, offset, table);
      var n := Seen(occurrences, m.name);
      AllPartsWithin(data, next, TableAfter(m, table), occurrences[m.name := n + 1], k - 1);
    }
  }

  lemma SameMemberIsSilent(key: Key, index: nat, m: Member, data: Bytes, r1: seq<Replacement>, r2: seq<Replacement>)
    requires PartsWithin(m, data) && !Leaks(data, r1) && !Leaks(data, r2)
    ensures MemberEntries(key, index, RecordMember(m, r1), RecordMember(m, r2)) == []
  {
    hide Within;
    hide Leaks;
    hide Normalize;
    hide EmbeddedPaths;
    EmptyWithin(data);
    PartDoesNotLeak([], data, r1);
    PartDoesNotLeak([], data, r2);
    PartDoesNotLeak(m.name, data, r1);
    PartDoesNotLeak(m.name, data, r2);
    PartDoesNotLeak(m.payload, data, r1);
    PartDoesNotLeak(m.payload, data, r2);
    PartDoesNotLeak(m.nameEncoding, data, r1);
    PartDoesNotLeak(m.nameEncoding, data, r2);
  }

  lemma EmptyWithin(data: Bytes)
    ensures Within([], data)
  {
    assert OccursAt([], data, 0);
  }

  lemma {:induction false} SameMembersAreSilent(key: Key, ms: seq<Member>, data: Bytes,
                                                r1: seq<Replacement>, r2: seq<Replacement>, n: nat)
    requires n <= |ms| && forall i :: 0 <= i < |ms| ==> PartsWithin(ms[i], data)
    requires !Leaks(data, r1) && !Leaks(data, r2)
    ensures MembersEntries(key, RecordMembers(ms, r1), RecordMembers(ms, r2), n) == []
  {
    hide MemberEntries;
    hide RecordMember;
    hide PartsWithin;
    hide Leaks;
    if n > 0 {
      SameMembersAreSilent(key, ms, data, r1, r2, n - 1);
      SameMemberIsSilent(key, n - 1, ms[n - 1], data, r1, r2);
    }
  }

  // ----- the verdict -----

  ghost predicate NoPathIn(f: File, rs: seq<Replacement>) {
    f.contents.Directory? || !Leaks(f.contents.data, rs)
  }

  /** Nothing is reported about the pair except possibly its modification times. */
  ghost predicate Silent(key: Key, a: FileRecord, b: FileRecord)
    requires Shaped(a) && Shaped(b)
  {
    forall k :: 0 <= k < |PairEntries(key, a, b)| ==> PairEntries(key, a, b)[k].cls == MtimeDifference
  }

  lemma RecordIsShaped(f: File, rs: seq<Replacement>)
    requires RecordFile(f, rs).Ok?
    ensures Shaped(RecordFile(f, rs).record)
  {
    hide Parse;
    hide BytesRecord;
  }

  lemma SilentIffParts(key: Key, a: FileRecord, b: FileRecord)
    requires Shaped(a) && Shaped(b)
    ensures Silent(key, a, b) <==>
      && a.mode == b.mode && Paths(a) == [] && Paths(b) == []
      && forall k :: 0 <= k < |BytesEntries(key, a, b)| ==> BytesEntries(key, a, b)[k].cls == MtimeDifference
  {
    hide BytesEntries;
    hide Paths;
    hide Shaped;
    var es := PairEntries(key, a, b);
    var bytes := BytesEntries(key, a, b);
    assert forall e :: e in bytes ==> e in es;
    assert a.mode != b.mode ==> Entry(ModeDifference, key, Whole) in es;
    assert Paths(a) != [] || Paths(b) != [] ==> Entry(PathLeak, key, Whole) in es;
    if Silent(key, a, b) {
      forall k | 0 <= k < |bytes| ensures bytes[k].cls == MtimeDifference {
        assert bytes[k] in es;
      }
    }
  }

  /** A pair of files is reported clean exactly when the modes and the contents are the same and
      no build path occurs in either. */
  lemma PairVerdict(
    key: Key, f: File, g: File, r1: seq<Replacement>, r2: seq<Replacement>, a: FileRecord, b: FileRecord)
    requires RecordFile(f, r1) == Ok(a) && RecordFile(g, r2) == Ok(b)
    requires Shaped(a) && Shaped(b)
    ensures Silent(key, a, b) <==>
      f.mode == g.mode && f.contents == g.contents && NoPathIn(f, r1) && NoPathIn(g, r2)
  {
    hide Silent;
    hide Parse;
    hide Normalize;
    hide ArchiveEntries;
    hide EmbeddedPaths;
    hide Leaks;
    hide CountClassified;
    hide RecordMembers;
    SilentIffParts(key, a, b);
    if !f.contents.Directory? {
      EmbeddedIffLeaks(f.contents.data, r1);
    }
    if !g.contents.Directory? {
      EmbeddedIffLeaks(g.contents.data, r2);
    }
    if f.contents.Rlib? && g.contents.Rlib? {
      ArchiveVerdict(key, f, g, r1, r2, a, b);
    } else {
      PlainVerdict(key, f, g, r1, r2, a, b);
    }
  }

  lemma PlainVerdict(
    key: Key, f: File, g: File, r1: seq<Replacement>, r2: seq<Replacement>, a: FileRecord, b: FileRecord)
    requires RecordFile(f, r1) == Ok(a) && RecordFile(g, r2) == Ok(b)
    requires Shaped(a) && Shaped(b) && !(f.contents.Rlib? && g.contents.Rlib?)
    ensures f.contents == g.contents <==>
      forall k :: 0 <= k < |BytesEntries(key, a, b)| ==> BytesEntries(key, a, b)[k].cls == MtimeDifference
  {
    hide Parse;
    hide Normalize;
    hide EmbeddedPaths;
    hide ArchiveEntries;
    hide RecordMembers;
    if f.contents != g.contents {
      assert BytesEntries(key, a, b)[0].cls != MtimeDifference;
    }
  }

  lemma ArchiveVerdict(
    key: Key, f: File, g: File, r1: seq<Replacement>, r2: seq<Replacement>, a: FileRecord, b: FileRecord)
    requires RecordFile(f, r1) == Ok(a) && RecordFile(g, r2) == Ok(b)
    requires Shaped(a) && Shaped(b) && f.contents.Rlib? && g.contents.Rlib?
    ensures f.contents != g.contents ==>
      exists k :: 0 <= k < |BytesEntries(key, a, b)| && BytesEntries(key, a, b)[k].cls != MtimeDifference
    ensures f.contents == g.contents && !Leaks(f.contents.data, r1) && !Leaks(f.contents.data, r2) ==>
      BytesEntries(key, a, b) == []
  {
    hide ParseFrom;
    hide RecordMember;
    hide MembersEntries;
    hide Normalize;
    hide EmbeddedPaths;
    hide Leaks;
    var data := f.contents.data;
    var es := ArchiveEntries(key, a, b);
    NothingCounted(es);
    if f.contents != g.contents {
      DifferentArchivesAreClassified(key, data, g.contents.data, a, b, f, g, r1, r2);
      var k :| 0 <= k < |es| && Classified(es[k].cls);
      assert BytesEntries(key, a, b)[k] == es[k];
    } else if !Leaks(data, r1) && !Leaks(data, r2) {
      var ms := Parse(data).members;
      forall i | 0 <= i < |ms| ensures PartsWithin(ms[i], data) {
        EmptyWithin(data);
        AllPartsWithin(data, 8, [], map[], i);
      }
      SameMembersAreSilent(key, ms, data, r1, r2, |ms|);
    }
  }

  /** The inventory of a tree: one record for each file, keys distinct. */
  ghost predicate Inventory(files: seq<File>, rs: seq<Replacement>, records: seq<FileRecord>) {
    && |records| == |files|
    && (forall i, j :: 0 <= i < j < |files| ==> files[i].key != files[j].key)
    && forall i :: 0 <= i < |files| ==> RecordFile(files[i], rs) == Ok(records[i])
  }

  ghost function KeysOf(files: seq<File>): set<Key> {
    set f | f in files :: f.key
  }

  ghost predicate SameFile(f: File, g: File, r1: seq<Replacement>, r2: seq<Replacement>) {
    f.mode == g.mode && f.contents == g.contents && NoPathIn(f, r1) && NoPathIn(g, r2)
  }

  /** Two trees hold the same files: the same keys and, under each, the same mode and contents,
      free of either tree's build paths. */
  ghost predicate SameTrees(first: seq<File>, second: seq<File>, r1: seq<Replacement>, r2: seq<Replacement>) {
    && KeysOf(first) == KeysOf(second)
    && forall f, g :: f in first && g in second && f.key == g.key ==> SameFile(f, g, r1, r2)
  }

  /** The index of one more record. */
  lemma NextByKey(records: seq<FileRecord>, last: FileRecord)
    ensures ByKey(records + [last]) == ByKey(records)[last.key := last]
  {
    assert (records + [last])[..|records|] == records;
  }

  lemma MoreKeys(files: seq<File>, f: File)
    ensures KeysOf(files + [f]) == KeysOf(files) + {f.key}
  {
  }

  lemma NextInventory(files: seq<File>, f: File, rs: seq<Replacement>, records: seq<FileRecord>, r: FileRecord)
    requires Inventory(files + [f], rs, records + [r])
    ensures Inventory(files, rs, records) && RecordFile(f, rs) == Ok(r)
    ensures forall i :: 0 <= i < |files| ==> files[i].key != f.key
  {
    hide RecordFile;
    var (all, rr) := (files + [f], records + [r]);
    assert forall i :: 0 <= i < |files| ==> all[i] == files[i] && rr[i] == records[i];
    assert all[|files|] == f && rr[|files|] == r;
  }

  /** Each file's record is found under the file's key. */
  ghost predicate Indexed(files: seq<File>, records: seq<FileRecord>, m: map<Key, FileRecord>) {
    && |files| == |records|
    && forall i :: 0 <= i < |files| ==> files[i].key in m && m[files[i].key] == records[i]
  }

  lemma IndexMore(files: seq<File>, records: seq<FileRecord>, f: File, r: FileRecord, m: map<Key, FileRecord>)
    requires Indexed(files, records, m) && forall i :: 0 <= i < |files| ==> files[i].key != f.key
    ensures Indexed(files + [f], records + [r], m[f.key := r])
  {
  }

  lemma ShapedMore(m: map<Key, FileRecord>, key: Key, r: FileRecord, keys: set<Key>)
    requires AllShaped(m) && m.Keys == keys && Shaped(r)
    ensures AllShaped(m[key := r]) && m[key := r].Keys == keys + {key}
  {
    hide Shaped;
  }

  lemma {:induction false} IndexOfInventory(files: seq<File>, rs: seq<Replacement>, records: seq<FileRecord>)
    requires Inventory(files, rs, records)
    ensures AllShaped(ByKey(records)) && ByKey(records).Keys == KeysOf(files)
    ensures Indexed(files, records, ByKey(records))
  {
    hide RecordFile;
    hide Shaped;
    if files != [] {
      hide Inventory;
      hide ByKey;
      hide KeysOf;
      hide Indexed;
      hide AllShaped;
      assert |records| == |files| by { SameSize(files, rs, records); }
      var n := |files| - 1;
      var (f, r) := (files[n], records[n]);
      assert files == files[..n] + [f] && records == records[..n] + [r];
      NextInventory(files[..n], f, rs, records[..n], r);
      IndexOfInventory(files[..n], rs, records[..n]);
      RecordKey(f, rs);
      RecordIsShaped(f, rs);
      NextByKey(records[..n], r);
      MoreKeys(files[..n], f);
      IndexMore(files[..n], records[..n], f, r, ByKey(records[..n]));
      ShapedMore(ByKey(records[..n]), f.key, r, KeysOf(files[..n]));
    }
  }

  lemma SameSize(files: seq<File>, rs: seq<Replacement>, records: seq<FileRecord>)
    requires Inventory(files, rs, records)
    ensures |records| == |files|
  {
  }

  lemma RecordKey(f: File, rs: seq<Replacement>)
    requires RecordFile(f, rs).Ok?
    ensures RecordFile(f, rs).record.key == f.key
  {
    hide Parse;
    hide BytesRecord;
  }

  /** Every entry is harmless exactly when every file on a common key is the same. */
  lemma SilentIffSameFiles(first: seq<File>, second: seq<File>, r1: seq<Replacement>, r2: seq<Replacement>,
                           a: seq<FileRecord>, b: seq<FileRecord>)
    requires Inventory(first, r1, a) && Inventory(second, r2, b)
    requires AllShaped(ByKey(a)) && AllShaped(ByKey(b))
    ensures (forall key :: key in ByKey(a).Keys && key in ByKey(b).Keys ==> Silent(key, ByKey(a)[key], ByKey(b)[key]))
      <==> forall f, g :: f in first && g in second && f.key == g.key ==> SameFile(f, g, r1, r2)
  {
    hide Shaped;
    hide ByKey;
    hide SameFile;
    hide Silent;
    hide Inventory;
    var (left, right) := (ByKey(a), ByKey(b));
    KeysOfInventory(first, r1, a);
    KeysOfInventory(second, r2, b);
    forall f, g | f in first && g in second && f.key == g.key
      ensures f.key in left && f.key in right
      ensures Silent(f.key, left[f.key], right[f.key]) <==> SameFile(f, g, r1, r2)
    {
      FileVerdict(first, second, r1, r2, a, b, f, g);
    }
    if forall f, g :: f in first && g in second && f.key == g.key ==> SameFile(f, g, r1, r2) {
      forall key | key in left.Keys && key in right.Keys ensures Silent(key, left[key], right[key]) {
        var f :| f in first && f.key == key;
        var g :| g in second && g.key == key;
      }
    }
  }

  lemma KeysOfInventory(files: seq<File>, rs: seq<Replacement>, records: seq<FileRecord>)
    requires Inventory(files, rs, records)
    ensures AllShaped(ByKey(records)) && ByKey(records).Keys == KeysOf(files)
  {
    IndexOfInventory(files, rs, records);
  }

  /** The diagnostic's verdict: for two inventories of distinct keys, `reproducible` holds exactly
      when the trees hold the same files and no build path. */
  lemma VerdictIsSameTrees(first: seq<File>, second: seq<File>, r1: seq<Replacement>, r2: seq<Replacement>,
                           a: seq<FileRecord>, b: seq<FileRecord>, report: Report)
    requires Inventory(first, r1, a) && Inventory(second, r2, b)
    requires AllShaped(ByKey(a)) && AllShaped(ByKey(b))
    requires Judged(report, ByKey(a), ByKey(b))
    ensures report.reproducible <==> SameTrees(first, second, r1, r2)
  {
    hide Shaped;
    hide Complete;
    hide ByKey;
    hide SameFile;
    hide Silent;
    hide Inventory;
    hide KeysOf;
    KeysOfInventory(first, r1, a);
    KeysOfInventory(second, r2, b);
    EntriesByKey(report.entries, ByKey(a), ByKey(b));
    SilentIffSameFiles(first, second, r1, r2, a, b);
  }

  lemma FileVerdict(first: seq<File>, second: seq<File>, r1: seq<Replacement>, r2: seq<Replacement>,
                    a: seq<FileRecord>, b: seq<FileRecord>, f: File, g: File)
    requires Inventory(first, r1, a) && Inventory(second, r2, b)
    requires AllShaped(ByKey(a)) && AllShaped(ByKey(b))
    requires f in first && g in second && f.key == g.key
    ensures f.key in ByKey(a) && f.key in ByKey(b)
    ensures Silent(f.key, ByKey(a)[f.key], ByKey(b)[f.key]) <==> SameFile(f, g, r1, r2)
  {
    hide RecordFile;
    hide Shaped;
    hide ByKey;
    hide Silent;
    IndexOfInventory(first, r1, a);
    IndexOfInventory(second, r2, b);
    var i :| 0 <= i < |first| && first[i] == f;
    var j :| 0 <= j < |second| && second[j] == g;
    RecordIsShaped(f, r1);
    RecordIsShaped(g, r2);
    PairVerdict(f.key, f, g, r1, r2, a[i], b[j]);
  }

  /** All entries are harmless exactly when the entries about each common key are. */
  lemma EntriesByKey(entries: seq<Entry>, left: map<Key, FileRecord>, right: map<Key, FileRecord>)
    requires AllShaped(left) && AllShaped(right) && Complete(entries, left, right, {})
    ensures (forall k :: 0 <= k < |entries| ==> entries[k].cls == MtimeDifference) <==>
      forall key :: key in left.Keys && key in right.Keys ==> Silent(key, left[key], right[key])
  {
    hide PairEntries;
    hide Shaped;
    forall key ensures forall e :: e in About(entries, key) <==> e in entries && e.key == key {
      AboutIsFilter(entries, key);
    }
    hide About;
    forall k | 0 <= k < |entries|
      ensures entries[k].key in left.Keys && entries[k].key in right.Keys
      ensures entries[k] in PairEntries(entries[k].key, left[entries[k].key], right[entries[k].key])
    {
      assert entries[k] in About(entries, entries[k].key);
    }
  }

  lemma {:induction false} AboutIsFilter(es: seq<Entry>, key: Key)
    ensures forall e :: e in About(es, key) <==> e in es && e.key == key
  {
    if es != [] {
      var (front, last) := (es[..|es| - 1], es[|es| - 1]);
      AboutIsFilter(front, key);
      assert es == front + [last];
    }
  }
}
