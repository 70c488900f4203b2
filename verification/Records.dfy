/** What the diagnostic records of a file, `bytes_record` and `file_record` of
    `scripts/check-reproducible-build-metadata.py`. */
module Records {
  import opened ByteText
  import opened Archive

  /** A digest of some bytes; distinct inputs have distinct digests. */
  datatype Digest = Sha256(preimage: Bytes)

  datatype Option<+T> = None | Some(value: T)

  /** A build path to look for, and the token that stands for it. */
  datatype Replacement = Replacement(path: Bytes, token: Bytes)

  /** Longest path first; paths of equal length keep their order. */
  function Insert(r: Replacement, sorted: seq<Replacement>): seq<Replacement> {
    if sorted == [] || |r.path| > |sorted[0].path| then [r] + sorted
    else [sorted[0]] + Insert(r, sorted[1..])
  }

  function LongestFirst(rs: seq<Replacement>): seq<Replacement> {
    if rs == [] then [] else Insert(rs[|rs| - 1], LongestFirst(rs[..|rs| - 1]))
  }

  function ReplaceAll(data: Bytes, rs: seq<Replacement>): Bytes
    decreases |rs|
  {
    if rs == [] then data else ReplaceAll(Replace(data, rs[0].path, rs[0].token), rs[1..])
  }

  function Normalize(data: Bytes, rs: seq<Replacement>): Bytes {
    ReplaceAll(data, LongestFirst(rs))
  }

  /** The tokens of the paths found, each path removed before the next is looked for. */
  function FoundIn(data: Bytes, rs: seq<Replacement>): seq<Bytes>
    decreases |rs|
  {
    if rs == [] then []
    else if Contains(rs[0].path, data) then [rs[0].token] + FoundIn(Replace(data, rs[0].path, []), rs[1..])
    else FoundIn(data, rs[1..])
  }

  function EmbeddedPaths(data: Bytes, rs: seq<Replacement>): seq<Bytes> {
    FoundIn(data, LongestFirst(rs))
  }

  datatype Record = Record(
    size: nat, normalizedSize: nat, sha: Digest, normalizedSha: Digest, embeddedPaths: seq<Bytes>)

  function BytesRecord(data: Bytes, rs: seq<Replacement>): Record {
    var normalized := Normalize(data, rs);
    Record(|data|, |normalized|, Sha256(data), Sha256(normalized), EmbeddedPaths(data, rs))
  }

  datatype MemberRecord = MemberRecord(
    name: Bytes, occurrence: nat, format: NameFormat, memberSize: nat, nameStorageSize: nat,
    canonicalBsdNameField: bool, canonicalSizeField: bool,
    nameDigest: Record, nameTable: Option<Record>, payload: Record,
    nameEncoding: Record, nameField: Record, mtimeField: Record, uidField: Record, gidField: Record,
    modeField: Record, sizeField: Record, trailerField: Record, padding: Record)

  function RecordMember(m: Member, rs: seq<Replacement>): MemberRecord {
    var isTable := m.format == GnuStringTable;
    MemberRecord(
      Normalize(m.name, rs), m.occurrence, m.format, m.memberSize, m.nameStorageSize,
      m.canonicalBsdNameField, m.canonicalSizeField,
      BytesRecord(m.name, rs),
      if isTable then Some(BytesRecord(m.payload, rs)) else None,
      BytesRecord(if isTable then [] else m.payload, rs),
      BytesRecord(m.nameEncoding, rs), BytesRecord(m.nameField, rs), BytesRecord(m.mtimeField, rs),
      BytesRecord(m.uidField, rs), BytesRecord(m.gidField, rs), BytesRecord(m.modeField, rs),
      BytesRecord(m.sizeField, rs), BytesRecord(m.trailerField, rs), BytesRecord(m.padding, rs))
  }

  function RecordMembers(ms: seq<Member>, rs: seq<Replacement>): seq<MemberRecord> {
    seq(|ms|, i requires 0 <= i < |ms| => RecordMember(ms[i], rs))
  }

  type Key = string

  datatype Contents = Directory | Regular(data: Bytes) | Rlib(data: Bytes)

  /** A file of the inventory: its key, mode, modification time and contents. */
  datatype File = File(key: Key, mode: nat, mtime: nat, contents: Contents)

  datatype Kind = DirectoryKind | FileKind | ArchiveKind

  datatype FileRecord = FileRecord(
    key: Key, kind: Kind, mode: nat, mtime: nat, whole: Option<Record>,
    members: seq<MemberRecord>, trailing: Option<Record>)

  datatype Recorded = Ok(record: FileRecord) | Rejected(reason: Reason)

  function RecordFile(f: File, rs: seq<Replacement>): Recorded {
    match f.contents
    case Directory => Ok(FileRecord(f.key, DirectoryKind, f.mode, f.mtime, None, [], None))
    case Regular(data) => Ok(FileRecord(f.key, FileKind, f.mode, f.mtime, Some(BytesRecord(data, rs)), [], None))
    case Rlib(data) =>
      match Parse(data)
      case Error(reason) => Rejected(reason)
      case Archive(members, trailing) =>
        Ok(FileRecord(f.key, ArchiveKind, f.mode, f.mtime, Some(BytesRecord(data, rs)),
                      RecordMembers(members, rs), Some(BytesRecord(trailing, rs))))
  }

  // ----- embedded paths -----

  /** Some build path occurs in the data. */
  ghost predicate Leaks(data: Bytes, rs: seq<Replacement>) {
    exists k :: 0 <= k < |rs| && Within(rs[k].path, data)
  }

  lemma {:induction false} InsertKeeps(r: Replacement, sorted: seq<Replacement>, x: Replacement)
    ensures x in Insert(r, sorted) <==> x == r || x in sorted
  {
    if sorted != [] && |r.path| <= |sorted[0].path| {
      InsertKeeps(r, sorted[1..], x);
      assert x in sorted <==> x == sorted[0] || x in sorted[1..];
    }
  }

  lemma {:induction false} SortKeeps(rs: seq<Replacement>, x: Replacement)
    ensures x in LongestFirst(rs) <==> x in rs
  {
    if rs != [] {
      var (front, last) := (rs[..|rs| - 1], rs[|rs| - 1]);
      SortKeeps(front, x);
      InsertKeeps(last, LongestFirst(front), x);
      assert rs == front + [last];
    }
  }

  /** The replacements of paths of one length, in their order. */
  function OfLength(rs: seq<Replacement>, n: nat): seq<Replacement> {
    if rs == [] then [] else (if |rs[0].path| == n then [rs[0]] else []) + OfLength(rs[1..], n)
  }

  ghost predicate ByLength(rs: seq<Replacement>) {
    forall i, j :: 0 <= i < j < |rs| ==> |rs[i].path| >= |rs[j].path|
  }

  lemma {:induction false} InsertByLength(r: Replacement, sorted: seq<Replacement>)
    requires ByLength(sorted)
    ensures ByLength(Insert(r, sorted))
  {
    if sorted != [] && |r.path| <= |sorted[0].path| {
      var rest := sorted[1..];
      InsertByLength(r, rest);
      forall x | x in Insert(r, rest) ensures |x.path| <= |sorted[0].path| {
        InsertKeeps(r, rest, x);
      }
      hide Insert;
      ConsByLength(sorted[0], Insert(r, rest));
    } else {
      ConsByLength(r, sorted);
    }
  }

  lemma ConsByLength(first: Replacement, rest: seq<Replacement>)
    requires ByLength(rest) && forall x :: x in rest ==> |x.path| <= |first.path|
    ensures ByLength([first] + rest)
  {
    var all := [first] + rest;
    assert forall k :: 0 < k < |all| ==> all[k] == rest[k - 1] && rest[k - 1] in rest;
  }

  lemma {:induction false} InsertKeepsLength(r: Replacement, sorted: seq<Replacement>, n: nat)
    requires ByLength(sorted)
    ensures OfLength(Insert(r, sorted), n) == OfLength(sorted, n) + if |r.path| == n then [r] else []
  {
    if sorted == [] || |r.path| > |sorted[0].path| {
      hide Insert;
      if |r.path| == n {
        NoneOfLength(sorted, n);
      }
      ConsOfLength(r, sorted, n);
    } else {
      var rest := sorted[1..];
      InsertKeepsLength(r, rest, n);
      hide ByLength;
      ConsOfLength(sorted[0], Insert(r, rest), n);
      ConsOfLength(sorted[0], rest, n);
      assert [sorted[0]] + rest == sorted;
    }
  }

  lemma ConsOfLength(first: Replacement, rest: seq<Replacement>, n: nat)
    ensures OfLength([first] + rest, n) == (if |first.path| == n then [first] else []) + OfLength(rest, n)
  {
    assert ([first] + rest)[1..] == rest;
  }

  lemma {:induction false} NoneOfLength(rs: seq<Replacement>, n: nat)
    requires forall i :: 0 <= i < |rs| ==> |rs[i].path| < n
    ensures OfLength(rs, n) == []
  {
    if rs != [] {
      NoneOfLength(rs[1..], n);
    }
  }

  lemma {:induction false} OfLengthSnoc(rs: seq<Replacement>, r: Replacement, n: nat)
    ensures OfLength(rs + [r], n) == OfLength(rs, n) + if |r.path| == n then [r] else []
  {
    if rs == [] {
      assert [] + [r] == [r] && [r][1..] == [];
    } else {
      assert (rs + [r])[1..] == rs[1..] + [r];
      OfLengthSnoc(rs[1..], r, n);
    }
  }

  /** Longer paths come first; those of one length are all kept, in their order. */
  lemma {:induction false} LongestIsFirst(rs: seq<Replacement>, n: nat)
    ensures ByLength(LongestFirst(rs)) && OfLength(LongestFirst(rs), n) == OfLength(rs, n)
  {
    hide ByLength;
    if rs != [] {
      var (front, last) := (rs[..|rs| - 1], rs[|rs| - 1]);
      LongestIsFirst(front, n);
      InsertByLength(last, LongestFirst(front));
      InsertKeepsLength(last, LongestFirst(front), n);
      OfLengthSnoc(front, last, n);
      assert rs == front + [last];
    } else {
      NothingByLength();
    }
  }

  lemma NothingByLength()
    ensures ByLength([])
  {
  }

  lemma {:induction false} FoundMeansContained(data: Bytes, rs: seq<Replacement>)
    ensures FoundIn(data, rs) == [] <==> forall x :: x in rs ==> !Contains(x.path, data)
  {
    hide Contains;
    if rs != [] {
      assert forall x :: x in rs <==> x == rs[0] || x in rs[1..];
      FoundMeansContained(data, rs[1..]);
    }
  }

  /** Paths are reported exactly when some path occurs, although each is removed when found. */
  lemma EmbeddedIffLeaks(data: Bytes, rs: seq<Replacement>)
    ensures EmbeddedPaths(data, rs) != [] <==> Leaks(data, rs)
  {
    hide Contains;
    var sorted := LongestFirst(rs);
    FoundMeansContained(data, sorted);
    forall x ensures x in sorted <==> x in rs {
      SortKeeps(rs, x);
    }
    forall x | x in rs ensures Contains(x.path, data) <==> Within(x.path, data) {
      ContainsIsWithin(x.path, data);
    }
  }

  lemma PartDoesNotLeak(part: Bytes, data: Bytes, rs: seq<Replacement>)
    requires Within(part, data) && !Leaks(data, rs)
    ensures EmbeddedPaths(part, rs) == []
  {
    EmbeddedIffLeaks(part, rs);
    if Leaks(part, rs) {
      var k :| 0 <= k < |rs| && Within(rs[k].path, part);
      WithinChain(rs[k].path, part, data);
    }
  }
}
