/** The source manifest of a program: how `scripts/rue-program-derive-manifest.py` derives it from a
    dependency scan, and how the compiler reads it back (`crates/rue/src/source_loader.rs`). */
module Manifest {
  import opened Joining
  import opened PosixPath

  datatype Option<+T> = None | Some(value: T)

  // ----- re-anchoring -----

  /** An absolute root of the scan and the directory of this build it stands for. */
  datatype Root = Root(absolute: string, relative: string)

  function ReanchorFrom(path: string, roots: seq<Root>): Option<string> {
    if roots == [] then None
    else
      var root := Normpath(roots[0].absolute);
      if TextUnder(path, root) then
        var suffix := StripSlashes(path[|root|..]);
        Some(if suffix != "" then Normpath(JoinPath(roots[0].relative, suffix)) else roots[0].relative)
      else ReanchorFrom(path, roots[1..])
  }

  function Reanchor(absolute: string, roots: seq<Root>): Option<string> {
    ReanchorFrom(Normpath(absolute), roots)
  }

  /** With the root of the filesystem as the only root, no absolute path of one slash and a name
      is found, though every one lies under it. */
  lemma RootOfFilesystemFindsNothing(path: string, root: string, relative: string)
    requires Normal(root) == Path(1, []) && Normal(path).slashes == 1 && Normal(path).parts != []
    ensures Reanchor(path, [Root(root, relative)]) == None
  {
    hide Normal;
    hide Render;
    NormalIsTidy(path);
    NothingIsUnderTheRoot(Normal(path));
    assert [Root(root, relative)][1..] == [];
    OutsideAllRoots(path);
  }

  // ----- derivation -----

  datatype Observation = Observation(absent: bool, path: string)

  /** What a scan records; an empty standard root stands for none. */
  datatype Envelope = Envelope(
    complete: bool, projectRoot: string, stdRoot: string, accepted: seq<string>, observations: seq<Observation>)

  /** What the rule declares, with the files found under the standard directory. */
  datatype Rule = Rule(
    root: string, srcs: seq<string>, stdDir: string, stdFiles: seq<string>, includeSrcs: bool, expected: Option<string>)

  datatype Failure = NotComplete | Unexpected(violations: seq<string>) | Undeclared(violations: seq<string>)

  datatype Outcome = Manifest(entries: set<string>) | Marker(path: string) | Failed(why: Failure)

  function RootDir(c: Rule): string {
    Render(Parent(Normal(c.root)))
  }

  function StdDir(c: Rule): string {
    Normpath(c.stdDir)
  }

  function Srcs(c: Rule): set<string> {
    set i | 0 <= i < |c.srcs| :: Normpath(c.srcs[i])
  }

  function Roots(env: Envelope, c: Rule): seq<Root> {
    [Root(env.projectRoot, RootDir(c))] + if env.stdRoot != "" then [Root(env.stdRoot, StdDir(c))] else []
  }

  /** A project-relative path inside the declared boundary. */
  predicate Allowed(rel: string, c: Rule) {
    TextUnder(rel, StdDir(c)) || rel in Srcs(c)
  }

  /** What a read is reported as, if it violates the boundary. */
  function Violation(env: Envelope, c: Rule, path: string): Option<string> {
    match Reanchor(path, Roots(env, c))
    case None => Some(path)
    case Some(rel) => if Allowed(rel, c) then None else Some(rel)
  }

  function Violations(env: Envelope, c: Rule, k: nat): seq<string>
    requires k <= |env.accepted|
  {
    if k == 0 then []
    else
      var v := Violation(env, c, env.accepted[k - 1]);
      Violations(env, c, k - 1) + if v.Some? then [v.value] else []
  }

  function Granted(env: Envelope, c: Rule, k: nat): set<string>
    requires k <= |env.accepted|
  {
    set i | 0 <= i < k && Violation(env, c, env.accepted[i]).None? :: Reanchor(env.accepted[i], Roots(env, c)).value
  }

  function Absences(env: Envelope, c: Rule, k: nat): set<string>
    requires k <= |env.observations|
  {
    set i | 0 <= i < k && env.observations[i].absent && Reanchor(env.observations[i].path, Roots(env, c)).Some?
      :: Reanchor(env.observations[i].path, Roots(env, c)).value
  }

  function Files(paths: seq<string>): set<string> {
    set i | 0 <= i < |paths| :: paths[i]
  }

  /** Every accepted read, every absent candidate that can be spelled, and the whole standard tree. */
  function Entries(env: Envelope, c: Rule): set<string> {
    Granted(env, c, |env.accepted|) + Absences(env, c, |env.observations|)
    + (if c.includeSrcs then Srcs(c) else {}) + Files(c.stdFiles)
  }

  /** Every accepted read is a declared source or lies under the standard directory. */
  ghost predicate Hermetic(env: Envelope, c: Rule) {
    forall i :: 0 <= i < |env.accepted| ==>
      var rel := Reanchor(env.accepted[i], Roots(env, c)); rel.Some? && Allowed(rel.value, c)
  }

  lemma {:induction false} NoViolations(env: Envelope, c: Rule, k: nat)
    requires k <= |env.accepted|
    ensures Violations(env, c, k) == [] <==>
      forall i :: 0 <= i < k ==> Violation(env, c, env.accepted[i]).None?
  {
    hide Violation;
    if k > 0 {
      NoViolations(env, c, k - 1);
    }
  }

  // ----- the boundary in terms of names -----

  /** The directory that names lead to from another one. */
  function Descend(dir: Path, names: seq<string>): Path {
    Path(dir.slashes, Reduce(dir.parts, names, dir.slashes > 0))
  }

  /** Where in the project a path of the scan lies: below the directory of the root source, when the
      scan's project root contains it; else below the standard directory, when the scan's standard
      root does; else nowhere. */
  ghost function Place(env: Envelope, c: Rule, path: string): Option<Path> {
    var p := Normal(path);
    if Inside(p, Normal(env.projectRoot)) then
      Some(Descend(Parent(Normal(c.root)), p.parts[|Normal(env.projectRoot).parts|..]))
    else if env.stdRoot != "" && Inside(p, Normal(env.stdRoot)) then
      Some(Descend(Normal(c.stdDir), p.parts[|Normal(env.stdRoot).parts|..]))
    else None
  }

  ghost predicate Source(text: string, c: Rule) {
    exists i :: 0 <= i < |c.srcs| && text == Normpath(c.srcs[i])
  }

  /** The path is a declared source, or its names begin with those of the standard directory. */
  ghost predicate MayRead(env: Envelope, c: Rule, path: string) {
    var place := Place(env, c, path);
    place.Some? && (Inside(place.value, Normal(c.stdDir)) || Source(Render(place.value), c))
  }

  /** What a read is called: by its place in the project, or as the scan has it. */
  ghost function Called(env: Envelope, c: Rule, path: string): string {
    var place := Place(env, c, path);
    if place.Some? then Render(place.value) else path
  }

  /** The read at `i` is outside the boundary, and is called so. */
  ghost predicate Outside(env: Envelope, c: Rule, i: nat, text: string) {
    i < |env.accepted| && !MayRead(env, c, env.accepted[i]) && text == Called(env, c, env.accepted[i])
  }

  /** The read at `i` is the only one outside the boundary. */
  ghost predicate OnlyOutside(env: Envelope, c: Rule, i: nat, text: string) {
    && Outside(env, c, i, text)
    && forall j :: 0 <= j < |env.accepted| && j != i ==> MayRead(env, c, env.accepted[j])
  }

  ghost predicate Inbounds(env: Envelope, c: Rule) {
    forall i :: 0 <= i < |env.accepted| ==> MayRead(env, c, env.accepted[i])
  }

  /** What the manifest of a scan inside the boundary holds. */
  ghost predicate Entered(env: Envelope, c: Rule, text: string) {
    || (exists i :: 0 <= i < |env.accepted| && text == Called(env, c, env.accepted[i]))
    || (exists i :: 0 <= i < |env.observations| && AbsentAt(env, c, i, text))
    || (c.includeSrcs && Source(text, c))
    || exists i :: 0 <= i < |c.stdFiles| && text == c.stdFiles[i]
  }

  /** A candidate that was absent, and that can be spelled in the project. */
  ghost predicate AbsentAt(env: Envelope, c: Rule, i: nat, text: string)
    requires i < |env.observations|
  {
    var place := Place(env, c, env.observations[i].path);
    env.observations[i].absent && place.Some? && text == Render(place.value)
  }

  lemma DescendIsTidy(dir: Path, names: seq<string>)
    requires Tidy(dir) && forall i :: 0 <= i < |names| ==> Name(names[i])
    ensures Tidy(Descend(dir, names))
  {
    ReduceTidy(dir.parts, names, dir.slashes > 0);
  }

  lemma NamesAfter(p: Path, n: nat)
    requires Tidy(p) && n <= |p.parts|
    ensures forall i :: 0 <= i < |p.parts| - n ==> Name(p.parts[n..][i])
  {
    hide Name;
  }

  /** A path inside the first root lies below the directory that the root stands for. */
  lemma ReanchorInside(path: string, root: string, dir: Path, rest: seq<Root>)
    requires Tidy(dir) && Inside(Normal(path), Normal(root))
    ensures |Normal(root).parts| <= |Normal(path).parts|
    ensures var place := Descend(dir, Normal(path).parts[|Normal(root).parts|..]);
      Tidy(place) && Reanchor(path, [Root(root, Render(dir))] + rest) == Some(Render(place))
  {
    hide Normal;
    hide Render;
    hide Tidy;
    hide Inside;
    hide JoinPath;
    hide Split;
    hide Join;
    hide Name;
    hide Slashes;
    hide Reduce;
    NormalIsTidy(path);
    NormalIsTidy(root);
    InsideIsText(Normal(path), Normal(root));
    var names := Normal(path).parts[|Normal(root).parts|..];
    NamesAfter(Normal(path), |Normal(root).parts|);
    DescendIsTidy(dir, names);
    if names == [] {
      JoinOfNone();
      NothingReduces(dir.parts, dir.slashes > 0);
    } else {
      JoinHead(names);
      SlashesNone(Join(names));
      JoinNormal(dir, Join(names));
      NamesAreSolid(names);
      SplitJoin(names);
    }
  }

  lemma NothingReduces(parts: seq<string>, rooted: bool)
    ensures Reduce(parts, [], rooted) == parts
  {
  }

  lemma NamesAreSolid(names: seq<string>)
    requires forall i :: 0 <= i < |names| ==> Name(names[i])
    ensures AllSolid('/', names)
  {
  }

  lemma ParentIsTidy(p: Path)
    requires Tidy(p)
    ensures Tidy(Parent(p))
  {
  }

  /** Re-anchoring a path gives the text of its place in the project. */
  lemma ReanchorIsPlace(env: Envelope, c: Rule, path: string)
    ensures var place := Place(env, c, path);
      && (place.None? ==> Reanchor(path, Roots(env, c)) == None)
      && (place.Some? ==> Tidy(place.value) && Reanchor(path, Roots(env, c)) == Some(Render(place.value)))
  {
    hide Normal;
    hide Render;
    hide Tidy;
    hide Inside;
    hide Descend;
    hide Reanchor;
    hide Parent;
    var (project, std) := (Parent(Normal(c.root)), Normal(c.stdDir));
    NormalIsTidy(c.root);
    NormalIsTidy(c.stdDir);
    ParentIsTidy(Normal(c.root));
    var rest := Roots(env, c)[1..];
    assert Roots(env, c) == [Root(env.projectRoot, Render(project))] + rest;
    if Inside(Normal(path), Normal(env.projectRoot)) {
      ReanchorInside(path, env.projectRoot, project, rest);
    } else {
      NotInsideSkips(path, env.projectRoot, Render(project), rest);
      OutsideAllRoots(path);
      if env.stdRoot != "" {
        assert rest == [Root(env.stdRoot, Render(std))] + [];
        if Inside(Normal(path), Normal(env.stdRoot)) {
          ReanchorInside(path, env.stdRoot, std, []);
        } else {
          NotInsideSkips(path, env.stdRoot, Render(std), []);
        }
      }
    }
  }

  /** The script's test of a re-anchored path is the boundary. */
  lemma AllowedIsBoundary(place: Path, c: Rule)
    requires Tidy(place)
    ensures Allowed(Render(place), c) <==> Inside(place, Normal(c.stdDir)) || Source(Render(place), c)
  {
    hide Normal;
    hide Render;
    hide Tidy;
    hide Inside;
    NormalIsTidy(c.stdDir);
    InsideIsText(place, Normal(c.stdDir));
  }

  lemma ViolationMeans(env: Envelope, c: Rule, path: string)
    ensures Violation(env, c, path) == if MayRead(env, c, path) then None else Some(Called(env, c, path))
    ensures MayRead(env, c, path) ==>
      Reanchor(path, Roots(env, c)) == Some(Called(env, c, path))
  {
    hide Reanchor;
    hide Roots;
    hide Place;
    hide Allowed;
    hide Source;
    hide Inside;
    hide Render;
    hide Normal;
    hide Tidy;
    ReanchorIsPlace(env, c, path);
    if Place(env, c, path).Some? {
      AllowedIsBoundary(Place(env, c, path).value, c);
    }
  }

  lemma {:induction false} InViolations(env: Envelope, c: Rule, k: nat, text: string)
    requires k <= |env.accepted|
    ensures text in Violations(env, c, k) <==>
      exists i :: 0 <= i < k && Violation(env, c, env.accepted[i]) == Some(text)
  {
    hide Violation;
    if k > 0 {
      InViolations(env, c, k - 1, text);
    }
  }

  ghost predicate LoneViolation(env: Envelope, c: Rule, k: nat, i: nat, text: string)
    requires k <= |env.accepted|
  {
    && i < k && Violation(env, c, env.accepted[i]) == Some(text)
    && forall j :: 0 <= j < k && j != i ==> Violation(env, c, env.accepted[j]).None?
  }

  lemma {:induction false} OneViolation(env: Envelope, c: Rule, k: nat, text: string)
    requires k <= |env.accepted|
    ensures Violations(env, c, k) == [text] <==> exists i: nat :: LoneViolation(env, c, k, i, text)
  {
    hide Violation;
    if k > 0 {
      OneViolation(env, c, k - 1, text);
      NoViolations(env, c, k - 1);
      var (front, v) := (Violations(env, c, k - 1), Violation(env, c, env.accepted[k - 1]));
      hide Violations;
      if v.Some? {
        SnocIsOne(front, v.value, text);
        if front == [] && v.value == text {
          assert LoneViolation(env, c, k, k - 1, text);
        }
        if i: nat :| LoneViolation(env, c, k, i, text) {
          assert i == k - 1;
        }
      } else {
        assert front + [] == front;
        var m := k - 1;
        if i: nat :| LoneViolation(env, c, m, i, text) {
          assert LoneViolation(env, c, k, i, text);
        }
        if i: nat :| LoneViolation(env, c, k, i, text) {
          assert LoneViolation(env, c, m, i, text);
        }
      }
    }
  }

  lemma SnocIsOne<T>(front: seq<T>, x: T, y: T)
    ensures front + [x] == [y] <==> front == [] && x == y
  {
    if front + [x] == [y] {
      assert |front + [x]| == 1;
      assert (front + [x])[0] == y;
    }
  }

  /** The lists that the script collects, in terms of the boundary. */
  lemma CollectedMeans(env: Envelope, c: Rule)
    ensures Violations(env, c, |env.accepted|) == [] <==> Inbounds(env, c)
    ensures Hermetic(env, c) <==> Inbounds(env, c)
    ensures forall text ::
      text in Violations(env, c, |env.accepted|) <==> exists i: nat :: Outside(env, c, i, text)
    ensures forall text ::
      Violations(env, c, |env.accepted|) == [text] <==> exists i: nat :: OnlyOutside(env, c, i, text)
  {
    hide Reanchor;
    hide Roots;
    hide Allowed;
    hide MayRead;
    hide Called;
    hide Violations;
    var n := |env.accepted|;
    forall i | 0 <= i < n
      ensures Violation(env, c, env.accepted[i])
        == if MayRead(env, c, env.accepted[i]) then None else Some(Called(env, c, env.accepted[i]))
    {
      ViolationMeans(env, c, env.accepted[i]);
    }
    NoViolations(env, c, n);
    forall text
      ensures text in Violations(env, c, n) <==> exists i: nat :: Outside(env, c, i, text)
      ensures Violations(env, c, n) == [text] <==> exists i: nat :: OnlyOutside(env, c, i, text)
    {
      InViolations(env, c, n, text);
      OneViolation(env, c, n, text);
      hide Violation;
      if i :| 0 <= i < n && Violation(env, c, env.accepted[i]) == Some(text) {
        assert Outside(env, c, i, text);
      }
      LoneIsOutside(env, c, text);
    }
  }

  lemma LoneIsOutside(env: Envelope, c: Rule, text: string)
    requires forall i :: 0 <= i < |env.accepted| ==>
      Violation(env, c, env.accepted[i])
      == if MayRead(env, c, env.accepted[i]) then None else Some(Called(env, c, env.accepted[i]))
    ensures (exists i: nat :: OnlyOutside(env, c, i, text)) <==>
      exists i: nat :: LoneViolation(env, c, |env.accepted|, i, text)
  {
    hide MayRead;
    hide Called;
    hide Violation;
    if i: nat :| OnlyOutside(env, c, i, text) {
      assert LoneViolation(env, c, |env.accepted|, i, text);
    }
    if i: nat :| LoneViolation(env, c, |env.accepted|, i, text) {
      assert OnlyOutside(env, c, i, text);
    }
  }

  /** What the manifest of a scan inside the boundary holds. */
  lemma EntriesMean(env: Envelope, c: Rule, text: string)
    requires Inbounds(env, c)
    ensures text in Entries(env, c) <==> Entered(env, c, text)
  {
    hide Reanchor;
    hide Roots;
    hide Violation;
    hide MayRead;
    hide Called;
    hide Place;
    hide Normpath;
    hide Render;
    var (granted, absences) := (Granted(env, c, |env.accepted|), Absences(env, c, |env.observations|));
    assert text in granted <==> exists i :: 0 <= i < |env.accepted| && text == Called(env, c, env.accepted[i]) by {
      forall i | 0 <= i < |env.accepted|
        ensures Violation(env, c, env.accepted[i]).None?
        ensures Reanchor(env.accepted[i], Roots(env, c)) == Some(Called(env, c, env.accepted[i]))
      {
        ViolationMeans(env, c, env.accepted[i]);
      }
    }
    assert text in absences <==> exists i :: 0 <= i < |env.observations| && AbsentAt(env, c, i, text) by {
      forall i | 0 <= i < |env.observations|
        ensures AbsentAt(env, c, i, text) <==>
          env.observations[i].absent && Reanchor(env.observations[i].path, Roots(env, c)) == Some(text)
      {
        ReanchorIsPlace(env, c, env.observations[i].path);
      }
    }
  }

  // ----- the derivation -----

  /** A manifest is written exactly for a complete scan that stays inside the boundary (unless a
      violation is expected), and holds exactly what was read, what was looked for, and what the
      rule adds; an expected violation must be the only one. */
  method Derive(env: Envelope, c: Rule) returns (r: Outcome)
    ensures r == Failed(NotComplete) <==> !env.complete
    ensures r.Manifest? <==> env.complete && c.expected.None? && Inbounds(env, c)
    ensures r.Manifest? ==> Hermetic(env, c) && r.entries == Entries(env, c)
    ensures r.Manifest? ==> forall text :: text in r.entries <==> Entered(env, c, text)
    ensures r.Marker? <==>
      env.complete && c.expected.Some? && exists i: nat :: OnlyOutside(env, c, i, Normpath(c.expected.value))
    ensures r.Marker? ==> r.path == Normpath(c.expected.value)
    ensures r.Failed? && !r.why.NotComplete? ==>
      && (r.why.Unexpected? <==> c.expected.Some?)
      && forall text :: text in r.why.violations <==> exists i: nat :: Outside(env, c, i, text)
  {
    hide Reanchor;
    hide Allowed;
    hide MayRead;
    hide Called;
    hide Entered;
    hide Outside;
    hide OnlyOutside;
    hide Inbounds;
    hide Hermetic;
    hide Roots;
    hide Normpath;
    if !env.complete {
      return Failed(NotComplete);
    }
    var roots, srcs := Roots(env, c), Srcs(c);
    var violations: seq<string> := [];
    var entries: set<string> := {};
    var i := 0;
    while i < |env.accepted|
      invariant i <= |env.accepted|
      invariant violations == Violations(env, c, i) && entries == Granted(env, c, i)
    {
      var rel := Reanchor(env.accepted[i], roots);
      if rel.None? {
        violations := violations + [env.accepted[i]];
      } else if !Allowed(rel.value, c) {
        violations := violations + [rel.value];
      } else {
        entries := entries + {rel.value};
      }
      i := i + 1;
    }
    CollectedMeans(env, c);
    var granted := entries;
    i := 0;
    while i < |env.observations|
      invariant i <= |env.observations| && entries == granted + Absences(env, c, i)
    {
      if env.observations[i].absent {
        var rel := Reanchor(env.observations[i].path, roots);
        if rel.Some? {
          entries := entries + {rel.value};
        }
      }
      i := i + 1;
    }
    if c.expected.Some? {
      var expected := Normpath(c.expected.value);
      return if violations == [expected] then Marker(expected) else Failed(Unexpected(violations));
    }
    if violations != [] {
      return Failed(Undeclared(violations));
    }
    if c.includeSrcs {
      entries := entries + srcs;
    }
    r := Manifest(entries + Files(c.stdFiles));
    forall text ensures text in r.entries <==> Entered(env, c, text) {
      EntriesMean(env, c, text);
    }
  }

  // ----- relocation -----

  /** A path that moved with a root: it keeps its place below it. */
  ghost predicate Follows(p: Path, root: Path, p': Path, root': Path) {
    && Inside(p, root) && Inside(p', root') && |root.parts| <= |p.parts| && |root'.parts| <= |p'.parts|
    && p.parts[|root.parts|..] == p'.parts[|root'.parts|..]
  }

  /** A path of one scan as the other scan records it: it moved with the first root that holds it,
      the project root before the standard root, or is in neither. */
  ghost predicate Moved(a: Envelope, b: Envelope, path: string, path': string) {
    var (p, p') := (Normal(path), Normal(path'));
    if Inside(p, Normal(a.projectRoot)) then Follows(p, Normal(a.projectRoot), p', Normal(b.projectRoot))
    else
      && !Inside(p', Normal(b.projectRoot))
      && if a.stdRoot != "" && Inside(p, Normal(a.stdRoot)) then Follows(p, Normal(a.stdRoot), p', Normal(b.stdRoot))
         else b.stdRoot != "" ==> !Inside(p', Normal(b.stdRoot))
  }

  /** The suffix, and so the re-anchored path, depends only on what follows the root. */
  lemma FollowsReanchors(path: string, root: string, path': string, root': string, relative: string,
                         rest: seq<Root>, rest': seq<Root>)
    requires Follows(Normal(path), Normal(root), Normal(path'), Normal(root'))
    ensures Reanchor(path, [Root(root, relative)] + rest) == Reanchor(path', [Root(root', relative)] + rest')
  {
    hide Normal;
    hide Render;
    hide Tidy;
    hide Inside;
    hide JoinPath;
    NormalIsTidy(path);
    NormalIsTidy(root);
    NormalIsTidy(path');
    NormalIsTidy(root');
    InsideIsText(Normal(path), Normal(root));
    InsideIsText(Normal(path'), Normal(root'));
  }

  lemma NotInsideSkips(path: string, root: string, relative: string, rest: seq<Root>)
    requires !Inside(Normal(path), Normal(root))
    ensures Reanchor(path, [Root(root, relative)] + rest) == Reanchor(path, rest)
  {
    hide Normal;
    hide Render;
    hide Tidy;
    hide Inside;
    NormalIsTidy(path);
    NormalIsTidy(root);
    InsideIsText(Normal(path), Normal(root));
    assert ([Root(root, relative)] + rest)[1..] == rest;
  }

  lemma MovedReanchors(a: Envelope, b: Envelope, c: Rule, path: string, path': string)
    requires (a.stdRoot == "" <==> b.stdRoot == "") && Moved(a, b, path, path')
    ensures Reanchor(path, Roots(a, c)) == Reanchor(path', Roots(b, c))
  {
    hide Reanchor;
    hide Normal;
    hide Inside;
    hide StdDir;
    hide RootDir;
    var (first, first') := (Roots(a, c)[1..], Roots(b, c)[1..]);
    assert Roots(a, c) == [Root(a.projectRoot, RootDir(c))] + first
      && Roots(b, c) == [Root(b.projectRoot, RootDir(c))] + first';
    if Inside(Normal(path), Normal(a.projectRoot)) {
      FollowsReanchors(path, a.projectRoot, path', b.projectRoot, RootDir(c), first, first');
    } else {
      NotInsideSkips(path, a.projectRoot, RootDir(c), first);
      NotInsideSkips(path', b.projectRoot, RootDir(c), first');
      if a.stdRoot != "" {
        assert first == [Root(a.stdRoot, StdDir(c))] + [] && first' == [Root(b.stdRoot, StdDir(c))] + [];
        if Inside(Normal(path), Normal(a.stdRoot)) {
          FollowsReanchors(path, a.stdRoot, path', b.stdRoot, StdDir(c), [], []);
        } else {
          NotInsideSkips(path, a.stdRoot, StdDir(c), []);
          NotInsideSkips(path', b.stdRoot, StdDir(c), []);
        }
      }
      OutsideAllRoots(path);
      OutsideAllRoots(path');
    }
  }

  lemma OutsideAllRoots(path: string)
    ensures Reanchor(path, []) == None
  {
  }

  /** Two scans of the same files under different roots. */
  ghost predicate Relocated(a: Envelope, b: Envelope) {
    && (a.stdRoot == "" <==> b.stdRoot == "") && a.complete == b.complete
    && |a.accepted| == |b.accepted| && (forall i :: 0 <= i < |a.accepted| ==> Moved(a, b, a.accepted[i], b.accepted[i]))
    && |a.observations| == |b.observations|
    && forall i :: 0 <= i < |a.observations| ==>
         && a.observations[i].absent == b.observations[i].absent
         && Moved(a, b, a.observations[i].path, b.observations[i].path)
  }

  /** Relocation invariance: a scan recorded under other roots is accepted alike and gives the same
      manifest entries. */
  lemma RelocationInvariant(a: Envelope, b: Envelope, c: Rule)
    requires Relocated(a, b)
    ensures Hermetic(a, c) <==> Hermetic(b, c)
    ensures Entries(a, c) == Entries(b, c)
  {
    hide Moved;
    hide Reanchor;
    hide Roots;
    hide Allowed;
    forall i | 0 <= i < |a.accepted|
      ensures Reanchor(a.accepted[i], Roots(a, c)) == Reanchor(b.accepted[i], Roots(b, c))
    {
      MovedReanchors(a, b, c, a.accepted[i], b.accepted[i]);
    }
    forall i | 0 <= i < |a.observations|
      ensures Reanchor(a.observations[i].path, Roots(a, c)) == Reanchor(b.observations[i].path, Roots(b, c))
    {
      MovedReanchors(a, b, c, a.observations[i].path, b.observations[i].path);
    }
    assert Granted(a, c, |a.accepted|) == Granted(b, c, |b.accepted|);
    assert Absences(a, c, |a.observations|) == Absences(b, c, |b.observations|);
  }

  // ----- roots that keep their nesting -----

  function Below(root: Path, rest: seq<string>): Path {
    Path(root.slashes, root.parts + rest)
  }

  /** The roots lie inside each other in the same way in both scans. */
  ghost predicate SameNesting(a: Envelope, b: Envelope) {
    && (a.stdRoot == "" <==> b.stdRoot == "")
    && forall rest: seq<string> ::
         && (Below(Normal(a.projectRoot), rest) == Normal(a.stdRoot) <==>
             Below(Normal(b.projectRoot), rest) == Normal(b.stdRoot))
         && (Below(Normal(a.stdRoot), rest) == Normal(a.projectRoot) <==>
             Below(Normal(b.stdRoot), rest) == Normal(b.projectRoot))
  }

  ghost predicate NamedRoots(env: Envelope) {
    Normal(env.projectRoot).parts != [] && (env.stdRoot != "" ==> Normal(env.stdRoot).parts != [])
  }

  /** The path was carried along with the root it is in, wherever else that put it. */
  ghost predicate Carried(a: Envelope, b: Envelope, path: string, path': string) {
    var (p, p') := (Normal(path), Normal(path'));
    if Inside(p, Normal(a.projectRoot)) then Follows(p, Normal(a.projectRoot), p', Normal(b.projectRoot))
    else if a.stdRoot != "" && Inside(p, Normal(a.stdRoot)) then Follows(p, Normal(a.stdRoot), p', Normal(b.stdRoot))
    else !Inside(p', Normal(b.projectRoot)) && (b.stdRoot != "" ==> !Inside(p', Normal(b.stdRoot)))
  }

  /** A path that moves with the standard root moves into the project root only out of it. */
  lemma EntersAlike(a: Envelope, b: Envelope, path: string, path': string)
    requires NamedRoots(a) && NamedRoots(b) && SameNesting(a, b) && a.stdRoot != ""
    requires Follows(Normal(path), Normal(a.stdRoot), Normal(path'), Normal(b.stdRoot))
    requires Under(Normal(path'), Normal(b.projectRoot))
    ensures Under(Normal(path), Normal(a.projectRoot))
  {
    hide Normal;
    var (p, project, std) := (Normal(path).parts, Normal(a.projectRoot).parts, Normal(a.stdRoot).parts);
    var (p', project', std') := (Normal(path').parts, Normal(b.projectRoot).parts, Normal(b.stdRoot).parts);
    var suffix := p'[|std'|..];
    assert p' == std' + suffix && p == std + suffix;
    assert std' == p'[..|std'|] && project' == p'[..|project'|];
    if |project'| <= |std'| {
      var rest := std'[|project'|..];
      assert project' + rest == std';
      assert Below(Normal(b.projectRoot), rest) == Normal(b.stdRoot);
      assert Below(Normal(a.projectRoot), rest) == Normal(a.stdRoot);
      assert p[..|project|] == project;
    } else {
      var rest := project'[|std'|..];
      assert std' + rest == project';
      assert Below(Normal(b.stdRoot), rest) == Normal(b.projectRoot);
      assert Below(Normal(a.stdRoot), rest) == Normal(a.projectRoot);
      assert rest == suffix[..|rest|];
      assert p[..|project|] == std + suffix[..|rest|];
    }
  }

  /** With named roots that keep their nesting, being carried along is all that it takes. */
  lemma CarriedIsMoved(a: Envelope, b: Envelope, path: string, path': string)
    requires NamedRoots(a) && NamedRoots(b) && SameNesting(a, b) && Carried(a, b, path, path')
    ensures Moved(a, b, path, path')
  {
    hide Normal;
    hide Under;
    hide SameNesting;
    var (p, p') := (Normal(path), Normal(path'));
    if !Inside(p, Normal(a.projectRoot)) && a.stdRoot != "" && Inside(p, Normal(a.stdRoot)) {
      if Inside(p', Normal(b.projectRoot)) {
        EntersAlike(a, b, path, path');
      }
    }
    NestingKeepsStd(a, b);
  }

  lemma NestingKeepsStd(a: Envelope, b: Envelope)
    requires SameNesting(a, b)
    ensures a.stdRoot == "" <==> b.stdRoot == ""
  {
  }
}
