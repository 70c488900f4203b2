/** Lexical path arithmetic: `posixpath.normpath`, `join`, `dirname`, `abspath` and `relpath`,
    which never look at the filesystem. */
module PosixPath {
  import opened Joining

  const UP := ".."

  /** A normalized path: how many slashes it begins with, and its names. */
  datatype Path = Path(slashes: nat, parts: seq<string>)

  /** POSIX keeps exactly two leading slashes apart from one; three or more count as one. */
  function Slashes(text: string): nat {
    if |text| >= 2 && text[0] == '/' && text[1] == '/' && !(|text| >= 3 && text[2] == '/') then 2
    else if |text| >= 1 && text[0] == '/' then 1
    else 0
  }

  function Push(stack: seq<string>, part: string, rooted: bool): seq<string> {
    if part == "" || part == "." then stack
    else if part != UP || (!rooted && stack == []) || (stack != [] && stack[|stack| - 1] == UP) then stack + [part]
    else if stack != [] then stack[..|stack| - 1]
    else stack
  }

  function Reduce(stack: seq<string>, parts: seq<string>, rooted: bool): seq<string>
    decreases |parts|
  {
    if parts == [] then stack else Reduce(Push(stack, parts[0], rooted), parts[1..], rooted)
  }

  function Normal(text: string): Path {
    Path(Slashes(text), Reduce([], Split('/', text), Slashes(text) > 0))
  }

  /** The parts with slashes between them. */
  function Join(parts: seq<string>): string {
    var text := Joined('/', parts);
    if |text| < 2 then "" else text[1..|text| - 1]
  }

  function Render(p: Path): string {
    if p == Path(0, []) then "." else seq(p.slashes, _ => '/') + Join(p.parts)
  }

  function Normpath(text: string): string {
    Render(Normal(text))
  }

  function JoinPath(base: string, text: string): string {
    if Slashes(text) > 0 then text
    else if base == "" || base[|base| - 1] == '/' then base + text
    else base + "/" + text
  }

  /** The directory of a normalized path; of a bare name it is the current directory. */
  function Parent(p: Path): Path {
    if p.parts == [] then p else p.(parts := p.parts[..|p.parts| - 1])
  }

  // ----- normalized paths -----

  ghost predicate Name(part: string) {
    part != "" && part != "." && Solid('/', part)
  }

  ghost predicate UpsFirst(parts: seq<string>) {
    forall i, j :: 0 <= i < j < |parts| && parts[j] == UP ==> parts[i] == UP
  }

  ghost predicate TidyParts(parts: seq<string>, rooted: bool) {
    && (forall i :: 0 <= i < |parts| ==> Name(parts[i]))
    && (rooted ==> UP !in parts)
    && UpsFirst(parts)
  }

  ghost predicate Tidy(p: Path) {
    p.slashes <= 2 && TidyParts(p.parts, p.slashes > 0)
  }

  lemma PushTidy(stack: seq<string>, part: string, rooted: bool)
    requires TidyParts(stack, rooted) && Solid('/', part)
    ensures TidyParts(Push(stack, part, rooted), rooted)
  {
  }

  lemma {:induction false} ReduceTidy(stack: seq<string>, parts: seq<string>, rooted: bool)
    requires TidyParts(stack, rooted) && AllSolid('/', parts)
    ensures TidyParts(Reduce(stack, parts, rooted), rooted)
    decreases |parts|
  {
    hide TidyParts;
    hide Push;
    if parts != [] {
      PushTidy(stack, parts[0], rooted);
      ReduceTidy(Push(stack, parts[0], rooted), parts[1..], rooted);
    }
  }

  lemma NormalIsTidy(text: string)
    ensures Tidy(Normal(text))
  {
    ReduceTidy([], Split('/', text), Slashes(text) > 0);
  }

  lemma {:induction false} ReduceConcat(stack: seq<string>, a: seq<string>, b: seq<string>, rooted: bool)
    ensures Reduce(stack, a + b, rooted) == Reduce(Reduce(stack, a, rooted), b, rooted)
    decreases |a|
  {
    hide Push;
    if a == [] {
      assert a + b == b;
    } else {
      assert (a + b)[1..] == a[1..] + b;
      ReduceConcat(Push(stack, a[0], rooted), a[1..], b, rooted);
    }
  }

  /** Tidy parts are pushed as they are. */
  lemma {:induction false} ReduceNames(stack: seq<string>, parts: seq<string>, rooted: bool)
    requires TidyParts(stack + parts, rooted)
    ensures Reduce(stack, parts, rooted) == stack + parts
    decreases |parts|
  {
    if parts == [] {
      assert stack + parts == stack;
    } else {
      var all := stack + parts;
      assert all[|stack|] == parts[0] && Name(parts[0]);
      assert parts[0] == UP && stack != [] ==> all[|stack| - 1] == UP;
      assert parts[0] == UP ==> UP in all;
      assert Push(stack, parts[0], rooted) == stack + [parts[0]];
      assert stack + [parts[0]] + parts[1..] == all;
      ReduceNames(stack + [parts[0]], parts[1..], rooted);
    }
  }

  // ----- text and parts -----

  lemma JoinAround(parts: seq<string>)
    requires parts != []
    ensures ['/'] + Join(parts) + ['/'] == Joined('/', parts)
  {
    JoinSize('/', parts);
    JoinConcat('/', parts, []);
    hide Joined;
    var text := Joined('/', parts);
    assert |text| >= 2 && text[0] == text[|text| - 1] == '/';
    assert text == ['/'] + text[1..|text| - 1] + ['/'];
  }

  lemma SplitJoin(parts: seq<string>)
    requires parts != [] && AllSolid('/', parts)
    ensures Split('/', Join(parts)) == parts
  {
    hide Joined;
    var back := Split('/', Join(parts));
    JoinAround(parts);
    JoinSplit('/', Join(parts));
    assert Begins(Joined('/', back), Joined('/', parts)) && Begins(Joined('/', parts), Joined('/', back));
    TextBeginsMeansBegins('/', back, parts);
    TextBeginsMeansBegins('/', parts, back);
  }

  lemma {:induction false} SplitConcat(sep: char, a: string, b: string)
    ensures Split(sep, a + [sep] + b) == Split(sep, a) + Split(sep, b)
  {
    var text := a + [sep] + b;
    if a == [] {
      assert text[0] == sep && text[1..] == b;
    } else {
      assert text[0] == a[0] && text[1..] == a[1..] + [sep] + b;
      SplitConcat(sep, a[1..], b);
    }
  }

  /** A joined text begins with the first character of its first name. */
  lemma JoinHead(parts: seq<string>)
    requires parts != [] && Name(parts[0])
    ensures Join(parts) != "" && Join(parts)[0] == parts[0][0] != '/'
  {
    JoinAround(parts);
    assert Joined('/', parts)[1] == parts[0][0];
  }

  lemma SlashesOf(n: nat, text: string)
    requires n <= 2 && (text == "" || text[0] != '/')
    ensures Slashes(seq(n, _ => '/') + text) == n
  {
  }

  lemma SlashesNone(text: string)
    ensures Slashes(text) == 0 <==> text == "" || text[0] != '/'
  {
  }

  lemma SlashesOfFront(base: string, text: string)
    requires base != "" && base[|base| - 1] != '/'
    ensures Slashes(base + ['/'] + text) == Slashes(base)
  {
  }

  /** How a rendered path begins. */
  lemma RenderHead(p: Path)
    requires Tidy(p)
    ensures forall i :: 0 <= i < p.slashes ==> |Render(p)| > i && Render(p)[i] == '/'
    ensures |Render(p)| > p.slashes ==> Render(p)[p.slashes] != '/'
    ensures |Render(p)| > p.slashes <==> p.parts != [] || p.slashes == 0
    ensures Slashes(Render(p)) == p.slashes <= 2
    ensures p.parts != [] ==> Render(p) == seq(p.slashes, _ => '/') + Join(p.parts)
  {
    hide Name;
    hide Join;
    if p.parts != [] {
      JoinHead(p.parts);
      SlashesOf(p.slashes, Join(p.parts));
    } else {
      JoinOfNone();
      assert p.slashes == 1 ==> Render(p) == "/";
      assert p.slashes == 2 ==> Render(p) == "//";
    }
  }

  lemma SplitSlashes(n: nat, text: string, rooted: bool)
    requires n <= 2
    ensures Reduce([], Split('/', seq(n, _ => '/') + text), rooted) == Reduce([], Split('/', text), rooted)
  {
    var all := seq(n, _ => '/') + text;
    if n == 0 {
      assert all == text;
    } else {
      var rest := seq(n - 1, _ => '/') + text;
      assert all[0] == '/' && all[1..] == rest;
      assert ([[]] + Split('/', rest))[1..] == Split('/', rest);
      SplitSlashes(n - 1, text, rooted);
    }
  }

  lemma ReduceJoin(p: Path)
    requires Tidy(p)
    ensures Reduce([], Split('/', Join(p.parts)), p.slashes > 0) == p.parts
  {
    if p.parts == [] {
      assert Split('/', "")[1..] == [];
      assert Reduce([], Split('/', ""), p.slashes > 0) == Reduce([], [], p.slashes > 0);
    } else {
      SplitJoin(p.parts);
      assert [] + p.parts == p.parts;
      ReduceNames([], p.parts, p.slashes > 0);
    }
  }

  /** Normalizing the text of a normalized path gives it back; so normalization is idempotent. */
  lemma NormalOfRender(p: Path)
    requires Tidy(p)
    ensures Normal(Render(p)) == p
  {
    hide Tidy;
    RenderHead(p);
    if p == Path(0, []) {
      SolidIsWhole('/', ".");
      assert ["."][1..] == [];
    } else {
      SplitSlashes(p.slashes, Join(p.parts), p.slashes > 0);
      ReduceJoin(p);
    }
  }

  lemma NormpathIsIdempotent(text: string)
    ensures Normpath(Normpath(text)) == Normpath(text)
  {
    NormalIsTidy(text);
    NormalOfRender(Normal(text));
  }

  /** Joining a relative text to a directory appends its parts. */
  lemma JoinNormal(p: Path, text: string)
    requires Tidy(p) && Slashes(text) == 0
    ensures Normal(JoinPath(Render(p), text)) == Path(p.slashes, Reduce(p.parts, Split('/', text), p.slashes > 0))
  {
    hide Tidy;
    hide Split;
    hide Render;
    hide Reduce;
    hide Slashes;
    RenderHead(p);
    NormalOfRender(p);
    SlashesNone(text);
    var base := Render(p);
    var rooted := p.slashes > 0;
    if base[|base| - 1] == '/' {
      SlashEnd(p);
      SplitSlashes(p.slashes, text, rooted);
      SlashesOf(p.slashes, text);
    } else {
      SplitConcat('/', base, text);
      ReduceConcat([], Split('/', base), Split('/', text), rooted);
      SlashesOfFront(base, text);
    }
  }

  lemma SlashEnd(p: Path)
    requires Tidy(p) && Render(p) != "" && Render(p)[|Render(p)| - 1] == '/'
    ensures p.parts == [] && Render(p) == seq(p.slashes, _ => '/')
  {
    if p.parts == [] {
      assert Join([]) == "";
    } else {
      LastOfJoin(p.parts);
    }
  }

  lemma LastOfJoin(parts: seq<string>)
    requires parts != [] && (forall i :: 0 <= i < |parts| ==> Name(parts[i]))
    ensures Join(parts) != "" && Join(parts)[|Join(parts)| - 1] != '/'
  {
    var (front, last) := (parts[..|parts| - 1], parts[|parts| - 1]);
    assert Name(last);
    assert parts == front + [last];
    JoinConcat('/', front, [last]);
    assert Joined('/', [last]) == ['/'] + last + Joined('/', []);
    assert Joined('/', parts)[|Joined('/', parts)| - 2] == last[|last| - 1];
    JoinHead(parts);
  }

  // ----- being inside a directory -----

  /** The text test: the root itself, or anything that begins with the root and a slash. */
  predicate TextUnder(path: string, root: string) {
    path == root || (|root| < |path| && path[..|root| + 1] == root + "/")
  }

  /** The names of `p` begin with those of `r`. */
  ghost predicate Under(p: Path, r: Path) {
    p.slashes == r.slashes && Begins(r.parts, p.parts)
  }

  lemma SameSlashes(p: Path, r: Path)
    requires Tidy(p) && Tidy(r) && r.parts != [] && TextUnder(Render(p), Render(r))
    ensures p.slashes == r.slashes && p.parts != []
  {
    hide Tidy;
    hide Render;
    RenderHead(p);
    RenderHead(r);
    var (x, y) := (Render(p), Render(r));
    assert forall i :: 0 <= i < |y| ==> x[i] == (y + "/")[i];
    assert x[r.slashes] == y[r.slashes] != '/';
    assert p.slashes == r.slashes;
    if p.parts == [] {
      OnlyDot(p);
      OnlyDotIsNotUnder(r);
    }
  }

  lemma OnlyDot(p: Path)
    requires Tidy(p) && p.parts == [] && |Render(p)| > p.slashes
    ensures p == Path(0, []) && Render(p) == "."
  {
    assert Join([]) == "";
  }

  /** Nothing named by names is or contains the current directory's own text. */
  lemma OnlyDotIsNotUnder(r: Path)
    requires Tidy(r) && r.parts != []
    ensures Render(r) != "." && !TextUnder(".", Render(r))
  {
    RenderHead(r);
    JoinHead(r.parts);
    if Render(r) == "." {
      NormalOfRender(r);
      NormalOfRender(Path(0, []));
    }
  }

  /** Two joined lists, one being the beginning of the other. */
  lemma JoinUnder(ps: seq<string>, rs: seq<string>)
    requires ps != [] && rs != [] && AllSolid('/', ps) && AllSolid('/', rs)
    ensures TextUnder(Join(ps), Join(rs)) <==> Begins(rs, ps)
  {
    hide Joined;
    hide Join;
    var (x, y) := (Join(ps), Join(rs));
    var (longer, shorter) := (Joined('/', ps), Joined('/', rs));
    JoinAround(ps);
    JoinAround(rs);
    if TextUnder(x, y) {
      assert longer[..|shorter|] == shorter by {
        if x != y {
          assert longer[..|shorter|] == ['/'] + x[..|y| + 1];
        }
      }
      TextBeginsMeansBegins('/', rs, ps);
    }
    if Begins(rs, ps) {
      var rest := ps[|rs|..];
      assert ps == rs + rest;
      JoinBegins('/', rs, rest);
      JoinConcat('/', rs, rest);
      JoinSize('/', rest);
      if rest != [] {
        assert x[..|y| + 1] == longer[..|shorter|][1..];
      } else {
        assert ps == rs;
      }
    }
  }

  function StripSlashes(text: string): string {
    if text != "" && text[0] == '/' then StripSlashes(text[1..]) else text
  }

  lemma JoinSuffix(rs: seq<string>, rest: seq<string>)
    requires rs != [] && (forall i :: 0 <= i < |rest| ==> Name(rest[i]))
    ensures |Join(rs)| <= |Join(rs + rest)|
    ensures StripSlashes(Join(rs + rest)[|Join(rs)|..]) == Join(rest)
  {
    hide Joined;
    hide Join;
    if rest == [] {
      assert rs + rest == rs;
      JoinOfNone();
    } else {
      JoinAround(rs);
      JoinAround(rest);
      JoinAround(rs + rest);
      JoinConcat('/', rs, rest);
      JoinHead(rest);
      var all := Join(rs + rest);
      assert Joined('/', rs)[..|Joined('/', rs)| - 1] == ['/'] + Join(rs);
      var (t, u) := (['/'] + all + ['/'], ['/'] + Join(rs) + (['/'] + Join(rest) + ['/']));
      assert t == u;
      assert t[1..|t| - 1] == all && u[1..|t| - 1] == Join(rs) + (['/'] + Join(rest));
      assert all[|Join(rs)|..] == ['/'] + Join(rest);
      assert (['/'] + Join(rest))[1..] == Join(rest);
    }
  }

  lemma JoinOfNone()
    ensures Join([]) == ""
  {
  }

  /** The text test decides component-wise containment, and what is left over is the text of the
      remaining names. */
  lemma UnderIsPrefix(p: Path, r: Path)
    requires Tidy(p) && Tidy(r) && r.parts != []
    ensures TextUnder(Render(p), Render(r)) <==> Under(p, r)
    ensures Under(p, r) ==>
      && |Render(r)| <= |Render(p)|
      && StripSlashes(Render(p)[|Render(r)|..]) == Join(p.parts[|r.parts|..])
  {
    hide Join;
    if p.slashes == r.slashes && p.parts != [] {
      var n := p.slashes;
      var (x, y) := (Join(p.parts), Join(r.parts));
      RenderHead(p);
      RenderHead(r);
      JoinUnder(p.parts, r.parts);
      ShiftedUnder(seq(n, _ => '/'), x, y);
      if Under(p, r) {
        var rest := p.parts[|r.parts|..];
        assert p.parts == r.parts + rest;
        JoinSuffix(r.parts, rest);
      }
    } else if TextUnder(Render(p), Render(r)) {
      SameSlashes(p, r);
    }
  }

  lemma ShiftedUnder(front: string, x: string, y: string)
    ensures TextUnder(front + x, front + y) <==> TextUnder(x, y)
    ensures |y| <= |x| ==> (front + x)[|front + y|..] == x[|y|..]
  {
    if |y| < |x| {
      assert (front + x)[..|front + y| + 1] == front + x[..|y| + 1];
      assert front + y + "/" == front + (y + "/");
      assert (front + x[..|y| + 1])[|front|..] == x[..|y| + 1] && (front + (y + "/"))[|front|..] == y + "/";
    }
    assert (front + x)[|front|..] == x && (front + y)[|front|..] == y;
  }

  /** A root without names contains only itself, whatever it ought to contain; except that one
      slash also takes in everything that begins with two. */
  lemma UnderNameless(p: Path, r: Path)
    requires Tidy(p) && Tidy(r) && r.parts == []
    ensures TextUnder(Render(p), Render(r)) <==> p == r || (r.slashes == 1 && p.slashes == 2)
  {
    hide Join;
    hide Tidy;
    RenderHead(p);
    NormalOfRender(p);
    NormalOfRender(r);
    NamelessText(r);
    var (x, y) := (Render(p), Render(r));
    hide Render;
    if x != y && TextUnder(x, y) {
      assert forall i :: 0 <= i <= |y| ==> x[i] == x[..|y| + 1][i] == (y + "/")[i];
      if r.slashes == 0 {
        NoDotSlash(p);
      }
    }
    if r.slashes == 1 && p.slashes == 2 {
      assert x[..2] == "//" == "/" + "/";
    }
  }

  lemma NamelessText(r: Path)
    requires Tidy(r) && r.parts == []
    ensures Render(r) == if r.slashes == 0 then "." else if r.slashes == 1 then "/" else "//"
  {
    JoinOfNone();
  }

  lemma NoDotSlash(p: Path)
    requires Tidy(p)
    ensures !(|Render(p)| >= 2 && Render(p)[0] == '.' && Render(p)[1] == '/')
  {
    RenderHead(p);
    if p.slashes == 0 && p.parts != [] {
      var first := p.parts[0];
      assert Name(first);
      JoinAround(p.parts);
      JoinHead(p.parts);
      assert Joined('/', p.parts) == ['/'] + first + Joined('/', p.parts[1..]);
      assert |first| > 1 ==> Joined('/', p.parts)[2] == first[1] && first[1] in first;
      assert |first| == 1 && first[0] == '.' ==> first == ".";
      assert Render(p) == Join(p.parts);
    }
  }

  /** What the text test decides, for every root. */
  ghost predicate Inside(p: Path, r: Path) {
    if r.parts == [] then p == r || (r.slashes == 1 && p.slashes == 2) else Under(p, r)
  }

  /** What is left over after the root is the text of the remaining names. */
  lemma InsideIsText(p: Path, r: Path)
    requires Tidy(p) && Tidy(r)
    ensures TextUnder(Render(p), Render(r)) <==> Inside(p, r)
    ensures Inside(p, r) ==>
      && |r.parts| <= |p.parts| && |Render(r)| <= |Render(p)|
      && StripSlashes(Render(p)[|Render(r)|..]) == Join(p.parts[|r.parts|..])
  {
    hide Join;
    hide Tidy;
    if r.parts == [] {
      UnderNameless(p, r);
      if Inside(p, r) {
        NamelessSuffix(p, r);
      }
    } else {
      UnderIsPrefix(p, r);
    }
  }

  lemma NamelessSuffix(p: Path, r: Path)
    requires Tidy(p) && Tidy(r) && r.parts == [] && Inside(p, r)
    ensures |Render(r)| <= |Render(p)|
    ensures StripSlashes(Render(p)[|Render(r)|..]) == Join(p.parts[|r.parts|..])
  {
    hide Join;
    NamelessText(r);
    assert p.parts[0..] == p.parts;
    if p == r {
      JoinOfNone();
    } else {
      RenderHead(p);
      if p.parts == [] {
        JoinOfNone();
        NamelessText(p);
        assert "//"[1..] == "/" && "/"[1..] == "";
      } else {
        JoinHead(p.parts);
        var text := Join(p.parts);
        assert Render(p)[1..] == ['/'] + text && (['/'] + text)[1..] == text;
      }
    }
  }

  /** The root of the filesystem contains no path with one slash and a name. */
  lemma NothingIsUnderTheRoot(p: Path)
    requires Tidy(p) && p.slashes == 1 && p.parts != []
    ensures !TextUnder(Render(p), Render(Path(1, [])))
  {
    hide Render;
    UnderNameless(p, Path(1, []));
  }

  // ----- relative paths -----

  /** How many leading names two lists share. */
  function Common(a: seq<string>, b: seq<string>): (n: nat)
    ensures n <= |a| && n <= |b| && a[..n] == b[..n]
  {
    if a != [] && b != [] && a[0] == b[0] then
      var n := Common(a[1..], b[1..]);
      assert a[..n + 1] == [a[0]] + a[1..][..n] && b[..n + 1] == [b[0]] + b[1..][..n];
      n + 1
    else 0
  }

  function Ups(n: nat): seq<string> {
    seq(n, _ => UP)
  }

  /** From one directory to a path: up to their common ancestor and down again. */
  function RelativeParts(from: seq<string>, to: seq<string>): seq<string> {
    var n := Common(from, to);
    Ups(|from| - n) + to[n..]
  }

  function Abspath(cwd: Path, text: string): Path {
    Normal(JoinPath(Render(cwd), text))
  }

  function Relpath(cwd: Path, path: string, start: string): string {
    var parts := RelativeParts(Abspath(cwd, start).parts, Abspath(cwd, path).parts);
    if parts == [] then "." else Join(parts)
  }

  lemma {:induction false} PopAll(stack: seq<string>, n: nat)
    requires n <= |stack| && UP !in stack
    ensures Reduce(stack, Ups(n), true) == stack[..|stack| - n]
    decreases n
  {
    if n > 0 {
      assert Ups(n)[1..] == Ups(n - 1);
      var shorter := stack[..|stack| - 1];
      assert stack[|stack| - 1] in stack;
      PopAll(shorter, n - 1);
    }
  }

  lemma NoUps(parts: seq<string>)
    requires TidyParts(parts, true)
    ensures UP !in parts
  {
  }

  lemma RelativePartsResolve(from: seq<string>, to: seq<string>)
    requires TidyParts(from, true) && TidyParts(to, true)
    ensures Reduce(from, RelativeParts(from, to), true) == to
  {
    hide Reduce;
    hide TidyParts;
    var n := Common(from, to);
    NoUps(from);
    PopAll(from, |from| - n);
    ReduceConcat(from, Ups(|from| - n), to[n..], true);
    assert from[..n] + to[n..] == to;
    ReduceNames(from[..n], to[n..], true);
  }

  lemma RelativeText(from: seq<string>, to: seq<string>)
    requires TidyParts(from, true) && TidyParts(to, true)
    ensures var text := if RelativeParts(from, to) == [] then "." else Join(RelativeParts(from, to));
      Slashes(text) == 0 && text != "" && Reduce(from, Split('/', text), true) == to
  {
    hide Join;
    hide Common;
    var parts := RelativeParts(from, to);
    RelativePartsResolve(from, to);
    if parts == [] {
      SolidIsWhole('/', ".");
      assert ["."][1..] == [];
    } else {
      forall i | 0 <= i < |parts| ensures Name(parts[i]) {
      }
      SplitJoin(parts);
      JoinHead(parts);
    }
  }

  /** A relative path, resolved from where it starts, is the path: for every working directory. */
  lemma RelpathResolves(cwd: Path, path: string, start: string)
    requires Tidy(cwd) && cwd.slashes > 0
    ensures var (from, to) := (Abspath(cwd, start), Abspath(cwd, path));
      var text := Relpath(cwd, path, start);
      && Slashes(text) == 0 && text != ""
      && (from.slashes > 0 ==> Normal(JoinPath(Render(from), text)) == to.(slashes := from.slashes))
  {
    hide Split;
    hide Join;
    hide Normal;
    hide RelativeParts;
    var (from, to) := (Abspath(cwd, start), Abspath(cwd, path));
    NormalIsTidy(JoinPath(Render(cwd), start));
    NormalIsTidy(JoinPath(Render(cwd), path));
    AbspathIsRooted(cwd, start);
    AbspathIsRooted(cwd, path);
    RelativeText(from.parts, to.parts);
    JoinNormal(from, Relpath(cwd, path, start));
  }

  lemma AbspathIsRooted(cwd: Path, text: string)
    requires Tidy(cwd) && cwd.slashes > 0
    ensures Abspath(cwd, text).slashes > 0 && Tidy(Abspath(cwd, text))
    ensures Slashes(text) == 0 ==> Abspath(cwd, text) == Path(cwd.slashes, Reduce(cwd.parts, Split('/', text), true))
  {
    NormalIsTidy(JoinPath(Render(cwd), text));
    if Slashes(text) == 0 {
      JoinNormal(cwd, text);
    }
  }

  /** A path that never climbs above the working directory is spelled the same from anywhere. */
  ghost predicate Contained(text: string) {
    Slashes(text) == 0 && UP !in Normal(text).parts
  }

  lemma {:induction false} UpStays(stack: seq<string>, parts: seq<string>)
    requires stack != [] && stack[0] == UP
    ensures UP in Reduce(stack, parts, false)
    decreases |parts|
  {
    if parts != [] {
      UpStays(Push(stack, parts[0], false), parts[1..]);
    }
  }

  lemma PushInside(base: seq<string>, stack: seq<string>, part: string)
    requires TidyParts(base, true) && TidyParts(stack, true) && Solid('/', part)
    requires UP !in Push(stack, part, false)
    ensures TidyParts(Push(stack, part, false), true)
    ensures Push(base + stack, part, true) == base + Push(stack, part, false)
  {
    var (all, next) := (base + stack, Push(stack, part, false));
    if stack != [] {
      assert all[|all| - 1] == stack[|stack| - 1] && all[..|all| - 1] == base + stack[..|stack| - 1];
      assert stack[|stack| - 1] in stack;
    } else {
      assert part == UP ==> next == [UP] && UP in next;
      assert all == base && base + [part] == base + ([] + [part]);
    }
  }

  lemma {:induction false} ReduceInside(base: seq<string>, stack: seq<string>, parts: seq<string>)
    requires TidyParts(base, true) && TidyParts(stack, true) && AllSolid('/', parts)
    requires UP !in Reduce(stack, parts, false)
    ensures Reduce(base + stack, parts, true) == base + Reduce(stack, parts, false)
    decreases |parts|
  {
    hide TidyParts;
    if parts != [] {
      var next := Push(stack, parts[0], false);
      UpsFirstIn(stack, parts[0]);
      if UP in next {
        UpStays(next, parts[1..]);
      }
      hide Push;
      PushInside(base, stack, parts[0]);
      ReduceInside(base, next, parts[1..]);
    }
  }

  lemma UpsFirstIn(stack: seq<string>, part: string)
    requires TidyParts(stack, true)
    ensures var next := Push(stack, part, false); UP in next ==> next[0] == UP
  {
  }

  lemma {:induction false} CommonShift(base: seq<string>, a: seq<string>, b: seq<string>)
    ensures Common(base + a, base + b) == |base| + Common(a, b)
  {
    if base == [] {
      assert base + a == a && base + b == b;
    } else {
      assert (base + a)[1..] == base[1..] + a && (base + b)[1..] == base[1..] + b;
      CommonShift(base[1..], a, b);
    }
  }

  /** Relative paths between texts inside the working directory do not depend on it: they are the
      same on every machine. */
  lemma RelpathIsStable(cwd: Path, path: string, start: string)
    requires Tidy(cwd) && cwd.slashes > 0 && Contained(path) && Contained(start)
    ensures var parts := RelativeParts(Normal(start).parts, Normal(path).parts);
      Relpath(cwd, path, start) == if parts == [] then "." else Join(parts)
  {
    hide Join;
    hide Common;
    hide Contained;
    hide Normal;
    hide Abspath;
    hide Tidy;
    AbspathInside(cwd, path);
    AbspathInside(cwd, start);
    var (a, b) := (Normal(start).parts, Normal(path).parts);
    CommonShift(cwd.parts, a, b);
    assert (cwd.parts + b)[|cwd.parts| + Common(a, b)..] == b[Common(a, b)..];
  }

  lemma AbspathInside(cwd: Path, text: string)
    requires Tidy(cwd) && cwd.slashes > 0 && Contained(text)
    ensures Abspath(cwd, text).parts == cwd.parts + Normal(text).parts
  {
    hide Split;
    AbspathIsRooted(cwd, text);
    assert cwd.parts + [] == cwd.parts;
    ReduceInside(cwd.parts, [], Split('/', text));
  }
}
