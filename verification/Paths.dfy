/**
 Paths as the configuration reads them: `~` expansion (src/config/paths.rs:7-15), joining,
 components, and lexical normalisation with symlink resolution (src/config/hardening.rs:256-300).
*/
module Paths {
  import opened Prelude

  type Path = string

  datatype Component = Root | Current | Parent | Named(name: string)

  /** The home dir, the working dir, and what the file system resolves a normal path to. */
  datatype Env = Env(home: Option<Path>, cwd: Path, links: seq<Component> -> seq<Component>)

  predicate Absolute(p: Path) { "/" <= p }

  /** An absolute path replaces what it is joined to. */
  function Join(base: Path, p: Path): (r: Path) {
    if Absolute(p) || base == "" then p
    else if base[|base| - 1] == '/' then base + p
    else base + "/" + p
  }

  predicate UnderHome(p: Path) { "~/" <= p }

  function ExpandTilde(env: Env, p: Path): (r: Path) {
    if UnderHome(p) && env.home.Some? then Join(env.home.value, p[2..]) else p
  }

  function MadeAbsolute(env: Env, p: Path): (r: Path) { if Absolute(p) then p else Join(env.cwd, p) }

  // ---- components ----

  /** The text up to the first `/`, and what follows it. */
  function Head(p: Path): (h: Path)
    ensures h <= p && '/' !in h && (|h| < |p| ==> p[|h|] == '/')
  {
    if p == "" || p[0] == '/' then "" else [p[0]] + Head(p[1..])
  }

  /** An empty part is dropped, and so is a `.` that is not the first. */
  function PartOf(h: Path, first: bool): (cs: seq<Component>) {
    if h == "" || (h == "." && !first) then []
    else [if h == "." then Current else if h == ".." then Parent else Named(h)]
  }

  function Parts(p: Path, first: bool): (cs: seq<Component>)
    decreases |p|
  {
    if p == "" then []
    else
      var h := Head(p);
      PartOf(h, first) + if |h| < |p| then Parts(p[|h| + 1..], false) else []
  }

  function Components(p: Path): (r: seq<Component>) {
    if Absolute(p) then [Root] + Parts(p[1..], false) else Parts(p, true)
  }

  /** Paths are compared by their components. */
  predicate SamePath(a: Path, b: Path) { Components(a) == Components(b) }

  lemma {:induction false} HeadSlash(x: Path, y: Path)
    ensures Head(x + "/" + y) == Head(x)
  {
    if x != "" && x[0] != '/' {
      HeadSlash(x[1..], y);
      assert (x + "/" + y)[1..] == x[1..] + "/" + y;
    }
  }

  lemma PartsOnce(p: Path, h: Path, rest: Path, first: bool)
    requires p == h + "/" + rest && Head(p) == h
    ensures Parts(p, first) == PartOf(h, first) + Parts(rest, false)
  {
    assert p[|h| + 1..] == rest;
  }

  lemma Regroup(h: Path, rest: Path, y: Path)
    ensures (h + "/" + rest) + "/" + y == h + "/" + (rest + "/" + y)
  {
  }

  lemma HeadRest(x: Path) returns (h: Path, rest: Path)
    requires |Head(x)| < |x|
    ensures h == Head(x) && x == h + "/" + rest && |rest| < |x|
  {
    h := Head(x);
    rest := x[|h| + 1..];
    assert x == h + [x[|h|]] + rest;
  }

  /** A `/` parts the components before it from those after it. */
  lemma {:induction false} PartsSlash(x: Path, y: Path, first: bool)
    ensures Parts(x + "/" + y, first) == Parts(x, first) + Parts(y, false)
    decreases |x|
  {
    HeadSlash(x, y);
    if |Head(x)| < |x| {
      var h, rest := HeadRest(x);
      PartsSlash(rest, y, false);
      PartsOnce(x, h, rest, first);
      Regroup(h, rest, y);
      PartsOnce(x + "/" + y, h, rest + "/" + y, first);
    } else {
      assert Head(x) == x;
      PartsOnce(x + "/" + y, x, y, first);
    }
  }

  lemma AfterRoot(dir: Path, p: Path)
    requires dir != "" ==> Absolute(dir)
    ensures Components(dir + "/" + p) == [Root] + Parts(if dir == "" then "" else dir[1..], false) + Parts(p, false)
  {
    var all := dir + "/" + p;
    if dir == "" {
      assert all[1..] == p;
    } else {
      assert dir[0] == '/' && all[1..] == dir[1..] + "/" + p;
      PartsSlash(dir[1..], p, false);
    }
  }

  /** The components of a dir, the root written as nothing before its `/`. */
  function DirComponents(dir: Path): (cs: seq<Component>) { if dir == "" then [Root] else Components(dir) }

  lemma DirParts(dir: Path, p: Path)
    ensures Components(dir + "/" + p) == DirComponents(dir) + Parts(p, false)
  {
    if dir == "" || Absolute(dir) {
      AfterRoot(dir, p);
    } else {
      assert dir[0] != '/' && (dir + "/" + p)[0] == dir[0];
      PartsSlash(dir, p, true);
    }
  }

  lemma JoinIsBelow(base: Path, p: Path) returns (dir: Path)
    requires base != "" && !Absolute(p)
    ensures Join(base, p) == dir + "/" + p && DirComponents(dir) == Components(base)
  {
    var n := |base| - 1;
    dir := base;
    if base[n] == '/' {
      dir := base[..n];
      assert base == dir + "/" + "";
      DirParts(dir, "");
      assert DirComponents(dir) + [] == DirComponents(dir);
    }
  }

  /** A relative path joined to a dir adds its components. */
  lemma JoinParts(base: Path, p: Path)
    requires base != "" && !Absolute(p)
    ensures Components(Join(base, p)) == Components(base) + Parts(p, false)
  {
    var dir := JoinIsBelow(base, p);
    DirParts(dir, p);
  }

  /** Only an absolute path has the root among its components, and only as the first. */
  lemma {:induction false} PlainParts(p: Path, first: bool)
    ensures forall i :: 0 <= i < |Parts(p, first)| ==> !Parts(p, first)[i].Root?
    ensures forall i :: 0 <= i < |Parts(p, false)| ==> !Parts(p, false)[i].Current?
    decreases |p|
  {
    if p != "" {
      var h := Head(p);
      if |h| < |p| { PlainParts(p[|h| + 1..], false); }
    }
  }

  /** Without the leading `.`, if there is one. */
  lemma FirstParts(p: Path)
    ensures var all := Parts(p, true);
            Parts(p, false) == if all != [] && all[0].Current? then all[1..] else all
  {
    PlainParts(p, true);
  }

  // ---- the home dir ----

  /** `~/` stands for the home dir, at the beginning of a path alone. */
  lemma TildeIsHome(env: Env, home: Path, r: Path)
    requires env.home == Some(home) && home != "" && !Absolute(r)
    ensures Components(ExpandTilde(env, "~/" + r)) == Components(home) + Parts(r, false)
    ensures forall p :: !UnderHome(p) ==> ExpandTilde(env, p) == p
  {
    assert ("~/" + r)[2..] == r;
    JoinParts(home, r);
  }

  /**
   The home dirs under which a path is expanded at once: not empty, and not below `~/`
   unless it is `~` itself, however written.
  */
  predicate PlainHome(env: Env) {
    env.home.Some? ==>
      env.home.value != "" &&
      (UnderHome(env.home.value) ==> !Absolute(env.home.value[2..]) && SamePath(env.home.value, "~"))
  }

  lemma TildeFirst(p: Path)
    ensures UnderHome(p) <==> |p| >= 2 && p[0] == '~' && p[1] == '/'
  {
    assert |p| >= 2 ==> p[..2] == [p[0], p[1]];
  }

  lemma TildeParts(p: Path)
    requires UnderHome(p)
    ensures Components("~") == [Named("~")] && Components(p) == [Named("~")] + Parts(p[2..], false)
  {
    assert p == "~" + "/" + p[2..];
    assert Head("~") == "~";
    PartsSlash("~", p[2..], true);
  }

  /** A relative path below a home dir that is below `~/` itself. */
  lemma ExpandsBelow(home: Path, r: Path)
    requires UnderHome(home) && !Absolute(home[2..]) && !Absolute(r)
    ensures var once := Join(home, r);
            UnderHome(once) && !Absolute(once[2..]) &&
            Components(once) == Components(home) + Parts(r, false) &&
            Components(Join(home, once[2..])) == Components(home) + Parts(once[2..], false)
  {
    var once := Join(home, r);
    JoinParts(home, r);
    TildeFirst(home);
    TildeFirst(once);
    assert |home| > 2 ==> once[2..][0] == home[2] && home[2..][0] == home[2];
    assert |home| == 2 ==> home == "~/" && once[2..] == r;
    JoinParts(home, once[2..]);
  }

  lemma ExpandOnce(env: Env, p: Path)
    requires PlainHome(env)
    ensures SamePath(ExpandTilde(env, ExpandTilde(env, p)), ExpandTilde(env, p))
  {
    var once := ExpandTilde(env, p);
    TildeFirst(once);
    if UnderHome(p) && env.home.Some? && !Absolute(p[2..]) && UnderHome(once) {
      var home := env.home.value;
      TildeFirst(home);
      assert |home| >= 2 ==> once[0] == home[0] && once[1] == home[1];
      if UnderHome(home) {
        ExpandsBelow(home, p[2..]);
        TildeParts(once);
      } else {
        assert |home| == 1 && home == "~";
        assert once == "~/" + p[2..] && once[2..] == p[2..];
      }
    }
  }

  lemma OneName()
    ensures Components("b") == [Named("b")] && Parts("b", false) == [Named("b")]
  {
    assert Head("b") == "b";
  }

  /** Below an empty home dir the second `~/` is expanded too. */
  lemma EmptyHome(env: Env)
    requires env.home == Some("")
    ensures !SamePath(ExpandTilde(env, ExpandTilde(env, "~/~/b")), ExpandTilde(env, "~/~/b"))
  {
    OneName();
    assert "~/~/b"[2..] == "~/b" && "~/b"[2..] == "b";
    TildeParts("~/b");
  }

  lemma StartKept(home: Path, r: Path)
    requires UnderHome(home) && Absolute(home[2..]) && !Absolute(r)
    ensures UnderHome(Join(home, r)) && Absolute(Join(home, r)[2..])
  {
    TildeFirst(home);
    TildeFirst(Join(home, r));
    assert home[2..][0] == home[2] == Join(home, r)[2];
  }

  /** After `~//` the second expansion is absolute. */
  lemma AbsoluteRest(env: Env, home: Path)
    requires env.home == Some(home) && UnderHome(home) && Absolute(home[2..])
    ensures !SamePath(ExpandTilde(env, ExpandTilde(env, "~/b")), ExpandTilde(env, "~/b"))
  {
    var p: Path := "~/b";
    assert p[2..] == "b" && p[2..][0] == 'b';
    var once := Join(home, p[2..]);
    StartKept(home, p[2..]);
    TildeParts(once);
    assert ExpandTilde(env, once) == once[2..] && Components(once[2..])[0].Root?;
  }

  /** Below `~/` proper the second expansion adds the home dir once more. */
  lemma DeeperHome(env: Env, home: Path)
    requires env.home == Some(home) && UnderHome(home) && !Absolute(home[2..]) && !SamePath(home, "~")
    ensures !SamePath(ExpandTilde(env, ExpandTilde(env, "~/b")), ExpandTilde(env, "~/b"))
  {
    OneName();
    assert "~/b"[2..] == "b";
    TildeParts(home);
    ExpandsBelow(home, "b");
    TildeParts(Join(home, "b"));
    assert |Parts(Join(home, "b")[2..], false)| == |Parts(home[2..], false)| + 1;
  }

  lemma ExpandTwiceDiffers(env: Env)
    requires !PlainHome(env)
    ensures exists p :: !SamePath(ExpandTilde(env, ExpandTilde(env, p)), ExpandTilde(env, p))
  {
    var home := env.home.value;
    if home == "" { EmptyHome(env); }
    else if Absolute(home[2..]) { AbsoluteRest(env, home); }
    else { DeeperHome(env, home); }
  }

  /** Expanding twice is expanding once for every path, exactly under a plain home dir. */
  lemma ExpandTwice(env: Env)
    ensures PlainHome(env) <==> forall p :: SamePath(ExpandTilde(env, ExpandTilde(env, p)), ExpandTilde(env, p))
  {
    if PlainHome(env) {
      forall p ensures SamePath(ExpandTilde(env, ExpandTilde(env, p)), ExpandTilde(env, p)) { ExpandOnce(env, p); }
    } else {
      ExpandTwiceDiffers(env);
    }
  }

  // ---- normalisation ----

  /** Take the last name away; the root stays. */
  function Popped(out: seq<Component>): (r: seq<Component>) {
    if out != [] && out[|out| - 1].Named? then out[..|out| - 1] else out
  }

  function Norm(cs: seq<Component>): (r: seq<Component>) {
    if cs == [] then [] else Pushed(Norm(cs[..|cs| - 1]), cs[|cs| - 1])
  }

  function Pushed(out: seq<Component>, c: Component): (r: seq<Component>) {
    match c
    case Parent => Popped(out)
    case Current => out
    case Root => [Root]
    case Named(_) => out + [c]
  }

  method Normalize(p: Path) returns (out: seq<Component>)
    ensures out == Norm(Components(p))
  {
    var cs := Components(p);
    out := [];
    for n := 0 to |cs|
      invariant out == Norm(cs[..n])
    {
      assert cs[..n + 1][..n] == cs[..n];
      match cs[n] {
        case Parent => if out != [] && out[|out| - 1].Named? { out := out[..|out| - 1]; }
        case Current =>
        case Root => out := [Root];
        case Named(_) => out := out + [cs[n]];
      }
    }
    assert cs[..|cs|] == cs;
  }

  /** Names only, below the root or below the start. */
  ghost predicate Normal(cs: seq<Component>) {
    forall i :: 0 <= i < |cs| ==> cs[i].Named? || (i == 0 && cs[i].Root?)
  }

  /** Only names are left, and an absolute path keeps its root. */
  lemma {:induction false} NormIsNormal(cs: seq<Component>)
    ensures Normal(Norm(cs)) && |Norm(cs)| <= |cs|
    ensures cs != [] && cs[0].Root? ==> Norm(cs) != [] && Norm(cs)[0].Root?
  {
    if cs != [] {
      NormIsNormal(cs[..|cs| - 1]);
      if |cs| > 1 { assert cs[..|cs| - 1][0] == cs[0]; }
    }
  }

  /** A normal path is left as it is. */
  lemma {:induction false} NormOfNormal(cs: seq<Component>)
    requires Normal(cs)
    ensures Norm(cs) == cs
  {
    if cs != [] {
      NormOfNormal(cs[..|cs| - 1]);
      assert cs == cs[..|cs| - 1] + [cs[|cs| - 1]];
    }
  }

  lemma LastApart(a: seq<Component>, rest: seq<Component>)
    requires rest != []
    ensures a + rest == a + rest[..|rest| - 1] + [rest[|rest| - 1]]
  {
  }

  /** Only what is normal so far matters for the rest. */
  lemma {:induction false} NormAppend(a: seq<Component>, b: seq<Component>, rest: seq<Component>)
    requires Norm(a) == Norm(b)
    ensures Norm(a + rest) == Norm(b + rest)
  {
    if rest == [] {
      assert a + rest == a && b + rest == b;
    } else {
      var front, c := rest[..|rest| - 1], rest[|rest| - 1];
      NormAppend(a, b, front);
      LastApart(a, rest);
      LastApart(b, rest);
    }
  }

  /**
   The rules that make a path normal: a `.` goes, a name goes with the `..` after it, and
   a `..` at the root goes. With `NormOfNormal` they fix the result.
  */
  lemma NormRules(a: seq<Component>, name: string, rest: seq<Component>)
    ensures Norm(a + [Current] + rest) == Norm(a + rest)
    ensures Norm(a + [Named(name), Parent] + rest) == Norm(a + rest)
    ensures Norm([Root, Parent] + rest) == Norm([Root] + rest)
  {
    assert (a + [Current])[..|a|] == a;
    NormAppend(a + [Current], a, rest);
    var down := a + [Named(name)];
    assert down[..|a|] == a;
    assert (a + [Named(name), Parent])[..|a| + 1] == down;
    NormAppend(a + [Named(name), Parent], a, rest);
    assert [Root, Parent][..1] == [Root] && [Root][..0] == [];
    NormAppend([Root, Parent], [Root], rest);
  }

  /** Absolute, normal, and with symlinks resolved. */
  function Resolved(env: Env, p: Path): (r: seq<Component>) {
    env.links(Norm(Components(MadeAbsolute(env, p))))
  }

  /** Without symlinks a path resolves to its normal form, below the working dir if it is relative. */
  lemma ResolvedIsNormal(env: Env, p: Path)
    requires (forall cs :: env.links(cs) == cs) && Absolute(env.cwd)
    ensures Normal(Resolved(env, p)) && Resolved(env, p) != [] && Resolved(env, p)[0] == Root
    ensures Resolved(env, p) ==
            Norm(if Absolute(p) then Components(p) else Components(env.cwd) + Parts(p, false))
  {
    var cs := Components(MadeAbsolute(env, p));
    if !Absolute(p) { JoinParts(env.cwd, p); }
    assert cs[0].Root?;
    NormIsNormal(cs);
  }

  /** What a path resolves to depends on its components only. */
  lemma SameResolved(env: Env, a: Path, b: Path)
    requires SamePath(a, b)
    ensures Resolved(env, a) == Resolved(env, b)
  {
    PlainParts(a, true);
    PlainParts(b, true);
    assert Absolute(a) ==> Components(a)[0].Root?;
    assert Absolute(b) ==> Components(b)[0].Root?;
    if !Absolute(a) && env.cwd != "" {
      FirstParts(a);
      FirstParts(b);
      JoinParts(env.cwd, a);
      JoinParts(env.cwd, b);
    }
  }

  /** A path made absolute resolves as before. */
  lemma ResolvedAbsolute(env: Env, p: Path)
    requires Absolute(env.cwd) || env.cwd == ""
    ensures Resolved(env, MadeAbsolute(env, p)) == Resolved(env, p)
  {
  }

  // ---- containment ----

  predicate InTree(root: seq<Component>, q: seq<Component>) { root <= q }

  /** Some path lies in both trees exactly when one contains the other. */
  lemma SharedIffComparable(a: seq<Component>, b: seq<Component>)
    ensures (exists q :: InTree(a, q) && InTree(b, q)) <==> a <= b || b <= a
  {
    if q :| InTree(a, q) && InTree(b, q) {
      assert a == q[..|a|] && b == q[..|b|];
      assert |a| <= |b| ==> b[..|a|] == q[..|a|];
      assert |b| <= |a| ==> a[..|b|] == q[..|b|];
    }
    if a <= b { assert InTree(a, b) && InTree(b, b); }
    if b <= a { assert InTree(b, a) && InTree(a, a); }
  }
}
