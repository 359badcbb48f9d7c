/** The relative path from one file to another: following it from the directory of the first leads to the second. */
module PathRel {
  import opened PathClean
  import opened PathBuffer

  // ---------------------------------------------------------------- the text of the relative path

  function CommonLen(a: string, b: string): (n: nat)
    ensures n <= |a| && n <= |b| && a[..n] == b[..n]
    ensures n == |a| || n == |b| || a[n] != b[n]
  {
    if a == "" || b == "" || a[0] != b[0] then 0
    else
      var n := CommonLen(a[1..], b[1..]);
      assert a[..n + 1] == [a[0]] + a[1..][..n] && b[..n + 1] == [b[0]] + b[1..][..n];
      n + 1
  }

  /** The last slash among the first `m` characters of a rooted path. */
  function LastSlash(s: string, m: nat): (n: nat)
    requires 0 < m <= |s| && s[0] == '/'
    ensures n < m && s[n] == '/' && '/' !in s[n + 1..m]
  {
    if s[m - 1] == '/' then m - 1
    else
      var n := LastSlash(s, m - 1);
      assert s[n + 1..m] == s[n + 1..m - 1] + [s[m - 1]];
      n
  }

  function Slashes(s: string): nat
  {
    if s == "" then 0 else (if s[0] == '/' then 1 else 0) + Slashes(s[1..])
  }

  function Ups(n: nat): string
  {
    if n == 0 then "" else "../" + Ups(n - 1)
  }

  function Relative(f: string, t: string): string
    requires Rooted(f) && Rooted(t)
  {
    var m := CommonLen(f, t);
    Ups(Slashes(f[m..])) + t[LastSlash(t, m) + 1..]
  }

  function Dirname(f: string): string
    requires Rooted(f)
  {
    var n := LastSlash(f, |f|);
    if n == 0 then "/" else f[..n]
  }

  // ---------------------------------------------------------------- slashes and components

  lemma {:induction false} SlashesConcat(a: string, b: string)
    ensures Slashes(a + b) == Slashes(a) + Slashes(b)
  {
    if a == "" {
      assert a + b == b;
    } else {
      assert (a + b)[1..] == a[1..] + b;
      SlashesConcat(a[1..], b);
    }
  }

  lemma {:induction false} NoSlashes(s: string)
    ensures Slashes(s) == 0 <==> '/' !in s
  {
    if s != "" {
      assert s == [s[0]] + s[1..];
      NoSlashes(s[1..]);
    }
  }

  lemma {:induction false} SlashesAbs(st: seq<string>)
    requires forall c <- st :: IsComp(c)
    ensures Slashes(Abs(st)) == |st|
  {
    if st != [] {
      var init, c := st[..|st| - 1], st[|st| - 1];
      assert c in st;
      SlashesAbs(init);
      SlashesConcat(Abs(init) + "/", c);
      SlashesConcat(Abs(init), "/");
      NoSlashes(c);
    }
  }

  lemma {:induction false} AbsConcat(a: seq<string>, b: seq<string>)
    ensures Abs(a + b) == Abs(a) + Abs(b)
  {
    if b == [] {
      assert a + b == a;
    } else {
      assert (a + b)[..|a + b| - 1] == a + b[..|b| - 1];
      AbsConcat(a, b[..|b| - 1]);
    }
  }

  /** Every slash stands at the start of a component. */
  lemma {:induction false} SlashAt(st: seq<string>, s: nat) returns (k: nat)
    requires (forall c <- st :: IsComp(c)) && s < |Abs(st)| && Abs(st)[s] == '/'
    ensures k < |st| && Abs(st)[..s] == Abs(st[..k]) && Abs(st)[s..] == Abs(st[k..])
  {
    var init, c := st[..|st| - 1], st[|st| - 1];
    assert c in st && st == init + [c];
    var a := Abs(init);
    assert Abs(st) == a + ("/" + c);
    if s < |a| {
      k := SlashAt(init, s);
      assert init[..k] == st[..k] && st[k..][..|st| - k - 1] == init[k..];
    } else {
      k := |st| - 1;
      assert st[k..] == [c] && Abs([c]) == "/" + c;
      LastStart(a, c, s);
    }
  }

  lemma LastStart(a: string, c: string, s: nat)
    requires IsComp(c) && |a| <= s < |a + ("/" + c)| && (a + ("/" + c))[s] == '/'
    ensures s == |a| && (a + ("/" + c))[..s] == a && (a + ("/" + c))[s..] == "/" + c
  {
    assert forall i | |a| < i < |a + ("/" + c)| :: (a + ("/" + c))[i] == c[i - |a| - 1];
  }

  lemma {:induction false} CompsUps(n: nat, r: string)
    ensures Comps(Ups(n) + r) == Dots(n) + Comps(r)
  {
    hide Comps;
    if n == 0 {
      assert Ups(0) + r == r;
    } else {
      OneUp(n, r);
      CompsConcat("..", Ups(n - 1) + r);
      CompsOne("..");
      CompsUps(n - 1, r);
      OneDots(n, Comps(r));
    }
  }

  lemma OneUp(n: nat, r: string)
    requires n > 0
    ensures Ups(n) + r == ".." + "/" + (Ups(n - 1) + r)
  {
    assert Ups(n) == "../" + Ups(n - 1);
    hide Ups;
    assert "../" == ".." + "/";
  }

  lemma OneDots(n: nat, cs: seq<string>)
    requires n > 0
    ensures [".."] + (Dots(n - 1) + cs) == Dots(n) + cs
  {
    assert Dots(n) == [".."] + Dots(n - 1);
    hide Dots;
  }

  function Dots(n: nat): seq<string>
  {
    if n == 0 then [] else [".."] + Dots(n - 1)
  }

  lemma {:induction false} WalkUp(base: seq<string>, n: nat)
    requires n <= |base|
    ensures Walk(base, Dots(n)) == base[..|base| - n]
  {
    if n > 0 {
      assert Dots(n)[1..] == Dots(n - 1);
      WalkUp(base[..|base| - 1], n - 1);
    }
  }

  // ---------------------------------------------------------------- the inverse

  /** A cleaned rooted path in terms of its components. */
  lemma CleanRooted(s: string) returns (st: seq<string>)
    requires Rooted(s)
    ensures Canonical(true, st) && Cleaned(s) == Open(true, st) && Rooted(Cleaned(s)) && Comps(Cleaned(s)) == st
  {
    st := Norm(true, [], Comps(s));
    CleanedStack(s);
    CompsOpen(true, st);
  }

  lemma LastSlashIs(s: string, m: nat, n: nat)
    requires n < m <= |s| && s[0] == '/' && s[n] == '/' && '/' !in s[n + 1..m]
    ensures LastSlash(s, m) == n
  {
    var k := LastSlash(s, m);
    assert forall i | k < i < m :: s[i] == s[k + 1..m][i - k - 1];
    assert forall i | n < i < m :: s[i] == s[n + 1..m][i - n - 1];
  }

  lemma DirnameComps(fs: seq<string>)
    requires Canonical(true, fs) && fs != []
    ensures Rooted(Abs(fs)) && Rooted(Dirname(Abs(fs))) && Comps(Dirname(Abs(fs))) == fs[..|fs| - 1]
  {
    LastCut(fs);
    CompsAbs(fs[..|fs| - 1]);
  }

  /** A path is cut at its last slash into its directory and its last component. */
  lemma LastCut(fs: seq<string>)
    requires Canonical(true, fs) && fs != []
    ensures var f, init := Abs(fs), fs[..|fs| - 1];
            var n := LastSlash(f, |f|);
            n == |Abs(init)| && f[..n] == Abs(init) && f[n + 1..] == fs[|fs| - 1]
  {
    var init, c := fs[..|fs| - 1], fs[|fs| - 1];
    var f, n := Abs(fs), |Abs(init)|;
    assert f == Abs(init) + "/" + c && f[n + 1..|f|] == c;
    LastSlashIs(f, |f|, n);
  }

  /** Going up from the directory of a file, and down again. */
  lemma WalkBack(fs: seq<string>, k: nat, cs: seq<string>, ts: seq<string>)
    requires Canonical(true, fs) && Canonical(true, ts) && k < |fs| && fs[..k] + cs == ts
    ensures Walk([], fs[..|fs| - 1] + (Dots(|fs| - k - 1) + cs)) == ts
  {
    hide Walk, Dots;
    var base, n := fs[..|fs| - 1], |fs| - k - 1;
    WalkConcat([], base, Dots(n) + cs);
    WalkConcat(base, Dots(n), cs);
    WalkNames(base);
    WalkUp(base, n);
    assert base[..|base| - n] == fs[..k];
    assert forall i | 0 <= i < |cs| :: cs[i] == ts[k + i];
    WalkDown(fs[..k], cs);
  }

  lemma UpAndDown(f: string, fs: seq<string>, k: nat, r: string, ts: seq<string>)
    requires Canonical(true, fs) && Canonical(true, ts) && k < |fs| && f == Abs(fs)
    requires fs[..k] + Comps(r) == ts
    ensures Rooted(f) && Cleaned(Dirname(f) + "/" + (Ups(|fs| - k - 1) + r)) == Render(true, ts)
  {
    hide Walk, Dots, Comps, Cleaned, Abs, Ups, Dirname, Canonical, Render, Place;
    DirnameComps(fs);
    var n := |fs| - k - 1;
    var x := Dirname(f) + "/" + (Ups(n) + r);
    CompsConcat(Dirname(f), Ups(n) + r);
    CompsUps(n, r);
    WalkBack(fs, k, Comps(r), ts);
    assert Rooted(x);
    RootedPlace(x);
    CleanedIsPlace(x);
  }

  lemma RootedPlace(x: string)
    requires Rooted(x)
    ensures Place([], x) == Walk([], Comps(x))
  {
  }

  /** Two cleaned paths, cut at their last common slash. */
  lemma Cut(fs: seq<string>, ts: seq<string>, f: string, t: string) returns (k: nat)
    requires Canonical(true, fs) && Canonical(true, ts) && fs != [] && f == Abs(fs) && t == Open(true, ts)
    requires Rooted(f) && Rooted(t)
    ensures k < |fs| && Slashes(f[CommonLen(f, t)..]) == |fs| - k - 1
    ensures CommonLen(f, t) > 0 && LastSlash(t, CommonLen(f, t)) == |Abs(fs[..k])|
    ensures fs[..k] + Comps(t[LastSlash(t, CommonLen(f, t)) + 1..]) == ts
  {
    hide Comps, Abs, CommonLen, LastSlash, Slashes, Open;
    var m := CommonLen(f, t);
    assert f[0] == t[0];
    var s := LastSlash(t, m);
    assert f[s] == f[..m][s] == t[..m][s];
    assert f[..s] == f[..m][..s] == t[..m][..s] == t[..s];
    k := SlashAt(fs, s);
    CompsAbs(fs[..k]);
    Tail(fs, f, t, m, s, k);
    Head(ts, t, s, fs[..k]);
  }

  /** The components of a cleaned path before and after a slash. */
  lemma Head(ts: seq<string>, t: string, s: nat, before: seq<string>)
    requires Canonical(true, ts) && t == Open(true, ts) && s < |t| && t[s] == '/' && Comps(t[..s]) == before
    ensures before + Comps(t[s + 1..]) == ts
  {
    CompsConcat(t[..s], t[s + 1..]);
    assert t == t[..s] + "/" + t[s + 1..];
    CompsOpen(true, ts);
  }

  lemma Tail(fs: seq<string>, f: string, t: string, m: nat, s: nat, k: nat)
    requires Canonical(true, fs) && k < |fs| && s < m <= |f| && m <= |t| && f[..m] == t[..m]
    requires f[s] == '/' && '/' !in t[s + 1..m] && f[s..] == Abs(fs[k..])
    ensures Slashes(f[m..]) == |fs| - k - 1
  {
    assert f[s + 1..m] == f[..m][s + 1..] == t[..m][s + 1..] == t[s + 1..m];
    assert f[s..] == "/" + f[s + 1..m] + f[m..];
    SlashesConcat("/" + f[s + 1..m], f[m..]);
    SlashesConcat("/", f[s + 1..m]);
    NoSlashes(f[s + 1..m]);
    SlashesAbs(fs[k..]);
  }

  /** From the directory of the cleaned `from`, the relative path leads to the cleaned `to`. */
  lemma RelativeInverse(from: string, to: string)
    requires Rooted(from) && Rooted(to)
    ensures Rooted(Cleaned(from)) && Rooted(Cleaned(to))
    ensures Cleaned(Dirname(Cleaned(from)) + "/" + Relative(Cleaned(from), Cleaned(to))) == Cleaned(to)
  {
    hide Cleaned, Comps, Canonical, CommonLen, LastSlash, Slashes, Dirname, Abs;
    var fs := CleanRooted(from);
    var ts := CleanRooted(to);
    var f, t := Cleaned(from), Cleaned(to);
    if fs == [] {
      FromRoot(f, t, ts);
    } else {
      assert f[0] == t[0] && CommonLen(f, t) > 0;
      var k := Cut(fs, ts, f, t);
      UpAndDown(f, fs, k, t[LastSlash(t, CommonLen(f, t)) + 1..], ts);
    }
  }

  lemma FromRoot(f: string, t: string, ts: seq<string>)
    requires f == "/" && Canonical(true, ts) && t == Open(true, ts) && Rooted(t) && Comps(t) == ts
    ensures Cleaned(Dirname(f) + "/" + Relative(f, t)) == t
  {
    assert f[0] == t[0] && CommonLen(f, t) == 1 && LastSlash(t, 1) == 0;
    assert f[1..] == "" && Relative(f, t) == t[1..];
    var x := "/" + "/" + t[1..];
    assert Dirname(f) == "/" && Dirname(f) + "/" + Relative(f, t) == x;
    assert x[1..] == t;
    assert Comps(x) == ts;
    CleanedIsPlace(x);
    WalkNames(ts);
  }

  // ---------------------------------------------------------------- no step up too many

  /** The number of components that two directories share from the root on. */
  ghost function Shared(a: seq<string>, b: seq<string>): nat
  {
    if a == [] || b == [] || a[0] != b[0] then 0 else 1 + Shared(a[1..], b[1..])
  }

  lemma {:induction false} SharedIs(a: seq<string>, b: seq<string>, k: nat)
    requires k <= |a| && k <= |b| && a[..k] == b[..k] && (k == |a| || k == |b| || a[k] != b[k])
    ensures Shared(a, b) == k
  {
    if k > 0 {
      assert a[0] == a[..k][0] == b[..k][0] == b[0];
      assert a[1..][..k - 1] == a[..k][1..] && b[1..][..k - 1] == b[..k][1..];
      SharedIs(a[1..], b[1..], k - 1);
    }
  }

  /** The directory that a stack of components is in. */
  ghost function Parent(st: seq<string>): seq<string>
  {
    if st == [] then [] else st[..|st| - 1]
  }

  lemma PastSlash(x: string, y: string, z: string)
    requires Rooted(y) && Rooted(z)
    ensures CommonLen(x + y, x + z) > |x|
  {
    assert forall n | 0 <= n <= |x| :: (x + y)[n] == if n < |x| then x[n] else '/';
    assert forall n | 0 <= n <= |x| :: (x + z)[n] == if n < |x| then x[n] else '/';
    assert forall n | 0 <= n <= |x| :: (x + y)[n] == (x + z)[n];
    hide CommonLen;
    var n := CommonLen(x + y, x + z);
  }

  lemma {:induction false} SlashBeyond(t: string, m: nat, j: nat)
    requires j < m <= |t| && t[0] == '/' && t[j] == '/'
    ensures LastSlash(t, m) >= j
  {
    if t[m - 1] != '/' {
      SlashBeyond(t, m - 1, j);
    }
  }

  lemma AbsSplit(st: seq<string>, k: nat)
    requires k < |st|
    ensures Abs(st) == Abs(st[..k + 1]) + Abs(st[k + 1..]) && |Abs(st[..k + 1])| > |Abs(st[..k])|
    ensures k + 1 < |st| ==> Rooted(Abs(st[k + 1..]))
  {
    AbsConcat(st[..k + 1], st[k + 1..]);
    assert st[..k + 1] + st[k + 1..] == st;
    assert st[..k + 1][..k] == st[..k];
  }

  /** A common component would have moved the last common slash. */
  lemma NotShared(fs: seq<string>, ts: seq<string>, k: nat)
    requires k + 1 < |fs| && k + 1 < |ts| && fs[..k] == ts[..k]
    requires var m := CommonLen(Abs(fs), Abs(ts)); m > 0 && LastSlash(Abs(ts), m) == |Abs(fs[..k])|
    ensures fs[k] != ts[k]
  {
    hide CommonLen, LastSlash, Abs;
    AbsSplit(fs, k);
    AbsSplit(ts, k);
    if fs[k] == ts[k] {
      var x, z := Abs(fs[..k + 1]), Abs(ts[k + 1..]);
      assert fs[..k + 1] == fs[..k] + [fs[k]] && ts[..k + 1] == ts[..k] + [ts[k]];
      PastSlash(x, Abs(fs[k + 1..]), z);
      assert (x + z)[|x|] == z[0];
      SlashBeyond(x + z, CommonLen(Abs(fs), Abs(ts)), |x|);
    }
  }

  lemma CutShared(fs: seq<string>, ts: seq<string>, f: string, t: string, k: nat)
    requires Canonical(true, fs) && Canonical(true, ts) && fs != [] && f == Abs(fs) && t == Open(true, ts)
    requires k < |fs| && k <= |ts| && fs[..k] == ts[..k] && Rooted(t)
    requires CommonLen(f, t) > 0 && LastSlash(t, CommonLen(f, t)) == |Abs(fs[..k])|
    ensures Shared(Parent(fs), Parent(ts)) == k
  {
    hide CommonLen, LastSlash, Canonical;
    if ts == [] {
      SharedIs(Parent(fs), Parent(ts), 0);
    } else {
      assert t == Abs(ts);
      assert ts[..|ts|] == ts;
      assert k < |ts|;
      assert fs[..|fs| - 1][..k] == fs[..k] && ts[..|ts| - 1][..k] == ts[..k];
      if k + 1 < |fs| && k + 1 < |ts| {
        NotShared(fs, ts, k);
      }
      SharedIs(Parent(fs), Parent(ts), k);
    }
  }

  /** The relative path goes up from the directory of the origin to the last directory that both paths share, no
      further, and down from there. */
  lemma FewestSteps(from: string, to: string)
    requires Rooted(from) && Rooted(to)
    ensures Rooted(Cleaned(from)) && Rooted(Cleaned(to))
    ensures var fs, ts := Comps(Cleaned(from)), Comps(Cleaned(to));
            var k := Shared(Parent(fs), Parent(ts));
            && k <= |Parent(fs)| && k <= |ts|
            && Comps(Relative(Cleaned(from), Cleaned(to))) == Dots(|Parent(fs)| - k) + ts[k..]
  {
    hide Cleaned, Comps, Canonical, CommonLen, LastSlash, Slashes, Abs, Shared;
    var fs := CleanRooted(from);
    var ts := CleanRooted(to);
    var f, t := Cleaned(from), Cleaned(to);
    if fs == [] {
      RelativeFromRoot(f, t, ts);
    } else {
      assert f[0] == t[0] && CommonLen(f, t) > 0;
      var k := Cut(fs, ts, f, t);
      var r := t[LastSlash(t, CommonLen(f, t)) + 1..];
      assert ts[..k] == fs[..k] && ts[k..] == Comps(r);
      CutShared(fs, ts, f, t, k);
      CompsUps(|fs| - k - 1, r);
    }
  }

  lemma RelativeFromRoot(f: string, t: string, ts: seq<string>)
    requires f == "/" && Rooted(t) && Comps(t) == ts
    ensures Comps(Relative(f, t)) == ts && Shared([], Parent(ts)) == 0 && Dots(0) + ts == ts
  {
    assert f[0] == t[0] && CommonLen(f, t) == 1 && LastSlash(t, 1) == 0;
    assert f[1..] == "" && Relative(f, t) == t[1..];
  }

  // ---------------------------------------------------------------- the directory as it was given

  ghost predicate Reaches(d: string, from: string, to: string)
    requires Rooted(from) && Rooted(to)
  {
    CleanedStack(from);
    CleanedStack(to);
    Cleaned(d + "/" + Relative(Cleaned(from), Cleaned(to))) == Cleaned(to)
  }

  /** Joining is walking on. */
  lemma Via(d: string, r: string)
    requires Rooted(d)
    ensures Cleaned(d + "/" + r) == Render(true, Walk(Place([], d), Comps(r)))
  {
    hide Cleaned, Comps, Walk, Render;
    var x := d + "/" + r;
    CompsConcat(d, r);
    WalkConcat([], Comps(d), Comps(r));
    CleanedIsPlace(x);
  }

  lemma PlaceNames(d: string)
    requires Rooted(d)
    ensures Canonical(true, Place([], d)) && Comps(Cleaned(d)) == Place([], d)
    ensures Cleaned(d) == Open(true, Place([], d))
  {
    hide Cleaned, Comps, Walk;
    var st := CleanRooted(d);
    SamePlace([], d);
    WalkNames(st);
  }

  lemma DirnameOf(from: string)
    requires Rooted(from)
    ensures Rooted(Dirname(from)) && Rooted(Cleaned(from))
    ensures var fs := Place([], from);
            Dirname(Cleaned(from)) == Open(true, if fs == [] then [] else fs[..|fs| - 1])
  {
    DirRooted(from);
    PlaceNames(from);
    hide *;
    DirnameOpen(Place([], from));
  }

  lemma DirnameOpen(fs: seq<string>)
    requires Canonical(true, fs)
    ensures Rooted(Open(true, fs))
    ensures Dirname(Open(true, fs)) == Open(true, if fs == [] then [] else fs[..|fs| - 1])
  {
    CompsOpen(true, fs);
    if fs != [] {
      LastCut(fs);
      hide Abs, Canonical, LastSlash;
      AbsEmpty(fs[..|fs| - 1]);
    }
  }

  lemma AbsEmpty(st: seq<string>)
    ensures Abs(st) == "" <==> st == []
  {
  }

  /** The path to something directly beneath `f` is the last component of `f` and that name. */
  lemma Child(fs: seq<string>, f: string, t: string)
    requires Canonical(true, fs) && f == Open(true, fs) && t == Open(true, fs + ["x"])
    ensures Rooted(f) && Rooted(t) && Cleaned(t) == t && t != f && Canonical(true, fs + ["x"])
    ensures Comps(Relative(f, t)) == if fs == [] then ["x"] else [fs[|fs| - 1], "x"]
  {
    hide *;
    ChildForm(fs, f, t);
    PrefixRelative(f, t);
    if fs == [] {
      RootChild(f, t);
    } else {
      var k := Cut(fs, fs + ["x"], f, t);
      assert fs + ["x"] == fs[..k] + [fs[|fs| - 1], "x"];
      SameRest(fs[..k], Comps(Relative(f, t)), [fs[|fs| - 1], "x"]);
    }
  }

  lemma SameRest(a: seq<string>, b: seq<string>, c: seq<string>)
    requires a + b == a + c
    ensures b == c
  {
    assert b == (a + b)[|a|..] && c == (a + c)[|a|..];
  }

  lemma RootChild(f: string, t: string)
    requires f == Open(true, []) && t == Open(true, [] + ["x"])
    ensures Rooted(t) && |f| == 1 && |t| > 1 && LastSlash(t, |f|) == 0 && Comps(t[1..]) == ["x"]
  {
    OpenPush(true, [], "x");
    assert t == "/" + "x" && t[1..] == "x";
    CompsOne("x");
    FirstSlash(t);
  }

  lemma ChildForm(fs: seq<string>, f: string, t: string)
    requires Canonical(true, fs) && f == Open(true, fs) && t == Open(true, fs + ["x"])
    ensures Rooted(f) && Rooted(t) && Cleaned(t) == t && t != f && Canonical(true, fs + ["x"])
    ensures f <= t && (fs != [] ==> f == Abs(fs))
  {
    assert Canonical(true, fs + ["x"]);
    CompsOpen(true, fs);
    CompsOpen(true, fs + ["x"]);
    CleanedOpen(fs + ["x"]);
    OpenPush(true, fs, "x");
    hide Comps, Abs, Cleaned, Canonical;
    assert |fs + ["x"]| != |fs|;
  }

  lemma FirstSlash(t: string)
    requires Rooted(t)
    ensures LastSlash(t, 1) == 0
  {
  }

  /** To a path that continues `f` there is nothing to go up. */
  lemma PrefixRelative(f: string, t: string)
    requires Rooted(f) && Rooted(t) && f <= t
    ensures CommonLen(f, t) == |f| && Slashes(f[|f|..]) == 0
    ensures Relative(f, t) == t[LastSlash(t, |f|) + 1..]
  {
    hide LastSlash, CommonLen, Slashes, Ups;
    NoUps(f, t);
    NoPrefix(Ups(Slashes(f[CommonLen(f, t)..])), t[LastSlash(t, |f|) + 1..]);
  }

  lemma NoPrefix(a: string, b: string)
    requires a == ""
    ensures a + b == b
  {
  }

  lemma NoUps(f: string, t: string)
    requires f <= t
    ensures CommonLen(f, t) == |f| && Slashes(f[|f|..]) == 0 && Ups(0) == ""
  {
    hide CommonLen;
  }

  lemma CleanedOpen(st: seq<string>)
    requires Canonical(true, st)
    ensures Rooted(Open(true, st)) && Cleaned(Open(true, st)) == Open(true, st)
  {
    CompsOpen(true, st);
    NormDone(true, [], st);
    assert [] + st == st;
  }

  lemma OpenInjective(a: seq<string>, b: seq<string>)
    requires Canonical(true, a) && (forall c <- b :: IsComp(c)) && Open(true, a) == Open(true, b)
    ensures a == b
  {
    CompsOpen(true, a);
    CompsOpen(true, b);
  }

  /** The directory of `from` as it was given serves every other destination exactly when cleaning it gives the
      directory of the cleaned `from`. */
  lemma RawDirname(from: string)
    requires Rooted(from)
    ensures (forall to | Rooted(to) && Cleaned(to) != Cleaned(from) :: Reaches(Dirname(from), from, to))
            <==> Rooted(Cleaned(from)) && Cleaned(Dirname(from)) == Dirname(Cleaned(from))
  {
    var d := Dirname(from);
    DirRooted(from);
    DirnameOf(from);
    hide *;
    if forall to | Rooted(to) && Cleaned(to) != Cleaned(from) :: Reaches(d, from, to) {
      RawOnly(d, from);
    }
    if Cleaned(d) == Dirname(Cleaned(from)) {
      forall to | Rooted(to)
        ensures Reaches(d, from, to)
      {
        RawServes(d, from, to);
      }
    }
  }

  /** A directory that leads to what is directly beneath `from` is the right one. */
  lemma RawOnly(d: string, from: string)
    requires Rooted(from) && Rooted(d)
    requires forall to | Rooted(to) && Cleaned(to) != Cleaned(from) :: Reaches(d, from, to)
    ensures Rooted(Cleaned(from)) && Cleaned(d) == Dirname(Cleaned(from))
  {
    PlaceNames(from);
    PlaceNames(d);
    DirnameOf(from);
    hide *;
    var fs, ds, f := Place([], from), Place([], d), Cleaned(from);
    var t := Open(true, fs + ["x"]);
    Child(fs, f, t);
    LeadsThere(d, from, t);
    Via(d, Relative(f, t));
    SameTail(fs, ds, Comps(Relative(f, t)));
  }

  lemma LeadsThere(d: string, from: string, t: string)
    requires Rooted(from) && Rooted(t) && Cleaned(t) == t && Reaches(d, from, t)
    ensures Rooted(Cleaned(from)) && Cleaned(d + "/" + Relative(Cleaned(from), t)) == t
  {
  }

  lemma SameTail(fs: seq<string>, ds: seq<string>, tail: seq<string>)
    requires Canonical(true, fs) && Canonical(true, ds) && Canonical(true, fs + ["x"])
    requires tail == if fs == [] then ["x"] else [fs[|fs| - 1], "x"]
    requires Render(true, Walk(ds, tail)) == Open(true, fs + ["x"])
    ensures ds == if fs == [] then [] else fs[..|fs| - 1]
  {
    TailNames(fs, ds, tail);
    hide *;
    WalkDown(ds, tail);
    RenderOpen(ds + tail);
    OpenInjective(fs + ["x"], ds + tail);
    if fs == [] {
      SameFront([], ds, tail);
    } else {
      assert fs + ["x"] == fs[..|fs| - 1] + tail;
      SameFront(fs[..|fs| - 1], ds, tail);
    }
  }

  lemma TailNames(fs: seq<string>, ds: seq<string>, tail: seq<string>)
    requires Canonical(true, fs) && Canonical(true, ds)
    requires tail == if fs == [] then ["x"] else [fs[|fs| - 1], "x"]
    ensures forall c <- ds + tail :: IsComp(c)
    ensures forall k | 0 <= k < |tail| :: tail[k] != "." && tail[k] != ".."
  {
  }

  lemma RenderOpen(st: seq<string>)
    requires forall c <- st :: IsComp(c)
    ensures Render(true, st) == Open(true, st)
  {
    CompsOpen(true, st);
  }

  lemma SameFront(a: seq<string>, b: seq<string>, c: seq<string>)
    requires a + c == b + c
    ensures a == b
  {
    assert |a + c| == |b + c|;
    assert a == (a + c)[..|a|] && b == (b + c)[..|b|];
  }

  /** It is not always: from "/x/.." to "/y" the routine says "y", which from "/x" leads to "/x/y". */
  lemma RawDirnameFails()
    ensures Dirname("/x/..") == "/x" && Cleaned("/x/..") == "/" && Cleaned("/x") == "/x" && Dirname("/") == "/"
    ensures exists to | Rooted(to) && Cleaned(to) != Cleaned("/x/..") :: !Reaches(Dirname("/x/.."), "/x/..", to)
  {
    CleanedX();
    DirnameX();
    assert Rooted("/x/..");
    hide *;
    RawDirname("/x/..");
  }

  lemma DirnameX()
    ensures Dirname("/x/..") == "/x" && Dirname("/") == "/"
  {
    LastSlashIs("/x/..", 5, 2);
    FirstSlash("/");
    hide LastSlash;
    assert "/x/.."[..2] == "/x";
  }

  lemma CleanedX()
    ensures Cleaned("/x/..") == "/" && Cleaned("/x") == "/x"
  {
    CompsX();
    CompsUp();
    TwoSteps();
    assert Rooted("/x/..") && Rooted("/x");
    hide Comps, Norm, Render;
  }

  lemma CompsX()
    ensures Comps("/x") == ["x"]
  {
    hide Comps;
    CompsConcat("", "x");
    CompsOne("x");
    CompsNone();
    assert "" + "/" + "x" == "/x" && [] + ["x"] == ["x"];
  }

  lemma CompsUp()
    ensures Comps("/x/..") == ["x", ".."]
  {
    hide Comps;
    CompsX();
    CompsConcat("/x", "..");
    CompsOne("..");
    assert "/x" + "/" + ".." == "/x/.." && ["x"] + [".."] == ["x", ".."];
  }

  lemma CompsNone()
    ensures Comps("") == []
  {
  }

  lemma TwoSteps()
    ensures Norm(true, [], ["x"]) == ["x"] && Norm(true, [], ["x", ".."]) == []
    ensures Render(true, ["x"]) == "/x" && Render(true, []) == "/"
  {
    OpenPush(true, [], "x");
    assert [] + ["x"] == ["x"] && "/" + "x" == "/x";
    NormDone(true, [], ["x"]);
    assert ["x", ".."][1..] == [".."] && [".."][1..] == [];
    assert Push(true, [], "x") == ["x"] && Push(true, ["x"], "..") == [];
    hide Push, Abs;
    assert Norm(true, [], ["x", ".."]) == Norm(true, ["x"], [".."]) == Norm(true, [], []);
  }

  lemma RawServes(d: string, from: string, to: string)
    requires Rooted(from) && Rooted(to) && Rooted(d)
    requires Rooted(Cleaned(from)) && Cleaned(d) == Dirname(Cleaned(from))
    ensures Reaches(d, from, to)
  {
    hide Comps, Cleaned, Relative, Walk, Dirname;
    RelativeInverse(from, to);
    DirnameOf(from);
    DirRooted(Cleaned(from));
    Via(d, Relative(Cleaned(from), Cleaned(to)));
    Via(Dirname(Cleaned(from)), Relative(Cleaned(from), Cleaned(to)));
    SamePlace([], d);
  }

  lemma DirRooted(f: string)
    requires Rooted(f)
    ensures Rooted(Dirname(f))
  {
  }

  // ---------------------------------------------------------------- writing it

  /** The first characters of `text` are in the buffer, as many as leave room for the NUL. */
  ghost predicate Written(a: seq<char>, size: nat, text: string)
    requires 1 <= size <= |a|
  {
    var n := if |text| < size then |text| else size - 1;
    a[..n] == text[..n]
  }

  method Emit(dst: array<char>, size: nat, x: string, ghost text: string, len0: nat) returns (len: nat)
    requires 1 <= size <= dst.Length && len0 == |text| && Written(dst[..], size, text)
    modifies dst
    ensures len == |text| + |x| && Written(dst[..], size, text + x)
  {
    len := len0;
    assert text + x[..0] == text;
    for k := 0 to |x|
      invariant len == |text| + k && Written(dst[..], size, text + x[..k])
    {
      ghost var t := text + x[..k];
      assert text + x[..k + 1] == t + [x[k]];
      if len + 1 < size {
        dst[len] := x[k];
      }
      len := len + 1;
    }
    assert x[..|x|] == x;
  }

  /** The first slash at or after `p`, or the end. */
  method FindSlash(s: string, p: nat) returns (q: nat)
    requires p <= |s|
    ensures p <= q <= |s| && (q < |s| ==> s[q] == '/')
    ensures Slashes(s[p..]) == if q < |s| then 1 + Slashes(s[q + 1..]) else 0
  {
    q := p;
    while q < |s| && s[q] != '/'
      invariant p <= q <= |s| && Slashes(s[p..]) == Slashes(s[q..])
    {
      assert s[q..][1..] == s[q + 1..];
      q := q + 1;
    }
    if q < |s| {
      assert s[q..][1..] == s[q + 1..];
    }
  }

  /** A copy in a buffer of PATH_MAX characters, cleaned in place. */
  method CleanCopy(s: string) returns (c: string)
    requires s != "" && '\0' !in s && |s| < PATH_MAX
    ensures c == Cleaned(s) && '\0' !in c
  {
    var buf := new char[PATH_MAX];
    var n := AppendText(buf, 0, s);
    buf[n] := '\0';
    assert buf[..n] == s;
    assert buf[..][..n] == s && buf[..][n] == '\0';
    TextEnds(buf[..], n);
    var len := CleanInPlace(buf);
    c := ReadText(buf);
  }

  /** Writes the path from `from` to `to`; a buffer that is too small receives a prefix, the length is that of the
      whole. */
  method PathRel(dst: array<char>, size: nat, from: string, to: string) returns (len: int)
    requires 1 <= size <= dst.Length && '\0' !in from && '\0' !in to
    requires Rooted(from) && Rooted(to)
    requires |from| < PATH_MAX && |to| < PATH_MAX ==> Cleaned(from) != Cleaned(to)
    modifies dst
    ensures |from| >= PATH_MAX || |to| >= PATH_MAX ==> len == -1 && '\0' in dst[..] && Text(dst[..]) == ""
    ensures |from| < PATH_MAX && |to| < PATH_MAX ==>
              Rooted(Cleaned(from)) && Rooted(Cleaned(to)) &&
              var rel := Relative(Cleaned(from), Cleaned(to));
              && len == |rel| && '\0' in dst[..]
              && Text(dst[..]) == if |rel| < size then rel else rel[..size - 1]
  {
    hide Cleaned, CommonLen, LastSlash, Slashes, Written, Text;
    dst[0] := '\0';
    if |from| >= PATH_MAX || |to| >= PATH_MAX {
      assert dst[..][0] == '\0' && dst[..][..0] == [];
      TextEnds(dst[..], 0);
      return -1;
    }
    var f := CleanCopy(from);
    var t := CleanCopy(to);
    CleanedStack(from);
    CleanedStack(to);
    assert f[0] == t[0] && CommonLen(f, t) > 0;
    var m, suffix := Diverge(f, t);
    var up := CountUp(f, m);
    len := WriteUps(dst, size, up);
    len := Emit(dst, size, t[suffix + 1..], Ups(up), len);
    ghost var rel := Ups(up) + t[suffix + 1..];
    assert rel == Relative(f, t);
    UpsNoNul(up);
    assert '\0' !in t[suffix + 1..] by {
      assert forall c <- t[suffix + 1..] :: c in t;
    }
    Terminate(dst, size, len, rel);
  }

  method WriteUps(dst: array<char>, size: nat, up: nat) returns (len: nat)
    requires 1 <= size <= dst.Length
    modifies dst
    ensures len == |Ups(up)| && Written(dst[..], size, Ups(up))
  {
    len := 0;
    ghost var text := "";
    for n := 0 to up
      invariant len == |text| && Written(dst[..], size, text) && text + Ups(up - n) == Ups(up)
    {
      len := Emit(dst, size, "../", text, len);
      assert text + "../" + Ups(up - n - 1) == text + Ups(up - n);
      text := text + "../";
    }
    assert text == Ups(up);
  }

  method Diverge(f: string, t: string) returns (m: nat, suffix: nat)
    requires Rooted(f) && Rooted(t) && f != t
    ensures 0 < m <= |f| && m <= |t| && m == CommonLen(f, t) && suffix == LastSlash(t, m)
  {
    hide CommonLen, LastSlash;
    m, suffix := 0, 0;
    while m < |f| && m < |t| && f[m] == t[m]
      invariant m <= CommonLen(f, t) && (m > 0 ==> m <= |t| && suffix == LastSlash(t, m))
    {
      Further(f, t, m);
      NextSlash(t, m);
      if t[m] == '/' {
        suffix := m;
      }
      m := m + 1;
    }
    Differs(f, t, m);
  }

  lemma NextSlash(t: string, m: nat)
    requires m < |t| && t[0] == '/'
    ensures t[m] == '/' ==> LastSlash(t, m + 1) == m
    ensures t[m] != '/' ==> m > 0 && LastSlash(t, m + 1) == LastSlash(t, m)
  {
  }

  lemma Differs(f: string, t: string, m: nat)
    requires m <= |f| && m <= |t| && (m == |f| || m == |t| || f[m] != t[m])
    ensures CommonLen(f, t) <= m
  {
    var n := CommonLen(f, t);
    assert forall i | 0 <= i < n :: f[i] == f[..n][i] && t[i] == t[..n][i];
  }

  lemma Further(f: string, t: string, m: nat)
    requires m < |f| && m < |t| && m <= CommonLen(f, t) && f[m] == t[m]
    ensures m + 1 <= CommonLen(f, t)
  {
  }

  method CountUp(f: string, m: nat) returns (up: nat)
    requires 0 < m <= |f|
    ensures up == Slashes(f[m..])
  {
    var n, p := -1, m - 1;
    while p < |f|
      invariant p <= |f| && n >= -1 && (p == |f| ==> n >= 0)
      invariant Slashes(f[m..]) == if p < |f| then n + 1 + Slashes(f[p + 1..]) else n
      decreases |f| - p
    {
      p := FindSlash(f, p + 1);
      n := n + 1;
    }
    up := n;
  }

  lemma {:induction false} UpsNoNul(n: nat)
    ensures '\0' !in Ups(n)
  {
    if n > 0 {
      UpsNoNul(n - 1);
    }
  }

  method Terminate(dst: array<char>, size: nat, len: nat, ghost rel: string)
    requires 1 <= size <= dst.Length && len == |rel| && Written(dst[..], size, rel) && '\0' !in rel
    modifies dst
    ensures '\0' in dst[..] && Text(dst[..]) == if |rel| < size then rel else rel[..size - 1]
  {
    var n := if len < size then len else size - 1;
    assert dst[..][..n] == rel[..n];
    dst[n] := '\0';
    assert dst[..][..n] == rel[..n] && dst[..][n] == '\0';
    assert rel[..|rel|] == rel;
    assert forall c <- rel[..n] :: c in rel;
    TextEnds(dst[..], n);
  }
}
