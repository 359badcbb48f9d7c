/** Adding binary packages to a repository: which version enters the stage, and when the stage is published. */
module StageIndex {
  import opened Common

  type Name = string

  type Lib = string

  /** shlibProvides and shlibRequires are the library arrays of the package; reverts the versions it takes back. */
  datatype Pkg = Pkg(pkgver: string, shlibProvides: seq<Lib>, shlibRequires: seq<Lib>, reverts: set<string>)

  type Index = map<Name, Pkg>

  // ---------------------------------------------------------------- publication

  ghost predicate Provided(index: Index, lib: Lib)
  {
    exists n :: n in index && lib in index[n].shlibProvides
  }

  /** No library that the index provided, and that one of its packages still requires after the update, is lost. */
  ghost predicate NothingLost(index: Index, stage: Index)
  {
    forall n, lib | n in index && lib in (index + stage)[n].shlibRequires && Provided(index, lib) ::
      Provided(index + stage, lib)
  }

  /** `lib` is among the libraries that the packages named in `names` provide. */
  ghost predicate Offered(index: Index, names: set<Name>, lib: Lib)
  {
    exists n <- names :: n in index && lib in index[n].shlibProvides
  }

  /** One of the packages named in `names` requires `lib`, in the version it is to have. */
  ghost predicate Wanted(index: Index, stage: Index, names: set<Name>, lib: Lib)
  {
    exists n <- names :: n in index && lib in (index + stage)[n].shlibRequires
  }

  lemma OfferedMore(index: Index, names: set<Name>, n: Name)
    requires n in index
    ensures forall lib ::
              Offered(index, names + {n}, lib) <==> Offered(index, names, lib) || lib in index[n].shlibProvides
  {
  }

  lemma WantedMore(index: Index, stage: Index, names: set<Name>, n: Name)
    requires n in index
    ensures forall lib :: Wanted(index, stage, names + {n}, lib)
                          <==> Wanted(index, stage, names, lib) || lib in (index + stage)[n].shlibRequires
  {
  }

  /** The libraries that the staged packages provided before, each with a provider. */
  method OldShlibs(index: Index, stage: Index) returns (old1: map<Lib, Name>)
    ensures forall lib :: lib in old1 <==> Offered(index, stage.Keys, lib)
  {
    hide Offered;
    old1 := map[];
    var names := stage.Keys;
    OfferedNone(index);
    assert stage.Keys - names == {};
    while names != {}
      invariant names <= stage.Keys
      invariant forall lib :: lib in old1 <==> Offered(index, stage.Keys - names, lib)
      decreases |names|
    {
      var n :| n in names;
      assert stage.Keys - (names - {n}) == stage.Keys - names + {n};
      if n in index {
        OfferedMore(index, stage.Keys - names, n);
        ghost var before := old1;
        for i := 0 to |index[n].shlibProvides|
          invariant forall lib :: lib in old1 <==> lib in before || lib in index[n].shlibProvides[..i]
        {
          old1 := old1[index[n].shlibProvides[i] := n];
        }
        assert index[n].shlibProvides[..|index[n].shlibProvides|] == index[n].shlibProvides;
      } else {
        OfferedNot(index, stage.Keys - names, n);
      }
      names := names - {n};
    }
    assert stage.Keys - names == stage.Keys;
  }

  lemma OfferedNone(index: Index)
    ensures forall lib :: !Offered(index, {}, lib)
  {
  }

  lemma OfferedNot(index: Index, names: set<Name>, n: Name)
    requires n !in index
    ensures forall lib :: Offered(index, names + {n}, lib) <==> Offered(index, names, lib)
  {
  }

  /** Of those, the libraries that packages of the index require, each with its users. */
  method UsedShlibs(index: Index, stage: Index, old1: map<Lib, Name>) returns (used: map<Lib, seq<Name>>)
    ensures forall lib :: lib in used <==> lib in old1 && Wanted(index, stage, index.Keys, lib)
  {
    hide Wanted;
    used := map[];
    var names := index.Keys;
    WantedNone(index, stage);
    assert index.Keys - names == {};
    while names != {}
      invariant names <= index.Keys
      invariant forall lib :: lib in used <==> lib in old1 && Wanted(index, stage, index.Keys - names, lib)
      decreases |names|
    {
      var n :| n in names;
      assert index.Keys - (names - {n}) == index.Keys - names + {n};
      WantedMore(index, stage, index.Keys - names, n);
      var libs := (if n in stage then stage[n] else index[n]).shlibRequires;
      ghost var before := used;
      for i := 0 to |libs|
        invariant forall lib :: lib in used <==> lib in before || (lib in old1 && lib in libs[..i])
      {
        if libs[i] in old1 {
          used := used[libs[i] := (if libs[i] in used then used[libs[i]] else []) + [n]];
        }
      }
      assert libs[..|libs|] == libs;
      names := names - {n};
    }
    assert index.Keys - names == index.Keys;
  }

  lemma WantedNone(index: Index, stage: Index)
    ensures forall lib :: !Wanted(index, stage, {}, lib)
  {
  }

  /** Takes out what the packages named in `from` provide. */
  method Purge(pkgs: Index, from: set<Name>, used0: map<Lib, seq<Name>>) returns (used: map<Lib, seq<Name>>)
    requires from <= pkgs.Keys
    ensures forall lib :: lib in used <==> lib in used0 && !Offered(pkgs, from, lib)
  {
    hide Offered;
    used := used0;
    var names := from;
    OfferedNone(pkgs);
    assert from - names == {};
    while names != {}
      invariant names <= from
      invariant forall lib :: lib in used <==> lib in used0 && !Offered(pkgs, from - names, lib)
      decreases |names|
    {
      var n :| n in names;
      assert from - (names - {n}) == from - names + {n};
      OfferedMore(pkgs, from - names, n);
      used := RemoveAll(used, pkgs[n].shlibProvides);
      names := names - {n};
    }
    assert from - names == from;
  }

  method RemoveAll(used0: map<Lib, seq<Name>>, libs: seq<Lib>) returns (used: map<Lib, seq<Name>>)
    ensures forall lib :: lib in used <==> lib in used0 && lib !in libs
  {
    used := used0;
    for i := 0 to |libs|
      invariant forall lib :: lib in used <==> lib in used0 && lib !in libs[..i]
    {
      used := used - {libs[i]};
    }
    assert libs[..|libs|] == libs;
  }

  /** What is left over after the purges is what would be lost. */
  lemma LeftOver(index: Index, stage: Index, used: map<Lib, seq<Name>>)
    requires forall lib :: lib in used <==>
               Offered(index, stage.Keys, lib) && Wanted(index, stage, index.Keys, lib)
               && !Offered(index, index.Keys - stage.Keys, lib) && !Offered(stage, stage.Keys, lib)
    ensures used.Keys == {} <==> NothingLost(index, stage)
  {
    forall lib
      ensures Provided(index + stage, lib) <==>
              Offered(index, index.Keys - stage.Keys, lib) || Offered(stage, stage.Keys, lib)
      ensures Provided(index, lib) <==> Offered(index, index.Keys - stage.Keys, lib) || Offered(index, stage.Keys, lib)
    {
      MergedProvides(index, stage, lib);
    }
    hide Offered, Provided;
    if used.Keys == {} {
      forall n, lib | n in index && lib in (index + stage)[n].shlibRequires && Provided(index, lib)
        ensures Provided(index + stage, lib)
      {
        assert Wanted(index, stage, index.Keys, lib);
        assert lib !in used.Keys;
      }
    } else {
      var lib :| lib in used.Keys;
      var n :| n in index.Keys && n in index && lib in (index + stage)[n].shlibRequires;
      assert Provided(index, lib) && !Provided(index + stage, lib);
    }
  }

  lemma MergedProvides(index: Index, stage: Index, lib: Lib)
    ensures Provided(index + stage, lib) <==>
              Offered(index, index.Keys - stage.Keys, lib) || Offered(stage, stage.Keys, lib)
    ensures Provided(index, lib) <==> Offered(index, index.Keys - stage.Keys, lib) || Offered(index, stage.Keys, lib)
  {
    var merged := index + stage;
    if Provided(merged, lib) {
      var n :| n in merged && lib in merged[n].shlibProvides;
      assert n in stage.Keys || n in index.Keys - stage.Keys;
    }
    if Offered(index, index.Keys - stage.Keys, lib) {
      var n :| n in index.Keys - stage.Keys && n in index && lib in index[n].shlibProvides;
      assert n in merged && merged[n] == index[n];
    }
    if Offered(stage, stage.Keys, lib) {
      var n :| n in stage.Keys && lib in stage[n].shlibProvides;
      assert n in merged && merged[n] == stage[n];
    }
    if Provided(index, lib) {
      var n :| n in index && lib in index[n].shlibProvides;
      assert n in stage.Keys || n in index.Keys - stage.Keys;
    }
  }

  /** Publishes the stage exactly when no library is lost; otherwise index and stage stay as they are. */
  method RepodataCommit(index: Index, stage: Index) returns (index1: Index, stage1: Index)
    ensures NothingLost(index, stage) ==> index1 == index + stage && stage1 == map[]
    ensures !NothingLost(index, stage) ==> index1 == index && stage1 == stage
  {
    hide Provided, Offered, Wanted, NothingLost;
    if |stage| == 0 {
      EmptyStage(index, stage);
      return index, stage;
    }
    var old1 := OldShlibs(index, stage);
    var used := UsedShlibs(index, stage, old1);
    used := Purge(index, index.Keys - stage.Keys, used);
    used := Purge(stage, stage.Keys, used);
    LeftOver(index, stage, used);
    if |used| != 0 {
      assert used.Keys != {};
      return index, stage;
    }
    assert used == map[];
    stage1 := map[];
    index1 := Publish(index, stage);
  }

  /** The stage is in the index but for `names`. */
  ghost predicate Half(index: Index, stage: Index, names: set<Name>, index1: Index)
  {
    && (forall n :: n in index1 <==> n in index || (n in stage && n !in names))
    && (forall n <- index1 :: index1[n] == if n in stage && n !in names then stage[n] else index[n])
  }

  method Publish(index: Index, stage: Index) returns (index1: Index)
    ensures index1 == index + stage
  {
    index1 := index;
    var names := stage.Keys;
    while names != {}
      invariant names <= stage.Keys && Half(index, stage, names, index1)
      decreases |names|
    {
      hide Half;
      var n :| n in names;
      HalfMore(index, stage, names, index1, n);
      index1 := index1[n := stage[n]];
      names := names - {n};
    }
    Whole(index, stage, index1);
  }

  lemma HalfMore(index: Index, stage: Index, names: set<Name>, index1: Index, n: Name)
    requires Half(index, stage, names, index1) && n in stage
    ensures Half(index, stage, names - {n}, index1[n := stage[n]])
  {
  }

  lemma Whole(index: Index, stage: Index, index1: Index)
    requires Half(index, stage, {}, index1)
    ensures index1 == index + stage
  {
    assert index1.Keys == (index + stage).Keys;
  }

  lemma EmptyStage(index: Index, stage: Index)
    requires |stage| == 0
    ensures NothingLost(index, stage) && index + stage == index && stage == map[]
  {
    assert stage.Keys == {};
    assert index + stage == index;
  }

  /** Every library that the packages of `names` require is provided. */
  ghost predicate ClosedFor(index: Index, names: set<Name>)
  {
    forall n, lib | n in names && n in index && lib in index[n].shlibRequires :: Provided(index, lib)
  }

  /** When nothing is lost, the published index is closed exactly when those libraries are provided that a new package
      requires or that the old index did not provide: only these have to be looked at. */
  lemma ClosureExactly(index: Index, stage: Index)
    requires NothingLost(index, stage)
    ensures ClosedFor(index + stage, (index + stage).Keys) <==>
            forall n, lib | n in index + stage && lib in (index + stage)[n].shlibRequires
                            && (n !in index || !Provided(index, lib)) ::
              Provided(index + stage, lib)
  {
    hide Provided;
    var merged := index + stage;
    if forall n, lib | n in merged && lib in merged[n].shlibRequires && (n !in index || !Provided(index, lib)) ::
         Provided(merged, lib)
    {
      forall n, lib | n in merged && lib in merged[n].shlibRequires
        ensures Provided(merged, lib)
      {
        if n in index && Provided(index, lib) {
          assert lib in (index + stage)[n].shlibRequires;
        }
      }
    }
  }

  /** Publication keeps the closure of the packages that are not staged.  The rest of the index is closed exactly when
      the staged packages find the libraries that they are the first to require, or that only a new package asks for. */
  lemma ClosureKept(index: Index, stage: Index)
    requires NothingLost(index, stage) && ClosedFor(index, index.Keys - stage.Keys)
    ensures ClosedFor(index + stage, index.Keys - stage.Keys)
    ensures ClosedFor(index + stage, (index + stage).Keys) <==>
            forall n, lib | n in stage && lib in stage[n].shlibRequires && (n !in index || !Provided(index, lib)) ::
              Provided(index + stage, lib)
  {
    ClosureExactly(index, stage);
    hide Provided;
    var merged := index + stage;
    forall n, lib | n in index.Keys - stage.Keys && lib in merged[n].shlibRequires
      ensures Provided(index, lib) && Provided(merged, lib)
    {
      assert merged[n] == index[n];
    }
    assert forall n | n in stage :: n in merged && merged[n] == stage[n];
    assert forall n | n in merged :: n in stage || n in index.Keys - stage.Keys;
  }

  /** So a new package that requires a library nobody provides leaves the index open, and is published all the same. */
  lemma NewPackageUnchecked(n: Name, lib: Lib, v: string)
    ensures var stage: Index := map[n := Pkg(v, [], [lib], {})];
            NothingLost(map[], stage) && !ClosedFor(map[] + stage, stage.Keys)
  {
    var stage: Index := map[n := Pkg(v, [], [lib], {})];
    var merged: Index := map[] + stage;
    assert merged == stage && merged[n].shlibRequires == [lib] && merged[n].shlibProvides == [];
    assert lib in merged[n].shlibRequires && !Provided(merged, lib);
  }

  // ---------------------------------------------------------------- which version is newer

  /** The comparison of versions with what each reverts taken into account. */
  function Compare(rank: string -> int, p: Pkg, cur: Pkg): int
  {
    var cmp := rank(p.pkgver) - rank(cur.pkgver);
    if cmp < 0 && cur.pkgver in p.reverts then 1
    else if cmp > 0 && p.pkgver in cur.reverts then -1
    else cmp
  }

  predicate Newer(rank: string -> int, p: Pkg, cur: Pkg)
  {
    Compare(rank, p, cur) > 0
  }

  function Current(index: Index, stage: Index, n: Name): seq<Pkg>
  {
    if n in stage then [stage[n]] else if n in index then [index[n]] else []
  }

  /** Of two different versions exactly one replaces the other, whatever they revert. */
  lemma NeverBoth(rank: string -> int, p: Pkg, q: Pkg)
    ensures rank(p.pkgver) == rank(q.pkgver) ==> !Newer(rank, p, q) && !Newer(rank, q, p)
    ensures rank(p.pkgver) != rank(q.pkgver) ==> (Newer(rank, p, q) <==> !Newer(rank, q, p))
  {
  }

  /** The package `p` enters the stage when it is forced, when the name is unknown, when its version is higher and not
      reverted by the entry, or when it is lower and reverts that of the entry; the stage shadows the index. */
  method IndexAddPkg(rank: string -> int, index: Index, stage: Index, n: Name, p: Pkg, force: bool)
    returns (stage1: Index)
    ensures stage1 == AddPkg(rank, index, stage, n, p, force)
    ensures force || (n !in stage && n !in index) ==> stage1 == stage[n := p]
    ensures !force && (n in stage || n in index) ==>
              var cur := if n in stage then stage[n] else index[n];
              var higher := rank(p.pkgver) > rank(cur.pkgver) && p.pkgver !in cur.reverts;
              var reverting := rank(p.pkgver) < rank(cur.pkgver) && cur.pkgver in p.reverts;
              stage1 == if higher || reverting then stage[n := p] else stage
  {
    var known := n in stage || n in index;
    if known && !force {
      var cur := if n in stage then stage[n] else index[n];
      var cmp := rank(p.pkgver) - rank(cur.pkgver);
      if cmp < 0 && cur.pkgver in p.reverts {
        cmp := 1;
      } else if cmp > 0 && p.pkgver in cur.reverts {
        cmp := -1;
      }
      if cmp <= 0 {
        return stage;
      }
    }
    stage1 := stage[n := p];
  }

  ghost function AddPkg(rank: string -> int, index: Index, stage: Index, n: Name, p: Pkg, force: bool): Index
  {
    var cur := Current(index, stage, n);
    if force || cur == [] || Newer(rank, p, cur[0]) then stage[n := p] else stage
  }

  /** The stage after a list of packages, none forced. */
  ghost function AddAll(rank: string -> int, index: Index, ps: seq<(Name, Pkg)>): Index
  {
    if ps == [] then map[]
    else
      var last := ps[|ps| - 1];
      AddPkg(rank, index, AddAll(rank, index, ps[..|ps| - 1]), last.0, last.1, false)
  }

  ghost predicate Candidate(index: Index, ps: seq<(Name, Pkg)>, n: Name, p: Pkg)
  {
    (n in index && index[n] == p) || (n, p) in ps
  }

  /** Without reverts, in whatever order the packages come, the merged index holds a candidate of the highest version
      for every name. */
  lemma {:induction false} HighestWins(rank: string -> int, index: Index, ps: seq<(Name, Pkg)>, n: Name, p: Pkg)
    requires Candidate(index, ps, n, p)
    requires forall m, q | Candidate(index, ps, m, q) :: q.reverts == {}
    ensures var cur := Current(index, AddAll(rank, index, ps), n);
            cur != [] && Candidate(index, ps, n, cur[0]) && rank(cur[0].pkgver) >= rank(p.pkgver)
  {
    if ps != [] {
      var init, last := ps[..|ps| - 1], ps[|ps| - 1];
      assert ps == init + [last];
      assert forall m, q | Candidate(index, init, m, q) :: Candidate(index, ps, m, q);
      assert Candidate(index, ps, last.0, last.1);
      if Candidate(index, init, n, p) {
        HighestWins(rank, index, init, n, p);
      } else {
        assert last == (n, p);
        if c :| Candidate(index, init, n, c) {
          HighestWins(rank, index, init, n, c);
        } else {
          OnlyCandidates(rank, index, init, n);
        }
      }
    }
  }

  lemma {:induction false} OnlyCandidates(rank: string -> int, index: Index, ps: seq<(Name, Pkg)>, n: Name)
    ensures var cur := Current(index, AddAll(rank, index, ps), n); cur == [] || Candidate(index, ps, n, cur[0])
  {
    if ps != [] {
      var init, last := ps[..|ps| - 1], ps[|ps| - 1];
      assert ps == init + [last];
      OnlyCandidates(rank, index, init, n);
    }
  }

  // ---------------------------------------------------------------- when the order decides

  /** The packages of that name, in order. */
  ghost function Of(ps: seq<(Name, Pkg)>, n: Name): (r: seq<Pkg>)
  {
    if ps == [] then []
    else
      var last := ps[|ps| - 1];
      Of(ps[..|ps| - 1], n) + if last.0 == n then [last.1] else []
  }

  /** What is current after the packages `ps`, if `cur` was before. */
  ghost function Latest(rank: string -> int, cur: seq<Pkg>, ps: seq<Pkg>): seq<Pkg>
  {
    if ps == [] then cur
    else
      var c, p := Latest(rank, cur, ps[..|ps| - 1]), ps[|ps| - 1];
      if c == [] || Newer(rank, p, c[0]) then [p] else c
  }

  /** Names do not interfere: for each, only its own packages and their order count. */
  lemma {:induction false} OwnName(rank: string -> int, index: Index, ps: seq<(Name, Pkg)>, n: Name)
    ensures Current(index, AddAll(rank, index, ps), n) == Latest(rank, Current(index, map[], n), Of(ps, n))
  {
    hide Newer;
    if ps != [] {
      var init, last := ps[..|ps| - 1], ps[|ps| - 1];
      OwnName(rank, index, init, n);
      if last.0 == n {
        assert Of(ps, n)[..|Of(ps, n)| - 1] == Of(init, n);
      } else {
        assert Of(ps, n) == Of(init, n);
      }
    }
  }

  lemma {:induction false} LatestConcat(rank: string -> int, cur: seq<Pkg>, a: seq<Pkg>, b: seq<Pkg>)
    ensures Latest(rank, cur, a + b) == Latest(rank, Latest(rank, cur, a), b)
  {
    hide Newer;
    if b == [] {
      assert a + b == a;
    } else {
      assert (a + b)[..|a + b| - 1] == a + b[..|b| - 1];
      LatestConcat(rank, cur, a, b[..|b| - 1]);
    }
  }

  /** Once replaced, a package that does not come again does not return. */
  lemma {:induction false} NotBack(rank: string -> int, cur: seq<Pkg>, ps: seq<Pkg>, w: Pkg)
    requires w !in ps && cur != [w]
    ensures Latest(rank, cur, ps) != [w]
  {
    hide Newer;
    if ps != [] {
      assert ps[|ps| - 1] in ps;
      assert forall p <- ps[..|ps| - 1] :: p in ps;
      NotBack(rank, cur, ps[..|ps| - 1], w);
    }
  }

  lemma {:induction false} FromThese(rank: string -> int, cur: seq<Pkg>, ps: seq<Pkg>)
    requires |cur| <= 1
    ensures var c := Latest(rank, cur, ps); |c| <= 1 && (c == [] ==> cur == [] && ps == []) && (c == cur || c[0] in ps)
  {
    hide Newer;
    if ps != [] {
      assert ps == ps[..|ps| - 1] + [ps[|ps| - 1]];
      FromThese(rank, cur, ps[..|ps| - 1]);
    }
  }

  /** `ps` is an order of the packages `cs`. */
  ghost predicate Once(ps: seq<Pkg>, cs: set<Pkg>)
  {
    NoDup(ps) && forall p :: p in ps <==> p in cs
  }

  /** Each package of `path` replaces the one before it, and the first replaces `cur`. */
  ghost predicate Climb(rank: string -> int, cur: seq<Pkg>, path: seq<Pkg>)
    decreases |path|
  {
    path == [] || ((cur == [] || Newer(rank, path[0], cur[0])) && Climb(rank, [path[0]], path[1..]))
  }

  ghost function Top(cur: seq<Pkg>, path: seq<Pkg>): seq<Pkg>
  {
    if path == [] then cur else [path[|path| - 1]]
  }

  lemma {:induction false} ClimbLatest(rank: string -> int, cur: seq<Pkg>, path: seq<Pkg>)
    requires Climb(rank, cur, path)
    ensures Latest(rank, cur, path) == Top(cur, path)
    decreases |path|
  {
    hide Newer;
    if path != [] {
      assert path == [path[0]] + path[1..];
      LatestConcat(rank, cur, [path[0]], path[1..]);
      OneStep(rank, cur, path[0]);
      ClimbLatest(rank, [path[0]], path[1..]);
    }
  }

  lemma Distinct(p: Pkg, path: seq<Pkg>)
    requires NoDup(path) && p !in path
    ensures NoDup([p] + path)
  {
  }

  /** The packages that were current one after the other. */
  lemma {:induction false} LatestClimbs(rank: string -> int, cur: seq<Pkg>, ps: seq<Pkg>) returns (path: seq<Pkg>)
    requires NoDup(ps)
    ensures NoDup(path) && (forall q <- path :: q in ps) && Climb(rank, cur, path)
    ensures Latest(rank, cur, ps) == Top(cur, path)
    decreases |ps|
  {
    hide Newer;
    if ps == [] {
      path := [];
    } else {
      var p, rest := ps[0], ps[1..];
      assert ps == [p] + rest;
      LatestConcat(rank, cur, [p], rest);
      OneStep(rank, cur, p);
      path := LatestClimbs(rank, Latest(rank, cur, [p]), rest);
      if cur == [] || Newer(rank, p, cur[0]) {
        Distinct(p, path);
        path := [p] + path;
      }
    }
  }

  /** `c` can be current when only packages of `others` came. */
  ghost predicate Meets(rank: string -> int, cur: seq<Pkg>, others: set<Pkg>, c: Pkg)
  {
    exists path :: NoDup(path) && (forall q <- path :: q in others) && Climb(rank, cur, path) && Top(cur, path) == [c]
  }

  lemma {:induction false} Stands(rank: string -> int, ps: seq<Pkg>, w: Pkg)
    requires forall p <- ps :: !Newer(rank, p, w)
    ensures Latest(rank, [w], ps) == [w]
  {
    hide Newer;
    if ps != [] {
      assert ps[|ps| - 1] in ps;
      Stands(rank, ps[..|ps| - 1], w);
    }
  }

  /** Nothing replaces `w`, and `w` replaces whatever it may meet. */
  ghost predicate Prevails(rank: string -> int, cur: seq<Pkg>, cs: set<Pkg>, w: Pkg)
  {
    && (forall c <- cs :: !Newer(rank, c, w))
    && (cur == [w] || forall c | Meets(rank, cur, cs - {w}, c) :: Newer(rank, w, c))
  }

  lemma Wins(rank: string -> int, cur: seq<Pkg>, cs: set<Pkg>, ps: seq<Pkg>, w: Pkg)
    requires |cur| <= 1 && Prevails(rank, cur, cs, w) && (cur == [w] || w in cs) && Once(ps, cs)
    ensures Latest(rank, cur, ps) == [w]
  {
    hide Newer;
    if cur == [w] {
      Stands(rank, ps, w);
    } else {
      var k :| 0 <= k < |ps| && ps[k] == w;
      var a, b := ps[..k], ps[k + 1..];
      assert ps == a + [w] + b;
      LatestConcat(rank, cur, a + [w], b);
      LatestConcat(rank, cur, a, [w]);
      OneStep(rank, Latest(rank, cur, a), w);
      var path := LatestClimbs(rank, cur, a);
      FromThese(rank, cur, a);
      assert forall c :: Top(cur, path) == [c] ==> Meets(rank, cur, cs - {w}, c);
      Stands(rank, b, w);
    }
  }

  lemma {:induction false} Enumerate(cs: set<Pkg>) returns (ps: seq<Pkg>)
    ensures Once(ps, cs)
  {
    if cs == {} {
      ps := [];
    } else {
      var c :| c in cs;
      var rest := Enumerate(cs - {c});
      ps := rest + [c];
    }
  }

  /** An order that does not leave `w`, which `d` replaces. */
  lemma Replaced(rank: string -> int, cur: seq<Pkg>, cs: set<Pkg>, w: Pkg, d: Pkg) returns (ps: seq<Pkg>)
    requires (cur == [w] || w in cs) && d in cs && Newer(rank, d, w)
    ensures Once(ps, cs) && Latest(rank, cur, ps) != [w]
  {
    NeverBoth(rank, w, d);
    hide Newer;
    var rest := Enumerate(cs - {w, d});
    if w in cs {
      ps := rest + [w, d];
      var c := Latest(rank, cur, rest);
      LatestConcat(rank, cur, rest, [w, d]);
      assert [w] + [d] == [w, d];
      LatestConcat(rank, c, [w], [d]);
      OneStep(rank, Latest(rank, c, [w]), d);
    } else {
      ps := [d] + rest;
      LatestConcat(rank, cur, [d], rest);
      OneStep(rank, cur, d);
      NotBack(rank, Latest(rank, cur, [d]), rest, w);
    }
  }

  lemma Inserted(a: seq<Pkg>, w: Pkg, b: seq<Pkg>)
    requires NoDup(a) && NoDup(b) && w !in a && w !in b && forall p <- a :: p !in b
    ensures NoDup(a + [w] + b)
  {
    var ps := a + [w] + b;
    forall i, j | 0 <= i < j < |ps|
      ensures ps[i] != ps[j]
    {
      assert if j < |a| then ps[j] == a[j] else ps[j] in [w] + b;
      assert if i < |a| then ps[i] == a[i] && ps[i] in a else j > |a| && ps[j] == b[j - |a| - 1] && ps[j] in b;
      assert i > |a| ==> ps[i] == b[i - |a| - 1];
    }
  }

  /** An order that does not leave `w`, which meets one that it does not replace. */
  lemma Stopped(rank: string -> int, cur: seq<Pkg>, cs: set<Pkg>, w: Pkg, d: Pkg) returns (ps: seq<Pkg>)
    requires cur != [w] && w in cs && Meets(rank, cur, cs - {w}, d) && !Newer(rank, w, d)
    ensures Once(ps, cs) && Latest(rank, cur, ps) != [w]
  {
    hide Newer;
    var path :| NoDup(path) && (forall q <- path :: q in cs - {w}) && Climb(rank, cur, path) && Top(cur, path) == [d];
    var rest := Enumerate(cs - {w} - Elements(path));
    ps := path + [w] + rest;
    Inserted(path, w, rest);
    assert forall p :: p in ps <==> p in path || p == w || p in rest;
    ClimbLatest(rank, cur, path);
    LatestConcat(rank, cur, path + [w], rest);
    LatestConcat(rank, cur, path, [w]);
    OneStep(rank, [d], w);
    NotBack(rank, [d], rest, w);
  }

  lemma OneStep(rank: string -> int, cur: seq<Pkg>, p: Pkg)
    ensures Latest(rank, cur, [p]) == if cur == [] || Newer(rank, p, cur[0]) then [p] else cur
  {
    hide Newer;
    assert [p][..0] == [];
    assert Latest(rank, cur, []) == cur;
  }

  lemma {:induction false} Tagged(ps: seq<Pkg>, n: Name) returns (ts: seq<(Name, Pkg)>)
    ensures Of(ts, n) == ps
  {
    if ps == [] {
      ts := [];
    } else {
      var init := Tagged(ps[..|ps| - 1], n);
      ts := init + [(n, ps[|ps| - 1])];
      assert ts[..|ts| - 1] == init;
    }
  }

  /** The packages `cs` of the name leave `w`, whatever order they come in and whatever comes between them. */
  ghost predicate AlwaysLeaves(rank: string -> int, index: Index, n: Name, cs: set<Pkg>, w: Pkg)
  {
    forall ps | Once(Of(ps, n), cs) :: Current(index, AddAll(rank, index, ps), n) == [w]
  }

  /** Every order leaves `w` exactly when no other package replaces it and, unless it is the entry of the index already,
      it replaces whatever it can meet when its turn comes. */
  lemma OrderDecides(rank: string -> int, index: Index, n: Name, cs: set<Pkg>, w: Pkg)
    requires w in cs || (n in index && index[n] == w)
    ensures AlwaysLeaves(rank, index, n, cs, w) <==> Prevails(rank, Current(index, map[], n), cs, w)
  {
    hide Newer, AddAll, Of, Meets;
    var cur := Current(index, map[], n);
    if Prevails(rank, cur, cs, w) {
      forall ps | Once(Of(ps, n), cs)
        ensures Current(index, AddAll(rank, index, ps), n) == [w]
      {
        OwnName(rank, index, ps, n);
        Wins(rank, cur, cs, Of(ps, n), w);
      }
    } else {
      var order;
      if d :| d in cs && Newer(rank, d, w) {
        order := Replaced(rank, cur, cs, w, d);
      } else {
        var d :| Meets(rank, cur, cs - {w}, d) && !Newer(rank, w, d);
        order := Stopped(rank, cur, cs, w, d);
      }
      var ps := Tagged(order, n);
      OwnName(rank, index, ps, n);
      assert !AlwaysLeaves(rank, index, n, cs, w);
    }
  }

  /** The entry of the index stays exactly if nothing replaces it. */
  lemma EntryStays(rank: string -> int, index: Index, n: Name, cs: set<Pkg>)
    requires n in index
    ensures AlwaysLeaves(rank, index, n, cs, index[n]) <==> forall c <- cs :: !Newer(rank, c, index[n])
  {
    hide Newer, Meets, AlwaysLeaves;
    OrderDecides(rank, index, n, cs, index[n]);
  }

  /** A package that comes stays exactly if it is newer than every other candidate, where the index has no entry of the
      name, or no other candidate has its version. */
  lemma NewestStays(rank: string -> int, index: Index, n: Name, cs: set<Pkg>, w: Pkg)
    requires w in cs && (n in index ==> index[n] != w)
    requires n in index ==> forall c | (c in cs || c == index[n]) && c != w :: rank(c.pkgver) != rank(w.pkgver)
    ensures AlwaysLeaves(rank, index, n, cs, w) <==>
            forall c | (c in cs || (n in index && c == index[n])) && c != w :: Newer(rank, w, c)
  {
    hide Newer, AlwaysLeaves, Meets;
    var cur := Current(index, map[], n);
    OrderDecides(rank, index, n, cs, w);
    forall c <- cs
      ensures rank(c.pkgver) != rank(w.pkgver) ==> (Newer(rank, w, c) <==> !Newer(rank, c, w))
      ensures c == w || Newer(rank, w, c) ==> !Newer(rank, c, w)
    {
      NeverBoth(rank, w, c);
    }
    forall c
      ensures Meets(rank, cur, cs - {w}, c) ==> c in cs - {w} || cur == [c]
      ensures cur == [c] || (cur == [] && c in cs - {w}) ==> Meets(rank, cur, cs - {w}, c)
    {
      MeetsAt(rank, cur, cs - {w}, c);
    }
  }

  lemma MeetsAt(rank: string -> int, cur: seq<Pkg>, others: set<Pkg>, c: Pkg)
    ensures Meets(rank, cur, others, c) ==> c in others || cur == [c]
    ensures cur == [c] || (cur == [] && c in others) ==> Meets(rank, cur, others, c)
  {
    hide Newer;
    assert Climb(rank, cur, []) && Top(cur, []) == cur;
    assert cur == [] ==> Climb(rank, cur, [c]) && Top(cur, [c]) == [c];
  }

  /** Two different versions never depend on the order. */
  lemma TwoAgree(rank: string -> int, index: Index, n: Name, a: Pkg, b: Pkg)
    requires n !in index && rank(a.pkgver) != rank(b.pkgver)
    ensures AlwaysLeaves(rank, index, n, {a, b}, if Newer(rank, a, b) then a else b)
  {
    NeverBoth(rank, a, b);
    NewestStays(rank, index, n, {a, b}, if Newer(rank, a, b) then a else b);
  }

  /** Three can: where each is newer than the one before, round and round, no package is left by every order.  That
      happens when the lowest of three versions reverts the highest, and nothing else is reverted. */
  lemma RevertsCycle(rank: string -> int, index: Index, n: Name, a: Pkg, b: Pkg, c: Pkg)
    requires n !in index && rank(a.pkgver) < rank(b.pkgver) < rank(c.pkgver)
    requires a.reverts == {c.pkgver} && b.reverts == {} && c.reverts == {}
    ensures Newer(rank, b, a) && Newer(rank, c, b) && Newer(rank, a, c)
    ensures forall w <- {a, b, c} :: !AlwaysLeaves(rank, index, n, {a, b, c}, w)
    ensures AddAll(rank, index, [(n, a), (n, b), (n, c)]) == map[n := c]
    ensures AddAll(rank, index, [(n, b), (n, c), (n, a)]) == map[n := a]
  {
    NeverBoth(rank, a, b);
    NeverBoth(rank, b, c);
    NeverBoth(rank, a, c);
    assert Newer(rank, b, a) && Newer(rank, c, b) && Newer(rank, a, c);
    assert a != b && b != c && a != c;
    hide Newer, AlwaysLeaves;
    forall w | w in {a, b, c}
      ensures !AlwaysLeaves(rank, index, n, {a, b, c}, w)
    {
      NewestStays(rank, index, n, {a, b, c}, w);
    }
    ThreeAdds(rank, index, n, a, b, c);
    ThreeAdds(rank, index, n, b, c, a);
  }

  lemma ThreeAdds(rank: string -> int, index: Index, n: Name, x: Pkg, y: Pkg, z: Pkg)
    requires n !in index && Newer(rank, y, x) && Newer(rank, z, y)
    ensures AddAll(rank, index, [(n, x), (n, y), (n, z)]) == map[n := z]
  {
    hide Newer;
    var ps := [(n, x), (n, y), (n, z)];
    assert ps[..2] == [(n, x), (n, y)] && ps[..2][..1] == [(n, x)] && [(n, x)][..0] == [];
    assert AddAll(rank, index, [(n, x)]) == map[n := x];
    assert AddAll(rank, index, ps[..2]) == map[n := y];
  }
}
