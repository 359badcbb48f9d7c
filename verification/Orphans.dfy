/** The reverse dependency index of the installed packages, and the two searches for packages that nothing needs any
    more.  A package stands for its name, its pkgver and its dictionary alike. */
module Orphans {
  import opened Common
  import FullDepTree

  type Name = FullDepTree.Name

  /** deps: the names in run_depends; provided: the names the package provides itself. */
  datatype Pkg = Pkg(automatic: bool, deps: seq<Name>, provided: set<Name>)

  type Db = map<Name, Pkg>

  /** What the configuration of virtual packages makes of a name. */
  type Conf = map<Name, Name>

  function Target(conf: Conf, d: Name): Name
  {
    if d in conf then conf[d] else d
  }

  /** One of the first `k` names leads to `d`. */
  ghost predicate NeedsBy(conf: Conf, deps: seq<Name>, k: nat, d: Name)
  {
    exists j :: 0 <= j < k && j < |deps| && Target(conf, deps[j]) == d
  }

  ghost predicate Needs(db: Db, conf: Conf, p: Name, d: Name)
  {
    p in db && NeedsBy(conf, db[p].deps, |db[p].deps|, d)
  }

  /** Lists every installed package once: the order a dictionary iterator follows. */
  ghost predicate Lists(order: seq<Name>, db: Db)
  {
    NoDup(order) && forall p :: p in order <==> p in db
  }

  // ---------------------------------------------------------------- the index

  /** The packages of `order` that need `d`, in that order. */
  ghost function Dependents(db: Db, conf: Conf, d: Name, order: seq<Name>): (r: seq<Name>)
    ensures forall p :: p in r <==> p in order && Needs(db, conf, p, d)
    ensures NoDup(order) ==> NoDup(r)
  {
    if order == [] then []
    else
      var init, p := order[..|order| - 1], order[|order| - 1];
      assert order == init + [p];
      Dependents(db, conf, d, init) + if Needs(db, conf, p, d) then [p] else []
  }

  type Index = map<Name, seq<Name>>

  function Lookup(rev: Index, d: Name): seq<Name>
  {
    if d in rev then rev[d] else []
  }

  /** The index inverts the dependencies: under each name exactly the packages that need it, each once. */
  ghost predicate Inverts(db: Db, conf: Conf, rev: Index)
  {
    forall d :: NoDup(Lookup(rev, d)) && forall p :: p in Lookup(rev, d) <==> Needs(db, conf, p, d)
  }

  /** `rev` is `rev0` with `p` added once to each list that one of its first `k` dependencies leads to. */
  ghost predicate Filed(conf: Conf, deps: seq<Name>, k: nat, p: Name, rev0: Index, rev: Index)
  {
    && (forall d <- rev :: rev[d] != [])
    && forall d :: Lookup(rev, d) == if NeedsBy(conf, deps, k, d) then Lookup(rev0, d) + [p] else Lookup(rev0, d)
  }

  /** Files `p` under everything it needs. */
  method AddRundeps(conf: Conf, deps: seq<Name>, p: Name, rev0: Index, cache0: Conf) returns (rev: Index, cache: Conf)
    requires forall d <- cache0 :: cache0[d] == Target(conf, d)
    requires forall d <- rev0 :: rev0[d] != [] && p !in rev0[d]
    ensures forall d <- cache :: cache[d] == Target(conf, d)
    ensures Filed(conf, deps, |deps|, p, rev0, rev)
  {
    hide NeedsBy, Filed;
    rev, cache := rev0, cache0;
    FileNone(conf, deps, p, rev0);
    for k := 0 to |deps|
      invariant forall d <- cache :: cache[d] == Target(conf, d)
      invariant Filed(conf, deps, k, p, rev0, rev)
    {
      if deps[k] !in cache {
        cache := cache[deps[k] := Target(conf, deps[k])];
      }
      var v := cache[deps[k]];
      FileOne(conf, deps, k, p, rev0, rev);
      if p !in Lookup(rev, v) {
        rev := rev[v := Lookup(rev, v) + [p]];
      }
    }
  }

  lemma FileNone(conf: Conf, deps: seq<Name>, p: Name, rev: Index)
    requires forall d <- rev :: rev[d] != []
    ensures Filed(conf, deps, 0, p, rev, rev)
  {
  }

  lemma FileOne(conf: Conf, deps: seq<Name>, k: nat, p: Name, rev0: Index, rev: Index)
    requires k < |deps| && Filed(conf, deps, k, p, rev0, rev) && forall d <- rev0 :: p !in rev0[d]
    ensures var v := Target(conf, deps[k]);
            Filed(conf, deps, k + 1, p, rev0, if p in Lookup(rev, v) then rev else rev[v := Lookup(rev, v) + [p]])
  {
    hide NeedsBy;
    OneMore(conf, deps, k);
    var v := Target(conf, deps[k]);
    var rev1 := if p in Lookup(rev, v) then rev else rev[v := Lookup(rev, v) + [p]];
    assert p !in Lookup(rev0, v);
    assert p in Lookup(rev, v) <==> NeedsBy(conf, deps, k, v);
    forall d
      ensures Lookup(rev1, d) == if NeedsBy(conf, deps, k + 1, d) then Lookup(rev0, d) + [p] else Lookup(rev0, d)
    {
      assert Lookup(rev1, d) == if d == v && p !in Lookup(rev, v) then Lookup(rev, v) + [p] else Lookup(rev, d);
    }
  }

  /** The index of the first packages of `order`. */
  ghost predicate Mirrors(db: Db, conf: Conf, order: seq<Name>, rev: Index)
  {
    && (forall d <- rev :: rev[d] != [])
    && forall d :: Lookup(rev, d) == Dependents(db, conf, d, order)
  }

  method GenerateFullRevdepsTree(db: Db, conf: Conf, order: seq<Name>) returns (rev: Index)
    requires Lists(order, db)
    ensures Mirrors(db, conf, order, rev) && Inverts(db, conf, rev)
  {
    hide NeedsBy, Needs, Filed, Mirrors, Inverts;
    rev := map[];
    var cache: Conf := map[];
    MirrorsNothing(db, conf, rev);
    for i := 0 to |order|
      invariant forall d <- cache :: cache[d] == Target(conf, d)
      invariant Mirrors(db, conf, order[..i], rev)
    {
      NotFiled(db, conf, order, i, rev);
      ghost var rev0 := rev;
      rev, cache := AddRundeps(conf, db[order[i]].deps, order[i], rev, cache);
      NextDependents(db, conf, order, i, rev0, rev);
    }
    assert order[..|order|] == order;
    MirrorInverts(db, conf, order, rev);
  }

  lemma MirrorsNothing(db: Db, conf: Conf, rev: Index)
    requires rev == map[]
    ensures forall order: seq<Name> | order == [] :: Mirrors(db, conf, order, rev)
  {
  }

  lemma NotFiled(db: Db, conf: Conf, order: seq<Name>, i: nat, rev: Index)
    requires i < |order| && NoDup(order) && Mirrors(db, conf, order[..i], rev)
    ensures forall d <- rev :: rev[d] != [] && order[i] !in rev[d]
  {
    hide Needs;
    forall d <- rev
      ensures order[i] !in rev[d]
    {
      assert rev[d] == Lookup(rev, d) == Dependents(db, conf, d, order[..i]);
      assert order[i] !in order[..i];
    }
  }

  lemma NextDependents(db: Db, conf: Conf, order: seq<Name>, i: nat, rev0: Index, rev: Index)
    requires i < |order| && order[i] in db && Mirrors(db, conf, order[..i], rev0)
    requires Filed(conf, db[order[i]].deps, |db[order[i]].deps|, order[i], rev0, rev)
    ensures Mirrors(db, conf, order[..i + 1], rev)
  {
    hide NeedsBy;
    var t := order[..i + 1];
    assert t[..|t| - 1] == order[..i];
  }

  lemma MirrorInverts(db: Db, conf: Conf, order: seq<Name>, rev: Index)
    requires Lists(order, db) && Mirrors(db, conf, order, rev)
    ensures Inverts(db, conf, rev)
  {
  }

  lemma OneMore(conf: Conf, deps: seq<Name>, k: nat)
    requires k < |deps|
    ensures forall d :: NeedsBy(conf, deps, k + 1, d) <==> NeedsBy(conf, deps, k, d) || d == Target(conf, deps[k])
  {
    forall d
      ensures NeedsBy(conf, deps, k + 1, d) <==> NeedsBy(conf, deps, k, d) || d == Target(conf, deps[k])
    {
      if NeedsBy(conf, deps, k + 1, d) {
        var j :| 0 <= j < k + 1 && j < |deps| && Target(conf, deps[j]) == d;
      }
    }
  }

  // ---------------------------------------------------------------- automatic mode

  /** Everything that needs `p` is in `s`. */
  ghost predicate Freed(db: Db, conf: Conf, s: seq<Name>, p: Name)
  {
    forall q | Needs(db, conf, q, p) :: q in s
  }

  /** A set that holds every automatic package all of whose dependents it holds. */
  ghost predicate Absorbs(db: Db, conf: Conf, s: set<Name>)
  {
    forall p | p in db && db[p].automatic && (forall q | Needs(db, conf, q, p) :: q in s) :: p in s
  }

  /** Installed automatic packages, each once, each after everything that needs it. */
  ghost predicate Peeled(db: Db, conf: Conf, list: seq<Name>)
  {
    && NoDup(list)
    && forall j | 0 <= j < |list| ::
         list[j] in db && db[list[j]].automatic && Freed(db, conf, list[..j], list[j])
  }

  method CountListed(list: seq<Name>, names: seq<Name>) returns (cnt: nat)
    ensures cnt <= |names|
    ensures cnt == |names| <==> forall p <- names :: p in list
  {
    cnt := 0;
    for i := 0 to |names|
      invariant cnt <= i
      invariant cnt == i <==> forall k | 0 <= k < i :: names[k] in list
    {
      if names[i] in list {
        cnt := cnt + 1;
      }
    }
  }

  /** One pass over the installed packages. */
  method Pass(db: Db, conf: Conf, order: seq<Name>, rev: Index, list0: seq<Name>)
    returns (list: seq<Name>, added: bool)
    requires Lists(order, db) && Inverts(db, conf, rev) && Peeled(db, conf, list0)
    ensures Peeled(db, conf, list)
    ensures list0 <= list && (added <==> |list| > |list0|)
    ensures !added ==> Absorbs(db, conf, Elements(list))
  {
    list, added := list0, false;
    for i := 0 to |order|
      invariant Peeled(db, conf, list) && list0 <= list && (added <==> |list| > |list0|)
      invariant !added ==> forall k | 0 <= k < i && db[order[k]].automatic && Freed(db, conf, list, order[k]) ::
                  order[k] in list
    {
      var p := order[i];
      if !db[p].automatic || p in list {
        continue;
      }
      var revdeps := Lookup(rev, p);
      var cnt := CountListed(list, revdeps);
      if |revdeps| == 0 || cnt == |revdeps| {
        assert Freed(db, conf, list, p);
        AppendPeeled(db, conf, list, p);
        added, list := true, list + [p];
      } else {
        assert exists q <- revdeps :: q !in list;
      }
    }
    if !added {
      forall p | p in db && db[p].automatic && (forall q | Needs(db, conf, q, p) :: q in Elements(list))
        ensures p in Elements(list)
      {
        assert p in order && Freed(db, conf, list, p);
      }
    }
  }

  lemma AppendPeeled(db: Db, conf: Conf, list: seq<Name>, p: Name)
    requires Peeled(db, conf, list) && p in db && db[p].automatic && p !in list && Freed(db, conf, list, p)
    ensures Peeled(db, conf, list + [p])
  {
    var t := list + [p];
    forall j | 0 <= j < |t|
      ensures t[j] in db && db[t[j]].automatic && Freed(db, conf, t[..j], t[j])
    {
      assert t[..j] == list[..j];
    }
  }

  /** The orphans: removed together, they leave nothing behind that needs one of them. */
  method FindOrphans(db: Db, conf: Conf, order: seq<Name>) returns (list: seq<Name>)
    requires Lists(order, db)
    ensures Peeled(db, conf, list) && Absorbs(db, conf, Elements(list))
  {
    var rev := GenerateFullRevdepsTree(db, conf, order);
    list := [];
    while true
      invariant Peeled(db, conf, list)
      decreases |db| - |list|
    {
      ghost var n := |list|;
      var added: bool;
      list, added := Pass(db, conf, order, rev, list);
      Few(db, list);
      if !added {
        break;
      }
    }
  }

  lemma Few(db: Db, list: seq<Name>)
    requires NoDup(list) && forall p <- list :: p in db
    ensures |list| <= |db|
  {
    Count(list);
    Smaller(Elements(list), db.Keys);
  }

  lemma {:induction false} Count(list: seq<Name>)
    requires NoDup(list)
    ensures |Elements(list)| == |list|
  {
    if list != [] {
      var init, p := list[..|list| - 1], list[|list| - 1];
      Count(init);
      assert list == init + [p];
      assert Elements(list) == Elements(init) + {p};
      assert p !in init;
    }
  }

  /** Whatever the order of iteration was, the orphans are the least set that absorbs. */
  lemma {:induction false} OrphansLeast(db: Db, conf: Conf, list: seq<Name>, s: set<Name>)
    requires Peeled(db, conf, list) && Absorbs(db, conf, s)
    ensures Elements(list) <= s
  {
    hide Peeled, Absorbs;
    if list != [] {
      assert list == list[..|list| - 1] + [list[|list| - 1]];
      PrefixPeeled(db, conf, list);
      OrphansLeast(db, conf, list[..|list| - 1], s);
      LastAbsorbed(db, conf, list, s);
    }
  }

  lemma PrefixPeeled(db: Db, conf: Conf, list: seq<Name>)
    requires list != [] && Peeled(db, conf, list)
    ensures Peeled(db, conf, list[..|list| - 1])
  {
    hide Freed;
    var init := list[..|list| - 1];
    forall j | 0 <= j < |init|
      ensures init[j] in db && db[init[j]].automatic && Freed(db, conf, init[..j], init[j])
    {
      assert init[j] == list[j] && init[..j] == list[..j];
    }
  }

  lemma LastAbsorbed(db: Db, conf: Conf, list: seq<Name>, s: set<Name>)
    requires list != [] && Peeled(db, conf, list) && Absorbs(db, conf, s) && Elements(list[..|list| - 1]) <= s
    ensures list[|list| - 1] in s
  {
    hide Needs;
    var m := |list| - 1;
    assert Freed(db, conf, list[..m], list[m]);
    forall q | Needs(db, conf, q, list[m])
      ensures q in s
    {
      assert q in list[..m];
      assert q in Elements(list[..m]);
    }
  }

  lemma OrphansUnique(db: Db, conf: Conf, a: seq<Name>, b: seq<Name>)
    requires Peeled(db, conf, a) && Absorbs(db, conf, Elements(a))
    requires Peeled(db, conf, b) && Absorbs(db, conf, Elements(b))
    ensures Elements(a) == Elements(b) && |a| == |b|
  {
    OrphansLeast(db, conf, a, Elements(b));
    OrphansLeast(db, conf, b, Elements(a));
    Count(a);
    Count(b);
  }

  /** Nothing that stays needs an orphan. */
  lemma RemainingIntact(db: Db, conf: Conf, list: seq<Name>, p: Name, d: Name)
    requires Peeled(db, conf, list) && Needs(db, conf, p, d) && d in list
    ensures p in list
  {
    var j :| 0 <= j < |list| && list[j] == d;
    assert Freed(db, conf, list[..j], d);
    assert p in list[..j];
  }

  /** In terms of the names that packages ask for: whoever stays keeps the package of a name, which is the one that the
      configuration of virtual packages gives for it, or the one of that name if it gives none. */
  lemma DependenciesStay(db: Db, conf: Conf, list: seq<Name>, p: Name, d: Name)
    requires Peeled(db, conf, list) && p in db && d in db[p].deps && p !in list
    ensures d in conf ==> conf[d] !in list
    ensures d !in conf ==> d !in list
  {
    var j :| 0 <= j < |db[p].deps| && db[p].deps[j] == d;
    assert Needs(db, conf, p, Target(conf, d));
    if Target(conf, d) in list {
      RemainingIntact(db, conf, list, p, Target(conf, d));
    }
  }

  // ---------------------------------------------------------------- recursive mode

  /** The dependency graph the full tree walks: a name that is not installed is skipped, and so is one that the package
      provides itself. */
  function Graph(db: Db): (g: FullDepTree.Repo)
    ensures FullDepTree.Resolves(g)
  {
    map p | p in db ::
      FullDepTree.Pkg(p, seq(|db[p].deps|, i requires 0 <= i < |db[p].deps| =>
        FullDepTree.Dep(db[p].deps[i], db[p].deps[i] !in db, db[p].deps[i] in db[p].provided)))
  }

  /** The tree and the index see the same dependencies between installed packages. */
  ghost predicate Agree(db: Db, conf: Conf)
  {
    forall p, d | d in db :: FullDepTree.Edge(Graph(db), p, d) <==> Needs(db, conf, p, d)
  }

  ghost predicate Below(db: Db, p: Name, d: Name)
  {
    FullDepTree.Reaches(Graph(db), p, d)
  }

  /** What the search appends to the `n` packages it was given. */
  ghost predicate Appended(db: Db, conf: Conf, list: seq<Name>, n: nat)
  {
    forall j | n <= j < |list| ::
      && list[j] in db && db[list[j]].automatic && list[j] !in list[..j]
      && Freed(db, conf, list[..j], list[j])
      && exists i | 0 <= i < j :: Below(db, list[i], list[j])
  }

  /** What is listed when the i-th package is reached: the `n` that were given, itself and all before it, at least. */
  ghost function Seen(list: seq<Name>, n: nat, i: nat): seq<Name>
    requires n <= |list| && i < |list|
  {
    if i < n then list[..n] else list[..i + 1]
  }

  /** Everything below the first `m` packages that was freed when they were reached is listed. */
  ghost predicate Swept(db: Db, conf: Conf, list: seq<Name>, n: nat, m: nat)
    requires n <= |list|
  {
    forall i, d | 0 <= i < m && i < |list| && Below(db, list[i], d) && d in db && db[d].automatic
                  && Freed(db, conf, Seen(list, n, i), d) ::
      d in list
  }

  /** The packages the user named that are installed, as often as they were named. */
  ghost function Installed(db: Db, user: seq<Name>): (r: seq<Name>)
    ensures forall p :: p in r <==> p in user && p in db
  {
    if user == [] then []
    else
      assert user == user[..|user| - 1] + [user[|user| - 1]];
      Installed(db, user[..|user| - 1]) + if user[|user| - 1] in db then [user[|user| - 1]] else []
  }

  method FindRecursive(db: Db, conf: Conf, order: seq<Name>, user: seq<Name>) returns (list: seq<Name>)
    requires Lists(order, db)
    ensures Installed(db, user) <= list
    ensures Appended(db, conf, list, |Installed(db, user)|)
    ensures Swept(db, conf, list, |Installed(db, user)|, |list|)
  {
    var rev := GenerateFullRevdepsTree(db, conf, order);
    list := [];
    for i := 0 to |user|
      invariant list == Installed(db, user[..i])
    {
      assert user[..i + 1][..i] == user[..i];
      if user[i] in db {
        list := list + [user[i]];
      }
    }
    assert user[..|user|] == user;
    ghost var start := list;
    var i := 0;
    while i < |list|
      invariant i <= |list| && start <= list && forall p <- list :: p in db
      invariant Appended(db, conf, list, |start|) && Swept(db, conf, list, |start|, i)
      decreases |db| - |Elements(list)|, |list| - i
    {
      ghost var list0 := list;
      list := Sweep(db, conf, rev, list, i, |start|);
      Grows(db, list0, list);
      i := i + 1;
    }
  }

  lemma Grows(db: Db, list0: seq<Name>, list: seq<Name>)
    requires list0 <= list && forall p <- list :: p in db
    requires forall j | |list0| <= j < |list| :: list[j] !in list[..j]
    ensures |Elements(list)| <= |db|
    ensures list == list0 || |Elements(list)| > |Elements(list0)|
  {
    Smaller(Elements(list), db.Keys);
    if list != list0 {
      var j := |list0|;
      assert list[..j] == list0;
      Smaller(Elements(list0) + {list[j]}, Elements(list));
    }
  }

  /** Handles the i-th package of the worklist. */
  method Sweep(db: Db, conf: Conf, rev: Index, list0: seq<Name>, i: nat, ghost n: nat) returns (list: seq<Name>)
    requires Inverts(db, conf, rev) && i < |list0| && n <= |list0| && forall p <- list0 :: p in db
    requires Appended(db, conf, list0, n) && Swept(db, conf, list0, n, i)
    ensures list0 <= list && (forall p <- list :: p in db)
    ensures Appended(db, conf, list, n) && Swept(db, conf, list, n, i + 1)
    ensures forall j | |list0| <= j < |list| :: list[j] !in list[..j]
  {
    hide Swept, Appended, Inverts, Freed, Below, FullDepTree.Reaches, FullDepTree.Resolves, NoDup;
    list := list0;
    var ok, rdeps := FullDepTree.GetPkgFulldeptree(Graph(db), false, list[i], map[]);
    TreeBelow(db, list[i], rdeps);
    if |rdeps| == 0 {
      NothingBelow(db, conf, list, n, i);
      return;
    }
    for x := 0 to |rdeps|
      invariant list0 <= list && (forall p <- list :: p in db)
      invariant Appended(db, conf, list, n)
      invariant forall j | |list0| <= j < |list| :: list[j] !in list[..j]
      invariant forall k | 0 <= k < x && db[rdeps[k]].automatic && Freed(db, conf, list0, rdeps[k]) :: rdeps[k] in list
    {
      var d := rdeps[x];
      if d in list || !db[d].automatic {
        continue;
      }
      var reqby := Lookup(rev, d);
      var cnt := CountListed(list, reqby);
      AllListed(db, conf, rev, list0, list, d);
      if cnt == |reqby| {
        AppendOne(db, conf, list, n, i, d);
        list := list + [d];
      }
    }
    SweptMore(db, conf, list0, list, n, i, rdeps);
  }

  lemma AllListed(db: Db, conf: Conf, rev: Index, list0: seq<Name>, list: seq<Name>, d: Name)
    requires Inverts(db, conf, rev) && list0 <= list
    ensures (forall p <- Lookup(rev, d) :: p in list) <==> Freed(db, conf, list, d)
    ensures Freed(db, conf, list0, d) ==> Freed(db, conf, list, d)
  {
    hide Needs;
  }

  lemma TreeBelow(db: Db, p: Name, rdeps: seq<Name>)
    requires forall v :: v in rdeps <==>
               exists d :: FullDepTree.Reaches(Graph(db), p, d) && d in Graph(db) && Graph(db)[d].pkgver == v
    ensures forall d :: d in rdeps <==> Below(db, p, d) && d in db
  {
    forall d
      ensures d in rdeps <==> Below(db, p, d) && d in db
    {
      if Below(db, p, d) && d in db {
        assert Graph(db)[d].pkgver == d;
      }
    }
  }

  lemma NothingBelow(db: Db, conf: Conf, list: seq<Name>, n: nat, i: nat)
    requires n <= |list| && i < |list| && Swept(db, conf, list, n, i) && forall d :: !(Below(db, list[i], d) && d in db)
    ensures Swept(db, conf, list, n, i + 1)
  {
    hide Below, Freed;
  }

  lemma AppendOne(db: Db, conf: Conf, list: seq<Name>, n: nat, i: nat, d: Name)
    requires Appended(db, conf, list, n) && i < |list|
    requires d in db && db[d].automatic && d !in list && Freed(db, conf, list, d) && Below(db, list[i], d)
    ensures Appended(db, conf, list + [d], n)
  {
    hide Freed, Below;
    var t := list + [d];
    forall j | n <= j < |t|
      ensures t[j] in db && db[t[j]].automatic && t[j] !in t[..j]
      ensures Freed(db, conf, t[..j], t[j]) && exists i | 0 <= i < j :: Below(db, t[i], t[j])
    {
      assert t[..j] == list[..j];
      if j == |list| {
        assert list[..j] == list && t[i] == list[i] && t[j] == d;
      } else {
        var k :| 0 <= k < j && Below(db, list[k], list[j]);
        assert t[k] == list[k] && t[j] == list[j];
      }
    }
  }

  lemma SweptMore(db: Db, conf: Conf, list0: seq<Name>, list: seq<Name>, n: nat, i: nat, rdeps: seq<Name>)
    requires list0 <= list && i < |list0| && n <= |list0| && Swept(db, conf, list0, n, i)
    requires forall d :: d in rdeps <==> Below(db, list0[i], d) && d in db
    requires forall k | 0 <= k < |rdeps| && db[rdeps[k]].automatic && Freed(db, conf, list0, rdeps[k]) ::
               rdeps[k] in list
    ensures Swept(db, conf, list, n, i + 1)
  {
    hide Below;
    forall k, d | 0 <= k < i + 1 && Below(db, list[k], d) && d in db && db[d].automatic
                  && Freed(db, conf, Seen(list, n, k), d)
      ensures d in list
    {
      assert list[k] == list0[k] && list[..k + 1] == list0[..k + 1] && list[..n] == list0[..n];
      if k == i {
        assert Freed(db, conf, list0, d);
        assert d in rdeps;
      }
    }
  }

  /** Nothing was forgotten: an automatic package that something needs, all of whose dependents end up listed, is listed
      too, provided the full tree of each dependent shows it. */
  lemma RecursiveComplete(db: Db, conf: Conf, list: seq<Name>, n: nat, d: Name)
    requires n <= |list| && Swept(db, conf, list, n, |list|) && forall q | Needs(db, conf, q, d) :: Below(db, q, d)
    requires d in db && db[d].automatic && (exists q :: Needs(db, conf, q, d)) && Freed(db, conf, list, d)
    ensures d in list
  {
    hide Below, Needs;
    var q :| Needs(db, conf, q, d);
    var j := LastDependent(db, conf, list, d, q);
    assert Below(db, list[j], d);
    assert j < n ==> list[..j + 1] <= list[..n];
    assert Freed(db, conf, Seen(list, n, j), d);
  }

  /** A package is shown by `q`, that is, its tree has an edge to it, exactly when `q` depends on its name and does not
      provide it. */
  lemma ShownExactly(db: Db, q: Name, d: Name)
    ensures FullDepTree.Edge(Graph(db), q, d) <==>
            q in db && d in db && d in db[q].deps && d !in db[q].provided
  {
    var g := Graph(db);
    if q in db && d in db {
      assert |g[q].deps| == |db[q].deps|;
      assert forall k | 0 <= k < |db[q].deps| :: g[q].deps[k].name == db[q].deps[k] && g[q].deps[k] in g[q].deps;
    }
  }

  /** If anything shows `d`, every dependent does. */
  ghost predicate Alike(db: Db, conf: Conf, d: Name)
  {
    forall p, q | Needs(db, conf, p, d) && FullDepTree.Edge(Graph(db), q, d) :: FullDepTree.Edge(Graph(db), p, d)
  }

  /** A package that nobody shows is never appended. */
  lemma NeverShown(db: Db, conf: Conf, list: seq<Name>, n: nat, d: Name)
    requires n <= |list| && Appended(db, conf, list, n) && d !in list[..n]
    requires forall q :: !FullDepTree.Edge(Graph(db), q, d)
    ensures d !in list
  {
    hide Freed, FullDepTree.Edge;
    assert forall k | 0 <= k < n :: list[k] == list[..n][k];
    if j :| 0 <= j < |list| && list[j] == d {
      var i := Above(db, conf, list, n, j);
      LastEdge(Graph(db), list[i], d);
    }
  }

  lemma Above(db: Db, conf: Conf, list: seq<Name>, n: nat, j: nat) returns (i: nat)
    requires n <= j < |list| && Appended(db, conf, list, n)
    ensures i < j && Below(db, list[i], list[j])
  {
    hide Below, Freed;
    assert list[j] !in list[..j];
    i :| 0 <= i < j && Below(db, list[i], list[j]);
  }

  /** When the search ends with all the dependents of a needed automatic package listed, and these are alike, then the
      package, unless it was given, is listed exactly if something shows it. */
  lemma RecursiveExactly(db: Db, conf: Conf, list: seq<Name>, n: nat, d: Name)
    requires n <= |list| && Appended(db, conf, list, n) && Swept(db, conf, list, n, |list|)
    requires d in db && db[d].automatic && (exists q :: Needs(db, conf, q, d)) && Freed(db, conf, list, d)
    requires Alike(db, conf, d) && d !in list[..n]
    ensures d in list <==> exists q :: FullDepTree.Edge(Graph(db), q, d)
  {
    hide Freed, Needs, Appended, Swept, FullDepTree.Edge;
    if q :| FullDepTree.Edge(Graph(db), q, d) {
      forall p | Needs(db, conf, p, d)
        ensures Below(db, p, d)
      {
        FullDepTree.Extend(Graph(db), p, p, d);
      }
      RecursiveComplete(db, conf, list, n, d);
    } else {
      NeverShown(db, conf, list, n, d);
    }
  }

  /** A single dependent is like itself, if the configuration leaves the name alone. */
  lemma SoleDependent(db: Db, conf: Conf, d: Name)
    requires Target(conf, d) == d && forall p, q | Needs(db, conf, p, d) && Needs(db, conf, q, d) :: p == q
    ensures Alike(db, conf, d)
  {
    forall p, q | Needs(db, conf, p, d) && FullDepTree.Edge(Graph(db), q, d)
      ensures FullDepTree.Edge(Graph(db), p, d)
    {
      ShownNeeded(db, conf, q, d);
    }
  }

  lemma ShownNeeded(db: Db, conf: Conf, q: Name, d: Name)
    requires Target(conf, d) == d && FullDepTree.Edge(Graph(db), q, d)
    ensures Needs(db, conf, q, d)
  {
    ShownExactly(db, q, d);
    var k :| 0 <= k < |db[q].deps| && db[q].deps[k] == d;
    assert Target(conf, db[q].deps[k]) == d;
  }

  /** Where every dependent provides the package itself, it is forgotten, whatever else is installed. */
  lemma ProvidedForgotten(db: Db, conf: Conf, list: seq<Name>, n: nat, d: Name)
    requires n <= |list| && Appended(db, conf, list, n) && d !in list[..n]
    requires Target(conf, d) == d && forall q | Needs(db, conf, q, d) :: d in db[q].provided
    ensures d !in list
  {
    hide Appended, Needs;
    forall q
      ensures !FullDepTree.Edge(Graph(db), q, d)
    {
      if FullDepTree.Edge(Graph(db), q, d) {
        ShownNeeded(db, conf, q, d);
        ShownExactly(db, q, d);
      }
    }
    NeverShown(db, conf, list, n, d);
  }

  /** For example: `a` depends on the automatic `b` and provides `b` itself, so removing `a` leaves `b` behind, which
      nothing needs. */
  lemma TwoForgotten(a: Name, b: Name)
    requires a != b
    ensures var db := map[a := Pkg(false, [b], {b}), b := Pkg(true, [], {})];
            && Needs(db, map[], a, b) && Freed(db, map[], [a], b) && !Below(db, a, b)
            && (forall list | Installed(db, [a]) <= list && Appended(db, map[], list, 1) :: list == [a])
  {
    var db := map[a := Pkg(false, [b], {b}), b := Pkg(true, [], {})];
    var deps := db[a].deps;
    assert deps == [b] && db[b].deps == [];
    assert Target(map[], deps[0]) == b;
    assert NeedsBy(map[], deps, |deps|, b);
    var g := Graph(db);
    assert g[a].deps[0] == FullDepTree.Dep(b, false, true) && g[b].deps == [];
    assert forall p, d :: !FullDepTree.Edge(g, p, d);
    forall p, d
      ensures !Below(db, p, d)
    {
      if Below(db, p, d) {
        LastEdge(g, p, d);
      }
    }
    assert [a][..0] == [];
    assert Installed(db, [a][..0]) == [];
    assert Installed(db, [a]) == [a];
    forall list: seq<Name> | Installed(db, [a]) <= list && Appended(db, map[], list, 1)
      ensures list == [a]
    {
      if |list| > 1 {
        FirstAppended(db, map[], list, 1);
      }
    }
  }

  lemma FirstAppended(db: Db, conf: Conf, list: seq<Name>, n: nat)
    requires Appended(db, conf, list, n) && n < |list|
    ensures exists i | 0 <= i < n :: Below(db, list[i], list[n])
  {
    hide Below, Freed;
    assert list[n] !in list[..n];
  }

  lemma LastEdge(g: FullDepTree.Repo, p: Name, d: Name)
    requires FullDepTree.Reaches(g, p, d)
    ensures exists m :: FullDepTree.Edge(g, m, d)
  {
    var n: nat :| n > 0 && FullDepTree.Path(g, p, d, n);
  }

  /** The place by which all the dependents of `d` are listed. */
  lemma LastDependent(db: Db, conf: Conf, list: seq<Name>, d: Name, q: Name) returns (j: nat)
    requires Needs(db, conf, q, d) && Freed(db, conf, list, d)
    ensures j < |list| && Needs(db, conf, list[j], d) && Freed(db, conf, list[..j + 1], d)
  {
    j := |list|;
    assert list[..j] == list;
    while j > 0 && !Needs(db, conf, list[j - 1], d)
      invariant j <= |list| && Freed(db, conf, list[..j], d)
    {
      assert list[..j] == list[..j - 1] + [list[j - 1]];
      j := j - 1;
    }
    assert q in list[..j];
    j := j - 1;
  }

  /** The result holds the given packages, and every needed automatic package whose dependents it holds; of the sets
      that do so it is the least. */
  lemma RecursiveLeast(db: Db, conf: Conf, list: seq<Name>, n: nat)
    requires n <= |list| && Appended(db, conf, list, n) && Swept(db, conf, list, n, |list|) && Agree(db, conf)
    ensures Elements(list[..n]) <= Elements(list) && Keeps(db, conf, Elements(list))
    ensures forall s | Elements(list[..n]) <= s && Keeps(db, conf, s) :: Elements(list) <= s
  {
    RecursiveKeeps(db, conf, list, n);
    hide Appended, Swept, Agree, Keeps;
    forall s | Elements(list[..n]) <= s && Keeps(db, conf, s)
      ensures Elements(list) <= s
    {
      WithinKeeping(db, conf, list, n, s);
    }
  }

  lemma RecursiveKeeps(db: Db, conf: Conf, list: seq<Name>, n: nat)
    requires n <= |list| && Swept(db, conf, list, n, |list|) && Agree(db, conf)
    ensures Keeps(db, conf, Elements(list))
  {
    hide Swept, Needs, FullDepTree.Edge;
    forall d | d in db && db[d].automatic && (exists q :: Needs(db, conf, q, d))
               && (forall q | Needs(db, conf, q, d) :: q in Elements(list))
      ensures d in Elements(list)
    {
      forall p | Needs(db, conf, p, d)
        ensures Below(db, p, d)
      {
        FullDepTree.Extend(Graph(db), p, p, d);
      }
      RecursiveComplete(db, conf, list, n, d);
    }
  }

  lemma {:induction false} WithinKeeping(db: Db, conf: Conf, list: seq<Name>, n: nat, s: set<Name>)
    requires n <= |list| && Appended(db, conf, list, n) && Agree(db, conf)
    requires Elements(list[..n]) <= s && Keeps(db, conf, s)
    ensures Elements(list) <= s
    decreases |list|
  {
    hide Agree, Appended, Keeps, Freed, Needs;
    if |list| == n {
      assert list[..n] == list;
    } else {
      var m := |list| - 1;
      assert list == list[..m] + [list[m]] && list[..m][..n] == list[..n];
      PrefixAppended(db, conf, list, n);
      WithinKeeping(db, conf, list[..m], n, s);
      LastKept(db, conf, list, n, s);
    }
  }

  ghost predicate Keeps(db: Db, conf: Conf, s: set<Name>)
  {
    forall d | d in db && db[d].automatic && (exists q :: Needs(db, conf, q, d))
               && (forall q | Needs(db, conf, q, d) :: q in s) :: d in s
  }

  lemma LastKept(db: Db, conf: Conf, list: seq<Name>, n: nat, s: set<Name>)
    requires n < |list| && Appended(db, conf, list, n) && Agree(db, conf) && Keeps(db, conf, s)
    requires Elements(list[..|list| - 1]) <= s
    ensures list[|list| - 1] in s
  {
    hide Agree, Below, Needs;
    var m := |list| - 1;
    var i :| 0 <= i < m && Below(db, list[i], list[m]);
    SomeNeeds(db, conf, list[i], list[m]);
    forall q | Needs(db, conf, q, list[m])
      ensures q in s
    {
      assert q in list[..m];
      assert q in Elements(list[..m]);
    }
  }

  lemma PrefixAppended(db: Db, conf: Conf, list: seq<Name>, n: nat)
    requires n < |list| && Appended(db, conf, list, n)
    ensures Appended(db, conf, list[..|list| - 1], n)
  {
    hide Freed, Below;
    var init := list[..|list| - 1];
    forall j | n <= j < |init|
      ensures init[j] in db && db[init[j]].automatic && init[j] !in init[..j]
      ensures Freed(db, conf, init[..j], init[j]) && exists i | 0 <= i < j :: Below(db, init[i], init[j])
    {
      assert init[..j] == list[..j] && init[j] == list[j];
      var k :| 0 <= k < j && Below(db, list[k], list[j]);
      assert init[k] == list[k];
    }
  }

  lemma SomeNeeds(db: Db, conf: Conf, p: Name, d: Name)
    requires Agree(db, conf) && Below(db, p, d) && d in db
    ensures exists q :: Needs(db, conf, q, d)
  {
    var n: nat :| n > 0 && FullDepTree.Path(Graph(db), p, d, n);
    var m :| FullDepTree.Path(Graph(db), p, m, n - 1) && FullDepTree.Edge(Graph(db), m, d);
    assert Needs(db, conf, m, d);
  }

  /** What the result leaves installed needs no package that was appended. */
  lemma AppendedUnneeded(db: Db, conf: Conf, list: seq<Name>, n: nat, p: Name, j: nat)
    requires Appended(db, conf, list, n) && n <= j < |list| && Needs(db, conf, p, list[j])
    ensures p in list[..j]
  {
  }
}
