/** The full dependency tree of a package: a depth-first walk that shares a table of items and prepends to one
    result.  It ends on any graph; on an acyclic one the result is a topological order. */
module FullDepTree {
  import opened Common

  type Name = string

  /** One entry of a package's run_depends: the name in it, whether no package answers to it, and whether the package
      itself provides it. */
  datatype Dep = Dep(name: Name, missing: bool, provided: bool)

  datatype Pkg = Pkg(pkgver: string, deps: seq<Dep>)

  type Repo = map<Name, Pkg>

  /** Every dependency that resolves does so to the package of that name, and no two packages share a pkgver. */
  ghost predicate Resolves(repo: Repo)
  {
    && (forall p, e | p in repo && e in repo[p].deps :: !e.missing ==> e.name in repo)
    && (forall p, q | p in repo && q in repo && repo[p].pkgver == repo[q].pkgver :: p == q)
  }

  /** `d` is an effective dependency of `p`. */
  ghost predicate Edge(repo: Repo, p: Name, d: Name)
  {
    p in repo && d in repo && exists e <- repo[p].deps :: e.name == d && !e.missing && !e.provided
  }

  /** `d` is reached from `p` in `n` dependency steps. */
  ghost predicate Path(repo: Repo, p: Name, d: Name, n: nat)
    decreases n
  {
    if n == 0 then p == d else exists m :: Path(repo, p, m, n - 1) && Edge(repo, m, d)
  }

  ghost predicate Reaches(repo: Repo, p: Name, d: Name)
  {
    exists n: nat :: n > 0 && Path(repo, p, d, n)
  }

  lemma Extend(repo: Repo, root: Name, p: Name, d: Name)
    requires (p == root || Reaches(repo, root, p)) && Edge(repo, p, d)
    ensures Reaches(repo, root, d)
  {
    if p == root {
      assert Path(repo, root, root, 0);
      assert Path(repo, root, d, 1);
    } else {
      var n: nat :| n > 0 && Path(repo, root, p, n);
      assert Path(repo, root, d, n + 1);
    }
  }

  /** The dependencies fall in rank, so there is no cycle. */
  ghost predicate Ranked(repo: Repo, rank: map<Name, nat>)
  {
    forall p, d | Edge(repo, p, d) :: p in rank && d in rank && rank[d] < rank[p]
  }

  /** No dependency stands before, or at, the place of a package that needs it. */
  ghost predicate Topological(repo: Repo, result: seq<string>)
  {
    forall i, j, p, d | 0 <= i <= j < |result| && p in repo && repo[p].pkgver == result[j] && Edge(repo, p, d) ::
      repo[d].pkgver != result[i]
  }

  // ---------------------------------------------------------------- the table and the result

  /** Reverse links lead to items registered earlier; an open item has none yet. */
  ghost predicate Linked(items: map<Name, seq<Name>>, age: map<Name, nat>, open: set<Name>)
  {
    && age.Keys == items.Keys && open <= items.Keys
    && (forall p, q | p in items && q in items[p] :: q in items && age[q] < age[p])
    && (forall p <- items :: age[p] < |items|)
    && (forall p <- open :: p in items && items[p] == [])
  }

  ghost predicate Known(repo: Repo, root: Name, items: map<Name, seq<Name>>)
  {
    && root in repo && items.Keys <= repo.Keys
    && (forall p <- items :: p == root || Reaches(repo, root, p))
  }

  /** A package that was walked has all its dependencies in the table and in the result. */
  ghost predicate Walked(repo: Repo, items: map<Name, seq<Name>>, result: seq<string>, p: Name)
  {
    forall d | Edge(repo, p, d) :: d in items && repo[d].pkgver in result
  }

  ghost predicate Settled(repo: Repo, root: Name, items: map<Name, seq<Name>>, open: set<Name>, result: seq<string>)
  {
    forall p | p in items && p !in open ::
      Walked(repo, items, result, p) && p in repo && (p != root ==> repo[p].pkgver in result)
  }

  ghost predicate Listed(repo: Repo, root: Name, items: map<Name, seq<Name>>, v: string)
  {
    exists p :: p in items && p in repo && repo[p].pkgver == v && Reaches(repo, root, p)
  }

  ghost predicate Collected(repo: Repo, root: Name, items: map<Name, seq<Name>>, result: seq<string>)
  {
    NoDup(result) && forall v <- result :: Listed(repo, root, items, v)
  }

  /** On an acyclic graph the result is ordered and holds nothing that is still open. */
  ghost predicate Ordered(repo: Repo, rank: map<Name, nat>, open: set<Name>, result: seq<string>)
  {
    Ranked(repo, rank) ==>
      Topological(repo, result) && forall o | o in open && o in repo :: repo[o].pkgver !in result
  }

  lemma PrependTopological(repo: Repo, result: seq<string>, d: Name)
    requires Resolves(repo) && d in repo && Topological(repo, result)
    requires forall p | p in repo && (p == d || repo[p].pkgver in result) :: !Edge(repo, p, d)
    ensures Topological(repo, [repo[d].pkgver] + result)
  {
    var r := [repo[d].pkgver] + result;
    forall i, j, p, e | 0 <= i <= j < |r| && p in repo && repo[p].pkgver == r[j] && Edge(repo, p, e)
      ensures repo[e].pkgver != r[i]
    {
      assert r[j] == if j == 0 then repo[d].pkgver else result[j - 1];
      if i > 0 {
        assert r[i] == result[i - 1];
      }
    }
  }

  /** Nothing in the result needs a package that is not in it. */
  lemma NobodyNeeds(repo: Repo, root: Name, rank: map<Name, nat>, items: map<Name, seq<Name>>, open: set<Name>,
                    result: seq<string>, d: Name, p: Name)
    requires Resolves(repo) && d in repo && repo[d].pkgver !in result && Ranked(repo, rank)
    requires Collected(repo, root, items, result) && Ordered(repo, rank, open, result)
    requires forall q | q in items && q !in open :: Walked(repo, items, result, q)
    requires p in repo && (p == d || repo[p].pkgver in result)
    ensures !Edge(repo, p, d)
  {
    if p != d {
      assert Listed(repo, root, items, repo[p].pkgver);
      assert Walked(repo, items, result, p);
    }
  }

  lemma PrependOrdered(repo: Repo, root: Name, rank: map<Name, nat>, items: map<Name, seq<Name>>, open: set<Name>,
                       result: seq<string>, d: Name)
    requires Resolves(repo) && d in repo && repo[d].pkgver !in result
    requires Collected(repo, root, items, result) && Ordered(repo, rank, open, result)
    requires forall q | q in items && q !in open :: Walked(repo, items, result, q)
    ensures Ordered(repo, rank, open - {d}, [repo[d].pkgver] + result)
  {
    if Ranked(repo, rank) {
      forall p | p in repo && (p == d || repo[p].pkgver in result)
        ensures !Edge(repo, p, d)
      {
        NobodyNeeds(repo, root, rank, items, open, result, d, p);
      }
      PrependTopological(repo, result, d);
    }
  }

  lemma PrependCollected(repo: Repo, root: Name, items: map<Name, seq<Name>>, result: seq<string>, d: Name)
    requires Collected(repo, root, items, result) && d in repo && d in items && repo[d].pkgver !in result
    requires Reaches(repo, root, d)
    ensures Collected(repo, root, items, [repo[d].pkgver] + result)
  {
    assert Listed(repo, root, items, repo[d].pkgver);
  }

  /** The walk as a value: `age` counts the items registered before, `open` holds those whose list is being read. */
  datatype Walk = Walk(items: map<Name, seq<Name>>, age: map<Name, nat>, open: set<Name>, result: seq<string>)

  ghost predicate Sound(repo: Repo, root: Name, rank: map<Name, nat>, w: Walk)
  {
    && Resolves(repo) && Linked(w.items, w.age, w.open) && Known(repo, root, w.items)
    && Settled(repo, root, w.items, w.open, w.result) && Collected(repo, root, w.items, w.result)
    && Ordered(repo, rank, w.open, w.result)
  }

  /** On an acyclic graph the walk goes down in rank. */
  ghost predicate Descending(repo: Repo, rank: map<Name, nat>, open: set<Name>, p: Name)
  {
    Ranked(repo, rank) ==> forall o <- open :: o == p || (o in rank && p in rank && rank[p] < rank[o])
  }

  /** What a walk leaves of the one it started from. */
  ghost predicate Grown(v: Walk, w: Walk)
  {
    && w.items.Keys >= v.items.Keys && |w.items| >= |v.items|
    && (forall r <- v.result :: r in w.result)
    && (forall q <- v.items :: q in w.items && w.items[q] == v.items[q])
    && (forall q <- v.age :: q in w.age && w.age[q] == v.age[q])
  }

  // ---------------------------------------------------------------- entering a package

  function Entered(w: Walk, p: Name): Walk
  {
    Walk(w.items[p := []], w.age[p := |w.items|], w.open + {p}, w.result)
  }

  lemma EnterLinked(w: Walk, p: Name)
    requires Linked(w.items, w.age, w.open) && p !in w.items
    ensures Linked(Entered(w, p).items, Entered(w, p).age, Entered(w, p).open)
  {
    EnterSizes(w, p);
  }

  lemma EnterSizes(w: Walk, p: Name)
    requires p !in w.items && w.age.Keys == w.items.Keys
    ensures var t := Entered(w, p);
            |t.items| == |w.items| + 1 && t.items.Keys == w.items.Keys + {p} && t.age.Keys == t.items.Keys
    ensures Grown(w, Entered(w, p))
  {
    var t := Entered(w, p);
    assert t.items.Keys == w.items.Keys + {p} && t.age.Keys == w.age.Keys + {p};
    assert |t.items| == |t.items.Keys| && |w.items| == |w.items.Keys|;
  }

  lemma EnterKnown(repo: Repo, root: Name, w: Walk, p: Name)
    requires Known(repo, root, w.items) && p in repo && (p == root || Reaches(repo, root, p))
    ensures Known(repo, root, Entered(w, p).items)
  {
  }

  lemma EnterSettled(repo: Repo, root: Name, w: Walk, p: Name)
    requires Settled(repo, root, w.items, w.open, w.result) && p !in w.items
    ensures Settled(repo, root, Entered(w, p).items, Entered(w, p).open, w.result)
  {
    forall q | q in Entered(w, p).items && q !in Entered(w, p).open
      ensures Walked(repo, Entered(w, p).items, w.result, q)
    {
      assert Walked(repo, w.items, w.result, q);
    }
  }

  lemma EnterCollected(repo: Repo, root: Name, w: Walk, p: Name)
    requires Collected(repo, root, w.items, w.result)
    ensures Collected(repo, root, Entered(w, p).items, w.result)
  {
    forall v <- w.result
      ensures Listed(repo, root, Entered(w, p).items, v)
    {
      assert Listed(repo, root, w.items, v);
    }
  }

  lemma EnterOrdered(repo: Repo, root: Name, rank: map<Name, nat>, w: Walk, p: Name)
    requires Resolves(repo) && Collected(repo, root, w.items, w.result) && Ordered(repo, rank, w.open, w.result)
    requires p in repo && p !in w.items
    ensures Ordered(repo, rank, Entered(w, p).open, w.result)
  {
    if repo[p].pkgver in w.result {
      assert Listed(repo, root, w.items, repo[p].pkgver);
    }
  }

  lemma SameKeys(repo: Repo, root: Name, rank: map<Name, nat>, w: Walk)
    requires Sound(repo, root, rank, w)
    ensures w.age.Keys == w.items.Keys
  {
  }

  lemma EnterKeeps(repo: Repo, root: Name, rank: map<Name, nat>, w: Walk, p: Name)
    requires Sound(repo, root, rank, w) && p in repo && p !in w.items && (p == root || Reaches(repo, root, p))
    ensures Sound(repo, root, rank, Entered(w, p)) && Grown(w, Entered(w, p))
    ensures |Entered(w, p).items| == |w.items| + 1
  {
    SameKeys(repo, root, rank, w);
    hide Resolves, Linked, Known, Settled, Collected, Ordered, Reaches;
    EnterSizes(w, p);
    EnterLinked(w, p);
    EnterKnown(repo, root, w, p);
    EnterSettled(repo, root, w, p);
    EnterCollected(repo, root, w, p);
    EnterOrdered(repo, root, rank, w, p);
  }

  // ---------------------------------------------------------------- recording who led to a package

  function LinkedTo(w: Walk, p: Name, d: Name): Walk
    requires d in w.items
  {
    w.(items := w.items[d := [p] + w.items[d]])
  }

  lemma LinkKeeps(repo: Repo, root: Name, rank: map<Name, nat>, w: Walk, p: Name, d: Name)
    requires Sound(repo, root, rank, w) && p in w.items && d in w.items && d !in w.open
    requires p in w.age && d in w.age && w.age[p] < w.age[d]
    ensures Sound(repo, root, rank, LinkedTo(w, p, d))
  {
    hide Resolves, Ordered, Reaches, Edge;
    var t := LinkedTo(w, p, d);
    assert t.items.Keys == w.items.Keys;
    LinkLinked(w, p, d);
    forall q | q in t.items && q !in t.open
      ensures Walked(repo, t.items, t.result, q)
    {
      assert Walked(repo, w.items, w.result, q);
    }
    forall v <- t.result
      ensures Listed(repo, root, t.items, v)
    {
      assert Listed(repo, root, w.items, v);
    }
  }

  lemma LinkLinked(w: Walk, p: Name, d: Name)
    requires Linked(w.items, w.age, w.open) && p in w.items && d in w.items && d !in w.open
    requires p in w.age && d in w.age && w.age[p] < w.age[d]
    ensures Linked(LinkedTo(w, p, d).items, w.age, w.open)
  {
    hide Linked;
    var t := LinkedTo(w, p, d);
    assert t.items.Keys == w.items.Keys;
    assert |t.items| == |t.items.Keys| == |w.items|;
    OneLink(w.items, t.items, w.age, w.open, p, d);
  }

  lemma OneLink(items: map<Name, seq<Name>>, items1: map<Name, seq<Name>>, age: map<Name, nat>, open: set<Name>,
                p: Name, d: Name)
    requires Linked(items, age, open) && p in items && d in items && d !in open && p in age && d in age
             && age[p] < age[d]
    requires items1.Keys == items.Keys && |items1| == |items| && items1[d] == [p] + items[d]
    requires forall q | q in items && q != d :: items1[q] == items[q]
    ensures Linked(items1, age, open)
  {
    forall q, r | q in items1 && r in items1[q]
      ensures r in items1 && age[r] < age[q]
    {
      if q == d {
        assert r == p || r in items[d];
      }
    }
  }

  // ---------------------------------------------------------------- leaving a package

  function Left(repo: Repo, w: Walk, p: Name, depth: nat): Walk
    requires p in repo
  {
    w.(open := w.open - {p},
       result := if depth > 0 && repo[p].pkgver !in w.result then [repo[p].pkgver] + w.result else w.result)
  }

  lemma LeaveKeeps(repo: Repo, root: Name, rank: map<Name, nat>, w: Walk, p: Name, depth: nat)
    requires Sound(repo, root, rank, w) && p in w.open && p in w.items && p in repo
    requires Walked(repo, w.items, w.result, p)
    requires if depth == 0 then p == root else Reaches(repo, root, p)
    ensures Sound(repo, root, rank, Left(repo, w, p, depth))
    ensures depth > 0 ==> repo[p].pkgver in Left(repo, w, p, depth).result
  {
    hide Resolves, Reaches, Edge, Ordered;
    var t := Left(repo, w, p, depth);
    assert Linked(t.items, t.age, t.open);
    forall q | q in t.items && q !in t.open
      ensures Walked(repo, t.items, t.result, q)
    {
      assert Walked(repo, w.items, w.result, q);
    }
    if t.result != w.result {
      LeaveOrdered(repo, root, rank, w, p);
      PrependCollected(repo, root, w.items, w.result, p);
    } else {
      ShrinkOrdered(repo, rank, w.open, p, w.result);
    }
  }

  lemma LeaveOrdered(repo: Repo, root: Name, rank: map<Name, nat>, w: Walk, p: Name)
    requires Sound(repo, root, rank, w) && p in repo && repo[p].pkgver !in w.result
    requires Walked(repo, w.items, w.result, p)
    ensures Ordered(repo, rank, w.open - {p}, [repo[p].pkgver] + w.result)
  {
    hide Linked, Known, Ordered;
    PrependOrdered(repo, root, rank, w.items, w.open, w.result, p);
  }

  lemma ShrinkOrdered(repo: Repo, rank: map<Name, nat>, open: set<Name>, p: Name, result: seq<string>)
    requires Ordered(repo, rank, open, result)
    ensures Ordered(repo, rank, open - {p}, result)
  {
  }

  // ---------------------------------------------------------------- visiting a package again

  /** It is in the result already, or it is open, closes a cycle and is prepended now. */
  lemma RevisitKeeps(repo: Repo, root: Name, rank: map<Name, nat>, w: Walk, p: Name, d: Name)
    requires Sound(repo, root, rank, w) && root in w.open && p in w.open && Edge(repo, p, d) && d in w.items
    requires Descending(repo, rank, w.open, p)
    ensures d in repo
    ensures repo[d].pkgver !in w.result ==>
              w.items[d] == [] && Sound(repo, root, rank, w.(result := [repo[d].pkgver] + w.result))
  {
    if repo[d].pkgver !in w.result {
      hide Resolves, Reaches, Edge;
      OpenAgain(repo, root, rank, w, p, d);
      var t := w.(result := [repo[d].pkgver] + w.result);
      PrependCollected(repo, root, w.items, w.result, d);
      forall q | q in t.items && q !in t.open
        ensures Walked(repo, t.items, t.result, q)
      {
        assert Walked(repo, w.items, w.result, q);
      }
    }
  }

  lemma OpenAgain(repo: Repo, root: Name, rank: map<Name, nat>, w: Walk, p: Name, d: Name)
    requires Sound(repo, root, rank, w) && root in w.open && p in w.open && Edge(repo, p, d) && d in w.items
    requires Descending(repo, rank, w.open, p) && repo[d].pkgver !in w.result
    ensures d in w.open && !Ranked(repo, rank) && Reaches(repo, root, d) && d in repo
  {
    assert d in w.open;
    Extend(repo, root, p, d);
  }

  /** No package that was walked lists a dependency that is missing from the repositories. */
  ghost predicate Checked(repo: Repo, w: Walk)
  {
    forall p | p in w.items && p !in w.open && p in repo :: forall e <- repo[p].deps :: !e.missing
  }

  /** A package of the tree of `root` lists a dependency that is missing. */
  ghost predicate Broken(repo: Repo, root: Name)
  {
    exists p, e :: (p == root || Reaches(repo, root, p)) && p in repo && e in repo[p].deps && e.missing
  }

  // ---------------------------------------------------------------- the walk itself

  class Tree {
    const repo: Repo
    const remote: bool
    ghost const root: Name
    ghost const rank: map<Name, nat>
    /** The reverse links of the items, newest first. */
    var items: map<Name, seq<Name>>
    var result: seq<string>
    ghost var open: set<Name>
    ghost var age: map<Name, nat>

    ghost function View(): Walk
      reads this
    {
      Walk(items, age, open, result)
    }

    ghost predicate Valid()
      reads this
    {
      Sound(repo, root, rank, View())
    }

    constructor (repo: Repo, remote: bool, root: Name, ghost rank: map<Name, nat>)
      requires Resolves(repo) && root in repo
      ensures Valid() && View() == Walk(map[], map[], {}, [])
      ensures this.repo == repo && this.remote == remote && this.root == root && this.rank == rank
    {
      this.repo, this.remote, this.root, this.rank := repo, remote, root, rank;
      items, result, open, age := map[], [], {}, map[];
    }

    /** Prepends `p`, unless it is there already, after what its reverse links lead to; nothing else is added, and
        nothing that was there moves. */
    method AddDepsRecursive(p: Name, first: bool)
      requires items.Keys <= repo.Keys && p in items && Linked(items, age, open)
      modifies this`result
      ensures repo[p].pkgver in old(result) ==> result == old(result)
      ensures repo[p].pkgver !in old(result) && items[p] == [] ==>
                result == if first then old(result) else [repo[p].pkgver] + old(result)
      ensures repo[p].pkgver !in old(result) && !first ==> result != [] && result[0] == repo[p].pkgver
      ensures repo[p].pkgver !in old(result) ==> forall q <- items[p] :: q in repo && repo[q].pkgver in result
      ensures Extends(repo, items, age, old(result), result, if first then age[p] else age[p] + 1)
      decreases age[p]
    {
      hide Extends, Linked, Present;
      ghost var before := result;
      LinkBelow(items, age, open, p);
      ExtendNothing(repo, items, age, before, if first then age[p] else age[p] + 1);
      ExtendNothing(repo, items, age, before, age[p]);
      if repo[p].pkgver in result {
        return;
      }
      var dbase := items[p];
      PresentNone(repo, dbase, result);
      for k := 0 to |dbase|
        invariant k == 0 ==> result == before
        invariant Present(repo, dbase, k, result) && Extends(repo, items, age, before, result, age[p])
      {
        var q := dbase[k];
        assert q in dbase;
        ghost var r := result;
        AddDepsRecursive(q, false);
        Further(repo, items, age, before, r, result, age[p], age[q] + 1);
        PresentMore(repo, dbase, k, r, result);
      }
      AllPresent(repo, dbase, result);
      if first {
        return;
      }
      ExtendOne(repo, items, age, before, result, p);
      result := [repo[p].pkgver] + result;
    }

    /** Walks `p`, which is not in the table yet, and everything below it. */
    method OrderedDepends(p: Name, depth: nat) returns (ok: bool)
      requires Valid() && p in repo && p !in items
      requires if depth == 0 then p == root else root in open && Reaches(repo, root, p)
      requires Descending(repo, rank, open, p)
      modifies this
      ensures ok ==> Valid() && p in items && open == old(open) && Grown(old(View()), View())
      ensures ok ==> p in age && age[p] >= |old(items)|
      ensures ok && depth > 0 ==> repo[p].pkgver in result
      ensures ok && remote && Checked(repo, old(View())) ==> Checked(repo, View())
      ensures !ok ==> remote && Broken(repo, root)
      decreases |repo| - |items|, 0
    {
      hide Resolves, Linked, Known, Settled, Collected, Ordered, Edge, Ranked, Sound, Reaches, Descending, Grown;
      hide Read, Checked, Broken;
      ghost var w0 := View();
      AddItem(p, depth);
      for i := 0 to |repo[p].deps|
        invariant Valid() && p in open && root in open && open - {p} == w0.open && Descending(repo, rank, open, p)
        invariant Grown(w0, View()) && p in items && |w0.items| < |items| <= |repo|
        invariant p in age && age[p] == |w0.items|
        invariant Read(repo, View(), repo[p].deps, i)
        invariant remote ==> forall k | 0 <= k < i :: !repo[p].deps[k].missing
        invariant remote && Checked(repo, w0) ==> Checked(repo, View())
      {
        ghost var w1 := View();
        ok := Visit(p, depth, i);
        if !ok {
          return;
        }
        GrownTrans(w0, w1, View());
        ReadMore(repo, w1, View(), repo[p].deps, i);
        GrownAt(w1, View(), p);
        Few(repo, root, rank, View());
      }
      AllRead(repo, View(), p);
      Leave(p, depth, w0);
      ok := true;
    }

    method AddItem(p: Name, depth: nat)
      requires Valid() && p in repo && p !in items
      requires if depth == 0 then p == root else root in open && Reaches(repo, root, p)
      requires Descending(repo, rank, open, p)
      modifies this
      ensures Valid() && View() == Entered(old(View()), p) && Grown(old(View()), View())
      ensures |old(items)| < |items| <= |repo| && root in open && open - {p} == old(open)
      ensures Descending(repo, rank, open, p) && Read(repo, View(), repo[p].deps, 0)
      ensures Checked(repo, old(View())) ==> Checked(repo, View())
    {
      hide Resolves, Linked, Known, Settled, Collected, Ordered, Edge, Ranked, Sound, Reaches, Descending, Grown;
      hide Read, Checked;
      ghost var w0 := View();
      EnterKeeps(repo, root, rank, w0, p);
      items, age, open := items[p := []], age[p := |items|], open + {p};
      assert View() == Entered(w0, p);
      StillDescending(repo, rank, w0.open, p);
      NotOpen(repo, root, rank, w0, p);
      Few(repo, root, rank, View());
      ReadNone(repo, View(), repo[p].deps);
      EnterChecked(repo, w0, p);
    }

    method Leave(p: Name, depth: nat, ghost w0: Walk)
      requires Valid() && p in open && p in items && p in repo && Walked(repo, items, result, p) && Grown(w0, View())
      requires if depth == 0 then p == root else Reaches(repo, root, p)
      requires remote ==> forall k | 0 <= k < |repo[p].deps| :: !repo[p].deps[k].missing
      modifies this
      ensures Valid() && items == old(items) && age == old(age) && open == old(open) - {p} && Grown(w0, View())
      ensures depth > 0 ==> repo[p].pkgver in result
      ensures remote && Checked(repo, old(View())) ==> Checked(repo, View())
    {
      hide Resolves, Linked, Known, Settled, Collected, Ordered, Edge, Ranked, Sound, Reaches, Grown, Checked;
      ghost var w := View();
      LeaveKeeps(repo, root, rank, w, p, depth);
      if depth > 0 && repo[p].pkgver !in result {
        result := [repo[p].pkgver] + result;
      }
      open := open - {p};
      assert View() == Left(repo, w, p, depth);
      LeaveGrows(repo, w0, w, p, depth);
      LeaveChecked(repo, w, p, depth, remote);
    }

    /** Handles the i-th dependency of `p`: a missing one ends a walk of the repositories, a missing local one and one
        that `p` provides itself are ignored. */
    method Visit(p: Name, depth: nat, i: nat) returns (ok: bool)
      requires Valid() && p in repo && i < |repo[p].deps| && root in open && p in open && p in items
      requires p in age && age[p] < |items| && Descending(repo, rank, open, p)
      modifies this
      ensures ok ==> Valid() && open == old(open) && Grown(old(View()), View())
      ensures var e := repo[p].deps[i];
              ok ==> e.missing || e.provided || (e.name in items && e.name in repo && repo[e.name].pkgver in result)
      ensures ok && remote ==> !repo[p].deps[i].missing
      ensures ok && remote && Checked(repo, old(View())) ==> Checked(repo, View())
      ensures !ok ==> remote && Broken(repo, root)
      decreases |repo| - |items|, 1
    {
      hide Resolves, Linked, Known, Settled, Collected, Ordered, Edge, Ranked, Sound, Reaches, Descending, Grown;
      ghost var w1 := View();
      GrownTrans0(w1);
      ok := true;
      var e := repo[p].deps[i];
      if e.missing {
        ok := !remote;
        ReachedItem(repo, root, rank, w1, p);
        return;
      }
      if e.provided {
        return;
      }
      Follow(repo, root, rank, w1, p, e);
      if e.name in items {
        RevisitKeeps(repo, root, rank, w1, p, e.name);
        AddDepsRecursive(e.name, false);
        RevisitGrows(w1, View(), repo[e.name].pkgver);
      } else {
        ok := OrderedDepends(e.name, depth + 1);
        if ok {
          ghost var w2 := View();
          Parent(repo, root, rank, w1, w2, p, e.name);
          LinkKeeps(repo, root, rank, w2, p, e.name);
          items := items[e.name := [p] + items[e.name]];
          LinkGrows(w1, w2, p, e.name);
          assert View() == LinkedTo(w2, p, e.name);
        }
      }
    }
  }

  /** `result` is `before` with packages in front that were registered before the number `n`. */
  ghost predicate Extends(repo: Repo, items: map<Name, seq<Name>>, age: map<Name, nat>, before: seq<string>,
                          result: seq<string>, n: nat)
  {
    && |before| <= |result| && result[|result| - |before|..] == before
    && forall v <- result | v !in before :: Registered(repo, items, age, v, n)
  }

  ghost predicate Registered(repo: Repo, items: map<Name, seq<Name>>, age: map<Name, nat>, v: string, n: nat)
  {
    exists q :: q in items && q in age && q in repo && age[q] < n && repo[q].pkgver == v
  }

  lemma Further(repo: Repo, items: map<Name, seq<Name>>, age: map<Name, nat>, a: seq<string>, b: seq<string>,
                c: seq<string>, n: nat, m: nat)
    requires Extends(repo, items, age, a, b, n) && Extends(repo, items, age, b, c, m) && m <= n
    ensures Extends(repo, items, age, a, c, n) && forall v <- b :: v in c
  {
    var d := c[..|c| - |b|];
    assert c == d + b;
    assert c[|c| - |a|..] == b[|b| - |a|..];
  }

  lemma ExtendNothing(repo: Repo, items: map<Name, seq<Name>>, age: map<Name, nat>, a: seq<string>, n: nat)
    ensures Extends(repo, items, age, a, a, n)
  {
  }

  lemma ExtendOne(repo: Repo, items: map<Name, seq<Name>>, age: map<Name, nat>, a: seq<string>, b: seq<string>, p: Name)
    requires p in items && p in age && p in repo && Extends(repo, items, age, a, b, age[p])
    ensures Extends(repo, items, age, a, [repo[p].pkgver] + b, age[p] + 1)
    ensures forall v <- b :: v in [repo[p].pkgver] + b
  {
    var c := [repo[p].pkgver] + b;
    assert c[|c| - |a|..] == b[|b| - |a|..];
  }

  lemma LinkBelow(items: map<Name, seq<Name>>, age: map<Name, nat>, open: set<Name>, p: Name)
    requires Linked(items, age, open) && p in items
    ensures p in age && forall q <- items[p] :: q in items && q in age && age[q] < age[p]
  {
  }

  /** The first `k` packages of the list are in the result. */
  ghost predicate Present(repo: Repo, dbase: seq<Name>, k: nat, result: seq<string>)
  {
    forall j | 0 <= j < k && j < |dbase| :: dbase[j] in repo && repo[dbase[j]].pkgver in result
  }

  lemma PresentNone(repo: Repo, dbase: seq<Name>, result: seq<string>)
    ensures Present(repo, dbase, 0, result)
  {
  }

  lemma PresentMore(repo: Repo, dbase: seq<Name>, k: nat, before: seq<string>, result: seq<string>)
    requires k < |dbase| && Present(repo, dbase, k, before) && forall v <- before :: v in result
    requires dbase[k] in repo
    requires repo[dbase[k]].pkgver in before || (result != [] && result[0] == repo[dbase[k]].pkgver)
    ensures Present(repo, dbase, k + 1, result)
  {
  }

  lemma AllPresent(repo: Repo, dbase: seq<Name>, result: seq<string>)
    requires Present(repo, dbase, |dbase|, result)
    ensures forall q <- dbase :: q in repo && repo[q].pkgver in result
  {
  }

  lemma EnterChecked(repo: Repo, w: Walk, p: Name)
    ensures Checked(repo, w) ==> Checked(repo, Entered(w, p))
  {
  }

  lemma LeaveChecked(repo: Repo, w: Walk, p: Name, depth: nat, remote: bool)
    requires p in repo && (remote ==> forall k | 0 <= k < |repo[p].deps| :: !repo[p].deps[k].missing)
    ensures remote && Checked(repo, w) ==> Checked(repo, Left(repo, w, p, depth))
  {
  }

  lemma ReachedItem(repo: Repo, root: Name, rank: map<Name, nat>, w: Walk, p: Name)
    requires Sound(repo, root, rank, w) && p in w.items
    ensures p == root || Reaches(repo, root, p)
  {
    hide Resolves, Linked, Settled, Collected, Ordered, Reaches;
  }

  lemma ReadNone(repo: Repo, w: Walk, deps: seq<Dep>)
    ensures Read(repo, w, deps, 0)
  {
  }

  lemma GrownTrans0(w: Walk)
    ensures Grown(w, w)
  {
  }

  lemma GrownAt(v: Walk, w: Walk, p: Name)
    requires Grown(v, w) && p in v.items && p in v.age
    ensures p in w.items && p in w.age && w.age[p] == v.age[p] && |w.items| >= |v.items|
  {
  }

  lemma LeaveGrows(repo: Repo, u: Walk, v: Walk, p: Name, depth: nat)
    requires Grown(u, v) && p in repo
    ensures Grown(u, Left(repo, v, p, depth))
  {
  }

  lemma Few(repo: Repo, root: Name, rank: map<Name, nat>, w: Walk)
    requires Sound(repo, root, rank, w)
    ensures |w.items| <= |repo| && w.items.Keys <= repo.Keys && Linked(w.items, w.age, w.open)
  {
    hide Resolves, Linked, Settled, Collected, Ordered, Reaches;
    Smaller(w.items.Keys, repo.Keys);
  }

  /** The first `i` entries that count are in the table and in the result. */
  ghost predicate Read(repo: Repo, w: Walk, deps: seq<Dep>, i: nat)
  {
    forall k | 0 <= k < i && k < |deps| && !deps[k].missing && !deps[k].provided ::
      deps[k].name in w.items && deps[k].name in repo && repo[deps[k].name].pkgver in w.result
  }

  lemma ReadMore(repo: Repo, v: Walk, w: Walk, deps: seq<Dep>, i: nat)
    requires Read(repo, v, deps, i) && Grown(v, w) && i < |deps|
    requires var e := deps[i];
             e.missing || e.provided || (e.name in w.items && e.name in repo && repo[e.name].pkgver in w.result)
    ensures Read(repo, w, deps, i + 1)
  {
  }

  lemma AllRead(repo: Repo, w: Walk, p: Name)
    requires p in repo && Read(repo, w, repo[p].deps, |repo[p].deps|)
    ensures Walked(repo, w.items, w.result, p)
  {
  }

  lemma StillDescending(repo: Repo, rank: map<Name, nat>, open: set<Name>, p: Name)
    requires Descending(repo, rank, open, p)
    ensures Descending(repo, rank, open + {p}, p)
  {
  }

  lemma NotOpen(repo: Repo, root: Name, rank: map<Name, nat>, w: Walk, p: Name)
    requires Sound(repo, root, rank, w) && p !in w.items
    ensures p !in w.open && w.open + {p} - {p} == w.open
  {
  }

  /** An entry that counts leads to a package below. */
  lemma Follow(repo: Repo, root: Name, rank: map<Name, nat>, w: Walk, p: Name, e: Dep)
    requires Sound(repo, root, rank, w) && p in repo && e in repo[p].deps && !e.missing && !e.provided
    requires p in w.items && Descending(repo, rank, w.open, p)
    ensures e.name in repo && Edge(repo, p, e.name) && Reaches(repo, root, e.name)
    ensures Descending(repo, rank, w.open, e.name) || e.name in w.items
    ensures w.items.Keys <= repo.Keys && Linked(w.items, w.age, w.open) && |w.items| <= |repo|
  {
    hide Linked, Settled, Collected, Ordered, Descending;
    Few(repo, root, rank, w);
    assert Edge(repo, p, e.name);
    Extend(repo, root, p, e.name);
    GoDown(repo, rank, w.open, p, e.name);
  }

  lemma GoDown(repo: Repo, rank: map<Name, nat>, open: set<Name>, p: Name, d: Name)
    requires Edge(repo, p, d) && Descending(repo, rank, open, p)
    ensures Descending(repo, rank, open, d)
  {
  }

  lemma Parent(repo: Repo, root: Name, rank: map<Name, nat>, v: Walk, w: Walk, p: Name, d: Name)
    requires Grown(v, w) && p in v.age && p in v.items && d in w.items && d in w.age && d !in v.items
    requires v.age[p] < |v.items| && w.age[d] >= |v.items|
    requires Sound(repo, root, rank, v) && w.open == v.open
    ensures p in w.items && p in w.age && w.age[p] < w.age[d] && d !in w.open
  {
    hide Resolves, Known, Settled, Collected, Ordered;
  }

  lemma RevisitGrows(v: Walk, w: Walk, r: string)
    requires w == v.(result := w.result) && (w.result == v.result || w.result == [r] + v.result)
    ensures Grown(v, w)
  {
  }

  lemma LinkGrows(v: Walk, w: Walk, p: Name, d: Name)
    requires Grown(v, w) && d in w.items && d !in v.items
    ensures Grown(v, LinkedTo(w, p, d))
  {
    var t := LinkedTo(w, p, d);
    assert t.items.Keys == w.items.Keys;
    assert |t.items| == |t.items.Keys| && |w.items| == |w.items.Keys|;
  }

  lemma GrownTrans(u: Walk, v: Walk, w: Walk)
    requires Grown(u, v) && Grown(v, w)
    ensures Grown(u, w)
  {
  }

  // ---------------------------------------------------------------- the result

  lemma {:induction false} InTable(repo: Repo, root: Name, rank: map<Name, nat>, w: Walk, d: Name, n: nat)
    requires Sound(repo, root, rank, w) && w.open == {} && root in w.items && Path(repo, root, d, n)
    ensures d in w.items && (n > 0 ==> d in repo && repo[d].pkgver in w.result)
    decreases n
  {
    hide Resolves, Linked, Collected, Ordered, Edge;
    if n > 0 {
      var m :| Path(repo, root, m, n - 1) && Edge(repo, m, d);
      InTable(repo, root, rank, w, m, n - 1);
      assert Walked(repo, w.items, w.result, m);
      EdgeEnds(repo, m, d);
    }
  }

  lemma EdgeEnds(repo: Repo, p: Name, d: Name)
    requires Edge(repo, p, d)
    ensures p in repo && d in repo
  {
  }

  /** A walk that has ended has collected exactly the packages below the root, each once, and on an acyclic graph each
      before its dependencies. */
  lemma WalkResult(repo: Repo, root: Name, rank: map<Name, nat>, w: Walk)
    requires Sound(repo, root, rank, w) && w.open == {} && root in w.items
    ensures NoDup(w.result)
    ensures forall v :: v in w.result <==> exists d :: Reaches(repo, root, d) && d in repo && repo[d].pkgver == v
    ensures Ranked(repo, rank) ==> Topological(repo, w.result)
  {
    hide Resolves, Linked, Known, Settled, Ranked, Topological;
    forall d | Reaches(repo, root, d)
      ensures d in repo && repo[d].pkgver in w.result
    {
      var n: nat :| n > 0 && Path(repo, root, d, n);
      InTable(repo, root, rank, w, d, n);
    }
    forall v <- w.result
      ensures exists d :: Reaches(repo, root, d) && d in repo && repo[d].pkgver == v
    {
      assert Listed(repo, root, w.items, v);
    }
  }

  lemma NoneBroken(repo: Repo, root: Name, rank: map<Name, nat>, w: Walk)
    requires Sound(repo, root, rank, w) && w.open == {} && root in w.items && Checked(repo, w)
    ensures !Broken(repo, root)
  {
    hide Resolves, Linked, Known, Settled, Collected, Ordered;
    forall p, e | (p == root || Reaches(repo, root, p)) && p in repo && e in repo[p].deps
      ensures !e.missing
    {
      if p != root {
        var n: nat :| n > 0 && Path(repo, root, p, n);
        InTable(repo, root, rank, w, p, n);
      }
    }
  }

  /** The packages below `root`.  It fails exactly when there is no such package, or when the tree of a package in the
      repositories names one that is missing. */
  method GetPkgFulldeptree(repo: Repo, remote: bool, root: Name, ghost rank: map<Name, nat>)
    returns (ok: bool, result: seq<string>)
    requires Resolves(repo)
    ensures ok <==> root in repo && !(remote && Broken(repo, root))
    ensures ok ==> NoDup(result)
    ensures ok ==> forall v :: v in result <==> exists d :: Reaches(repo, root, d) && d in repo && repo[d].pkgver == v
    ensures ok && Ranked(repo, rank) ==> Topological(repo, result)
  {
    result := [];
    if root !in repo {
      return false, [];
    }
    var t := new Tree(repo, remote, root, rank);
    ok := t.OrderedDepends(root, 0);
    result := t.result;
    if ok {
      if remote {
        NoneBroken(repo, root, rank, t.View());
      }
      WalkResult(repo, root, rank, t.View());
    }
  }
}
