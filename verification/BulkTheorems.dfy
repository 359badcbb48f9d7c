/** What holds of every run of the bulk build. */
module BulkTheorems {
  import opened BulkState
  import opened BulkInvariant
  import opened BulkCascade
  import opened BulkEvents
  import opened BulkLinking
  import opened BulkRuns
  import opened BulkGrants

  // ---------------------------------------------------------------- every step, every run

  lemma InGraph(g: Graph, s: State, p: Item)
    requires Core(g, s) && p in s.items
    ensures p in g.deps && p in s.links && p in g.rank && Keyed(s)
  {
    hide Edges, Ordered, Lists, Delivered, Counted;
  }

  lemma StepKeeps(g: Graph, jobs: int, s: State, e: Event, t: State)
    requires Acyclic(g) && Quiet(g, s) && Follows(g, jobs, s, e, t)
    ensures Quiet(g, t)
  {
    hide Quiet;
    match e
    case Register(p) =>
      RegisterKeeps(g, s, p);
    case Depn(p, x) =>
      QuietIn(g, s, p);
      DepnKeeps(g, s, p, x);
    case Close(p) =>
      QuietIn(g, s, p);
      CloseKeeps(g, s, p);
    case Fork(ok) =>
      ForkKeeps(g, s, ok);
    case Reap(x, code) =>
      ReapKeeps(g, s, x, code);
  }

  lemma QuietIn(g: Graph, s: State, p: Item)
    requires Quiet(g, s) && p in s.items
    ensures p in g.deps && p in s.links
  {
    hide Core;
    InGraph(g, s, p);
  }

  /** The invariant holds in every state of every run, whatever is reaped or fails to fork, and when. */
  lemma {:induction false} RunKeeps(g: Graph, jobs: int, s: State, evs: seq<Event>, t: State)
    requires Acyclic(g) && Quiet(g, s) && Leads(g, jobs, s, evs, t)
    ensures Quiet(g, t)
    decreases |evs|
  {
    hide Quiet, Follows;
    if evs != [] {
      var m :| Follows(g, jobs, s, evs[0], m) && Leads(g, jobs, m, evs[1..], t);
      StepKeeps(g, jobs, s, evs[0], m);
      RunKeeps(g, jobs, m, evs[1..], t);
    }
  }

  // ---------------------------------------------------------------- the counters

  /** How often `x` is named on the reverse-dependency lists of the items that are not Done. */
  ghost function OpenEntries(s: State, order: seq<Item>, x: Item): nat
  {
    if order == [] then 0
    else
      var i := order[|order| - 1];
      OpenEntries(s, order[..|order| - 1], x)
      + if i in s.items && i in s.links && !s.items[i].status.Done? then multiset(s.links[i].dbase)[x] else 0
  }

  lemma {:induction false} EntriesAreOpen(s: State, order: seq<Item>, x: Item)
    requires Keyed(s) && Delivered(s) && s.active == {}
    ensures Entries(order, s.items, x) == OpenEntries(s, order, x)
  {
    if order != [] {
      EntriesAreOpen(s, order[..|order| - 1], x);
    }
  }

  /** Between events every dcount is the number of entries, with multiplicity, that name the item on the lists
      of items that are not Done. */
  lemma CounterTheorem(g: Graph, s: State, x: Item)
    requires Quiet(g, s) && x in s.items
    ensures s.items[x].dcount == OpenEntries(s, s.order, x)
  {
    hide Climbs, Reading, Edges, Ordered, Lists;
    EntriesAreOpen(s, s.order, x);
  }

  // ---------------------------------------------------------------- each item once

  /** No item is forked twice, none finishes twice, and only what is Done has finished. */
  lemma OnceEach(g: Graph, s: State, i: nat, j: nat)
    requires Quiet(g, s) && i < j
    ensures j < |s.started| ==> s.started[i] != s.started[j]
    ensures j < |s.finished| ==> s.finished[i] != s.finished[j]
    ensures forall x :: x in multiset(s.finished) <==> x in s.items && s.items[x].status.Done?
  {
    hide Climbs, Reading, Edges, Ordered, Delivered, Counted;
    if j < |s.started| {
      HoldsDistinct(s.started, s.forked, i, j);
    }
    if j < |s.finished| {
      HoldsDistinct(s.finished, With(s, Done), i, j);
    }
  }

  lemma HoldsDistinct<T(!new)>(l: seq<T>, m: set<T>, i: nat, j: nat)
    requires Holds(l, m) && i < j < |l|
    ensures l[i] != l[j]
  {
    assert l == l[..i] + [l[i]] + l[i + 1..j] + [l[j]] + l[j + 1..];
    assert multiset(l)[l[i]] <= 1;
  }

  /** The number of builds that run at once never exceeds the number of jobs. */
  lemma {:induction false} Capacity(g: Graph, jobs: int, s: State, evs: seq<Event>, t: State)
    requires Leads(g, jobs, s, evs, t)
    ensures |t.run| <= |s.run| || |t.run| <= jobs
    decreases |evs|
  {
    hide Follows;
    if evs != [] {
      var m :| Follows(g, jobs, s, evs[0], m) && Leads(g, jobs, m, evs[1..], t);
      StepCapacity(g, jobs, s, evs[0], m);
      Capacity(g, jobs, m, evs[1..], t);
    }
  }

  lemma StepCapacity(g: Graph, jobs: int, s: State, e: Event, t: State)
    requires Follows(g, jobs, s, e, t)
    ensures |t.run| <= |s.run| || |t.run| <= jobs
  {
    if e.Reap? {
      WithoutLength(s.run, e.x);
    }
  }

  lemma {:induction false} WithoutLength<T>(l: seq<T>, x: T)
    ensures |Without(l, x)| <= |l|
  {
    if l != [] && l[0] != x {
      WithoutLength(l[1..], x);
    }
  }

  // ---------------------------------------------------------------- safety

  /** An item that was queued in time has only dependencies that were built, all with code 0. */
  lemma QueuedDeps(g: Graph, s: State, x: Item)
    requires Quiet(g, s) && x in s.items && Queued(s, x) && x !in s.early
    ensures x in g.deps && x in s.links && x !in s.open
    ensures forall d <- g.deps[x] :: d in s.items && s.items[d].status.Done? && s.items[d].xcode == 0 && d in s.forked
  {
    hide Core;
    InGraph(g, s, x);
    AllRead(g, s, x);
    FromBelow(g, s, x);
    assert Verdict(s, x);
    forall d <- g.deps[x]
      ensures d in s.items && s.items[d].status.Done? && s.items[d].xcode == 0 && d in s.forked
    {
      assert d in s.links[x].from;
      if !s.items[d].status.Done? {
        Untold(g, s, d, x);
      }
      assert Verdict(s, d);
    }
  }

  lemma AllRead(g: Graph, s: State, x: Item)
    requires Core(g, s) && x in s.items && x in g.deps && x in s.links
    ensures forall d <- s.links[x].from :: d in g.deps[x]
    ensures x !in s.open ==> forall d <- g.deps[x] :: d in s.links[x].from
  {
    hide Climbs, Edges, Ordered, Lists, Delivered, Counted;
    if x !in s.open {
      assert g.deps[x][..|g.deps[x]|] == g.deps[x];
    }
  }

  /** `d` is reached from `x` by `n` dependency steps. */
  ghost predicate Needs(g: Graph, x: Item, d: Item, n: nat)
    decreases n
  {
    x in g.deps && if n == 0 then x == d else exists m <- g.deps[x] :: Needs(g, m, d, n - 1)
  }

  /** When nothing was queued early, whatever was started has only successful transitive dependencies. */
  lemma {:induction false} NothingFailedBelow(g: Graph, s: State, x: Item, d: Item, n: nat)
    requires Quiet(g, s) && s.early == {} && x in s.items && Queued(s, x) && Needs(g, x, d, n) && n > 0
    ensures d in s.items && s.items[d].status.Done? && s.items[d].xcode == 0 && d in s.forked
    decreases n
  {
    QueuedDeps(g, s, x);
    var m :| m in g.deps[x] && Needs(g, m, d, n - 1);
    if n > 1 {
      NothingFailedBelow(g, s, m, d, n - 1);
    }
  }

  // ---------------------------------------------------------------- completeness

  lemma {:induction false} EverythingDone(g: Graph, s: State, x: Item)
    requires Quiet(g, s) && s.open == {} && s.build == [] && s.run == [] && x in s.items && x in g.rank
    ensures s.items[x].status.Done?
    decreases g.rank[x]
  {
    hide Core;
    if !s.items[x].status.Done? {
      Idle(g, s, x);
      InGraph(g, s, x);
      assert Verdict(s, x);
      CoreCounts(g, s, x);
      var i := EntriesSome(s.order, s.items, x);
      Pending(g, s, i, x);
      EverythingDone(g, s, i);
    }
  }

  lemma Idle(g: Graph, s: State, x: Item)
    requires Core(g, s) && s.active == {} && s.build == [] && s.run == [] && x in s.items
    ensures !s.items[x].status.Build? && !s.items[x].status.Run?
  {
    hide Climbs, Reading, Edges, Ordered, Delivered, Counted;
    assert multiset(s.build)[x] == 0 && multiset(s.run)[x] == 0;
    assert x in With(s, Build) <==> s.items[x].status.Build?;
    assert x in With(s, Run) - s.active <==> s.items[x].status.Run?;
  }

  lemma Pending(g: Graph, s: State, i: Item, x: Item)
    requires Core(g, s) && s.active == {} && Naming(s.items, i, x) > 0
    ensures i in s.items && !s.items[i].status.Done?
    ensures i in g.rank && x in g.rank && g.rank[i] < g.rank[x]
  {
    hide Reading, Edges, Ordered, Lists, Counted;
    assert x in multiset(s.links[i].dbase);
    assert x in s.links[i].dbase;
  }

  /** When all lists were read and neither list holds anything, every item is Done and was counted. */
  lemma Completeness(g: Graph, s: State)
    requires Quiet(g, s) && s.open == {} && s.build == [] && s.run == []
    ensures forall x <- s.items :: s.items[x].status.Done?
    ensures |s.finished| == s.total == |s.order|
  {
    hide Core;
    forall x <- s.items
      ensures s.items[x].status.Done?
    {
      CoreAt(g, s, x);
      EverythingDone(g, s, x);
    }
    Totals(g, s);
  }

  lemma Totals(g: Graph, s: State)
    requires Core(g, s) && s.open == {} && forall x <- s.items :: s.items[x].status.Done?
    ensures |s.finished| == s.total == |s.order|
  {
    hide Climbs, Reading, Edges, Delivered, Counted;
    assert With(s, Done) == s.items.Keys;
    assert multiset(s.finished) == multiset(s.order);
    assert |multiset(s.finished)| == |s.finished|;
  }

  /** The drain may stop while items are queued: it meets its purpose exactly when it does not. */
  lemma DrainedExactly(g: Graph, s: State)
    requires Quiet(g, s) && s.open == {} && s.run == []
    ensures (forall x <- s.items :: s.items[x].status.Done?) <==> s.build == []
  {
    if s.build == [] {
      Completeness(g, s);
    } else {
      hide Climbs, Reading, Edges, Ordered, Delivered, Counted;
      assert s.build[0] in multiset(s.build);
    }
  }

  // ---------------------------------------------------------------- the outcome

  /** After a complete run without early items, exactly the items all of whose dependencies ended with code 0 were
      started, and every other item carries the code of a build that failed among its transitive dependencies. */
  lemma Outcome(g: Graph, s: State, x: Item)
    requires Quiet(g, s) && s.open == {} && s.build == [] && s.run == [] && s.early == {}
    requires x in s.items && x in g.deps && forall d <- g.deps[x] :: d in s.items
    ensures x in s.forked <==> forall d <- g.deps[x] :: s.items[d].xcode == 0
    ensures x !in s.forked ==> s.items[x].xcode != 0
                               && exists n, d :: Needs(g, x, d, n) && d in s.forked && d in s.items
                                                 && s.items[d].xcode == s.items[x].xcode
  {
    hide Core;
    Completeness(g, s);
    if x in s.forked {
      QueuedDeps(g, s, x);
    } else {
      var n, d := Culprit(g, s, x);
      InGraph(g, s, x);
      AllRead(g, s, x);
      assert Verdict(s, x);
      var i :| i in s.links[x].from && Ended(s, i) && s.items[i].xcode == s.items[x].xcode;
      assert i in g.deps[x];
    }
  }

  lemma {:induction false} Culprit(g: Graph, s: State, x: Item) returns (n: nat, d: Item)
    requires Quiet(g, s) && (forall y <- s.items :: s.items[y].status.Done?) && x in s.items && x !in s.forked
    ensures s.items[x].xcode != 0
    ensures Needs(g, x, d, n) && d in s.forked && d in s.items && s.items[d].xcode == s.items[x].xcode
    decreases if x in g.rank then g.rank[x] else 0
  {
    hide Core;
    InGraph(g, s, x);
    AllRead(g, s, x);
    FromBelow(g, s, x);
    assert Verdict(s, x);
    var i :| i in s.links[x].from && Ended(s, i) && s.items[i].xcode == s.items[x].xcode;
    InGraph(g, s, i);
    if i in s.forked {
      n, d := 1, i;
      assert Needs(g, i, i, 0);
    } else {
      n, d := Culprit(g, s, i);
      n := n + 1;
    }
  }
}
