/** The remaining events, and with them every run of the bulk build. */
module BulkRuns {
  import opened BulkState
  import opened BulkInvariant
  import opened BulkCascade
  import opened BulkEvents
  import opened BulkLinking

  // ---------------------------------------------------------------- the end of a dependency list

  ghost function Closed(s: State, p: Item): State
  {
    s.(total := s.total + 1, open := s.open - {p})
  }

  lemma ClosedReading(g: Graph, s: State, t: State, p: Item)
    requires Keyed(s) && Reading(g, s) && t == Closed(s, p) && p in s.items && s.links[p].read == |g.deps[p]|
    ensures Keyed(t) && Reading(g, t)
  {
  }

  lemma ClosedEdges(g: Graph, s: State, t: State, p: Item)
    requires Shape(g, s) && Edges(g, s) && t == Closed(s, p)
    ensures Shape(g, t) && Edges(g, t)
  {
    hide Climbs;
    forall x, i | x in t.items && i in t.items
      ensures Paired(t, x, i)
    {
      assert Paired(s, x, i);
    }
  }

  lemma ClosedLists(s: State, t: State, p: Item)
    requires Lists(s) && t == Closed(s, p)
    ensures Lists(t)
  {
    WithSame(s, t);
  }

  lemma ClosedDelivered(s: State, t: State, p: Item)
    requires Keyed(s) && Keyed(t) && Delivered(s) && t == Closed(s, p)
    ensures Delivered(t)
  {
  }

  lemma ClosedCore(g: Graph, s: State, t: State, p: Item)
    requires Core(g, s) && t == Closed(s, p) && p in s.open && p in s.items && p in g.deps
             && s.links[p].read == |g.deps[p]|
    ensures Core(g, t)
  {
    hide Climbs, Reading, Edges, Holds, Lists, Delivered, Counted;
    ClosedReading(g, s, t, p);
    ClosedEdges(g, s, t, p);
    ClosedLists(s, t, p);
    ClosedDelivered(s, t, p);
    CountedSame(s, t);
  }

  lemma ClosedVerdict(s: State, t: State, p: Item, y: Item)
    requires Keyed(s) && Keyed(t) && t == Closed(s, p) && y in s.items && Verdict(s, y)
    ensures Blamed(t, y) && Clean(t, y)
    ensures y != p || !Listening(s.items[p]) || s.items[p].dcount > 0 ==> Verdict(t, y)
  {
  }

  lemma ClosedBut(g: Graph, s: State, t: State, p: Item)
    requires Quiet(g, s) && t == Closed(s, p) && p in s.open && p in s.items && p in g.deps && Keyed(s)
    requires s.links[p].read == |g.deps[p]|
    ensures InvBut(g, t, p)
    ensures !Listening(s.items[p]) || s.items[p].dcount > 0 ==> Quiet(g, t)
    ensures s.items[p].dcount >= 0
  {
    hide Core, Verdict, Blamed, Clean;
    ClosedCore(g, s, t, p);
    CoreKeyed(g, t);
    CoreCounts(g, s, p);
    forall y <- t.items
      ensures y != p || !Listening(s.items[p]) || s.items[p].dcount > 0 ==> Verdict(t, y)
      ensures Blamed(t, y) && Clean(t, y)
    {
      ClosedVerdict(s, t, p, y);
    }
  }

  lemma CoreCounts(g: Graph, s: State, x: Item)
    requires Core(g, s) && x in s.items
    ensures s.items[x].dcount == Entries(s.order, s.items, x)
  {
    hide Climbs, Reading, Edges, Holds, Lists, Delivered;
  }

  lemma CloseKeeps(g: Graph, s: State, p: Item)
    requires Acyclic(g) && Quiet(g, s) && p in s.open && p in s.items && p in g.deps && Shape(g, s)
    requires s.links[p].read == |g.deps[p]|
    ensures Quiet(g, DoClose(g, s, p))
  {
    hide Core, Verdict, Blamed, Clean;
    var t := Closed(s, p);
    ClosedBut(g, s, t, p);
    CoreAt(g, t, p);
    if s.items[p].dcount == 0 {
      if s.items[p].status.Waiting? {
        AddBuildKeeps(g, t, AddBuild(t, p), p);
      } else if s.items[p].status.DepFail? {
        BeginKeeps(g, t, Begin(t, p), p);
        CompleteKeeps(g, t, p);
      } else {
        AbortKeeps(g, t);
      }
    }
  }

  // ---------------------------------------------------------------- builds

  /** `x` leaves the build or run list for a state of its own in which it runs. */
  ghost predicate Ran(s: State, t: State, x: Item)
  {
    && OnlyAt(s, t, x)
    && (s.items[x].status.Build? || s.items[x].status.Run?) && x !in s.active
    && (exists code :: t.items[x] == s.items[x].(status := Run, xcode := code))
    && t.open == s.open && t.total == s.total && t.early == s.early
    && t.forked == s.forked + {x}
    && s.active <= t.active <= s.active + {x}
  }

  lemma RanCore(g: Graph, s: State, t: State, x: Item)
    requires Core(g, s) && Ran(s, t, x) && Lists(t)
    ensures Core(g, t)
  {
    hide Core;
    CoreAt(g, s, x);
    CoreElse(g, s, t, x);
  }

  lemma RanKeeps(g: Graph, s: State, t: State, x: Item)
    requires Inv(g, s) && Ran(s, t, x) && Lists(t)
    ensures Inv(g, t)
  {
    hide Core, Climbs, Lists, Holds;
    RanCore(g, s, t, x);
    CoreAt(g, s, x);
    CoreAt(g, t, x);
    FromBelow(g, s, x);
    assert Verdict(s, x);
    forall y <- t.items
      ensures Verdict(t, y)
    {
      if y == x {
        RanVerdict(s, t, x);
      } else {
        if x in s.links[y].from {
          Untold(g, s, x, y);
        }
        VerdictElse(s, t, x, y);
      }
    }
  }

  lemma RanVerdict(s: State, t: State, x: Item)
    requires Keyed(s) && Keyed(t) && x in s.items && Verdict(s, x) && Ran(s, t, x)
    requires forall i <- s.links[x].from :: i in s.items && i != x
    ensures Verdict(t, x)
  {
  }

  lemma FromBelow(g: Graph, s: State, x: Item)
    requires Core(g, s) && x in s.items
    ensures x in s.links
    ensures forall i <- s.links[x].from :: i in s.items && i != x && i in g.rank && x in g.rank && g.rank[i] < g.rank[x]
  {
    hide Reading, Ordered, Lists, Delivered, Counted;
  }

  lemma LaunchRun(s: State, t: State, x: Item)
    requires Holds(s.run, With(s, Run) - s.active) && OnlyAt(s, t, x) && !s.items[x].status.Run?
    requires t.items[x].status.Run? && x !in s.active
    requires (t.run == [x] + s.run && t.active == s.active) || (t.run == s.run && t.active == s.active + {x})
    ensures Holds(t.run, With(t, Run) - t.active)
  {
    hide Holds;
    HoldsAppend(s.run, With(s, Run) - s.active, x);
    if t.active == s.active {
      assert With(t, Run) - t.active == (With(s, Run) - s.active) + {x};
    } else {
      assert With(t, Run) - t.active == With(s, Run) - s.active;
    }
  }

  lemma LaunchMoves(s: State, t: State, x: Item)
    requires OnlyAt(s, t, x) && s.items[x].status.Build? && t.items[x].status.Run?
    ensures With(t, Build) == With(s, Build) - {x} && With(t, Run) == With(s, Run) + {x}
    ensures With(t, Done) == With(s, Done) && With(t, DepFail) == With(s, DepFail)
    ensures x in With(s, Build) && x !in With(s, Run) && x !in With(s, Done)
  {
  }

  lemma LaunchLists(s: State, t: State, x: Item)
    requires Lists(s) && OnlyAt(s, t, x) && s.items[x].status.Build? && t.items[x].status.Run?
    requires s.build != [] && x == s.build[0] && t.build == s.build[1..] && t.finished == s.finished
    requires t.started == s.started + [x] && t.forked == s.forked + {x} && x !in s.active && t.early == s.early
    requires (t.run == [x] + s.run && t.active == s.active) || (t.run == s.run && t.active == s.active + {x})
    ensures Lists(t)
  {
    hide Holds;
    LaunchRun(s, t, x);
    LaunchMoves(s, t, x);
    hide With, OnlyAt;
    HoldsTail(s.build, With(s, Build));
    HoldsAppend(s.started, s.forked, x);
  }

  lemma {:induction false} WithoutHolds<T(!new)>(l: seq<T>, m: set<T>, x: T)
    requires Holds(l, m) && x in m
    ensures Holds(Without(l, x), m - {x})
  {
    assert multiset(l)[x] == 1;
    HoldsTail(l, m);
    assert l == [l[0]] + l[1..];
    if l[0] != x {
      WithoutHolds(l[1..], m - {l[0]}, x);
      HoldsAppend(Without(l[1..], x), m - {l[0]} - {x}, l[0]);
      assert m - {l[0]} - {x} + {l[0]} == m - {x};
    }
  }

  lemma ReapLists(s: State, t: State, x: Item)
    requires Lists(s) && OnlyAt(s, t, x) && s.items[x].status.Run? && t.items[x].status.Run? && x !in s.active
    requires t.build == s.build && t.finished == s.finished && t.started == s.started && t.forked == s.forked
             && t.early == s.early
    requires t.run == Without(s.run, x) && t.active == s.active + {x}
    ensures Lists(t)
  {
    WithMoved(s, t, x);
    WithoutHolds(s.run, With(s, Run) - s.active, x);
    assert With(t, Run) - t.active == With(s, Run) - s.active - {x};
  }

  lemma OnList(g: Graph, s: State, x: Item)
    requires Core(g, s)
    ensures s.build != [] && x == s.build[0] ==> x in s.items && s.items[x].status.Build?
    ensures x in s.run ==> x in s.items && s.items[x].status.Run? && x !in s.active && x in s.forked
    ensures x in s.active ==> x in s.items && !s.items[x].status.Build?
  {
    hide Climbs, Reading, Edges, Delivered, Counted, Ordered;
    assert s.build != [] && x == s.build[0] ==> x in multiset(s.build);
    assert x in s.run ==> x in multiset(s.run);
  }

  lemma LaunchIs(s: State, x: Item)
    requires s.build != [] && x == s.build[0] && x in s.items && s.items[x].status.Build? && s.active == {}
    ensures Ran(s, Tracked(s), x) && Tracked(s).items[x].status.Run?
    ensures Ran(s, Begin(Crashed(s), x), x) && Crashed(s).items[x].status.Run?
    ensures OnlyAt(s, Crashed(s), x)
  {
    var l := Launch(s);
    assert l.items[x] == s.items[x].(status := Run, xcode := s.items[x].xcode);
    assert Crashed(s).items[x] == s.items[x].(status := Run, xcode := -98);
  }

  /** `c` is about to deliver the completion of `x`. */
  ghost predicate Ready(g: Graph, s: State, c: State, x: Item)
  {
    && Shape(g, c) && x in c.items && c.active == {} && Inv(g, Begin(c, x)) && OnlyAt(s, c, x)
    && c.items[x].left == multiset(c.links[x].dbase)
    && c.early == s.early && c.open == s.open && !s.items[x].status.Done?
    && With(c, Build) <= With(s, Build)
  }

  lemma CrashReady(g: Graph, s: State, x: Item)
    requires Quiet(g, s) && s.build != [] && x == s.build[0] && x in s.items
    ensures Ready(g, s, Crashed(s), x)
    ensures Quiet(g, Tracked(s)) && OnlyAt(s, Tracked(s), x) && With(Tracked(s), Build) <= With(s, Build)
    ensures !s.items[x].status.Done?
  {
    hide Core, Verdict, Lists;
    OnList(g, s, x);
    CoreAt(g, s, x);
    LaunchIs(s, x);
    var t := Tracked(s);
    LaunchLists(s, t, x);
    RanKeeps(g, s, t, x);
    var c := Crashed(s);
    LaunchLists(s, Begin(c, x), x);
    RanKeeps(g, s, Begin(c, x), x);
    NotBuilt(s, c, x);
    NotBuilt(s, t, x);
  }

  lemma NotBuilt(s: State, t: State, x: Item)
    requires OnlyAt(s, t, x) && !t.items[x].status.Build?
    ensures With(t, Build) <= With(s, Build)
  {
  }

  lemma ExitIs(s: State, x: Item, code: int)
    requires x in s.items && s.items[x].status.Run? && s.active == {} && x in s.forked
    ensures Ran(s, Begin(Exited(s, x, code), x), x) && OnlyAt(s, Exited(s, x, code), x)
  {
    assert Exited(s, x, code).items[x] == s.items[x].(status := Run, xcode := code);
  }

  lemma ExitReady(g: Graph, s: State, x: Item, code: int)
    requires Quiet(g, s) && x in s.run && x in s.items
    ensures Ready(g, s, Exited(s, x, code), x)
  {
    hide Core, Verdict, Lists;
    OnList(g, s, x);
    CoreAt(g, s, x);
    ExitIs(s, x, code);
    var c := Exited(s, x, code);
    ReapLists(s, Begin(c, x), x);
    RanKeeps(g, s, Begin(c, x), x);
    NotBuilt(s, c, x);
  }

  lemma ForkKeeps(g: Graph, s: State, ok: bool)
    requires Quiet(g, s) && Shape(g, s) && s.build != [] && s.build[0] in s.items
    ensures Quiet(g, DoFork(g, s, ok))
  {
    hide Core, Verdict;
    var x := s.build[0];
    CrashReady(g, s, x);
    if !ok {
      CompleteKeeps(g, Crashed(s), x);
    }
  }

  lemma ReapKeeps(g: Graph, s: State, x: Item, code: int)
    requires Quiet(g, s) && Shape(g, s) && x in s.run && x in s.items
    ensures Quiet(g, DoReap(g, s, x, code))
  {
    hide Core, Verdict;
    ExitReady(g, s, x, code);
    CompleteKeeps(g, Exited(s, x, code), x);
  }
}
