/** Reading one line of a dependency list keeps the invariant. */
module BulkLinking {
  import opened BulkState
  import opened BulkInvariant
  import opened BulkCascade
  import opened BulkEvents

  /** `p` gains the registered dependency `x`; the other links stay. */
  ghost predicate Linked(s: State, t: State, p: Item, x: Item)
  {
    && p in s.links && x in s.links && p != x
    && (forall y :: y in t.links <==> y in s.links)
    && (forall y <- s.links :: y != p && y != x ==> t.links[y] == s.links[y])
    && t.links[x] == s.links[x].(dbase := [p] + s.links[x].dbase)
    && t.links[p] == s.links[p].(read := s.links[p].read + 1, from := s.links[p].from + {x})
  }

  lemma LinkIs(s: State, p: Item, x: Item)
    requires p in s.links && x in s.links && p != x
    ensures Linked(s, Link(s, p, x), p, x)
  {
  }

  ghost predicate NextLine(g: Graph, s: State, p: Item, x: Item)
  {
    && p in s.items && x in s.items && p in s.open && x !in s.open && p in s.links && p in g.deps
    && s.links[p].read < |g.deps[p]| && x == g.deps[p][s.links[p].read]
  }

  lemma LinkedShape(g: Graph, s: State, t: State, p: Item, x: Item)
    requires Shape(g, s) && Linked(s, t, p, x) && SameKeys(s, t) && g.rank[x] < g.rank[p]
    ensures Shape(g, t)
  {
    forall i, y | i in t.links && y in t.links[i].dbase
      ensures y in t.links && g.rank[i] < g.rank[y]
    {
      if i == x && y != p {
        assert y in s.links[x].dbase;
      }
    }
  }

  lemma LinkedReading(g: Graph, s: State, t: State, p: Item, x: Item)
    requires Keyed(s) && Keyed(t) && Reading(g, s) && Linked(s, t, p, x) && SameKeys(s, t) && NextLine(g, s, p, x)
    requires t.open == s.open
    ensures Reading(g, t)
  {
    var n := s.links[p].read;
    assert FirstDeps(g, p, n + 1) == FirstDeps(g, p, n) + {x};
  }

  lemma LinkedPair(s: State, t: State, p: Item, x: Item, y: Item, i: Item)
    requires Linked(s, t, p, x) && y in s.links && i in s.links && Paired(s, y, i)
    ensures Paired(t, y, i)
  {
    assert multiset(t.links[x].dbase) == multiset{p} + multiset(s.links[x].dbase);
  }

  lemma LinkedEdges(g: Graph, s: State, t: State, p: Item, x: Item)
    requires Shape(g, s) && Shape(g, t) && Edges(g, s) && Linked(s, t, p, x) && SameKeys(s, t) && NextLine(g, s, p, x)
    requires t.open == s.open && g.rank[x] < g.rank[p]
    ensures Edges(g, t)
  {
    hide Climbs, Paired;
    forall y, i | y in t.items && i in t.items
      ensures Paired(t, y, i)
    {
      LinkedPair(s, t, p, x, y, i);
    }
  }

  /** The static part of the core after a line was read. */
  lemma LinkedStatic(g: Graph, s: State, t: State, p: Item, x: Item)
    requires Acyclic(g) && Shape(g, s) && Reading(g, s) && Edges(g, s)
    requires NextLine(g, s, p, x) && Linked(s, t, p, x) && SameKeys(s, t) && t.open == s.open
    ensures Shape(g, t) && Reading(g, t) && Edges(g, t)
  {
    hide Climbs, Edges;
    assert x in g.deps[p];
    LinkedShape(g, s, t, p, x);
    LinkedReading(g, s, t, p, x);
    LinkedEdges(g, s, t, p, x);
  }

  // ---------------------------------------------------------------- the dependency is Done

  ghost predicate OnlyLinks(s: State, t: State)
  {
    t == s.(links := t.links)
  }

  lemma DoneCore(g: Graph, s: State, t: State, p: Item, x: Item)
    requires Acyclic(g) && Core(g, s) && NextLine(g, s, p, x) && Linked(s, t, p, x) && OnlyLinks(s, t)
    requires s.items[x].status.Done?
    ensures Core(g, t)
  {
    hide Acyclic, Climbs, Reading, Edges, Holds, Lists, Delivered, Counted;
    LinkedStatic(g, s, t, p, x);
    WithSame(s, t);
    DoneDelivered(g, s, t, p, x);
    SameLists(s, t);
    CountedSame(s, t);
  }

  lemma SameLists(s: State, t: State)
    requires Lists(s) && OnlyLinks(s, t)
    ensures Lists(t)
  {
    WithSame(s, t);
  }

  lemma DoneDelivered(g: Graph, s: State, t: State, p: Item, x: Item)
    requires Shape(g, s) && Edges(g, s) && Keyed(t) && Delivered(s) && Linked(s, t, p, x) && OnlyLinks(s, t)
    requires s.items[x].status.Done?
    ensures Delivered(t)
  {
    hide Climbs, Edges;
  }

  /** Verdicts depend on the links of the item itself only. */
  lemma DoneElse(s: State, t: State, p: Item, x: Item, y: Item)
    requires Keyed(s) && Linked(s, t, p, x) && OnlyLinks(s, t) && y in s.items && y != p && Verdict(s, y)
    ensures Keyed(t) && Verdict(t, y)
  {
    assert t.links[y].from == s.links[y].from;
  }

  lemma DoneAt(g: Graph, s: State, t: State, p: Item, x: Item)
    requires Keyed(s) && Linked(s, t, p, x) && OnlyLinks(s, t) && Verdict(s, p)
    requires NextLine(g, s, p, x) && s.items[x].status.Done? && s.items[x].left == multiset{}
    requires s.items[x].xcode == 0 || !Listening(s.items[p])
    requires p in s.forked ==> s.items[p].status.Run? || s.items[p].status.Done?
    ensures Keyed(t) && Verdict(t, p)
  {
  }

  lemma DoneKeeps(g: Graph, s: State, t: State, p: Item, x: Item)
    requires Acyclic(g) && Quiet(g, s) && NextLine(g, s, p, x) && Linked(s, t, p, x) && OnlyLinks(s, t)
    requires s.items[x].status.Done?
    ensures Core(g, t) && t.active == {}
    ensures forall y <- t.items :: y != p ==> Verdict(t, y)
    ensures s.items[x].xcode == 0 || !Listening(s.items[p]) ==> Quiet(g, t)
  {
    hide Core, Verdict;
    DoneCore(g, s, t, p, x);
    CoreAt(g, s, x);
    CoreAt(g, s, p);
    CoreKeyed(g, t);
    forall y <- t.items | y != p
      ensures Verdict(t, y)
    {
      DoneElse(s, t, p, x, y);
    }
    if s.items[x].xcode == 0 || !Listening(s.items[p]) {
      DoneAt(g, s, t, p, x);
    }
  }

  // ---------------------------------------------------------------- the dependency is still to come

  ghost predicate Awaited(s: State, t: State, p: Item, x: Item)
  {
    && SameKeys(s, t) && p in s.items && x in s.items && p != x
    && (forall y <- s.items :: t.items[y].status == s.items[y].status && t.items[y].xcode == s.items[y].xcode)
    && (forall y <- s.items :: t.items[y].left == if y == x then s.items[y].left + multiset{p} else s.items[y].left)
    && (forall y <- s.items :: t.items[y].dcount == if y == p then s.items[y].dcount + 1 else s.items[y].dcount)
    && t == s.(items := t.items, links := t.links)
  }

  lemma AwaitIs(s: State, p: Item, x: Item)
    requires p in s.items && x in s.items && p in s.links && x in s.links && p != x
    ensures Linked(s, Await(Link(s, p, x), p, x), p, x) && Awaited(s, Await(Link(s, p, x), p, x), p, x)
  {
    LinkIs(s, p, x);
    var l := Link(s, p, x);
    var m := Add(l, x, p);
    assert forall y <- s.items :: m.items[y].dcount == s.items[y].dcount;
    var t := Await(l, p, x);
    assert forall y <- s.items :: t.items[y].left == m.items[y].left;
  }

  lemma AwaitCounts(s: State, t: State, p: Item, x: Item)
    requires Counted(s) && multiset(s.order)[x] == 1 && Awaited(s, t, p, x)
    ensures Counted(t)
  {
    forall y <- s.items
      ensures t.items[y].dcount == Entries(t.order, t.items, y)
    {
      EntriesChange(s.order, s.items, t.items, x, y);
    }
  }

  lemma AwaitDelivered(s: State, t: State, p: Item, x: Item)
    requires Keyed(s) && Keyed(t) && Delivered(s) && s.active == {} && Linked(s, t, p, x) && Awaited(s, t, p, x)
    requires !s.items[x].status.Done? && s.links[p].dbase == t.links[p].dbase
    ensures Delivered(t)
  {
    assert multiset(t.links[x].dbase) == multiset{p} + multiset(s.links[x].dbase);
  }

  lemma AwaitLists(s: State, t: State, p: Item, x: Item)
    requires Lists(s) && Awaited(s, t, p, x)
    ensures Lists(t)
  {
    WithSame(s, t);
  }

  lemma AwaitCore(g: Graph, s: State, t: State, p: Item, x: Item)
    requires Acyclic(g) && Core(g, s) && s.active == {} && NextLine(g, s, p, x) && Linked(s, t, p, x)
             && Awaited(s, t, p, x)
    requires !s.items[x].status.Done? && multiset(s.order)[x] == 1
    ensures Core(g, t)
  {
    hide Acyclic, Climbs, Ordered, Reading, Edges, Holds, Lists, Delivered, Counted;
    OrderedSame(s, t);
    LinkedStatic(g, s, t, p, x);
    AwaitLists(s, t, p, x);
    AwaitDelivered(s, t, p, x);
    AwaitCounts(s, t, p, x);
  }

  lemma AwaitElse(s: State, t: State, p: Item, x: Item, y: Item)
    requires Keyed(s) && Keyed(t) && Linked(s, t, p, x) && Awaited(s, t, p, x) && y in s.items && y != p
             && Verdict(s, y)
    ensures Verdict(t, y)
  {
    assert t.links[y].from == s.links[y].from;
    assert forall i <- s.links[y].from :: i in s.items ==> (y in t.items[i].left <==> y in s.items[i].left);
  }

  lemma AwaitAt(g: Graph, s: State, t: State, p: Item, x: Item)
    requires Keyed(s) && Keyed(t) && Linked(s, t, p, x) && Awaited(s, t, p, x) && Verdict(s, p) && NextLine(g, s, p, x)
    ensures Verdict(t, p)
  {
    assert forall i <- s.links[p].from :: i in s.items && p in s.items[i].left ==> p in t.items[i].left;
  }

  lemma AwaitKeeps(g: Graph, s: State, t: State, p: Item, x: Item)
    requires Acyclic(g) && Quiet(g, s) && NextLine(g, s, p, x) && Linked(s, t, p, x) && Awaited(s, t, p, x)
    requires !s.items[x].status.Done?
    ensures Quiet(g, t)
  {
    hide Core, Verdict;
    CoreAt(g, s, x);
    AwaitCore(g, s, t, p, x);
    CoreKeyed(g, t);
    forall y <- t.items
      ensures Verdict(t, y)
    {
      if y == p {
        AwaitAt(g, s, t, p, x);
      } else {
        AwaitElse(s, t, p, x, y);
      }
    }
  }

  lemma DepnKeeps(g: Graph, s: State, p: Item, x: Item)
    requires Acyclic(g) && Quiet(g, s) && NextLine(g, s, p, x) && Keyed(s)
    ensures Quiet(g, DoDepn(s, p, x))
  {
    hide Core, Verdict, Blamed, Clean;
    assert x in g.deps[p];
    var t := Link(s, p, x);
    LinkIs(s, p, x);
    if !s.items[x].status.Done? {
      AwaitIs(s, p, x);
      AwaitKeeps(g, s, Await(t, p, x), p, x);
    } else {
      DoneKeeps(g, s, t, p, x);
      if s.items[x].xcode != 0 {
        if Listening(s.items[p]) {
          CoreAt(g, t, p);
          FailKeeps(g, t, Fail(t, p, s.items[x].xcode), p, x);
          OpenWaits(g, Fail(t, p, s.items[x].xcode), p);
        } else {
          AbortKeeps(g, t);
        }
      }
    }
  }

  lemma OpenWaits(g: Graph, t: State, p: Item)
    requires InvBut(g, t, p) && p in t.open
    ensures Inv(g, t)
  {
    hide Core, Blamed, Clean;
    CoreKeyed(g, t);
    assert Verdict(t, p);
  }

  lemma AbortKeeps(g: Graph, s: State)
    requires Quiet(g, s)
    ensures Quiet(g, s.(aborted := true))
  {
    hide Acyclic, Climbs, Reading, Edges, Holds, Lists, Delivered, Counted, Verdict;
    var t := s.(aborted := true);
    StaticSame(g, s, t);
    assert OnlyLinks(s, t.(aborted := s.aborted));
    WithSame(s, t);
    AbortLists(s, t);
    CountedSame(s, t);
    AbortDelivered(s, t);
    forall y <- t.items
      ensures Verdict(t, y)
    {
      AbortVerdict(s, t, y);
    }
  }

  lemma AbortLists(s: State, t: State)
    requires Lists(s) && t == s.(aborted := true)
    ensures Lists(t)
  {
    WithSame(s, t);
  }

  lemma AbortDelivered(s: State, t: State)
    requires Keyed(s) && Keyed(t) && Delivered(s) && t == s.(aborted := true)
    ensures Delivered(t)
  {
  }

  lemma AbortVerdict(s: State, t: State, y: Item)
    requires Keyed(s) && Keyed(t) && t == s.(aborted := true) && y in s.items && Verdict(s, y)
    ensures Verdict(t, y)
  {
  }
}
