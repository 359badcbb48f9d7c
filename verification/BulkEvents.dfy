/** Every event keeps the invariant, so every run does. */
module BulkEvents {
  import opened BulkState
  import opened BulkInvariant
  import opened BulkCascade

  /** The invariant between events. */
  ghost predicate Quiet(g: Graph, s: State)
  {
    Inv(g, s) && s.active == {}
  }

  lemma InitialQuiet(g: Graph)
    ensures Quiet(g, INITIAL)
  {
  }

  // ---------------------------------------------------------------- registering an item

  lemma NowhereLeft(g: Graph, s: State, p: Item)
    requires Shape(g, s) && Delivered(s) && s.active == {} && p !in s.items
    ensures forall i <- s.items :: p !in s.items[i].left
  {
    forall i <- s.items
      ensures p !in s.items[i].left
    {
      assert p in s.links[i].dbase ==> p in s.links;
      assert p in multiset(s.links[i].dbase) <==> p in s.links[i].dbase;
    }
  }

  lemma NowhereFrom(g: Graph, s: State, p: Item)
    requires Shape(g, s) && Edges(g, s) && p !in s.items
    ensures p !in s.open && forall i <- s.items :: p !in s.links[i].from
  {
  }

  /** `p` joins the items; nothing else changes. */
  ghost predicate Joined(s: State, t: State, p: Item)
  {
    && p !in s.items && p !in s.links
    && (forall y :: y in t.items <==> y in s.items || y == p)
    && (forall y :: y in t.links <==> y in s.links || y == p)
    && (forall y <- s.items :: t.items[y] == s.items[y])
    && (forall y <- s.links :: t.links[y] == s.links[y])
    && t.items[p] == Rec(Waiting, 0, 0, multiset{}) && t.links[p] == Links([], 0, {})
    && t == s.(order := s.order + [p], items := t.items, links := t.links, open := s.open + {p})
  }

  lemma RegisterIs(s: State, p: Item)
    requires p !in s.items && Keyed(s)
    ensures Joined(s, DoRegister(s, p), p)
  {
  }

  lemma JoinedLists(s: State, t: State, p: Item)
    requires Lists(s) && Ordered(s) && Joined(s, t, p)
    ensures Lists(t) && Ordered(t)
  {
    HoldsAppend(s.order, s.items.Keys, p);
    assert t.items.Keys == s.items.Keys + {p};
    assert forall st: Status :: st != Waiting ==> With(t, st) == With(s, st);
  }

  lemma JoinedShape(g: Graph, s: State, t: State, p: Item)
    requires Acyclic(g) && Shape(g, s) && Joined(s, t, p) && p in g.deps
    ensures Shape(g, t)
  {
  }

  lemma JoinedReading(g: Graph, s: State, t: State, p: Item)
    requires Keyed(s) && Keyed(t) && Reading(g, s) && Joined(s, t, p) && p in g.deps
    ensures Reading(g, t)
  {
    assert FirstDeps(g, p, 0) == {};
  }

  lemma JoinedEdges(g: Graph, s: State, t: State, p: Item)
    requires Shape(g, s) && Shape(g, t) && Edges(g, s) && Joined(s, t, p)
    requires p !in s.open && forall i <- s.items :: p !in s.links[i].from && p !in multiset(s.links[i].dbase)
    ensures Edges(g, t)
  {
    hide Climbs;
    assert p !in multiset(t.links[p].dbase);
    assert forall x, i | x in t.items && i in t.links[x].from :: x in s.items && i in s.links[x].from;
  }

  lemma NowhereBase(g: Graph, s: State, p: Item)
    requires Shape(g, s) && p !in s.items
    ensures forall i <- s.items :: p !in multiset(s.links[i].dbase)
  {
    forall i <- s.items
      ensures p !in multiset(s.links[i].dbase)
    {
      assert p in s.links[i].dbase ==> p in s.links;
    }
  }

  lemma JoinedDelivered(s: State, t: State, p: Item)
    requires Keyed(s) && Keyed(t) && Delivered(s) && Joined(s, t, p)
    ensures Delivered(t)
  {
  }

  lemma JoinedCounts(s: State, t: State, p: Item)
    requires Counted(s) && Joined(s, t, p)
    requires forall i <- s.items :: p !in s.items[i].left
    ensures Counted(t)
  {
    assert t.order[..|t.order| - 1] == s.order;
    forall y <- t.items
      ensures t.items[y].dcount == Entries(t.order, t.items, y)
    {
      EntriesSame(s.order, s.items, t.items, y);
      if y == p && Entries(t.order, t.items, p) > 0 {
        var i := EntriesSome(t.order, t.items, p);
      }
    }
  }

  lemma JoinedVerdict(g: Graph, s: State, t: State, p: Item, y: Item)
    requires Keyed(s) && Keyed(t) && Joined(s, t, p) && y in t.items
    requires y != p ==> Verdict(s, y) && forall i <- s.links[y].from :: i in s.items
    requires p !in s.forked
    ensures Verdict(t, y)
  {
  }

  lemma RegisterCore(g: Graph, s: State, t: State, p: Item)
    requires Acyclic(g) && Core(g, s) && s.active == {} && p in g.deps && p !in s.items && Joined(s, t, p)
    ensures Core(g, t)
  {
    hide Acyclic, Climbs, Reading, Edges, Holds, Lists, Delivered, Counted;
    NowhereLeft(g, s, p);
    NowhereFrom(g, s, p);
    NowhereBase(g, s, p);
    JoinedShape(g, s, t, p);
    JoinedReading(g, s, t, p);
    JoinedEdges(g, s, t, p);
    JoinedLists(s, t, p);
    JoinedDelivered(s, t, p);
    JoinedCounts(s, t, p);
  }

  lemma RegisterKeeps(g: Graph, s: State, p: Item)
    requires Acyclic(g) && Quiet(g, s) && p in g.deps && p !in s.items
    ensures Quiet(g, DoRegister(s, p))
  {
    hide Core, Verdict;
    var t := DoRegister(s, p);
    CoreKeyed(g, s);
    CoreForked(g, s);
    RegisterIs(s, p);
    RegisterCore(g, s, t, p);
    CoreKeyed(g, t);
    forall y <- t.items
      ensures Verdict(t, y)
    {
      JoinedVerdict(g, s, t, p, y);
    }
  }

  lemma CoreForked(g: Graph, s: State)
    requires Core(g, s)
    ensures s.forked <= s.items.Keys
  {
    hide Shape, Reading, Edges, Holds, Delivered, Counted;
  }

  lemma CoreKeyed(g: Graph, s: State)
    requires Core(g, s)
    ensures Keyed(s)
    ensures forall x, i | x in s.items && i in s.links[x].from :: i in s.items
  {
    hide Climbs, Reading, Holds, Lists, Delivered, Counted;
  }
}
