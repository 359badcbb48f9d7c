/** What every event of the bulk-build scheduler keeps. */
module BulkInvariant {
  import opened BulkState

  // ---------------------------------------------------------------- counting list entries

  ghost function Naming(items: map<Item, Rec>, i: Item, x: Item): nat
  {
    if i in items then items[i].left[x] else 0
  }

  /** How often `x` is named in the undelivered entries of the items of `order`, with multiplicity. */
  ghost function Entries(order: seq<Item>, items: map<Item, Rec>, x: Item): nat
  {
    if order == [] then 0
    else Entries(order[..|order| - 1], items, x) + Naming(items, order[|order| - 1], x)
  }

  lemma {:induction false} EntriesZero(order: seq<Item>, items: map<Item, Rec>, x: Item, i: Item)
    requires i in order
    ensures Entries(order, items, x) >= Naming(items, i, x)
  {
    var n := |order| - 1;
    assert order == order[..n] + [order[n]];
    if i != order[n] {
      EntriesZero(order[..n], items, x, i);
    }
  }

  lemma {:induction false} EntriesSome(order: seq<Item>, items: map<Item, Rec>, x: Item) returns (i: Item)
    requires Entries(order, items, x) > 0
    ensures i in order && Naming(items, i, x) > 0
  {
    var n := |order| - 1;
    if Naming(items, order[n], x) > 0 {
      i := order[n];
    } else {
      i := EntriesSome(order[..n], items, x);
    }
  }

  lemma {:induction false} EntriesSame(order: seq<Item>, items: map<Item, Rec>, items': map<Item, Rec>, x: Item)
    requires forall i :: Naming(items, i, x) == Naming(items', i, x)
    ensures Entries(order, items, x) == Entries(order, items', x)
  {
    if order != [] {
      EntriesSame(order[..|order| - 1], items, items', x);
    }
  }

  lemma {:induction false} EntriesChange(order: seq<Item>, items: map<Item, Rec>, items': map<Item, Rec>, i: Item,
      x: Item)
    requires multiset(order)[i] == 1
    requires forall j :: j != i ==> Naming(items, j, x) == Naming(items', j, x)
    ensures Entries(order, items', x) + Naming(items, i, x) == Entries(order, items, x) + Naming(items', i, x)
  {
    var n := |order| - 1;
    assert order == order[..n] + [order[n]];
    if order[n] == i {
      EntriesAbsent(order[..n], items, items', i, x);
    } else {
      EntriesChange(order[..n], items, items', i, x);
    }
  }

  lemma {:induction false} EntriesAbsent(order: seq<Item>, items: map<Item, Rec>, items': map<Item, Rec>, i: Item,
      x: Item)
    requires i !in multiset(order)
    requires forall j :: j != i ==> Naming(items, j, x) == Naming(items', j, x)
    ensures Entries(order, items', x) == Entries(order, items, x)
  {
    if order != [] {
      var n := |order| - 1;
      assert order == order[..n] + [order[n]];
      EntriesAbsent(order[..n], items, items', i, x);
    }
  }

  // ---------------------------------------------------------------- the invariant

  /** The dependencies on the first `n` lines. */
  ghost function FirstDeps(g: Graph, p: Item, n: nat): set<Item>
    requires p in g.deps && n <= |g.deps[p]|
  {
    set d | d in g.deps[p][..n]
  }

  /** `l` lists every member of `m` exactly once. */
  ghost predicate Holds<T(!new)>(l: seq<T>, m: set<T>)
  {
    forall x :: multiset(l)[x] == if x in m then 1 else 0
  }

  lemma HoldsAppend<T(!new)>(l: seq<T>, m: set<T>, x: T)
    requires Holds(l, m) && x !in m
    ensures Holds(l + [x], m + {x}) && Holds([x] + l, m + {x})
  {
  }

  lemma HoldsTail<T(!new)>(l: seq<T>, m: set<T>)
    requires Holds(l, m) && l != []
    ensures l[0] in m && Holds(l[1..], m - {l[0]})
  {
    assert l == [l[0]] + l[1..];
  }

  ghost function With(s: State, st: Status): set<Item>
  {
    set x | x in s.items && s.items[x].status == st
  }

  /** `from` holds what was read of the dependency list. */
  ghost predicate Reading(g: Graph, s: State)
    requires Keyed(s)
  {
    && (forall x <- s.items :: x in g.deps && s.links[x].read <= |g.deps[x]|
                               && s.links[x].from == FirstDeps(g, x, s.links[x].read))
    && (forall x <- s.items :: x !in s.open ==> s.links[x].read == |g.deps[x]|)
  }

  /** Registered dependencies and reverse-dependency lists describe the same edges. */
  ghost predicate Edges(g: Graph, s: State)
    requires Shape(g, s)
  {
    && (forall x, i | x in s.items && i in s.links[x].from :: i in s.items && g.rank[i] < g.rank[x])
    && (forall x, i | x in s.items && i in s.items :: Paired(s, x, i))
    && (forall p <- s.open :: p in s.items && s.links[p].dbase == [])
  }

  ghost predicate Paired(s: State, x: Item, i: Item)
    requires x in s.links && i in s.links
  {
    i in s.links[x].from <==> x in multiset(s.links[i].dbase)
  }

  ghost predicate Ordered(s: State)
  {
    Holds(s.order, s.items.Keys)
  }

  /** Each list holds every item of its status exactly once. */
  ghost predicate Lists(s: State)
  {
    && Holds(s.build, With(s, Build))
    && Holds(s.run, With(s, Run) - s.active)
    && Holds(s.finished, With(s, Done))
    && Holds(s.started, s.forked)
    && With(s, Run) <= s.forked <= With(s, Run) + With(s, Done)
    && s.active <= With(s, Run) + With(s, DepFail)
    && s.early <= With(s, Build) + s.forked
  }

  /** Only a completion that is done or under way has delivered entries. */
  ghost predicate Delivered(s: State)
    requires Keyed(s)
  {
    && (forall i <- s.items :: s.items[i].status.Done? ==> s.items[i].left == multiset{})
    && (forall i <- s.items :: !s.items[i].status.Done? && i !in s.active ==>
                                 s.items[i].left == multiset(s.links[i].dbase))
  }

  /** Every dcount is the number of undelivered entries naming the item. */
  ghost predicate Counted(s: State)
  {
    forall x <- s.items :: s.items[x].dcount == Entries(s.order, s.items, x)
  }

  ghost predicate Core(g: Graph, s: State)
  {
    && Shape(g, s)
    && Reading(g, s)
    && Edges(g, s)
    && Ordered(s)
    && Lists(s)
    && Delivered(s)
    && Counted(s)
    && s.total + |s.open| == |s.order|
  }

  ghost predicate Ended(s: State, i: Item)
  {
    i in s.items && (s.items[i].status.Done? || i in s.active)
  }

  /** No item is left behind: once its list is read, an item that waits has something to wait for. */
  ghost predicate Awaits(s: State, x: Item)
    requires x in s.items
  {
    Listening(s.items[x]) && x !in s.open && x !in s.active ==> s.items[x].dcount > 0
  }

  ghost predicate Skipped(s: State, x: Item)
    requires x in s.items
  {
    s.items[x].status.DepFail? || (s.items[x].status.Done? && x !in s.forked)
  }

  /** An item that is skipped carries the code of a dependency that failed. */
  ghost predicate Blamed(s: State, x: Item)
    requires Keyed(s) && x in s.items
  {
    Skipped(s, x) ==>
      && s.items[x].xcode != 0
      && exists i <- s.links[x].from :: Ended(s, i) && s.items[i].xcode == s.items[x].xcode
  }

  ghost predicate Queued(s: State, x: Item)
    requires x in s.items
  {
    s.items[x].status.Build? || s.items[x].status.Run? || x in s.forked
  }

  /** Whatever was delivered to an item that may still be built, or was built, ended with code 0. */
  ghost predicate Clean(s: State, x: Item)
    requires Keyed(s) && x in s.items
  {
    && (x !in s.early && (s.items[x].status.Waiting? || Queued(s, x)) ==>
          forall i <- s.links[x].from :: i in s.items && (x in s.items[i].left || s.items[i].xcode == 0))
    && (x !in s.early && Queued(s, x) ==>
          x !in s.open && forall i <- s.links[x].from :: i in s.items && x !in s.items[i].left)
  }

  ghost predicate Verdict(s: State, x: Item)
    requires Keyed(s) && x in s.items
  {
    Awaits(s, x) && Blamed(s, x) && Clean(s, x)
  }

  ghost predicate Inv(g: Graph, s: State)
  {
    && Core(g, s)
    && forall x <- s.items :: Verdict(s, x)
  }

  /** The invariant, except that `x` may have nothing left to wait for. */
  ghost predicate InvBut(g: Graph, s: State, x: Item)
  {
    && Core(g, s)
    && x in s.items
    && (forall y <- s.items :: y != x ==> Verdict(s, y))
    && Blamed(s, x) && Clean(s, x)
  }

  // ---------------------------------------------------------------- frames

  ghost predicate SameKeys(s: State, t: State)
  {
    forall y :: y in t.items <==> y in s.items
  }

  /** The two states differ in one item, the lists and the history at most. */
  ghost predicate OnlyAt(s: State, t: State, x: Item)
  {
    && SameKeys(s, t)
    && x in s.items
    && (forall y <- s.items :: y != x ==> t.items[y] == s.items[y])
    && t.links == s.links && t.order == s.order
  }

  lemma ReadingSame(g: Graph, s: State, t: State)
    requires Keyed(s) && Keyed(t) && Reading(g, s) && SameKeys(s, t) && t.links == s.links && t.open == s.open
    ensures Reading(g, t)
  {
  }

  lemma EdgesSame(g: Graph, s: State, t: State)
    requires Shape(g, s) && Shape(g, t) && Edges(g, s) && SameKeys(s, t) && t.links == s.links && t.open == s.open
    ensures Edges(g, t)
  {
    hide Climbs;
    forall x, i | x in t.items && i in t.items
      ensures Paired(t, x, i)
    {
      assert Paired(s, x, i);
    }
  }

  lemma OrderedSame(s: State, t: State)
    requires Ordered(s) && SameKeys(s, t) && t.order == s.order
    ensures Ordered(t)
  {
    assert t.items.Keys == s.items.Keys;
  }

  lemma StaticSame(g: Graph, s: State, t: State)
    requires Shape(g, s) && Reading(g, s) && Edges(g, s) && Ordered(s)
    requires SameKeys(s, t) && t.links == s.links && t.order == s.order && t.open == s.open
    ensures Shape(g, t) && Reading(g, t) && Edges(g, t) && Ordered(t)
  {
    hide Climbs, Reading, Edges, Ordered;
    ReadingSame(g, s, t);
    EdgesSame(g, s, t);
    OrderedSame(s, t);
  }

  lemma CountedSame(s: State, t: State)
    requires Counted(s)
    requires SameKeys(s, t) && t.order == s.order
    requires forall y <- s.items :: t.items[y].left == s.items[y].left && t.items[y].dcount == s.items[y].dcount
    ensures Counted(t)
  {
    forall y <- s.items
      ensures t.items[y].dcount == Entries(t.order, t.items, y)
    {
      EntriesSame(s.order, s.items, t.items, y);
    }
  }

  lemma DeliveredElse(s: State, t: State, x: Item)
    requires Keyed(s) && Delivered(s) && OnlyAt(s, t, x)
    requires forall y :: y != x ==> (y in t.active <==> y in s.active)
    requires t.items[x].status.Done? ==> t.items[x].left == multiset{}
    requires !t.items[x].status.Done? && x !in t.active ==> t.items[x].left == multiset(t.links[x].dbase)
    ensures Keyed(t) && Delivered(t)
  {
  }

  /** What the core says about one item. */
  lemma CoreAt(g: Graph, s: State, x: Item)
    requires Core(g, s) && x in s.items
    ensures Shape(g, s) && Lists(s) && multiset(s.order)[x] == 1
    ensures s.items[x].status.Done? ==> s.items[x].left == multiset{}
    ensures !s.items[x].status.Done? && x !in s.active ==> s.items[x].left == multiset(s.links[x].dbase)
    ensures x in s.active ==> s.items[x].status.Run? || s.items[x].status.DepFail?
    ensures x in s.forked ==> s.items[x].status.Run? || s.items[x].status.Done?
    ensures s.items[x].status.Run? ==> x in s.forked
  {
    hide Climbs, Reading, Edges, Counted;
  }

  lemma CoreElse(g: Graph, s: State, t: State, x: Item)
    requires Core(g, s) && OnlyAt(s, t, x) && Lists(t)
    requires t.open == s.open && t.total == s.total
    requires t.items[x].left == s.items[x].left && t.items[x].dcount == s.items[x].dcount
    requires forall y :: y != x ==> (y in t.active <==> y in s.active)
    requires t.items[x].status.Done? ==> t.items[x].left == multiset{}
    requires !t.items[x].status.Done? && x !in t.active ==> t.items[x].left == multiset(t.links[x].dbase)
    ensures Core(g, t)
  {
    hide Climbs, Reading, Edges, Holds, Lists, Delivered, Counted;
    StaticSame(g, s, t);
    CountedSame(s, t);
    DeliveredElse(s, t, x);
  }

  /** The other items do not notice a change of `x` that none of them was told about. */
  lemma VerdictElse(s: State, t: State, x: Item, y: Item)
    requires Keyed(s) && OnlyAt(s, t, x) && y in s.items && y != x && Verdict(s, y)
    requires y in t.active <==> y in s.active
    requires y in t.open <==> y in s.open
    requires y in t.early <==> y in s.early
    requires y in t.forked <==> y in s.forked
    requires forall i <- s.items :: i != x && i in s.active ==> i in t.active
    requires x in s.links[y].from ==> (y in t.items[x].left <==> y in s.items[x].left)
    requires x in s.links[y].from ==> y in s.items[x].left || t.items[x].xcode == s.items[x].xcode
    requires Ended(s, x) ==> Ended(t, x) && t.items[x].xcode == s.items[x].xcode
    ensures Keyed(t) && Verdict(t, y)
  {
  }

  // ---------------------------------------------------------------- one notification

  ghost predicate Dropped(s: State, t: State, item: Item, x: Item)
  {
    && SameKeys(s, t)
    && item in s.items && x in s.items
    && (forall y <- s.items :: t.items[y].status == s.items[y].status && t.items[y].xcode == s.items[y].xcode)
    && (forall y <- s.items :: t.items[y].left == if y == item then s.items[y].left - multiset{x} else s.items[y].left)
    && (forall y <- s.items :: t.items[y].dcount == if y == x then s.items[y].dcount - 1 else s.items[y].dcount)
    && t == s.(items := t.items)
  }

  lemma DropIs(s: State, item: Item, x: Item)
    requires item in s.items && x in s.items
    ensures Dropped(s, Drop(s, item, x), item, x)
  {
    var m := Take(s, item, x);
    assert forall y <- s.items :: m.items[y].dcount == s.items[y].dcount;
    var t := Drop(s, item, x);
    assert forall y <- s.items :: t.items[y].left == m.items[y].left;
  }

  /** Delivering an entry of `item` moves one entry and one count. */
  lemma DropCounts(s: State, t: State, item: Item, x: Item)
    requires Counted(s) && multiset(s.order)[item] == 1 && Dropped(s, t, item, x) && x in s.items[item].left
    ensures s.items[x].dcount > 0
    ensures Counted(t)
  {
    EntriesZero(s.order, s.items, x, item);
    forall y <- s.items
      ensures t.items[y].dcount == Entries(t.order, t.items, y)
    {
      EntriesChange(s.order, s.items, t.items, item, y);
    }
  }

  lemma WithSame(s: State, t: State)
    requires SameKeys(s, t) && forall y <- s.items :: t.items[y].status == s.items[y].status
    ensures forall st :: With(t, st) == With(s, st)
  {
  }

  lemma WithMoved(s: State, t: State, x: Item)
    requires OnlyAt(s, t, x)
    ensures forall st :: With(t, st) == if t.items[x].status == st then With(s, st) + {x} else With(s, st) - {x}
  {
  }

  lemma DropDelivered(s: State, t: State, item: Item, x: Item)
    requires Keyed(s) && Delivered(s) && Dropped(s, t, item, x) && item in s.active && !s.items[item].status.Done?
    ensures Keyed(t) && Delivered(t)
  {
  }

  lemma DropCore(g: Graph, s: State, t: State, item: Item, x: Item)
    requires Core(g, s) && Dropped(s, t, item, x) && item in s.active && x in s.items[item].left
    ensures s.items[x].dcount > 0
    ensures Core(g, t)
  {
    StaticSame(g, s, t);
    DropCounts(s, t, item, x);
    WithSame(s, t);
    DropDelivered(s, t, item, x);
  }

  lemma DropElse(s: State, t: State, item: Item, x: Item, y: Item)
    requires Keyed(s) && Dropped(s, t, item, x) && y in s.items && y != x && Verdict(s, y)
    ensures Keyed(t) && Verdict(t, y)
  {
    assert forall i <- s.links[y].from :: i in s.items ==> (y in t.items[i].left <==> y in s.items[i].left);
  }

  lemma DropBlamed(s: State, t: State, item: Item, x: Item)
    requires Keyed(s) && Dropped(s, t, item, x) && Blamed(s, x)
    ensures Keyed(t) && Blamed(t, x)
  {
  }

  lemma DropClean(s: State, t: State, item: Item, x: Item)
    requires Keyed(s) && Dropped(s, t, item, x) && Clean(s, x)
    requires item in s.links[x].from && x in s.items[item].left
    requires s.items[item].xcode == 0 || !s.items[x].status.Waiting?
    ensures Keyed(t) && Clean(t, x)
  {
  }
}
