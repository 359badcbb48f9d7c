/** Processing the completion of a build: a recursive cascade over reverse dependencies that marks an item Done
    only after everything that it sets off.  It keeps the invariant, never enters an item twice and changes
    nothing below the item it starts from. */
module BulkCascade {
  import opened BulkState
  import opened BulkInvariant

  // ---------------------------------------------------------------- the single updates

  lemma AddBuildLists(s: State, t: State, x: Item)
    requires Lists(s) && OnlyAt(s, t, x) && s.items[x].status.Waiting? && t.items[x].status.Build?
    requires t.build == s.build + [x] && t.run == s.run && t.active == s.active && t.finished == s.finished
    requires t.started == s.started && t.forked == s.forked && t.early <= s.early + {x}
    ensures Lists(t)
  {
    hide Holds;
    WithMoved(s, t, x);
    HoldsAppend(s.build, With(s, Build), x);
    assert With(t, Run) == With(s, Run) && With(t, Done) == With(s, Done) && With(t, DepFail) == With(s, DepFail);
  }

  lemma FailLists(s: State, t: State, x: Item)
    requires Lists(s) && OnlyAt(s, t, x) && Listening(s.items[x]) && x !in s.active && t.items[x].status.DepFail?
    requires t.build == s.build && t.run == s.run && t.active == s.active && t.finished == s.finished
    requires t.started == s.started && t.forked == s.forked && t.early == s.early
    ensures Lists(t)
  {
    WithMoved(s, t, x);
  }

  lemma BeginLists(s: State, t: State, x: Item)
    requires Lists(s) && t == Begin(s, x) && x in s.items && s.items[x].status.DepFail?
    ensures Lists(t)
  {
    assert forall st :: With(t, st) == With(s, st);
    assert With(t, Run) - t.active == With(s, Run) - s.active;
  }

  lemma FinishLists(s: State, t: State, x: Item)
    requires Lists(s) && OnlyAt(s, t, x) && x in s.active && t.items[x].status.Done?
    requires t.build == s.build && t.run == s.run && t.active == s.active - {x} && t.finished == s.finished + [x]
    requires t.started == s.started && t.forked == s.forked && t.early == s.early
    ensures Lists(t)
  {
    WithMoved(s, t, x);
    HoldsAppend(s.finished, With(s, Done), x);
    assert With(t, Run) - t.active == With(s, Run) - s.active;
  }

  lemma AddBuildIs(s: State, t: State, x: Item)
    requires x in s.items && t == AddBuild(s, x)
    ensures OnlyAt(s, t, x) && t.items[x] == s.items[x].(status := Build)
  {
  }

  lemma AddBuildCore(g: Graph, s: State, t: State, x: Item)
    requires Core(g, s) && x in s.items && s.items[x].status.Waiting? && t == AddBuild(s, x)
    ensures Core(g, t) && OnlyAt(s, t, x) && t.items[x] == s.items[x].(status := Build)
  {
    hide Core;
    CoreAt(g, s, x);
    AddBuildIs(s, t, x);
    AddBuildLists(s, t, x);
    CoreElse(g, s, t, x);
  }

  lemma NothingLeft(g: Graph, s: State, x: Item)
    requires Core(g, s) && x in s.items && s.items[x].dcount == 0
    ensures forall i <- s.items :: x !in s.items[i].left
  {
    forall i <- s.items
      ensures x !in s.items[i].left
    {
      assert multiset(s.order)[i] == 1;
      EntriesZero(s.order, s.items, x, i);
    }
  }

  lemma AddBuildKeeps(g: Graph, s: State, t: State, x: Item)
    requires InvBut(g, s, x) && s.items[x].status.Waiting? && s.items[x].dcount == 0 && t == AddBuild(s, x)
    ensures Inv(g, t)
  {
    hide Core;
    CoreAt(g, s, x);
    AddBuildCore(g, s, t, x);
    forall y <- s.items | y != x
      ensures Verdict(t, y)
    {
      VerdictElse(s, t, x, y);
    }
    NothingLeft(g, s, x);
    assert Verdict(t, x);
  }

  /** An item that has told nobody yet is one that every dependent still waits for. */
  lemma Untold(g: Graph, s: State, x: Item, y: Item)
    requires Core(g, s) && x in s.items && !Ended(s, x) && y in s.items && x in s.links[y].from
    ensures y in s.items[x].left
  {
    hide Climbs, Reading, Holds, Lists, Counted;
    assert Paired(s, y, x);
  }

  lemma FailIs(s: State, t: State, x: Item, code: int)
    requires x in s.items && t == Fail(s, x, code)
    ensures OnlyAt(s, t, x) && t.items[x] == s.items[x].(status := DepFail, xcode := code)
  {
  }

  lemma FailCore(g: Graph, s: State, t: State, x: Item, code: int)
    requires Core(g, s) && x in s.items && Listening(s.items[x]) && x !in s.active && t == Fail(s, x, code)
    ensures Core(g, t) && OnlyAt(s, t, x) && t.items[x] == s.items[x].(status := DepFail, xcode := code)
  {
    hide Core;
    CoreAt(g, s, x);
    FailIs(s, t, x, code);
    FailLists(s, t, x);
    CoreElse(g, s, t, x);
  }

  lemma FailKeeps(g: Graph, s: State, t: State, x: Item, i: Item)
    requires Core(g, s) && x in s.items && (forall y <- s.items :: y != x ==> Verdict(s, y))
    requires Listening(s.items[x]) && x !in s.active
    requires i in s.links[x].from && i != x && Ended(s, i) && s.items[i].xcode != 0
    requires t == Fail(s, x, s.items[i].xcode)
    ensures InvBut(g, t, x)
  {
    hide Core, Climbs, Lists;
    CoreAt(g, s, x);
    FailCore(g, s, t, x, s.items[i].xcode);
    forall y <- s.items | y != x
      ensures Verdict(t, y)
    {
      if x in s.links[y].from {
        Untold(g, s, x, y);
      }
      VerdictElse(s, t, x, y);
    }
    assert Ended(t, i) && t.items[i].xcode == t.items[x].xcode;
  }

  lemma BeginIs(s: State, t: State, x: Item)
    requires x in s.items && t == Begin(s, x)
    ensures OnlyAt(s, t, x) && t.items == s.items
  {
  }

  lemma BeginCore(g: Graph, s: State, t: State, x: Item)
    requires Core(g, s) && x in s.items && s.items[x].status.DepFail? && x !in s.active && t == Begin(s, x)
    ensures Core(g, t) && OnlyAt(s, t, x) && t.items == s.items
  {
    hide Core;
    CoreAt(g, s, x);
    BeginIs(s, t, x);
    BeginLists(s, t, x);
    CoreElse(g, s, t, x);
  }

  lemma BeginKeeps(g: Graph, s: State, t: State, x: Item)
    requires InvBut(g, s, x) && s.items[x].status.DepFail? && x !in s.active && t == Begin(s, x)
    ensures Inv(g, t)
  {
    hide Core;
    CoreAt(g, s, x);
    BeginCore(g, s, t, x);
    forall y <- s.items | y != x
      ensures Verdict(t, y)
    {
      VerdictElse(s, t, x, y);
    }
    assert Verdict(t, x);
  }

  lemma FinishIs(s: State, t: State, x: Item)
    requires x in s.items && t == Finish(s, x)
    ensures OnlyAt(s, t, x) && t.items[x] == s.items[x].(status := Done)
  {
  }

  lemma FinishCore(g: Graph, s: State, t: State, x: Item)
    requires Core(g, s) && x in s.active && x in s.items && s.items[x].left == multiset{} && t == Finish(s, x)
    ensures Core(g, t) && OnlyAt(s, t, x) && t.items[x] == s.items[x].(status := Done)
  {
    hide Core;
    CoreAt(g, s, x);
    FinishIs(s, t, x);
    FinishLists(s, t, x);
    CoreElse(g, s, t, x);
  }

  lemma FinishKeeps(g: Graph, s: State, t: State, x: Item)
    requires Inv(g, s) && x in s.active && x in s.items && s.items[x].left == multiset{} && t == Finish(s, x)
    ensures Inv(g, t)
  {
    hide Core, Climbs, Lists;
    CoreAt(g, s, x);
    FinishCore(g, s, t, x);
    forall y <- s.items
      ensures Verdict(t, y)
    {
      assert Verdict(s, y);
      if y != x {
        VerdictElse(s, t, x, y);
      }
    }
  }

  // ---------------------------------------------------------------- the cascade

  /** What a cascade that delivers the completion of `item` leaves alone. */
  ghost predicate Kept(g: Graph, s: State, t: State, item: Item)
  {
    && SameKeys(s, t) && item in s.items
    && (forall i <- s.items :: i in g.rank && item in g.rank && g.rank[i] <= g.rank[item] && i != item ==>
                                 t.items[i] == s.items[i])
    && t.items[item].xcode == s.items[item].xcode && t.items[item].dcount == s.items[item].dcount
    && (forall i <- s.items :: s.items[i].status.Done? ==>
                                 t.items[i].status.Done? && t.items[i].xcode == s.items[i].xcode)
  }

  lemma KeptTrans(g: Graph, s: State, t: State, u: State, item: Item)
    requires Kept(g, s, t, item) && Kept(g, t, u, item)
    ensures Kept(g, s, u, item)
  {
  }

  /** A cascade of a dependent that climbs the ranking. */
  lemma KeptAbove(g: Graph, s: State, t: State, u: State, item: Item, x: Item)
    requires Kept(g, s, t, item) && t.items[item].status == s.items[item].status
    requires Kept(g, t, u, x) && x in g.rank && item in g.rank && g.rank[item] < g.rank[x]
    ensures Kept(g, s, u, item) && u.items[item] == t.items[item]
  {
  }

  lemma EdgeAt(g: Graph, s: State, item: Item, x: Item)
    requires Core(g, s) && item in s.items && x in multiset(s.links[item].dbase)
    ensures x in s.items && item in s.links[x].from && x != item
    ensures x in g.rank && item in g.rank && g.rank[item] < g.rank[x]
  {
    hide Reading, Ordered, Lists, Delivered, Counted;
    assert x in s.links[item].dbase;
    assert Paired(s, x, item);
  }

  ghost predicate Topmost(g: Graph, s: State, item: Item)
  {
    item in g.rank && forall a <- s.active :: a in g.rank && g.rank[a] <= g.rank[item]
  }

  /** What is left after one delivery to `x`, apart from what `x` then does. */
  lemma DropKeeps(g: Graph, s: State, t: State, item: Item, x: Item)
    requires Inv(g, s) && item in s.active && item in s.items && x in s.items[item].left
    requires x in multiset(s.links[item].dbase) && x in s.items && t == Drop(s, item, x)
    ensures Dropped(s, t, item, x) && Core(g, t) && s.items[x].dcount > 0
    ensures forall y <- t.items :: y != x ==> Verdict(t, y)
    ensures Blamed(t, x)
    ensures s.items[item].xcode == 0 || !s.items[x].status.Waiting? ==> Clean(t, x)
  {
    hide Core;
    CoreAt(g, s, x);
    EdgeAt(g, s, item, x);
    DropIs(s, item, x);
    DropCore(g, s, t, item, x);
    forall y <- s.items | y != x
      ensures Verdict(t, y)
    {
      DropElse(s, t, item, x, y);
    }
    assert Verdict(s, x);
    DropBlamed(s, t, item, x);
    if s.items[item].xcode == 0 || !s.items[x].status.Waiting? {
      DropClean(s, t, item, x);
    }
  }

  lemma DropKept(g: Graph, s: State, t: State, item: Item, x: Item)
    requires Dropped(s, t, item, x) && item in g.rank && x in g.rank && g.rank[item] < g.rank[x]
    ensures Kept(g, s, t, item) && t.items[item].status == s.items[item].status
    ensures t.items[item].left == s.items[item].left - multiset{x}
  {
  }

  lemma FailKept(g: Graph, s: State, t: State, item: Item, x: Item, code: int)
    requires x in s.items && item in s.items && Listening(s.items[x]) && t == Fail(s, x, code)
    requires x in g.rank && item in g.rank && g.rank[item] < g.rank[x]
    ensures Kept(g, s, t, item) && t.items[item] == s.items[item]
  {
  }

  lemma AddBuildKept(g: Graph, s: State, t: State, item: Item, x: Item)
    requires x in s.items && item in s.items && s.items[x].status.Waiting? && t == AddBuild(s, x)
    requires x in g.rank && item in g.rank && g.rank[item] < g.rank[x]
    ensures Kept(g, s, t, item) && t.items[item] == s.items[item] && t.active == s.active
  {
  }

  lemma {:induction false} NotifyKeeps(g: Graph, s: State, item: Item, x: Item)
    requires Inv(g, s) && item in s.active && item in s.items && x in s.items[item].left
    requires x in multiset(s.links[item].dbase) && Topmost(g, s, item)
    ensures x in s.items && g.rank[item] < g.rank[x]
    ensures var r := Notify(g, s, item, x);
            && Inv(g, r) && r.active == s.active && Kept(g, s, r, item)
            && r.items[item].status == s.items[item].status
            && r.items[item].left == s.items[item].left - multiset{x}
    decreases g.top - g.rank[item], 0
  {
    hide Core, Verdict, Blamed, Clean;
    CoreAt(g, s, item);
    EdgeAt(g, s, item, x);
    var t := Drop(s, item, x);
    DropKeeps(g, s, t, item, x);
    DropKept(g, s, t, item, x);
    CoreAt(g, t, x);
    if !Listening(s.items[x]) || (s.items[item].xcode == 0 && t.items[x].dcount != 0) {
      DropDone(g, t, x);
    } else if s.items[item].xcode != 0 {
      var u := Fail(t, x, s.items[item].xcode);
      assert Ended(t, item);
      FailKeeps(g, t, u, x, item);
      FailKept(g, t, u, item, x, s.items[item].xcode);
      KeptTrans(g, s, t, u, item);
      FailKeepsOn(g, u, item, x);
      KeptAbove(g, s, u, Complete(g, u, x), item, x);
    } else if s.items[x].status.Waiting? {
      AddBuildKeeps(g, t, AddBuild(t, x), x);
      AddBuildKept(g, t, AddBuild(t, x), item, x);
      KeptTrans(g, s, t, AddBuild(t, x), item);
    } else {
      FailKeepsOn(g, t, item, x);
      KeptAbove(g, s, t, Complete(g, t, x), item, x);
    }
  }

  /** An item that is not taken further keeps the invariant as it stands. */
  lemma DropDone(g: Graph, t: State, x: Item)
    requires InvBut(g, t, x) && (!Listening(t.items[x]) || t.items[x].dcount > 0)
    ensures Inv(g, t)
  {
    hide Core;
    CoreAt(g, t, x);
    assert Verdict(t, x);
  }

  /** A failed dependent `x` of the topmost active item is completed in turn. */
  lemma {:induction false} FailKeepsOn(g: Graph, s: State, item: Item, x: Item)
    requires InvBut(g, s, x) && s.items[x].status.DepFail? && x !in s.active
    requires item in s.items && Topmost(g, s, item) && x in g.rank && g.rank[item] < g.rank[x] <= g.top
    ensures Shape(g, s)
    ensures var r := Complete(g, s, x);
            Inv(g, r) && r.active == s.active && Kept(g, s, r, x)
    decreases g.top - g.rank[x], 3
  {
    hide Core, Verdict, Blamed, Clean;
    CoreAt(g, s, x);
    BeginKeeps(g, s, Begin(s, x), x);
    CompleteKeeps(g, s, x);
  }

  lemma {:induction false} CompleteKeeps(g: Graph, s: State, item: Item)
    requires Shape(g, s) && item in s.items && item !in s.active && Inv(g, Begin(s, item))
    requires s.items[item].left == multiset(s.links[item].dbase)
    requires forall a <- s.active :: a in g.rank && g.rank[a] <= g.rank[item]
    ensures var r := Complete(g, s, item);
            Inv(g, r) && r.active == s.active && Kept(g, s, r, item) && r.items[item].status.Done?
    decreases g.top - g.rank[item], 2
  {
    hide Core, Verdict, Blamed, Clean;
    var b := Begin(s, item);
    assert s.links[item].dbase == s.links[item].dbase[0..];
    CompleteFromKeeps(g, b, item, 0);
    var c := CompleteFrom(g, b, item, 0);
    FinishKeeps(g, c, Finish(c, item), item);
  }

  lemma {:induction false} CompleteFromKeeps(g: Graph, s: State, item: Item, k: nat)
    requires Inv(g, s) && item in s.active && item in s.items && Topmost(g, s, item)
    requires Shape(g, s) && k <= |s.links[item].dbase| && s.items[item].left == multiset(s.links[item].dbase[k..])
    ensures var r := CompleteFrom(g, s, item, k);
            && Inv(g, r) && r.active == s.active && Kept(g, s, r, item)
            && r.items[item].status == s.items[item].status && r.items[item].left == multiset{}
    decreases g.top - g.rank[item], 1, |s.links[item].dbase| - k
  {
    hide Core, Verdict, Blamed, Clean;
    var dbase := s.links[item].dbase;
    if k < |dbase| {
      assert dbase[k..] == [dbase[k]] + dbase[k + 1..];
      NotifyKeeps(g, s, item, dbase[k]);
      var t := Notify(g, s, item, dbase[k]);
      CompleteFromKeeps(g, t, item, k + 1);
      KeptTrans(g, s, t, CompleteFrom(g, t, item, k + 1), item);
    }
  }
}
