/** What is known about the dependencies of an item at the moment at which it is queued. */
module BulkGrants {
  import opened BulkState
  import opened BulkInvariant
  import opened BulkCascade
  import opened BulkEvents
  import opened BulkLinking
  import opened BulkRuns

  /** Every dependency registered for `y` so far has ended with code 0. */
  ghost predicate Granted(s: State, y: Item)
  {
    y in s.links && forall i <- s.links[y].from :: Ended(s, i) && s.items[i].xcode == 0
  }

  /** The items queued between the two states. */
  ghost predicate Fresh(s: State, r: State)
  {
    forall y <- With(r, Build) - With(s, Build) :: Granted(r, y)
  }

  ghost predicate EndedKept(s: State, r: State)
  {
    r.links == s.links && forall i <- s.items :: Ended(s, i) ==> Ended(r, i) && r.items[i].xcode == s.items[i].xcode
  }

  lemma FreshTrans(s: State, t: State, r: State)
    requires Fresh(s, t) && Fresh(t, r) && EndedKept(t, r) && SameKeys(s, t) && SameKeys(t, r)
    ensures Fresh(s, r)
  {
    forall y <- With(r, Build) - With(s, Build)
      ensures Granted(r, y)
    {
      if y in With(t, Build) {
        assert Granted(t, y);
      }
    }
  }

  lemma EndedTrans(s: State, t: State, r: State)
    requires EndedKept(s, t) && EndedKept(t, r)
    ensures EndedKept(s, r)
  {
  }

  lemma KeptEnded(g: Graph, s: State, r: State, item: Item)
    requires Kept(g, s, r, item) && r.links == s.links && s.active <= r.active + {item}
    requires Topmost(g, s, item) && (item in r.active || r.items[item].status.Done?)
    requires forall a <- s.active :: a in s.items
    ensures EndedKept(s, r)
  {
  }

  lemma ActiveItems(g: Graph, s: State)
    requires Core(g, s)
    ensures Shape(g, s) && forall a <- s.active :: a in s.items
  {
    hide Climbs, Reading, Edges, Holds, Delivered, Counted;
  }

  /** Nothing that is waiting was queued early. */
  lemma NotEarly(g: Graph, s: State, x: Item)
    requires Core(g, s) && x in s.items && Listening(s.items[x])
    ensures x !in s.early
  {
    hide Climbs, Reading, Edges, Holds, Delivered, Counted;
  }

  /** A waiting item without undelivered entries may be queued. */
  lemma Release(g: Graph, s: State, x: Item)
    requires InvBut(g, s, x) && s.items[x].status.Waiting? && s.items[x].dcount == 0
    ensures Granted(s, x)
  {
    hide Core;
    NotEarly(g, s, x);
    NothingLeft(g, s, x);
    CoreAt(g, s, x);
    FromBelow(g, s, x);
    forall i <- s.links[x].from
      ensures Ended(s, i)
    {
      if !Ended(s, i) {
        Untold(g, s, i, x);
      }
    }
  }

  lemma AddBuildGrants(s: State, x: Item)
    requires x in s.items && Granted(s, x) && s.items[x].status.Waiting?
    ensures Fresh(s, AddBuild(s, x))
  {
    var t := AddBuild(s, x);
    assert forall i <- s.items :: Ended(s, i) ==> Ended(t, i) && t.items[i].xcode == s.items[i].xcode;
    assert OnlyAt(s, t, x);
    WithMoved(s, t, x);
    assert With(t, Build) - With(s, Build) <= {x};
  }

  lemma NoneFresh(s: State, t: State)
    requires With(t, Build) <= With(s, Build)
    ensures Fresh(s, t)
  {
  }

  lemma DropGrants(s: State, t: State, item: Item, x: Item)
    requires Dropped(s, t, item, x)
    ensures Fresh(s, t) && SameKeys(s, t)
  {
    WithSame(s, t);
    NoneFresh(s, t);
  }

  lemma FailGrants(s: State, t: State, x: Item, code: int)
    requires x in s.items && Listening(s.items[x]) && !Ended(s, x) && t == Fail(s, x, code)
    ensures Fresh(s, t) && EndedKept(s, t) && SameKeys(s, t)
  {
    FailIs(s, t, x, code);
    WithMoved(s, t, x);
    NoneFresh(s, t);
    EndedOther(s, t, x);
  }

  lemma QueueGrants(g: Graph, s: State, t: State, x: Item)
    requires InvBut(g, s, x) && s.items[x].status.Waiting? && s.items[x].dcount == 0 && t == AddBuild(s, x)
    requires x !in s.active
    ensures Fresh(s, t) && EndedKept(s, t) && SameKeys(s, t)
  {
    hide Core, Verdict, Blamed, Clean, Fresh, EndedKept;
    Release(g, s, x);
    AddBuildGrants(s, x);
    AddBuildIs(s, t, x);
    EndedOther(s, t, x);
  }

  lemma {:induction false} NotifyGrants(g: Graph, s: State, item: Item, x: Item)
    requires Inv(g, s) && item in s.active && item in s.items && x in s.items[item].left
    requires x in multiset(s.links[item].dbase) && Topmost(g, s, item)
    requires Shape(g, s) && x in s.items && g.rank[item] < g.rank[x]
    ensures Fresh(s, Notify(g, s, item, x))
    decreases g.top - g.rank[item], 1
  {
    hide Core, Verdict, Blamed, Clean, Fresh, EndedKept, With, SameKeys, Dropped, Ended;
    CoreAt(g, s, item);
    EdgeAt(g, s, item, x);
    var t := Drop(s, item, x);
    DropKeeps(g, s, t, item, x);
    DropGrants(s, t, item, x);
    DropSame(s, t, item, x);
    if Listening(s.items[x]) {
      if s.items[item].xcode != 0 {
        var u := Fail(t, x, s.items[item].xcode);
        BlameKeeps(g, t, u, item, x);
        BlameGrants(g, t, u, item, x, s.items[item].xcode);
        FreshTrans(s, t, Complete(g, u, x));
      } else if t.items[x].dcount == 0 {
        if s.items[x].status.Waiting? {
          QueueGrants(g, t, AddBuild(t, x), x);
          FreshTrans(s, t, AddBuild(t, x));
        } else {
          SkipGrants(g, t, item, x);
          FreshTrans(s, t, Complete(g, t, x));
        }
      }
    }
  }

  lemma BlameKeeps(g: Graph, s: State, t: State, item: Item, x: Item)
    requires Core(g, s) && x in s.items && (forall y <- s.items :: y != x ==> Verdict(s, y))
    requires Topmost(g, s, item) && item in s.active && item in s.items && s.items[item].xcode != 0
    requires x in g.rank && g.rank[item] < g.rank[x] && Listening(s.items[x]) && x in s.links && item in s.links[x].from
    requires t == Fail(s, x, s.items[item].xcode)
    ensures InvBut(g, t, x) && Topmost(g, t, item) && !Ended(s, x)
  {
    hide Core, Verdict, Blamed, Clean;
    FailKeeps(g, s, t, x, item);
  }

  lemma DropSame(s: State, t: State, item: Item, x: Item)
    requires Dropped(s, t, item, x)
    ensures t.items[x].status == s.items[x].status && t.items[item].xcode == s.items[item].xcode
    ensures t.active == s.active && SameKeys(s, t) && t.links == s.links
  {
  }

  lemma {:induction false} BlameGrants(g: Graph, t: State, u: State, item: Item, x: Item, code: int)
    requires x in t.items && u == Fail(t, x, code) && Listening(t.items[x]) && !Ended(t, x)
    requires InvBut(g, u, x) && Shape(g, u) && Topmost(g, u, item) && item in u.items
    requires x in g.rank && g.rank[item] < g.rank[x] <= g.top
    ensures Fresh(t, Complete(g, u, x)) && EndedKept(t, Complete(g, u, x)) && SameKeys(t, Complete(g, u, x))
    decreases g.top - g.rank[item], 0
  {
    hide InvBut, Climbs, Fresh, EndedKept;
    FailGrants(t, u, x, code);
    SkipGrants(g, u, item, x);
    FreshTrans(t, u, Complete(g, u, x));
    EndedTrans(t, u, Complete(g, u, x));
  }

  lemma EndedOther(s: State, t: State, x: Item)
    requires OnlyAt(s, t, x) && !Ended(s, x) && t.active == s.active
    ensures EndedKept(s, t) && SameKeys(s, t)
  {
  }

  lemma {:induction false} SkipGrants(g: Graph, s: State, item: Item, x: Item)
    requires InvBut(g, s, x) && s.items[x].status.DepFail? && x !in s.active && Shape(g, s)
    requires item in s.items && Topmost(g, s, item) && x in g.rank && g.rank[item] < g.rank[x] <= g.top
    ensures Fresh(s, Complete(g, s, x)) && EndedKept(s, Complete(g, s, x)) && SameKeys(s, Complete(g, s, x))
    decreases g.top - g.rank[x], 4
  {
    hide Core, Verdict, Blamed, Clean, Fresh;
    CoreAt(g, s, x);
    ActiveItems(g, s);
    BeginKeeps(g, s, Begin(s, x), x);
    CompleteKeeps(g, s, x);
    CompleteGrants(g, s, x);
    assert Topmost(g, s, x);
    KeptEnded(g, s, Complete(g, s, x), x);
  }

  lemma {:induction false} CompleteGrants(g: Graph, s: State, item: Item)
    requires Shape(g, s) && item in s.items && item !in s.active && Inv(g, Begin(s, item))
    requires s.items[item].left == multiset(s.links[item].dbase)
    requires forall a <- s.active :: a in g.rank && g.rank[a] <= g.rank[item]
    ensures Fresh(s, Complete(g, s, item))
    decreases g.top - g.rank[item], 3
  {
    hide Core, Verdict, Blamed, Clean, Fresh, EndedKept, With;
    var b := Begin(s, item);
    BeginGrants(s, b, item);
    assert s.links[item].dbase == s.links[item].dbase[0..];
    CompleteFromKeeps(g, b, item, 0);
    CompleteFromGrants(g, b, item, 0);
    var c := CompleteFrom(g, b, item, 0);
    ActiveItems(g, b);
    KeptEnded(g, b, c, item);
    FreshTrans(s, b, c);
    FinishGrants(c, Finish(c, item), item);
    FreshTrans(s, c, Finish(c, item));
  }

  lemma BeginGrants(s: State, t: State, x: Item)
    requires t == Begin(s, x)
    ensures Fresh(s, t)
  {
    WithSame(s, t);
    NoneFresh(s, t);
  }

  lemma FinishGrants(s: State, t: State, x: Item)
    requires x in s.items && x in s.active && t == Finish(s, x)
    ensures Fresh(s, t) && EndedKept(s, t) && SameKeys(s, t)
  {
    FinishIs(s, t, x);
    WithMoved(s, t, x);
    NoneFresh(s, t);
  }

  lemma {:induction false} CompleteFromGrants(g: Graph, s: State, item: Item, k: nat)
    requires Inv(g, s) && item in s.active && item in s.items && Topmost(g, s, item)
    requires Shape(g, s) && k <= |s.links[item].dbase| && s.items[item].left == multiset(s.links[item].dbase[k..])
    ensures Fresh(s, CompleteFrom(g, s, item, k))
    decreases g.top - g.rank[item], 2, |s.links[item].dbase| - k
  {
    hide Core, Verdict, Blamed, Clean, Fresh;
    var dbase := s.links[item].dbase;
    if k == |dbase| {
      NoneFresh(s, s);
    } else {
      assert dbase[k..] == [dbase[k]] + dbase[k + 1..];
      NotifyKeeps(g, s, item, dbase[k]);
      NotifyGrants(g, s, item, dbase[k]);
      var t := Notify(g, s, item, dbase[k]);
      CompleteFromKeeps(g, t, item, k + 1);
      CompleteFromGrants(g, t, item, k + 1);
      ActiveItems(g, t);
      KeptEnded(g, t, CompleteFrom(g, t, item, k + 1), item);
      FreshTrans(s, t, CompleteFrom(g, t, item, k + 1));
    }
  }
}
