/** What stays queued when the running builds have been looked at for the last time.

    The bulk build stops as soon as it finds nothing to wait for.  By then it may have collected builds that
    released packages; they stay queued.  Here it is stated exactly which these are. */
module BulkDrain {
  import opened BulkState
  import opened BulkInvariant
  import opened BulkCascade
  import opened BulkEvents
  import opened BulkLinking
  import opened BulkRuns
  import opened BulkTheorems
  import opened BulkEarly

  // ---------------------------------------------------------------- the last look

  lemma LeadsNothing(g: Graph, jobs: int, s: State, evs: seq<Event>, t: State)
    requires Leads(g, jobs, s, evs, t)
    ensures evs == [] ==> t == s
  {
  }

  /** Collecting builds only adds to the queue, and takes each off the run list. */
  lemma {:induction false} LastLooks(g: Graph, jobs: int, s: State, looks: seq<Event>, t: State)
    requires Leads(g, jobs, s, looks, t) && forall e <- looks :: e.Reap?
    ensures s.build <= t.build && |s.run| == |t.run| + |looks|
    decreases |looks|
  {
    if looks != [] {
      var m :| Follows(g, jobs, s, looks[0], m) && Leads(g, jobs, m, looks[1..], t);
      assert looks[0] in looks;
      ReapGrows(g, jobs, s, looks[0], m);
      LastLooks(g, jobs, m, looks[1..], t);
    }
  }

  lemma ReapGrows(g: Graph, jobs: int, s: State, e: Event, m: State)
    requires Follows(g, jobs, s, e, m) && e.Reap?
    ensures s.build <= m.build && |s.run| == |m.run| + 1
  {
    hide Complete, Climbs;
    CompleteGrows(g, Exited(s, e.x, e.code), e.x);
    TakenOff(s.run, e.x);
  }

  lemma {:induction false} TakenOff(l: seq<Item>, x: Item)
    requires x in l
    ensures |Without(l, x)| == |l| - 1
  {
    if l[0] != x {
      TakenOff(l[1..], x);
    }
  }

  lemma {:induction false} CompleteGrows(g: Graph, s: State, item: Item)
    requires Shape(g, s) && item in s.items
    ensures s.build <= Complete(g, s, item).build
    decreases g.top - g.rank[item], 2
  {
    hide CompleteFrom, Climbs;
    CompleteFromGrows(g, Begin(s, item), item, 0);
  }

  lemma {:induction false} CompleteFromGrows(g: Graph, s: State, item: Item, k: nat)
    requires Shape(g, s) && item in s.items && k <= |s.links[item].dbase|
    ensures s.build <= CompleteFrom(g, s, item, k).build
    decreases g.top - g.rank[item], 1, |s.links[item].dbase| - k
  {
    hide Notify;
    if k < |s.links[item].dbase| {
      var x := s.links[item].dbase[k];
      NotifyGrows(g, s, item, x);
      CompleteFromGrows(g, Notify(g, s, item, x), item, k + 1);
    }
  }

  lemma {:induction false} NotifyGrows(g: Graph, s: State, item: Item, x: Item)
    requires Shape(g, s) && item in s.items && x in s.items && g.rank[item] < g.rank[x]
    ensures s.build <= Notify(g, s, item, x).build
    decreases g.top - g.rank[item], 0
  {
    hide Complete;
    var t := Drop(s, item, x);
    if Listening(s.items[x]) {
      if s.items[item].xcode != 0 {
        CompleteGrows(g, Fail(t, x, s.items[item].xcode), x);
      } else if t.items[x].dcount == 0 && !s.items[x].status.Waiting? {
        CompleteGrows(g, t, x);
      }
    }
  }

  // ---------------------------------------------------------------- what the last look collects

  /** Collecting builds opens no list, starts nothing and takes nothing back. */
  ghost predicate Collects(s: State, t: State)
  {
    && SameKeys(s, t) && t.open == s.open && t.forked == s.forked && t.early <= s.early + s.open
    && Lasting(s, t)
  }

  ghost predicate Ends(t: State, d: Item, code: int)
  {
    d in t.items && t.items[d].status.Done? && t.items[d].xcode == code
  }

  lemma ReapCollects(g: Graph, jobs: int, s: State, e: Event, t: State)
    requires Acyclic(g) && Quiet(g, s) && Follows(g, jobs, s, e, t) && e.Reap?
    ensures Quiet(g, t) && Collects(s, t) && Ends(t, e.x, e.code)
    ensures t.run == Without(s.run, e.x)
  {
    hide Inv, Climbs, Lasting, Complete;
    StepKeeps(g, jobs, s, e, t);
    StepLasts(g, jobs, s, e, t);
    ExitReady(g, s, e.x, e.code);
    CompleteKeeps(g, Exited(s, e.x, e.code), e.x);
  }

  lemma CollectsTrans(s: State, m: State, t: State)
    requires Collects(s, m) && Collects(m, t)
    ensures Collects(s, t)
  {
  }

  lemma {:induction false} StillOn(l: seq<Item>, x: Item, d: Item)
    requires d in l && d != x
    ensures d in Without(l, x)
  {
    if l[0] != x && l[0] != d {
      StillOn(l[1..], x, d);
    }
  }

  /** Every build that was running was collected with the code that it ends with, or is still running. */
  lemma {:induction false} LooksCollect(g: Graph, jobs: int, s: State, looks: seq<Event>, t: State)
    requires Acyclic(g) && Quiet(g, s) && Leads(g, jobs, s, looks, t) && forall e <- looks :: e.Reap?
    ensures Quiet(g, t) && Collects(s, t)
    ensures forall e <- looks :: Ends(t, e.x, e.code)
    ensures forall d <- s.run :: d in t.run || exists e <- looks :: e.x == d
    decreases |looks|
  {
    hide Quiet, Follows, Collects, Ends;
    if looks == [] {
      CollectsNothing(s);
    } else {
      var m :| Follows(g, jobs, s, looks[0], m) && Leads(g, jobs, m, looks[1..], t);
      assert looks[0] in looks;
      ReapCollects(g, jobs, s, looks[0], m);
      LooksCollect(g, jobs, m, looks[1..], t);
      CollectsTrans(s, m, t);
      EndsStay(m, t, looks[0].x, looks[0].code);
      assert looks == [looks[0]] + looks[1..];
      forall d <- s.run
        ensures d in t.run || exists e <- looks :: e.x == d
      {
        if d != looks[0].x {
          StillOn(s.run, looks[0].x, d);
        }
      }
    }
  }

  lemma CollectsNothing(s: State)
    ensures Collects(s, s)
  {
  }

  lemma EndsStay(m: State, t: State, x: Item, code: int)
    requires Collects(m, t) && Ends(m, x, code)
    ensures Ends(t, x, code)
  {
  }

  // ---------------------------------------------------------------- what it leaves on the queue

  /** `x` waited in `s` for nothing but builds that ended well, then or while `looks` were collected. */
  ghost predicate Released(g: Graph, s: State, looks: seq<Event>, x: Item)
  {
    && x in s.items && s.items[x].status.Waiting? && x in g.deps
    && forall d <- g.deps[x] :: Ends(s, d, 0) || Reap(d, 0) in looks
  }

  /** Whoever still listens with a closed list listens for a dependency that is not Done. */
  lemma ListensFor(g: Graph, s: State, x: Item)
    requires Quiet(g, s) && x in s.items && x in g.deps
    ensures Listening(s.items[x]) && x !in s.open ==> exists d <- g.deps[x] :: d in s.items && !s.items[d].status.Done?
  {
    hide Core;
    InGraph(g, s, x);
    assert Verdict(s, x);
    if s.items[x].dcount != 0 {
      var d := LastLine(g, s, x);
    }
  }

  /** Whoever is skipped has a dependency that ended with another code than 0. */
  lemma Blames(g: Graph, s: State, x: Item)
    requires Quiet(g, s) && x in s.items && x in g.deps
    ensures Skipped(s, x) ==>
              exists d <- g.deps[x] :: d in s.items && s.items[d].status.Done? && s.items[d].xcode != 0
  {
    hide Core;
    InGraph(g, s, x);
    AllRead(g, s, x);
    assert Verdict(s, x);
    if Skipped(s, x) {
      var d :| d in s.links[x].from && Ended(s, d) && s.items[d].xcode == s.items[x].xcode;
      assert d in g.deps[x];
    }
  }

  /** Once every dependency has ended well, nothing that was not started is anywhere but on the queue. */
  lemma ReadyIsQueued(g: Graph, t: State, x: Item)
    requires Quiet(g, t) && x in t.items && x in g.deps && x !in t.open && x !in t.forked
    requires forall d <- g.deps[x] :: Ends(t, d, 0)
    ensures t.items[x].status.Build?
  {
    hide Core, Verdict;
    InBuild(g, t, x);
    ListensFor(g, t, x);
    Blames(g, t, x);
  }

  lemma InBuild(g: Graph, s: State, x: Item)
    requires Core(g, s)
    ensures x in s.build <==> x in s.items && s.items[x].status.Build?
    ensures s.active == {} ==> (x in s.run <==> x in s.items && s.items[x].status.Run?)
    ensures x in s.early ==> x in s.forked || (x in s.items && s.items[x].status.Build?)
    ensures x in s.items && s.items[x].status.Run? ==> x in s.forked
    ensures x in s.forked ==> x in s.items && (s.items[x].status.Run? || s.items[x].status.Done?)
  {
    hide Climbs, Reading, Edges, Delivered, Counted, Ordered;
    assert x in s.build <==> multiset(s.build)[x] > 0;
    assert x in s.run <==> multiset(s.run)[x] > 0;
    assert x in With(s, Build) <==> x in s.items && s.items[x].status.Build?;
    assert x in With(s, Run) <==> x in s.items && s.items[x].status.Run?;
    assert x in With(s, Done) <==> x in s.items && s.items[x].status.Done?;
  }

  lemma ReleasedIsQueued(g: Graph, s: State, looks: seq<Event>, t: State, x: Item)
    requires Quiet(g, s) && Quiet(g, t) && Collects(s, t) && (forall e <- looks :: e.Reap? && Ends(t, e.x, e.code))
    requires Released(g, s, looks, x) && x !in s.open
    ensures x in t.build
  {
    hide Core, Verdict;
    InBuild(g, s, x);
    InBuild(g, t, x);
    forall d <- g.deps[x]
      ensures Ends(t, d, 0)
    {
      if Reap(d, 0) in looks {
        assert Ends(t, Reap(d, 0).x, Reap(d, 0).code);
      }
    }
    ReadyIsQueued(g, t, x);
  }

  lemma QueuedWasReleased(g: Graph, s: State, looks: seq<Event>, t: State, x: Item)
    requires Quiet(g, s) && Quiet(g, t) && Collects(s, t) && (forall e <- looks :: e.Reap? && Ends(t, e.x, e.code))
    requires forall d <- s.run :: d in t.run || exists e <- looks :: e.x == d
    requires x in t.build && x !in s.build && x !in s.open
    ensures Released(g, s, looks, x)
  {
    hide Core, Verdict;
    InBuild(g, s, x);
    InBuild(g, t, x);
    QueuedDeps(g, t, x);
    forall d <- g.deps[x]
      ensures Ends(s, d, 0) || Reap(d, 0) in looks
    {
      WasCollected(g, s, looks, t, d);
    }
    StillWaits(g, s, t, x);
  }

  lemma WasCollected(g: Graph, s: State, looks: seq<Event>, t: State, d: Item)
    requires Quiet(g, s) && Quiet(g, t) && Collects(s, t) && (forall e <- looks :: e.Reap? && Ends(t, e.x, e.code))
    requires forall d <- s.run :: d in t.run || exists e <- looks :: e.x == d
    requires Ends(t, d, 0) && d in t.forked
    ensures Ends(s, d, 0) || Reap(d, 0) in looks
  {
    hide Core, Verdict;
    InBuild(g, s, d);
    InBuild(g, t, d);
    if d in s.run {
      var e :| e in looks && e.x == d;
      assert e == Reap(d, e.code);
    }
  }

  /** What is released was not failed before. */
  lemma StillWaits(g: Graph, s: State, t: State, x: Item)
    requires Quiet(g, s) && Collects(s, t) && x in s.items && x in g.deps && x in t.items
    requires t.items[x].status.Build? && x !in s.build && x !in s.forked
    requires forall d <- g.deps[x] :: Ends(t, d, 0)
    ensures s.items[x].status.Waiting?
  {
    hide Core, Verdict;
    InBuild(g, s, x);
    Blames(g, s, x);
  }

  /** Exactly the packages that were queued when the last look began, or were released by what it collected, are
      queued when it ends. */
  lemma StaysQueued(g: Graph, jobs: int, s: State, looks: seq<Event>, t: State, x: Item)
    requires Acyclic(g) && Quiet(g, s) && Leads(g, jobs, s, looks, t) && (forall e <- looks :: e.Reap?)
    requires x !in s.open
    ensures x in t.build <==> x in s.build || Released(g, s, looks, x)
  {
    hide *;
    LastLooks(g, jobs, s, looks, t);
    LooksCollect(g, jobs, s, looks, t);
    if x in t.build {
      if x !in s.build {
        QueuedWasReleased(g, s, looks, t, x);
      }
    } else if Released(g, s, looks, x) {
      ReleasedIsQueued(g, s, looks, t, x);
    }
  }

  /** When all lists were read, the queue is empty in the end exactly if it was empty when the last look began and
      nothing waited for those builds only that it found to end well. */
  lemma EmptiedExactly(g: Graph, jobs: int, s: State, looks: seq<Event>, t: State)
    requires Acyclic(g) && Quiet(g, s) && Leads(g, jobs, s, looks, t) && (forall e <- looks :: e.Reap?)
    requires s.open == {}
    ensures t.build == [] <==> s.build == [] && forall x <- s.items :: !Released(g, s, looks, x)
  {
    hide Quiet, Leads, Ends;
    forall x <- s.items
      ensures x in t.build <==> x in s.build || Released(g, s, looks, x)
    {
      StaysQueued(g, jobs, s, looks, t, x);
    }
    LastLooks(g, jobs, s, looks, t);
    if t.build != [] {
      StaysQueued(g, jobs, s, looks, t, t.build[0]);
    }
  }

  /** The same for the last look of a whole run, which collects everything that runs. */
  lemma LastLook(g: Graph, jobs: int, before: seq<Event>, s: State, looks: seq<Event>, t: State)
    requires Acyclic(g) && Leads(g, jobs, INITIAL, before, s)
    requires Leads(g, jobs, s, looks, t) && (forall e <- looks :: e.Reap?) && t.open == {} && t.run == []
    ensures Quiet(g, s) && s.open == {} && |s.run| == |looks|
    ensures forall x :: x in t.build <==> x in s.build || Released(g, s, looks, x)
    ensures t.build == [] <==> s.build == [] && forall x <- s.items :: !Released(g, s, looks, x)
  {
    hide Quiet, Leads, Released, Lasting;
    InitialQuiet(g);
    RunKeeps(g, jobs, INITIAL, before, s);
    LastLooks(g, jobs, s, looks, t);
    LooksCollect(g, jobs, s, looks, t);
    EmptiedExactly(g, jobs, s, looks, t);
    forall x
      ensures x in t.build <==> x in s.build || Released(g, s, looks, x)
    {
      StaysQueued(g, jobs, s, looks, t, x);
    }
  }
}
