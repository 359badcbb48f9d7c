/** Reaping a build while a dependency list is being read can queue an item too early, or abort the program: the
    former is stated exactly here, the latter in BulkAborts.  A calm run has neither trouble. */
module BulkEarly {
  import opened BulkState
  import opened BulkInvariant
  import opened BulkCascade
  import opened BulkEvents
  import opened BulkLinking
  import opened BulkRuns
  import opened BulkGrants
  import opened BulkTheorems

  // ---------------------------------------------------------------- the moment of queueing

  lemma FreshSince(s: State, c: State, r: State)
    requires Fresh(c, r) && With(c, Build) <= With(s, Build)
    ensures Fresh(s, r)
  {
  }

  lemma ReadyGrants(g: Graph, s: State, c: State, x: Item)
    requires Ready(g, s, c, x) && Shape(g, c) && x in c.items
    ensures Fresh(s, Complete(g, c, x))
  {
    hide Inv, Fresh, Climbs, With;
    CompleteGrants(g, c, x);
    FreshSince(s, c, Complete(g, c, x));
  }

  lemma ForkGrants(g: Graph, s: State, ok: bool)
    requires Quiet(g, s) && Shape(g, s) && s.build != [] && s.build[0] in s.items
    ensures Fresh(s, DoFork(g, s, ok))
  {
    hide Inv, Fresh, Climbs, With;
    CrashReady(g, s, s.build[0]);
    if ok {
      NoneFresh(s, Tracked(s));
    } else {
      ReadyGrants(g, s, Crashed(s), s.build[0]);
    }
  }

  lemma ReapGrants(g: Graph, s: State, x: Item, code: int)
    requires Quiet(g, s) && Shape(g, s) && x in s.run && x in s.items
    ensures Fresh(s, DoReap(g, s, x, code))
  {
    hide Inv, Fresh, Climbs, With;
    ExitReady(g, s, x, code);
    ReadyGrants(g, s, Exited(s, x, code), x);
  }

  lemma SameBuild(s: State, t: State)
    requires SameKeys(s, t) && forall y <- s.items :: t.items[y].status.Build? ==> s.items[y].status.Build?
    ensures With(t, Build) <= With(s, Build)
  {
  }

  lemma CloseGrants(g: Graph, s: State, p: Item)
    requires Quiet(g, s) && p in s.open && p in s.items && p in g.deps && Shape(g, s)
    requires s.links[p].read == |g.deps[p]|
    ensures Fresh(s, DoClose(g, s, p))
  {
    hide Core, Verdict, Blamed, Clean, Fresh, Climbs, With;
    var t := Closed(s, p);
    ClosedBut(g, s, t, p);
    CoreAt(g, t, p);
    SameBuild(s, t);
    NoneFresh(s, t);
    SameBuild(s, t.(aborted := true));
    NoneFresh(s, t.(aborted := true));
    if s.items[p].dcount == 0 {
      if s.items[p].status.Waiting? {
        QueueGrants(g, t, AddBuild(t, p), p);
        FreshSince(s, t, AddBuild(t, p));
      } else if s.items[p].status.DepFail? {
        BeginKeeps(g, t, Begin(t, p), p);
        CompleteGrants(g, t, p);
        FreshSince(s, t, Complete(g, t, p));
      }
    }
  }

  lemma RegisterBuild(s: State, p: Item)
    requires p !in s.items
    ensures With(DoRegister(s, p), Build) <= With(s, Build)
  {
  }

  lemma DepnBuild(s: State, p: Item, x: Item)
    requires Keyed(s) && p in s.items && x in s.items && p != x
    ensures SameKeys(s, DoDepn(s, p, x))
    ensures forall y <- s.items :: DoDepn(s, p, x).items[y].status.Build? ==> s.items[y].status.Build?
  {
    if !s.items[x].status.Done? {
      AwaitIs(s, p, x);
    }
  }

  /** Whenever an item is queued, every dependency registered for it so far is Done with exit code 0. */
  lemma StepGrants(g: Graph, jobs: int, s: State, e: Event, t: State)
    requires Acyclic(g) && Quiet(g, s) && Follows(g, jobs, s, e, t)
    ensures Fresh(s, t)
  {
    hide Quiet, Fresh, With, Climbs;
    match e
    case Register(p) =>
      RegisterBuild(s, p);
      NoneFresh(s, t);
    case Depn(p, x) =>
      QuietIn(g, s, p);
      assert x in g.deps[p];
      DepnBuild(s, p, x);
      SameBuild(s, t);
      NoneFresh(s, t);
    case Close(p) =>
      QuietIn(g, s, p);
      CloseGrants(g, s, p);
    case Fork(ok) =>
      ForkGrants(g, s, ok);
    case Reap(x, code) =>
      ReapGrants(g, s, x, code);
  }

  // ---------------------------------------------------------------- what stays

  ghost predicate Lasting(s: State, t: State)
  {
    && (forall i <- s.items :: i in t.items && (s.items[i].status.Done? ==>
                                 t.items[i].status.Done? && t.items[i].xcode == s.items[i].xcode))
    && s.early <= t.early
  }

  lemma KeptLasts(g: Graph, s: State, c: State, r: State, x: Item)
    requires x in s.items && !s.items[x].status.Done? && OnlyAt(s, c, x) && s.early <= c.early <= r.early
    requires Kept(g, c, r, x)
    ensures Lasting(s, r)
  {
  }

  lemma AtLasts(s: State, t: State, x: Item)
    requires x in s.items && !s.items[x].status.Done? && OnlyAt(s, t, x) && s.early <= t.early
    ensures Lasting(s, t)
  {
  }

  lemma ReadyLasts(g: Graph, s: State, c: State, x: Item)
    requires Ready(g, s, c, x) && Shape(g, c) && x in c.items
    ensures Lasting(s, Complete(g, c, x))
  {
    hide Inv, Climbs, With, Kept, Lasting;
    CompleteKeeps(g, c, x);
    KeptLasts(g, s, c, Complete(g, c, x), x);
  }

  lemma ForkLasts(g: Graph, s: State, ok: bool)
    requires Quiet(g, s) && Shape(g, s) && s.build != [] && s.build[0] in s.items
    ensures Lasting(s, DoFork(g, s, ok))
  {
    hide Inv, Climbs, Lasting;
    CrashReady(g, s, s.build[0]);
    if ok {
      AtLasts(s, Tracked(s), s.build[0]);
    } else {
      ReadyLasts(g, s, Crashed(s), s.build[0]);
    }
  }

  lemma ReapLasts(g: Graph, s: State, x: Item, code: int)
    requires Quiet(g, s) && Shape(g, s) && x in s.run && x in s.items
    ensures Lasting(s, DoReap(g, s, x, code))
  {
    hide Inv, Climbs, Lasting;
    ExitReady(g, s, x, code);
    ReadyLasts(g, s, Exited(s, x, code), x);
  }

  lemma CloseLasts(g: Graph, s: State, p: Item)
    requires Quiet(g, s) && p in s.open && p in s.items && p in g.deps && Shape(g, s)
    requires s.links[p].read == |g.deps[p]|
    ensures Lasting(s, DoClose(g, s, p))
  {
    hide Core, Verdict, Blamed, Clean, Climbs;
    var t := Closed(s, p);
    ClosedBut(g, s, t, p);
    CoreAt(g, t, p);
    if s.items[p].dcount == 0 && s.items[p].status.DepFail? {
      BeginKeeps(g, t, Begin(t, p), p);
      CompleteKeeps(g, t, p);
    }
  }

  lemma DepnLasts(s: State, p: Item, x: Item)
    requires Keyed(s) && p in s.items && x in s.items && p != x
    ensures Lasting(s, DoDepn(s, p, x))
  {
    if !s.items[x].status.Done? {
      AwaitIs(s, p, x);
    }
  }

  /** What is Done stays Done with its code. */
  lemma StepLasts(g: Graph, jobs: int, s: State, e: Event, t: State)
    requires Acyclic(g) && Quiet(g, s) && Follows(g, jobs, s, e, t)
    ensures Lasting(s, t)
  {
    hide Quiet, Climbs;
    match e
    case Register(p) =>
    case Depn(p, x) =>
      QuietIn(g, s, p);
      assert x in g.deps[p];
      DepnLasts(s, p, x);
    case Close(p) =>
      QuietIn(g, s, p);
      CloseLasts(g, s, p);
    case Fork(ok) =>
      ForkLasts(g, s, ok);
    case Reap(x, code) =>
      ReapLasts(g, s, x, code);
  }

  // ---------------------------------------------------------------- when queueing is safe

  lemma EarlyDeaf(g: Graph, s: State, x: Item)
    requires Core(g, s) && x in s.early
    ensures x in s.items && !Listening(s.items[x])
  {
    hide Climbs, Reading, Edges, Holds, Delivered, Counted;
  }

  lemma LastLine(g: Graph, s: State, x: Item) returns (d: Item)
    requires Quiet(g, s) && x in s.items && x in g.deps && s.items[x].dcount != 0
    ensures d in g.deps[x] && d in s.items && !s.items[d].status.Done?
  {
    hide Core;
    InGraph(g, s, x);
    CoreCounts(g, s, x);
    d := EntriesSome(s.order, s.items, x);
    Pending(g, s, d, x);
    Names(g, s, d, x);
    AllRead(g, s, x);
  }

  lemma Names(g: Graph, s: State, i: Item, x: Item)
    requires Core(g, s) && s.active == {} && Naming(s.items, i, x) > 0 && x in s.items
    ensures x in s.links && i in s.links[x].from
  {
    hide Climbs, Reading, Ordered, Lists, Counted;
    assert Paired(s, x, i);
  }

  lemma StaysOpen(g: Graph, jobs: int, s: State, e: Event, t: State, x: Item)
    requires Follows(g, jobs, s, e, t) && x in s.open
    ensures x in t.open || e == Close(x)
  {
    hide Climbs;
  }

  lemma Stopped(g: Graph, jobs: int, s: State, evs: seq<Event>, t: State)
    requires s.aborted && Leads(g, jobs, s, evs, t)
    ensures t.aborted
  {
    hide Climbs;
  }

  /** An item queued while its list is read, in a run that gets past that list, has a dependency that was not Done. */
  lemma {:induction false} EarlyIsUnsafe(g: Graph, jobs: int, s: State, evs: seq<Event>, t: State, x: Item)
      returns (d: Item)
    requires Acyclic(g) && Quiet(g, s) && x in s.early && x in s.open
    requires Leads(g, jobs, s, evs, t) && x !in t.open && !t.aborted
    ensures x in g.deps && d in g.deps[x] && !(d in s.items && s.items[d].status.Done?)
    decreases |evs|
  {
    hide Climbs, Core, Verdict, Follows, Quiet;
    var m :| Follows(g, jobs, s, evs[0], m) && Leads(g, jobs, m, evs[1..], t);
    StepKeeps(g, jobs, s, evs[0], m);
    StepLasts(g, jobs, s, evs[0], m);
    StaysOpen(g, jobs, s, evs[0], m, x);
    if x in m.open {
      d := EarlyIsUnsafe(g, jobs, m, evs[1..], t, x);
    } else {
      if m.aborted {
        Stopped(g, jobs, m, evs[1..], t);
      }
      d := ClosesEarly(g, jobs, s, m, x);
    }
  }

  lemma ClosesEarly(g: Graph, jobs: int, s: State, t: State, x: Item) returns (d: Item)
    requires Acyclic(g) && Quiet(g, s) && x in s.early && Follows(g, jobs, s, Close(x), t) && !t.aborted
    ensures x in g.deps && d in g.deps[x] && !(d in s.items && s.items[d].status.Done?)
  {
    hide Climbs, Core, Verdict;
    EarlyDeaf(g, s, x);
    QuietIn(g, s, x);
    d := LastLine(g, s, x);
  }

  lemma NowEarly(g: Graph, s: State, x: Item)
    requires Quiet(g, s) && x in s.items && s.items[x].status.Build? && x in s.open
    ensures x in s.early
  {
    hide Core;
    InGraph(g, s, x);
    assert Verdict(s, x);
  }

  /** In a run that gets past its list, an item is queued with all its dependencies Done and successful exactly
      when the list was fully read at that moment. */
  lemma SafeExactlyWhenClosed(g: Graph, jobs: int, s: State, e: Event, t: State, x: Item, evs: seq<Event>, u: State)
    requires Acyclic(g) && Quiet(g, s) && Follows(g, jobs, s, e, t) && x in With(t, Build) - With(s, Build)
    requires Leads(g, jobs, t, evs, u) && x !in u.open && !u.aborted && x in g.deps
    ensures x !in t.open <==> forall d <- g.deps[x] :: d in t.items && t.items[d].status.Done? && t.items[d].xcode == 0
  {
    hide Climbs, Core, Verdict, Follows;
    StepKeeps(g, jobs, s, e, t);
    StepGrants(g, jobs, s, e, t);
    if x in t.open {
      NowEarly(g, t, x);
      var d := EarlyIsUnsafe(g, jobs, t, evs, u, x);
    } else {
      assert Granted(t, x);
      InGraph(g, t, x);
      AllRead(g, t, x);
    }
  }

  // ---------------------------------------------------------------- calm runs

  /** No completion is delivered while a list is read. */
  ghost predicate CalmEvent(s: State, e: Event)
  {
    e.Reap? || e == Fork(false) ==> s.open == {}
  }

  ghost predicate CalmLeads(g: Graph, jobs: int, s: State, evs: seq<Event>, t: State)
    decreases |evs|
  {
    if evs == [] then s == t
    else exists m :: Follows(g, jobs, s, evs[0], m) && CalmEvent(s, evs[0]) && CalmLeads(g, jobs, m, evs[1..], t)
  }

  ghost predicate Calm(s: State)
  {
    s.early == {} && !s.aborted && forall p <- s.open :: p in s.items && Listening(s.items[p])
  }

  lemma CloseCalm(g: Graph, s: State, p: Item)
    requires Quiet(g, s) && Calm(s) && p in s.open && p in s.items && Shape(g, s)
    ensures Calm(DoClose(g, s, p))
  {
    hide Climbs, Core, Verdict;
    NoDependents(g, s, p);
    var t := Closed(s, p);
    if s.items[p].dcount == 0 && s.items[p].status.DepFail? {
      Alone(g, t, p);
    }
  }

  /** Without dependents there is no cascade. */
  lemma Alone(g: Graph, s: State, p: Item)
    requires Shape(g, s) && p in s.items && s.links[p].dbase == []
    ensures Complete(g, s, p) == Finish(Begin(s, p), p)
  {
  }

  lemma NoDependents(g: Graph, s: State, p: Item)
    requires Core(g, s) && p in s.open
    ensures p in s.links && s.links[p].dbase == []
  {
    hide Reading, Ordered, Lists, Delivered, Counted;
  }

  lemma StepCalm(g: Graph, jobs: int, s: State, e: Event, t: State)
    requires Acyclic(g) && Quiet(g, s) && Calm(s) && Follows(g, jobs, s, e, t) && CalmEvent(s, e)
    ensures Calm(t)
  {
    hide Quiet, Climbs;
    match e
    case Register(p) =>
    case Depn(p, x) =>
      QuietIn(g, s, p);
      assert x in g.deps[p];
      if !s.items[x].status.Done? {
        AwaitIs(s, p, x);
      }
    case Close(p) =>
      CloseCalm(g, s, p);
    case Fork(ok) =>
      ForkCalm(g, s, ok);
    case Reap(x, code) =>
  }

  lemma ForkCalm(g: Graph, s: State, ok: bool)
    requires Quiet(g, s) && Calm(s) && Shape(g, s) && s.build != [] && s.build[0] in s.items && (ok || s.open == {})
    ensures Calm(DoFork(g, s, ok))
  {
    hide Climbs, Core, Verdict;
    OnList(g, s, s.build[0]);
  }

  /** A calm run queues nothing early and never reaches one of the program's own assertions. */
  lemma {:induction false} CalmRun(g: Graph, jobs: int, s: State, evs: seq<Event>, t: State)
    requires Acyclic(g) && Quiet(g, s) && Calm(s) && CalmLeads(g, jobs, s, evs, t)
    ensures Calm(t) && Quiet(g, t)
    decreases |evs|
  {
    hide Quiet, Follows, Calm;
    if evs != [] {
      var m :| Follows(g, jobs, s, evs[0], m) && CalmEvent(s, evs[0]) && CalmLeads(g, jobs, m, evs[1..], t);
      StepKeeps(g, jobs, s, evs[0], m);
      StepCalm(g, jobs, s, evs[0], m);
      CalmRun(g, jobs, m, evs[1..], t);
    }
  }
}
