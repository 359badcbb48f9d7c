/** What becomes of the exit codes: a failed build fails whatever depends on it, builds start in the order in which they
    were queued, and the outcome of a whole run does not depend on its interleaving. */
module BulkResults {
  import opened BulkState
  import opened BulkInvariant
  import opened BulkCascade
  import opened BulkEvents
  import opened BulkLinking
  import opened BulkRuns
  import opened BulkTheorems
  import opened BulkEarly
  import opened BulkDrain

  // ---------------------------------------------------------------- failures

  /** A build that could not be forked is Done with a code other than 0. */
  lemma ForkFails(g: Graph, jobs: int, s: State, t: State)
    requires Quiet(g, s) && Follows(g, jobs, s, Fork(false), t)
    ensures s.build != [] && Ends(t, s.build[0], -98) && t.run == s.run
  {
    hide Core, Verdict, Climbs, Complete;
    CrashReady(g, s, s.build[0]);
    CompleteKeeps(g, Crashed(s), s.build[0]);
  }

  /** A build that was forked runs, and nothing else changes for any item. */
  lemma ForkRuns(g: Graph, jobs: int, s: State, t: State)
    requires Quiet(g, s) && Follows(g, jobs, s, Fork(true), t)
    ensures s.build != [] && s.build[0] in t.items && t.items[s.build[0]].status.Run?
    ensures t.build == s.build[1..] && t.run == [s.build[0]] + s.run
    ensures SameKeys(s, t) && forall y <- s.items :: y != s.build[0] ==> t.items[y] == s.items[y]
  {
    hide Climbs;
  }

  lemma {:induction false} RunLasts(g: Graph, jobs: int, s: State, evs: seq<Event>, t: State)
    requires Acyclic(g) && Quiet(g, s) && Leads(g, jobs, s, evs, t)
    ensures Quiet(g, t) && Lasting(s, t)
    decreases |evs|
  {
    hide Quiet, Follows;
    if evs != [] {
      var m :| Follows(g, jobs, s, evs[0], m) && Leads(g, jobs, m, evs[1..], t);
      StepKeeps(g, jobs, s, evs[0], m);
      StepLasts(g, jobs, s, evs[0], m);
      RunLasts(g, jobs, m, evs[1..], t);
    }
  }

  /** Whatever depends on a failed item is neither queued nor started from then on, unless it was queued while its list
      was read. */
  lemma FailureStops(g: Graph, jobs: int, s: State, evs: seq<Event>, t: State, d: Item, code: int, x: Item)
    requires Acyclic(g) && Quiet(g, s) && Leads(g, jobs, s, evs, t) && Ends(s, d, code) && code != 0
    requires x in g.deps && d in g.deps[x] && x !in t.early
    ensures x !in t.build && x !in t.run && x !in t.forked
  {
    hide Inv, Leads;
    RunLasts(g, jobs, s, evs, t);
    NotQueued(g, t, d, x);
  }

  lemma NotQueued(g: Graph, t: State, d: Item, x: Item)
    requires Quiet(g, t) && d in t.items && t.items[d].xcode != 0 && x in g.deps && d in g.deps[x] && x !in t.early
    ensures x !in t.build && x !in t.run && x !in t.forked
  {
    hide Core, Verdict;
    QuietLists(g, t, x);
    if x in t.items && Queued(t, x) {
      QueuedDeps(g, t, x);
    }
  }

  lemma QuietLists(g: Graph, s: State, x: Item)
    requires Quiet(g, s)
    ensures x in s.build <==> x in s.items && s.items[x].status.Build?
    ensures x in s.run <==> x in s.items && s.items[x].status.Run?
    ensures x in s.items && s.items[x].status.Run? ==> x in s.forked
    ensures x in s.forked ==> x in s.items && (s.items[x].status.Run? || s.items[x].status.Done?)
  {
    hide Core, Verdict;
    InBuild(g, s, x);
  }

  // ---------------------------------------------------------------- the order of the queue

  /** Builds are started in the order in which they were queued. */
  lemma {:induction false} InQueueOrder(g: Graph, jobs: int, s: State, evs: seq<Event>, t: State)
    requires Leads(g, jobs, s, evs, t)
    ensures s.started + s.build <= t.started + t.build
    decreases |evs|
  {
    hide Follows;
    if evs != [] {
      var m :| Follows(g, jobs, s, evs[0], m) && Leads(g, jobs, m, evs[1..], t);
      StepInOrder(g, jobs, s, evs[0], m);
      InQueueOrder(g, jobs, m, evs[1..], t);
    }
  }

  lemma StepInOrder(g: Graph, jobs: int, s: State, e: Event, t: State)
    requires Follows(g, jobs, s, e, t)
    ensures s.started + s.build <= t.started + t.build
  {
    hide Climbs, Complete;
    match e
    case Register(p) =>
    case Depn(p, x) =>
    case Close(p) =>
      CompleteGrows(g, s.(total := s.total + 1, open := s.open - {p}), p);
    case Fork(ok) =>
      assert s.started + [s.build[0]] + s.build[1..] == s.started + s.build;
      CompleteGrows(g, Crashed(s), s.build[0]);
    case Reap(x, code) =>
      CompleteGrows(g, Exited(s, x, code), x);
  }

  // ---------------------------------------------------------------- the codes that come in

  /** A fork fails exactly for the code -98, and what is reaped is what the build exits with. */
  ghost predicate Tells(code: Item -> int, s: State, e: Event)
  {
    match e
    case Fork(ok) => s.build != [] && (ok <==> code(s.build[0]) != -98)
    case Reap(x, c) => c == code(x)
    case _ => true
  }

  /** Whatever was started and is Done has its own code, and whatever runs could be forked. */
  ghost predicate Records(code: Item -> int, s: State)
  {
    && (forall x <- s.items :: x in s.forked && s.items[x].status.Done? ==> s.items[x].xcode == code(x))
    && (forall x <- s.run :: code(x) != -98)
  }

  lemma {:induction false} OnlyOff(l: seq<Item>, x: Item, y: Item)
    requires y in Without(l, x)
    ensures y in l
  {
    if l[0] != x && y != l[0] {
      OnlyOff(l[1..], x, y);
    }
  }

  lemma StepRuns(g: Graph, jobs: int, s: State, e: Event, t: State)
    requires Follows(g, jobs, s, e, t)
    ensures e.Fork? ==> s.build != [] && t.forked == s.forked + {s.build[0]}
    ensures !e.Fork? ==> t.forked == s.forked
    ensures t.run == if e.Reap? then Without(s.run, e.x) else if e == Fork(true) then [s.build[0]] + s.run else s.run
  {
    hide Climbs, Complete;
  }

  /** Who has ended as a build ended before, or just now. */
  lemma StepEnds(g: Graph, jobs: int, s: State, e: Event, t: State, x: Item)
    requires Acyclic(g) && Quiet(g, s) && Quiet(g, t) && Follows(g, jobs, s, e, t)
    requires x in t.forked && x in t.items && t.items[x].status.Done?
    ensures || (x in s.forked && x in s.items && s.items[x].status.Done?)
            || (e.Reap? && x == e.x && Ends(t, x, e.code))
            || (e == Fork(false) && s.build != [] && x == s.build[0] && Ends(t, x, -98))
  {
    hide Quiet, Follows, Ends;
    StepRuns(g, jobs, s, e, t);
    QuietLists(g, s, x);
    QuietLists(g, t, x);
    if e.Reap? {
      ReapCollects(g, jobs, s, e, t);
      if x in s.run && x != e.x {
        StillOn(s.run, e.x, x);
      }
    } else if e == Fork(false) {
      ForkFails(g, jobs, s, t);
    }
  }

  lemma EndsAt(t: State, x: Item, code: int)
    requires Ends(t, x, code)
    ensures x in t.items && t.items[x].xcode == code
  {
  }

  lemma StepRecords(g: Graph, jobs: int, code: Item -> int, s: State, e: Event, t: State)
    requires Acyclic(g) && Quiet(g, s) && Follows(g, jobs, s, e, t) && Tells(code, s, e) && Records(code, s)
    ensures Records(code, t)
  {
    hide Quiet, Lasting, Follows, Ends;
    StepKeeps(g, jobs, s, e, t);
    StepLasts(g, jobs, s, e, t);
    StepRuns(g, jobs, s, e, t);
    forall x <- t.items | x in t.forked && t.items[x].status.Done?
      ensures t.items[x].xcode == code(x)
    {
      StepEnds(g, jobs, s, e, t, x);
      if x in s.forked && x in s.items && s.items[x].status.Done? {
        LastsAt(s, t, x);
      } else {
        EndsAt(t, x, if e.Reap? then e.code else -98);
      }
    }
    forall x <- t.run
      ensures code(x) != -98
    {
      if e.Reap? {
        OnlyOff(s.run, e.x, x);
      }
    }
  }

  lemma LastsAt(s: State, t: State, x: Item)
    requires Lasting(s, t) && x in s.items && s.items[x].status.Done?
    ensures x in t.items && t.items[x].xcode == s.items[x].xcode
  {
  }

  lemma RunsForked(code: Item -> int, s: State, x: Item)
    requires Records(code, s) && x in s.run
    ensures code(x) != -98
  {
  }

  lemma OneRecords(g: Graph, jobs: int, code: Item -> int, s: State, e: Event, t: State)
    requires Acyclic(g) && Quiet(g, s) && Leads(g, jobs, s, [e], t) && Tells(code, s, e) && Records(code, s)
    ensures Records(code, t)
  {
    hide Quiet, Follows, Records, Tells;
    var m :| Follows(g, jobs, s, [e][0], m) && Leads(g, jobs, m, [e][1..], t);
    StepRecords(g, jobs, code, s, e, t);
  }

  ghost predicate TellsAll(g: Graph, jobs: int, code: Item -> int, s: State, evs: seq<Event>, t: State)
    decreases |evs|
  {
    if evs == [] then s == t
    else exists m :: Follows(g, jobs, s, evs[0], m) && Tells(code, s, evs[0]) && TellsAll(g, jobs, code, m, evs[1..], t)
  }

  /** In every run each build ends with its own code. */
  lemma {:induction false} RunRecords(g: Graph, jobs: int, code: Item -> int, s: State, evs: seq<Event>, t: State)
    requires Acyclic(g) && Quiet(g, s) && Records(code, s) && TellsAll(g, jobs, code, s, evs, t)
    ensures Quiet(g, t) && Records(code, t)
    decreases |evs|
  {
    hide Quiet, Follows, Records, Tells;
    if evs != [] {
      var m :| Follows(g, jobs, s, evs[0], m) && Tells(code, s, evs[0]) && TellsAll(g, jobs, code, m, evs[1..], t);
      StepKeeps(g, jobs, s, evs[0], m);
      StepRecords(g, jobs, code, s, evs[0], m);
      RunRecords(g, jobs, code, m, evs[1..], t);
    }
  }

  // ---------------------------------------------------------------- the outcome

  /** The package and everything that it depends on builds. */
  ghost predicate Succeeds(g: Graph, code: Item -> int, x: Item)
    decreases if x in g.rank then g.rank[x] else 0
  {
    && code(x) == 0 && x in g.deps && x in g.rank
    && forall d <- g.deps[x] :: d in g.rank && g.rank[d] < g.rank[x] && Succeeds(g, code, d)
  }

  /** Nothing is left to read, to start or to wait for, and nothing was queued early. */
  ghost predicate Over(s: State)
  {
    s.open == {} && s.build == [] && s.run == [] && s.early == {}
  }

  /** When a run is complete and nothing was queued early, it depends on the codes alone which packages were built and
      which succeeded. */
  lemma {:induction false} ResultsFixed(g: Graph, code: Item -> int, s: State, x: Item)
    requires Acyclic(g) && Quiet(g, s) && Records(code, s)
    requires Over(s) && x in s.items
    ensures x in g.deps
    ensures s.items[x].xcode == 0 <==> Succeeds(g, code, x)
    ensures x in s.forked <==> forall d <- g.deps[x] :: Succeeds(g, code, d)
    ensures x in s.forked ==> s.items[x].xcode == code(x)
    decreases if x in g.rank then g.rank[x] else 0
  {
    hide Quiet, Succeeds;
    QuietIn(g, s, x);
    AllKnown(g, s, x);
    Completeness(g, s);
    Outcome(g, s, x);
    forall d <- g.deps[x]
      ensures s.items[d].xcode == 0 <==> Succeeds(g, code, d)
    {
      ResultsFixed(g, code, s, d);
    }
    SucceedsIs(g, code, x);
  }

  lemma AllResults(g: Graph, code: Item -> int, s: State)
    requires Acyclic(g) && Quiet(g, s) && Records(code, s) && Over(s)
    ensures forall x <- s.items :: s.items[x].xcode == 0 <==> Succeeds(g, code, x)
    ensures forall x <- s.items :: x in g.deps && (x in s.forked <==> forall d <- g.deps[x] :: Succeeds(g, code, d))
  {
    hide *;
    forall x <- s.items
      ensures s.items[x].xcode == 0 <==> Succeeds(g, code, x)
      ensures x in g.deps && (x in s.forked <==> forall d <- g.deps[x] :: Succeeds(g, code, d))
    {
      ResultsFixed(g, code, s, x);
    }
  }

  lemma SucceedsIs(g: Graph, code: Item -> int, x: Item)
    requires Acyclic(g) && x in g.deps
    ensures Succeeds(g, code, x) <==> code(x) == 0 && forall d <- g.deps[x] :: Succeeds(g, code, d)
  {
  }

  /** A list that was read names registered items only. */
  lemma AllKnown(g: Graph, s: State, x: Item)
    requires Quiet(g, s) && x in s.items && x in g.deps && x !in s.open
    ensures forall d <- g.deps[x] :: d in s.items
  {
    hide Core, Verdict;
    InGraph(g, s, x);
    AllRead(g, s, x);
    FromBelow(g, s, x);
  }

  /** So two complete runs agree, however they were interleaved, on the packages that both know. */
  lemma SameResults(g: Graph, code: Item -> int, s: State, t: State, x: Item)
    requires Acyclic(g) && Quiet(g, s) && Quiet(g, t) && Records(code, s) && Records(code, t)
    requires Over(s) && Over(t) && x in s.items && x in t.items
    ensures s.items[x].xcode == 0 <==> t.items[x].xcode == 0
    ensures x in s.forked <==> x in t.forked
  {
    hide Quiet, Acyclic, Records, Succeeds;
    ResultsFixed(g, code, s, x);
    ResultsFixed(g, code, t, x);
  }
}
