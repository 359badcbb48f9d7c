/** When the bulk build aborts.

    Reading a dependency list asserts that the package at its head still waits.  A build that is reaped meanwhile
    can have queued or failed the package; here it is stated exactly which event of a run then aborts the program. */
module BulkAborts {
  import opened BulkState
  import opened BulkInvariant
  import opened BulkCascade
  import opened BulkEvents
  import opened BulkLinking
  import opened BulkRuns
  import opened BulkTheorems
  import opened BulkEarly

  /** What became of `p` while its list was read. */
  ghost predicate Overtaken(s: State, p: Item)
    requires p in s.items
  {
    p in s.early || s.items[p].status.Done?
  }

  /** An item whose list is read stops listening exactly when it is queued too early or is Done. */
  lemma DeafWhenOvertaken(g: Graph, s: State, p: Item)
    requires Quiet(g, s) && p in s.open && p in s.items
    ensures !Listening(s.items[p]) <==> Overtaken(s, p)
  {
    hide Core;
    CoreKeyed(g, s);
    CoreAt(g, s, p);
    assert Verdict(s, p);
    if p in s.early {
      EarlyDeaf(g, s, p);
    }
  }

  /** The events at which the program aborts: a failed dependency is registered for an overtaken item, or the list of
      an overtaken item ends when all its dependencies are Done. */
  ghost predicate Aborts(g: Graph, s: State, e: Event)
  {
    match e
    case Depn(p, x) =>
      p in s.items && Overtaken(s, p) && x in s.items && s.items[x].status.Done? && s.items[x].xcode != 0
    case Close(p) =>
      p in s.items && Overtaken(s, p) && p in g.deps && forall d <- g.deps[p] :: d in s.items && s.items[d].status.Done?
    case _ => false
  }

  /** Nothing is left to wait for exactly when every dependency is Done. */
  lemma NothingToAwait(g: Graph, s: State, p: Item)
    requires Quiet(g, s) && p in s.items && p in g.deps && p in s.links && s.links[p].read == |g.deps[p]|
    ensures s.items[p].dcount == 0 <==> forall d <- g.deps[p] :: d in s.items && s.items[d].status.Done?
  {
    hide Core, Verdict;
    if s.items[p].dcount != 0 {
      var d := LastLine(g, s, p);
    } else {
      NothingLeft(g, s, p);
      WholeList(g, s, p);
      FromBelow(g, s, p);
      forall d <- g.deps[p]
        ensures d in s.items && s.items[d].status.Done?
      {
        assert d in s.links[p].from;
        if !s.items[d].status.Done? {
          Untold(g, s, d, p);
        }
      }
    }
  }

  lemma WholeList(g: Graph, s: State, p: Item)
    requires Core(g, s) && p in s.items && p in g.deps && p in s.links && s.links[p].read == |g.deps[p]|
    ensures forall d <- g.deps[p] :: d in s.links[p].from
  {
    hide Climbs, Edges, Ordered, Lists, Delivered, Counted;
    assert g.deps[p][..|g.deps[p]|] == g.deps[p];
  }

  /** An event of a run aborts the program exactly under these conditions. */
  lemma AbortsExactly(g: Graph, jobs: int, s: State, e: Event, t: State)
    requires Quiet(g, s) && Follows(g, jobs, s, e, t)
    ensures t.aborted <==> Aborts(g, s, e)
  {
    hide Quiet, Climbs, Complete, Overtaken;
    match e
    case Register(p) =>
    case Depn(p, x) =>
      DeafWhenOvertaken(g, s, p);
    case Close(p) =>
      QuietIn(g, s, p);
      QuietCore(g, s);
      DeafWhenOvertaken(g, s, p);
      NothingToAwait(g, s, p);
    case Fork(ok) =>
    case Reap(x, code) =>
  }

  lemma QuietCore(g: Graph, s: State)
    requires Quiet(g, s)
    ensures Core(g, s)
  {
  }

  /** So a run ends in an abort exactly when its last event is one of these. */
  lemma {:induction false} RunAborts(g: Graph, jobs: int, s: State, evs: seq<Event>, t: State) returns (m: State)
    requires Acyclic(g) && Quiet(g, s) && Leads(g, jobs, s, evs, t) && evs != []
    ensures var n := |evs| - 1;
            && Leads(g, jobs, s, evs[..n], m) && Follows(g, jobs, m, evs[n], t)
            && (t.aborted <==> Aborts(g, m, evs[n]))
    decreases |evs|
  {
    hide Quiet, Follows, Aborts;
    var n := |evs| - 1;
    var k :| Follows(g, jobs, s, evs[0], k) && Leads(g, jobs, k, evs[1..], t);
    if n == 0 {
      m := s;
      AbortsExactly(g, jobs, s, evs[0], t);
    } else {
      StepKeeps(g, jobs, s, evs[0], k);
      m := RunAborts(g, jobs, k, evs[1..], t);
      assert evs[..n][0] == evs[0] && evs[..n][1..] == evs[1..][..n - 1];
    }
  }
}
