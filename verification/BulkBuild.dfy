/** The procedures of flappy-fbulk over its mutable lists and items.

    Every procedure is proved to perform a run of the events of BulkState, so the theorems about all runs hold of
    whatever the program does.  Which forks fail and what the builds exit with are inputs; which build exits when is
    left open. */
module BulkBuild {
  import opened BulkState
  import opened BulkInvariant
  import opened BulkCascade
  import opened BulkEvents
  import opened BulkLinking
  import opened BulkRuns
  import opened BulkTheorems
  import opened BulkEarly
  import opened BulkDrain
  import opened BulkResults
  import opened Common

  /** WEXITSTATUS of a wait status; that of a child that was killed by a signal is 0. */
  function ExitStatus(status: nat): (code: nat)
    ensures code < 256
  {
    status / 256 % 256
  }

  class Builder {
    /** The build dependencies of each package that have a template, line by line. */
    const deps: map<Item, seq<Item>>
    const nParallel: int
    /** Whether the fork for a package works, and the wait status of its build. */
    const forks: Item -> bool
    const waits: Item -> nat
    ghost const g: Graph

    var order: seq<Item>
    var items: map<Item, Rec>
    var links: map<Item, Links>
    var buildList: seq<Item>
    var runList: seq<Item>
    var nRunning: int
    var nFinished: int
    var nTotal: nat
    var aborted: bool
    ghost var open: set<Item>
    ghost var active: set<Item>
    ghost var early: set<Item>
    ghost var started: seq<Item>
    ghost var forked: set<Item>
    ghost var finished: seq<Item>

    ghost function View(): State
      reads this
    {
      State(order, items, links, buildList, runList, open, active, early, started, forked, finished, nTotal, aborted)
    }

    /** The program's counters of running and of finished builds. */
    ghost predicate Counters()
      reads this
    {
      nRunning == |runList| && nFinished == |finished|
    }

    /** The code with which the build of each package ends. */
    ghost function Code(): Item -> int
    {
      x => if forks(x) then ExitStatus(waits(x)) else -98
    }

    ghost predicate Valid()
      reads this
    {
      Acyclic(g) && g.deps == deps && Quiet(g, View()) && Counters() && Records(Code(), View())
    }

    constructor (deps: map<Item, seq<Item>>, nParallel: int, forks: Item -> bool, waits: Item -> nat, ghost g: Graph)
      requires Acyclic(g) && g.deps == deps
      ensures Valid() && View() == INITIAL
      ensures this.deps == deps && this.nParallel == nParallel && this.g == g
      ensures this.forks == forks && this.waits == waits
    {
      this.deps, this.nParallel, this.forks, this.waits, this.g := deps, nParallel, forks, waits, g;
      order, items, links, buildList, runList := [], map[], map[], [], [];
      nRunning, nFinished, nTotal, aborted := 0, 0, 0, false;
      open, active, early, started, forked, finished := {}, {}, {}, [], {}, [];
      new;
      assert View() == INITIAL;
      InitialQuiet(g);
    }

    method AddBuild(x: Item)
      requires x in items && Counters()
      modifies this
      ensures View() == BulkState.AddBuild(old(View()), x) && Counters()
    {
      buildList := buildList + [x];
      items := items[x := items[x].(status := Build)];
      early := if x in open then early + {x} else early;
    }

    /** Delivers the completion of `item`, and of everything that it settles. */
    method ProcessCompletion(item: Item)
      requires Completable(g, View(), item) && Counters()
      modifies this
      ensures View() == Complete(g, old(View()), item) && Counters()
      decreases g.top - g.rank[item]
    {
      hide Inv, Climbs, Topmost, Notify, CompleteFrom, Complete;
      ghost var s0 := View();
      ghost var b := Begin(s0, item);
      active := active + {item};
      StatusOf(g, b, item);
      assert items[item].status.Run? || items[item].status.DepFail?;
      DeliverFirst(g, s0, item);
      var k := 0;
      while k < |links[item].dbase|
        invariant Delivering(g, View(), item, k) && links == b.links && Counters()
        invariant CompleteFrom(g, View(), item, k) == CompleteFrom(g, b, item, 0)
      {
        ghost var s := View();
        DeliverNext(g, s, item, k);
        Notified(item, links[item].dbase[k]);
        k := k + 1;
      }
      ghost var c := View();
      DeliverLast(g, s0, c, item, k);
      SetDone(item);
    }

    method SetDone(item: Item)
      requires item in items && Counters()
      modifies this
      ensures View() == Finish(old(View()), item) && Counters()
    {
      items := items[item := items[item].(status := Done)];
      finished := finished + [item];
      active := active - {item};
      nFinished := nFinished + 1;
    }

    /** Tells `x`, one entry of `item`'s list, that `item` is complete. */
    method Notified(item: Item, x: Item)
      requires Notifiable(g, View(), item, x) && Counters()
      modifies this
      ensures View() == Notify(g, old(View()), item, x) && Counters()
      decreases g.top - g.rank[item], 0
    {
      hide Inv, Climbs, Topmost, Completable;
      ghost var s := View();
      NotifyReady(g, s, item, x);
      assert items[x].dcount > 0;
      items := items[item := items[item].(left := items[item].left - multiset{x})];
      items := items[x := items[x].(dcount := items[x].dcount - 1)];
      ghost var t := Drop(s, item, x);
      assert View() == t;
      if Listening(items[x]) {
        if items[item].xcode == 0 {
          if items[x].dcount == 0 {
            if items[x].status.Waiting? {
              AddBuild(x);
            } else {
              ProcessCompletion(x);
            }
          }
        } else {
          items := items[x := items[x].(xcode := items[item].xcode, status := DepFail)];
          assert View() == Fail(t, x, s.items[item].xcode);
          ProcessCompletion(x);
        }
      }
    }

    /** Takes the build `x` off the run list. */
    method Unlink(x: Item)
      requires x in runList
      modifies this`runList
      ensures runList == Without(old(runList), x) && |runList| == |old(runList)| - 1
    {
      var i := 0;
      while runList[i] != x
        invariant 0 <= i < |runList| && x in runList[i..] && x !in runList[..i]
        invariant runList == old(runList)
        decreases |runList| - i
      {
        i := i + 1;
      }
      WithoutAt(runList, x, i);
      runList := runList[..i] + runList[i + 1..];
    }

    /** Waits for a build and processes its completion with the code it exits with; a non-blocking wait may find
        none. */
    method WaitRunning(block: bool) returns (r: Option<Item>, ghost evs: seq<Event>)
      requires Valid() && !aborted
      modifies this
      ensures Valid() && !aborted && Leads(g, nParallel, old(View()), evs, View())
      ensures open == old(open) && links == old(links) && started == old(started) && items.Keys == old(items.Keys)
      ensures r.None? ==> View() == old(View()) && evs == [] && (block ==> runList == [])
      ensures r.Some? ==> |finished| > |old(finished)| && r.value in old(runList)
      ensures r.Some? ==> evs == [Reap(r.value, ExitStatus(waits(r.value)))]
      ensures r.Some? ==> Ends(View(), r.value, ExitStatus(waits(r.value)))
    {
      hide Quiet, Climbs, Completable, Complete, Leads, Records;
      r, evs := None, [];
      LeadsNone(g, nParallel, View());
      if runList == [] {
        return;
      }
      var exited: bool := *;
      if exited || block {
        var k: nat :| k < |runList|;
        var x := runList[k];
        var code := ExitStatus(waits(x));
        ghost var s := View();
        Reapable(g, s, x, code);
        Unlink(x);
        items := items[x := items[x].(xcode := code)];
        nRunning := nRunning - 1;
        assert View() == Exited(s, x, code);
        ProcessCompletion(x);
        evs := [Reap(x, code)];
        Reaped(g, nParallel, s, x, code);
        RunsForked(Code(), s, x);
        assert Code()(x) == code;
        OneRecords(g, nParallel, Code(), s, Reap(x, code), View());
        Collected(g, nParallel, s, x, code, View());
        r := Some(x);
      }
    }

    method PopBuild()
      requires buildList != [] && buildList[0] in items && Counters()
      modifies this
      ensures View() == Launch(old(View())) && Counters()
    {
      var x := buildList[0];
      buildList := buildList[1..];
      items := items[x := items[x].(status := Run)];
      started := started + [x];
      forked := forked + {x};
    }

    /** Starts the build at the head of the build list. */
    method StartBuild() returns (ghost evs: seq<Event>)
      requires Valid() && !aborted && |runList| < nParallel && buildList != []
      modifies this
      ensures Valid() && !aborted && Leads(g, nParallel, old(View()), evs, View())
      ensures open == old(open) && links == old(links) && items.Keys == old(items.Keys)
      ensures |started| == |old(started)| + 1 && evs == [Fork(forks(old(buildList)[0]))]
    {
      hide Quiet, Climbs, Completable, Complete, Leads, Records;
      ghost var s := View();
      var x := buildList[0];
      Launchable(g, nParallel, s);
      PopBuild();
      var ok := forks(x);
      if ok {
        runList := [x] + runList;
        nRunning := nRunning + 1;
        assert View() == Tracked(s);
      } else {
        items := items[x := items[x].(xcode := -98)];
        assert View() == Crashed(s);
        ProcessCompletion(x);
      }
      evs := [Fork(ok)];
      OneRecords(g, nParallel, Code(), s, Fork(ok), View());
    }

    /** The pipeline is full, or nothing is queued. */
    ghost predicate Full(s: State)
      reads this
    {
      |s.run| >= nParallel || s.build == []
    }

    /** Keeps up to nParallel builds running, then collects the builds that have exited.  `mid` is the state in which it
        starts to look for them, and `looks` are the builds it finds. */
    method RunBuilds() returns (ghost evs: seq<Event>, ghost looks: seq<Event>, ghost mid: State)
      requires Valid() && !aborted
      modifies this
      ensures Valid() && !aborted && Leads(g, nParallel, old(View()), evs, View())
      ensures open == old(open) && links == old(links) && items.Keys == old(items.Keys)
      ensures |finished| >= |old(finished)|
      ensures |looks| <= |evs| && Looked(mid, evs[..|evs| - |looks|], looks, old(View()))
      ensures evs == evs[..|evs| - |looks|] + looks && forall e <- evs[..|evs| - |looks|] :: e.Fork?
      ensures looks == [] ==> Full(View())
    {
      hide Quiet, Acyclic, Leads, Records;
      ghost var forks := FillPipeline();
      mid, looks := View(), [];
      evs := forks;
      LeadsNone(g, nParallel, View());
      var more := true;
      while more
        invariant Valid() && !aborted && Leads(g, nParallel, mid, looks, View())
        invariant open == old(open) && links == old(links) && items.Keys == old(items.Keys)
        invariant forall e <- looks :: e.Reap?
        decreases more, |items| - |finished|
      {
        ghost var s := View();
        var r, next := WaitRunning(false);
        LeadsConcat(g, nParallel, mid, looks, s, next, View());
        looks := looks + next;
        Bounded(g, View());
        more := r.Some?;
      }
      LeadsConcat(g, nParallel, old(View()), forks, mid, looks, View());
      evs := forks + looks;
      assert evs[..|evs| - |looks|] == forks;
      FinishedStays(g, nParallel, old(View()), evs, View());
      LeadsNothing(g, nParallel, mid, looks, View());
    }

    /** The last look at the running builds, from `mid` on, after `before`. */
    ghost predicate Looked(mid: State, before: seq<Event>, looks: seq<Event>, start: State)
      reads this
    {
      && Leads(g, nParallel, start, before, mid) && Leads(g, nParallel, mid, looks, View())
      && Full(mid) && forall e <- looks :: e.Reap?
    }

    /** Starts builds while there are any to start and fewer than nParallel run. */
    method FillPipeline() returns (ghost evs: seq<Event>)
      requires Valid() && !aborted
      modifies this
      ensures Valid() && !aborted && Leads(g, nParallel, old(View()), evs, View()) && Full(View())
      ensures open == old(open) && links == old(links) && items.Keys == old(items.Keys)
      ensures forall e <- evs :: e.Fork?
    {
      hide Quiet, Acyclic, Leads, Records;
      evs := [];
      LeadsNone(g, nParallel, View());
      while nRunning < nParallel && buildList != []
        invariant Valid() && !aborted && Leads(g, nParallel, old(View()), evs, View())
        invariant open == old(open) && links == old(links) && items.Keys == old(items.Keys)
        invariant forall e <- evs :: e.Fork?
        decreases |items| - |started|
      {
        ghost var s := View();
        ghost var more := StartBuild();
        LeadsConcat(g, nParallel, old(View()), evs, s, more, View());
        evs := evs + more;
        Bounded(g, View());
      }
    }

    method LinkDepn(p: Item, x: Item)
      requires p in links && x in links
      modifies this`links
      ensures View() == Link(old(View()), p, x)
    {
      links := links[x := links[x].(dbase := [p] + links[x].dbase)];
      links := links[p := links[p].(read := links[p].read + 1, from := links[p].from + {x})];
    }

    /** Registers that `p` depends on `x`. */
    method AddDepn(p: Item, x: Item) returns (ghost evs: seq<Event>)
      requires Valid() && !aborted && NextLine(g, View(), p, x)
      modifies this
      ensures Valid() && Leads(g, nParallel, old(View()), evs, View())
      ensures open == old(open) && items.Keys == old(items.Keys) && links.Keys == old(links.Keys)
      ensures p in links && links[p].read == old(links[p].read) + 1
      ensures forall q <- old(links) :: q != p ==> links[q].read == old(links[q].read)
    {
      hide Quiet, Climbs, Leads, Records;
      ghost var s := View();
      Linkable(g, nParallel, s, p, x);
      LinkDepn(p, x);
      if items[x].status.Done? {
        if items[x].xcode != 0 {
          if items[p].status.Waiting? || items[p].status.DepFail? {
            items := items[p := items[p].(xcode := items[x].xcode, status := DepFail)];
          } else {
            aborted := true;
          }
        }
      } else {
        items := items[x := items[x].(left := items[x].left + multiset{p})];
        items := items[p := items[p].(dcount := items[p].dcount + 1)];
      }
      assert View() == DoDepn(s, p, x);
      evs := [Depn(p, x)];
      OneRecords(g, nParallel, Code(), s, Depn(p, x), View());
    }

    /** Registers an item whose list is to be read. */
    method AddItem(p: Item)
      requires p !in items && Counters()
      modifies this
      ensures View() == DoRegister(old(View()), p) && Counters()
    {
      order := order + [p];
      items := items[p := Rec(Waiting, 0, 0, multiset{})];
      links := links[p := Links([], 0, {})];
      open := open + {p};
    }

    /** Queues or completes `p` if its list left it nothing to wait for; anything unexpected aborts the program. */
    method CloseItem(p: Item) returns (ghost evs: seq<Event>)
      requires Valid() && !aborted && p in open && p in items && p in deps && p in links
      requires links[p].read == |deps[p]|
      modifies this
      ensures Valid() && Leads(g, nParallel, old(View()), evs, View())
      ensures open == old(open) - {p} && items.Keys == old(items.Keys) && links == old(links)
    {
      hide Quiet, Climbs, Completable, Leads, Complete, Records;
      ghost var s := View();
      Closable(g, nParallel, s, p);
      evs := [Close(p)];
      nTotal := nTotal + 1;
      open := open - {p};
      assert View() == Closed(s, p);
      if items[p].dcount == 0 {
        if items[p].status.Waiting? {
          AddBuild(p);
        } else if items[p].status.DepFail? {
          ProcessCompletion(p);
        } else {
          aborted := true;
        }
      }
      OneRecords(g, nParallel, Code(), s, Close(p), View());
    }

    /** Reads the dependencies of `p`, registering each of them first, and starts what can be started.

        When the program aborts, only the run up to that moment is described. */
    method OrderedDepends(p: Item) returns (ghost evs: seq<Event>, ghost looks: seq<Event>)
      requires Valid() && !aborted && p in deps && p !in items
      requires forall o <- open :: o in g.rank && p in g.rank && g.rank[o] > g.rank[p]
      modifies this
      ensures Valid() && Leads(g, nParallel, old(View()), evs, View())
      ensures !aborted ==> p in items && open == old(open) && items.Keys >= old(items.Keys)
      ensures !aborted ==> forall o <- old(open) :: o in links && o in old(links) && links[o].read == old(links[o].read)
      ensures !aborted ==> |looks| <= |evs| && looks == evs[|evs| - |looks|..]
      ensures !aborted && looks == [] ==> Full(View())
      decreases if p in g.rank then g.rank[p] else 0
    {
      hide Quiet, Leads, NextLine, Acyclic, Looked, Full, Records;
      ghost var s0 := View();
      Registrable(g, nParallel, s0, p);
      AddItem(p);
      evs, looks := [Register(p)], [];
      OneRecords(g, nParallel, Code(), s0, Register(p), View());
      var n := 0;
      while n < |deps[p]|
        invariant 0 <= n <= |deps[p]|
        invariant Valid() && !aborted && Leads(g, nParallel, s0, evs, View())
        invariant open == s0.open + {p} && p in items && items.Keys >= s0.items.Keys && p in links && links[p].read == n
        invariant forall o <- s0.open :: o in links && o in s0.links && links[o].read == s0.links[o].read
      {
        var x := deps[p][n];
        Descends(g, View(), p, x);
        if x !in items {
          ghost var s := View();
          ghost var more, _ := OrderedDepends(x);
          LeadsConcat(g, nParallel, s0, evs, s, more, View());
          evs := evs + more;
          if aborted {
            return;
          }
        }
        ghost var s := View();
        NextIs(g, s, p, x, n);
        ghost var more := AddDepn(p, x);
        LeadsConcat(g, nParallel, s0, evs, s, more, View());
        evs := evs + more;
        if aborted {
          return;
        }
        n := n + 1;
      }
      ghost var s := View();
      ghost var more;
      more, looks := CloseAndRun(p);
      LeadsConcat(g, nParallel, s0, evs, s, more, View());
      evs := evs + more;
    }

    /** Ends the list of `p`, then keeps the pipeline full. */
    method CloseAndRun(p: Item) returns (ghost evs: seq<Event>, ghost looks: seq<Event>)
      requires Valid() && !aborted && p in open && p in items && p in deps && p in links
      requires links[p].read == |deps[p]|
      modifies this
      ensures Valid() && Leads(g, nParallel, old(View()), evs, View())
      ensures !aborted ==> open == old(open) - {p} && items.Keys == old(items.Keys) && links == old(links)
      ensures !aborted ==> |looks| <= |evs| && looks == evs[|evs| - |looks|..]
      ensures !aborted && looks == [] ==> Full(View())
    {
      hide Quiet, Leads, Acyclic, Looked, Full, Records;
      looks := [];
      evs := CloseItem(p);
      if aborted {
        return;
      }
      ghost var s := View();
      ghost var more, mid;
      more, looks, mid := RunBuilds();
      LeadsConcat(g, nParallel, old(View()), evs, s, more, View());
      evs := evs + more;
    }

    /** Registers every package of `roots` with its dependencies. */
    method RegisterAll(roots: seq<Item>) returns (ghost evs: seq<Event>)
      requires Valid() && !aborted && open == {} && forall p <- roots :: p in deps
      modifies this
      ensures Valid() && Leads(g, nParallel, old(View()), evs, View())
      ensures !aborted ==> (forall p <- roots :: p in items) && open == {}
    {
      hide Quiet, Leads, Records, Acyclic, Code;
      ghost var s0 := View();
      evs := [];
      LeadsNone(g, nParallel, s0);
      var i := 0;
      while i < |roots|
        invariant 0 <= i <= |roots|
        invariant Valid() && !aborted && open == {} && Leads(g, nParallel, s0, evs, View())
        invariant forall k | 0 <= k < i :: roots[k] in items
      {
        if roots[i] !in items {
          ghost var s := View();
          ghost var more, _ := OrderedDepends(roots[i]);
          LeadsConcat(g, nParallel, s0, evs, s, more, View());
          evs := evs + more;
          if aborted {
            return;
          }
        }
        i := i + 1;
      }
    }

    /** Registers every package of `roots` with its dependencies, then builds until there is nothing to wait for.

        When the program does not abort, nothing is left running, and every package was built or skipped exactly
        when the build list was emptied as well.  `mid` is the state in which the program began to look at the running
        builds for the last time, and `looks` are all of them as it collected them: what is still queued is what was
        queued in `mid` and what waited for nothing but builds that these found to end well.  When nothing is, and
        nothing was queued early, the exit codes alone tell what was built and what succeeded. */
    method BuildAll(roots: seq<Item>)
      returns (ghost evs: seq<Event>, ghost looks: seq<Event>, ghost mid: State)
      requires Valid() && View() == INITIAL && forall p <- roots :: p in deps
      modifies this
      ensures Valid() && Leads(g, nParallel, INITIAL, evs, View())
      ensures !aborted ==> (forall p <- roots :: p in items) && open == {} && runList == []
      ensures !aborted ==> ((forall x <- items :: items[x].status.Done?) <==> buildList == [])
      ensures !aborted ==> |looks| <= |evs| && Looked(mid, evs[..|evs| - |looks|], looks, INITIAL)
      ensures !aborted ==> Quiet(g, mid) && mid.open == {} && |mid.run| == |looks|
      ensures !aborted ==> forall x :: x in buildList <==> x in mid.build || Released(g, mid, looks, x)
      ensures !aborted ==>
                (buildList == [] <==> mid.build == [] && forall x <- mid.items :: !Released(g, mid, looks, x))
      ensures !aborted && buildList == [] && early == {} ==>
                forall x <- items :: items[x].xcode == 0 <==> Succeeds(g, Code(), x)
      ensures !aborted && buildList == [] && early == {} ==>
                forall x <- items :: x in deps && (x in forked <==> forall d <- deps[x] :: Succeeds(g, Code(), d))
    {
      hide Quiet, Leads, Records, Released, Succeeds;
      looks, mid := [], INITIAL;
      evs := RegisterAll(roots);
      if aborted {
        return;
      }
      ghost var s := View();
      ghost var drained;
      drained, looks, mid := Drain();
      LeadsConcat(g, nParallel, INITIAL, evs, s, drained, View());
      ghost var cut := |drained| - |looks|;
      LeadsConcat(g, nParallel, INITIAL, evs, s, drained[..cut], mid);
      assert (evs + drained)[..|evs + drained| - |looks|] == evs + drained[..cut];
      evs := evs + drained;
      DrainedExactly(g, View());
      LastLook(g, nParallel, evs[..|evs| - |looks|], mid, looks, View());
      if buildList == [] && early == {} {
        AllResults(g, Code(), View());
      }
    }

    /** Waits for the running builds and keeps the pipeline full. */
    method Drain() returns (ghost evs: seq<Event>, ghost looks: seq<Event>, ghost mid: State)
      requires Valid() && !aborted
      modifies this
      ensures Valid() && !aborted && Leads(g, nParallel, old(View()), evs, View())
      ensures open == old(open) && items.Keys == old(items.Keys) && runList == []
      ensures |looks| <= |evs| && Looked(mid, evs[..|evs| - |looks|], looks, old(View()))
    {
      hide Quiet, Leads, Records;
      evs, looks, mid := RunBuilds();
      var more := true;
      while more
        invariant Valid() && !aborted && Leads(g, nParallel, old(View()), evs, View())
        invariant open == old(open) && items.Keys == old(items.Keys) && (more || runList == [])
        invariant |looks| <= |evs| && Looked(mid, evs[..|evs| - |looks|], looks, old(View()))
        decreases more, |items| - |finished|
      {
        ghost var s := View();
        var r, next := WaitRunning(true);
        more := r.Some?;
        if more {
          LeadsConcat(g, nParallel, old(View()), evs, s, next, View());
          evs := evs + next;
          ghost var s1, before := View(), evs;
          ghost var rest;
          rest, looks, mid := RunBuilds();
          LeadsConcat(g, nParallel, old(View()), evs, s1, rest, View());
          evs := evs + rest;
          ghost var forks := rest[..|rest| - |looks|];
          LeadsConcat(g, nParallel, old(View()), before, s1, forks, mid);
          assert evs[..|evs| - |looks|] == before + forks;
        }
        Bounded(g, View());
      }
    }
  }

  // ---------------------------------------------------------------- where the procedures may be called

  lemma {:induction false} WithoutAt<T>(l: seq<T>, x: T, i: nat)
    requires i < |l| && l[i] == x && x !in l[..i]
    ensures Without(l, x) == l[..i] + l[i + 1..]
  {
    if i > 0 {
      assert l[0] in l[..i] && l[1..][..i - 1] == l[..i][1..];
      WithoutAt(l[1..], x, i - 1);
    }
  }

  lemma Launchable(g: Graph, jobs: int, s: State)
    requires Quiet(g, s) && !s.aborted && s.build != [] && |s.run| < jobs
    ensures Shape(g, s) && s.build[0] in s.items
    ensures Completable(g, Crashed(s), s.build[0])
    ensures forall ok :: Quiet(g, DoFork(g, s, ok)) && Leads(g, jobs, s, [Fork(ok)], DoFork(g, s, ok))
    ensures forall ok :: DoFork(g, s, ok).items.Keys == s.items.Keys && !DoFork(g, s, ok).aborted
  {
    hide Core, Verdict;
    OnList(g, s, s.build[0]);
    CoreAt(g, s, s.build[0]);
    CrashReady(g, s, s.build[0]);
    ReadyCompletable(g, s, Crashed(s), s.build[0]);
    forall ok
      ensures Quiet(g, DoFork(g, s, ok)) && Leads(g, jobs, s, [Fork(ok)], DoFork(g, s, ok))
      ensures DoFork(g, s, ok).items.Keys == s.items.Keys && !DoFork(g, s, ok).aborted
    {
      Launched(g, jobs, s, ok);
    }
  }

  lemma Launched(g: Graph, jobs: int, s: State, ok: bool)
    requires Quiet(g, s) && !s.aborted && s.build != [] && |s.run| < jobs && Shape(g, s) && s.build[0] in s.items
    ensures Quiet(g, DoFork(g, s, ok)) && Leads(g, jobs, s, [Fork(ok)], DoFork(g, s, ok))
    ensures DoFork(g, s, ok).items.Keys == s.items.Keys && !DoFork(g, s, ok).aborted
  {
    hide Quiet, Climbs, Complete;
    ForkKeeps(g, s, ok);
    LeadsOne(g, jobs, s, Fork(ok), DoFork(g, s, ok));
    ForkedKeys(g, s, ok);
  }

  lemma ForkedKeys(g: Graph, s: State, ok: bool)
    requires Quiet(g, s) && s.build != [] && Shape(g, s) && s.build[0] in s.items
    ensures DoFork(g, s, ok).items.Keys == s.items.Keys
  {
    hide Core, Verdict, Climbs;
    CrashReady(g, s, s.build[0]);
    if !ok {
      CompleteKeeps(g, Crashed(s), s.build[0]);
    }
  }

  lemma History(g: Graph, s: State)
    requires Core(g, s)
    ensures Holds(s.started, s.forked) && Holds(s.finished, With(s, Done))
    ensures s.forked <= s.items.Keys && With(s, Done) <= s.items.Keys
  {
    hide Shape, Reading, Edges, Ordered, Holds, Delivered, Counted;
  }

  /** Neither list of the history outgrows the items. */
  lemma Bounded(g: Graph, s: State)
    requires Quiet(g, s)
    ensures |s.started| <= |s.items| && |s.finished| <= |s.items|
  {
    hide Core, Verdict, Holds, With;
    History(g, s);
    HoldsSize(s.started, s.forked);
    HoldsSize(s.finished, With(s, Done));
    Smaller(s.forked, s.items.Keys);
    Smaller(With(s, Done), s.items.Keys);
  }

  lemma {:induction false} HoldsSize<T(!new)>(l: seq<T>, m: set<T>)
    requires Holds(l, m)
    ensures |l| == |m|
  {
    if l == [] {
      assert forall x :: x in m ==> multiset(l)[x] == 1;
      assert m == {};
    } else {
      HoldsTail(l, m);
      HoldsSize(l[1..], m - {l[0]});
    }
  }

  lemma {:induction false} FinishedStays(g: Graph, jobs: int, s: State, evs: seq<Event>, t: State)
    requires Leads(g, jobs, s, evs, t)
    ensures |s.finished| <= |t.finished|
    decreases |evs|
  {
    hide Climbs;
    if evs != [] {
      var m :| Follows(g, jobs, s, evs[0], m) && Leads(g, jobs, m, evs[1..], t);
      FinishedStays(g, jobs, m, evs[1..], t);
    }
  }

  lemma Linkable(g: Graph, jobs: int, s: State, p: Item, x: Item)
    requires Acyclic(g) && Quiet(g, s) && !s.aborted && NextLine(g, s, p, x)
    ensures Keyed(s) && p != x && x in s.links && p in s.links && Shape(g, s)
    ensures Quiet(g, DoDepn(s, p, x)) && Leads(g, jobs, s, [Depn(p, x)], DoDepn(s, p, x))
  {
    hide Core, Verdict;
    CoreAt(g, s, p);
    assert x in g.deps[p];
    DepnKeeps(g, s, p, x);
    LeadsOne(g, jobs, s, Depn(p, x), DoDepn(s, p, x));
  }

  lemma Registrable(g: Graph, jobs: int, s: State, p: Item)
    requires Acyclic(g) && Quiet(g, s) && !s.aborted && p in g.deps && p !in s.items
    ensures Quiet(g, DoRegister(s, p)) && Leads(g, jobs, s, [Register(p)], DoRegister(s, p))
    ensures p !in s.open && forall o <- s.open :: o in s.links
  {
    hide Core, Verdict;
    RegisterKeeps(g, s, p);
    OpenItems(g, s);
    LeadsOne(g, jobs, s, Register(p), DoRegister(s, p));
  }

  lemma OpenItems(g: Graph, s: State)
    requires Core(g, s)
    ensures Shape(g, s) && forall o <- s.open :: o in s.items
  {
    hide Climbs, Reading, Ordered, Lists, Delivered, Counted;
  }

  lemma Descends(g: Graph, s: State, p: Item, x: Item)
    requires Acyclic(g) && p in g.deps && x in g.deps[p]
    requires forall o <- s.open :: o == p || (o in g.rank && p in g.rank && g.rank[o] > g.rank[p])
    ensures x in g.deps && x in g.rank && p in g.rank && g.rank[x] < g.rank[p]
    ensures forall o <- s.open :: o in g.rank && g.rank[o] > g.rank[x]
  {
  }

  lemma NextIs(g: Graph, s: State, p: Item, x: Item, n: nat)
    requires Acyclic(g) && Quiet(g, s) && p in s.open && p in s.items && x in s.items && p in s.links && p in g.deps
    requires s.links[p].read == n < |g.deps[p]| && x == g.deps[p][n]
    requires forall o <- s.open :: o == p || (o in g.rank && p in g.rank && g.rank[o] > g.rank[p])
    ensures NextLine(g, s, p, x)
  {
    hide Quiet;
    assert x in g.deps[p];
  }

  lemma Closable(g: Graph, jobs: int, s: State, p: Item)
    requires Acyclic(g) && Quiet(g, s) && !s.aborted && p in s.open && p in s.items && p in g.deps && p in s.links
    requires s.links[p].read == |g.deps[p]|
    ensures Shape(g, s) && Quiet(g, DoClose(g, s, p)) && Leads(g, jobs, s, [Close(p)], DoClose(g, s, p))
    ensures s.items[p].status.DepFail? && s.items[p].dcount == 0 ==> Completable(g, Closed(s, p), p)
    ensures DoClose(g, s, p).items.Keys == s.items.Keys
  {
    hide Core, Verdict, Blamed, Clean, Climbs, Kept;
    CoreAt(g, s, p);
    ClosedLeads(g, jobs, s, p);
    if s.items[p].status.DepFail? && s.items[p].dcount == 0 {
      var t := Closed(s, p);
      ClosedBut(g, s, t, p);
      CoreAt(g, t, p);
      BeginKeeps(g, t, Begin(t, p), p);
      CompleteKeeps(g, t, p);
      KeptKeys(g, t, Complete(g, t, p), p);
    }
  }

  lemma KeptKeys(g: Graph, s: State, t: State, x: Item)
    requires Kept(g, s, t, x)
    ensures t.items.Keys == s.items.Keys
  {
  }

  lemma ClosedLeads(g: Graph, jobs: int, s: State, p: Item)
    requires Acyclic(g) && Quiet(g, s) && !s.aborted && p in s.open && p in s.items && p in g.deps && p in s.links
    requires s.links[p].read == |g.deps[p]| && Shape(g, s)
    ensures Quiet(g, DoClose(g, s, p)) && Leads(g, jobs, s, [Close(p)], DoClose(g, s, p))
  {
    hide Quiet, Climbs, DoClose;
    CloseKeeps(g, s, p);
    LeadsOne(g, jobs, s, Close(p), DoClose(g, s, p));
  }

  lemma Reapable(g: Graph, s: State, x: Item, code: int)
    requires Quiet(g, s) && x in s.run
    ensures Shape(g, s) && x in s.items && Completable(g, Exited(s, x, code), x)
    ensures var t := DoReap(g, s, x, code);
            t.items.Keys == s.items.Keys && |t.finished| > |s.finished|
  {
    hide Core, Verdict;
    OnList(g, s, x);
    CoreAt(g, s, x);
    ExitReady(g, s, x, code);
    ReadyCompletable(g, s, Exited(s, x, code), x);
    ReadyFinishes(g, s, Exited(s, x, code), x);
  }

  lemma Reaped(g: Graph, jobs: int, s: State, x: Item, code: int)
    requires Acyclic(g) && Quiet(g, s) && !s.aborted && x in s.run && Shape(g, s) && x in s.items
    ensures Leads(g, jobs, s, [Reap(x, code)], DoReap(g, s, x, code)) && Quiet(g, DoReap(g, s, x, code))
  {
    hide Quiet, Climbs, DoReap;
    ReapKeeps(g, s, x, code);
    LeadsOne(g, jobs, s, Reap(x, code), DoReap(g, s, x, code));
  }

  lemma Collected(g: Graph, jobs: int, s: State, x: Item, code: int, t: State)
    requires Acyclic(g) && Quiet(g, s) && Leads(g, jobs, s, [Reap(x, code)], t)
    ensures Ends(t, x, code)
  {
    hide Quiet, Follows, Ends;
    var m :| Follows(g, jobs, s, [Reap(x, code)][0], m) && Leads(g, jobs, m, [Reap(x, code)][1..], t);
    ReapCollects(g, jobs, s, Reap(x, code), t);
  }

  lemma LeadsNone(g: Graph, jobs: int, s: State)
    ensures Leads(g, jobs, s, [], s)
  {
  }

  lemma ReadyCompletable(g: Graph, s: State, c: State, x: Item)
    requires Ready(g, s, c, x)
    ensures Completable(g, c, x)
  {
    hide Inv, Climbs;
  }

  lemma ReadyFinishes(g: Graph, s: State, c: State, x: Item)
    requires Ready(g, s, c, x) && c.finished == s.finished && Shape(g, c) && x in c.items
    ensures Complete(g, c, x).items.Keys == s.items.Keys && |Complete(g, c, x).finished| > |s.finished|
  {
    hide Inv, Climbs;
    CompleteKeeps(g, c, x);
    FinishedGrows(g, c, x);
  }

  lemma {:induction false} FinishedGrows(g: Graph, s: State, x: Item)
    requires Shape(g, s) && x in s.items
    ensures |Complete(g, s, x).finished| > |s.finished|
  {
  }

  ghost predicate Completable(g: Graph, s: State, item: Item)
  {
    && Shape(g, s) && item in s.items && item !in s.active && Inv(g, Begin(s, item))
    && s.items[item].left == multiset(s.links[item].dbase)
    && forall a <- s.active :: a in g.rank && g.rank[a] <= g.rank[item]
  }

  ghost predicate Delivering(g: Graph, s: State, item: Item, k: nat)
  {
    && Shape(g, s) && item in s.items && item in s.active && Inv(g, s) && Topmost(g, s, item)
    && k <= |s.links[item].dbase| && s.items[item].left == multiset(s.links[item].dbase[k..])
  }

  ghost predicate Notifiable(g: Graph, s: State, item: Item, x: Item)
  {
    && Shape(g, s) && item in s.items && item in s.active && Inv(g, s) && Topmost(g, s, item)
    && x in s.items && x in s.items[item].left && x in multiset(s.links[item].dbase) && g.rank[item] < g.rank[x]
  }

  lemma StatusOf(g: Graph, s: State, x: Item)
    requires Inv(g, s) && x in s.active && x in s.items
    ensures s.items[x].status.Run? || s.items[x].status.DepFail?
  {
    hide Core;
    CoreAt(g, s, x);
  }

  lemma DeliverFirst(g: Graph, s: State, item: Item)
    requires Completable(g, s, item)
    ensures Delivering(g, Begin(s, item), item, 0)
  {
    hide Core, Verdict;
    assert s.links[item].dbase[0..] == s.links[item].dbase;
  }

  lemma DeliverNext(g: Graph, s: State, item: Item, k: nat)
    requires Delivering(g, s, item, k) && k < |s.links[item].dbase|
    ensures Notifiable(g, s, item, s.links[item].dbase[k])
    ensures var t := Notify(g, s, item, s.links[item].dbase[k]);
            && Delivering(g, t, item, k + 1) && t.links == s.links
            && CompleteFrom(g, t, item, k + 1) == CompleteFrom(g, s, item, k)
  {
    hide Core, Verdict;
    var dbase := s.links[item].dbase;
    assert dbase[k..] == [dbase[k]] + dbase[k + 1..];
    NotifyKeeps(g, s, item, dbase[k]);
  }

  lemma DeliverLast(g: Graph, s: State, c: State, item: Item, k: nat)
    requires Shape(g, s) && item in s.items && Delivering(g, c, item, k) && k == |c.links[item].dbase|
    requires CompleteFrom(g, c, item, k) == CompleteFrom(g, Begin(s, item), item, 0)
    ensures Complete(g, s, item) == Finish(c, item)
  {
  }

  /** One delivery meets the program's assertion and leaves `x` ready for what follows. */
  lemma NotifyReady(g: Graph, s: State, item: Item, x: Item)
    requires Notifiable(g, s, item, x)
    ensures s.items[x].dcount > 0 && x != item
    ensures var t := Drop(s, item, x);
            && t.items[x].status == s.items[x].status && t.items[item].xcode == s.items[item].xcode
            && (Listening(s.items[x]) ==>
                  if s.items[item].xcode != 0 then Completable(g, Fail(t, x, s.items[item].xcode), x)
                  else s.items[x].status.DepFail? && t.items[x].dcount == 0 ==> Completable(g, t, x))
    ensures g.rank[x] <= g.top
  {
    hide Core, Verdict, Blamed, Clean;
    CoreAt(g, s, item);
    EdgeAt(g, s, item, x);
    var t := Drop(s, item, x);
    DropKeeps(g, s, t, item, x);
    DropIs(s, item, x);
    CoreAt(g, t, x);
    if Listening(s.items[x]) {
      if s.items[item].xcode != 0 {
        var u := Fail(t, x, s.items[item].xcode);
        FailKeeps(g, t, u, x, item);
        SkipReady(g, u, item, x);
      } else if s.items[x].status.DepFail? {
        SkipReady(g, t, item, x);
      }
    }
  }

  lemma SkipReady(g: Graph, s: State, item: Item, x: Item)
    requires InvBut(g, s, x) && s.items[x].status.DepFail? && x !in s.active
    requires Topmost(g, s, item) && x in g.rank && g.rank[item] < g.rank[x]
    ensures Completable(g, s, x)
  {
    hide Core, Verdict, Blamed, Clean;
    CoreAt(g, s, x);
    BeginKeeps(g, s, Begin(s, x), x);
  }
}
