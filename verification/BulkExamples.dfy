/** Short runs: in one an item is queued before one of its dependencies is built, in one the program aborts, and in
    one the drain stops while an item is queued. */
module BulkExamples {
  import opened BulkState
  import opened BulkInvariant
  import opened BulkCascade
  import opened BulkEvents
  import opened BulkLinking
  import opened BulkTheorems
  import opened BulkEarly
  import opened BulkAborts
  import opened BulkDrain

  /** `a` depends on `b` and, if `more`, on `c`. */
  ghost function Three(a: Item, b: Item, c: Item, more: bool): Graph
  {
    Graph(map[a := if more then [b, c] else [b], b := [], c := []], map[a := 1, b := 0, c := 0], 1)
  }

  ghost predicate Reached(g: Graph, jobs: int, s: State)
  {
    exists evs :: Leads(g, jobs, INITIAL, evs, s)
  }

  lemma Then(g: Graph, jobs: int, s: State, e: Event, t: State)
    requires Reached(g, jobs, s) && Follows(g, jobs, s, e, t)
    ensures Reached(g, jobs, t)
  {
    hide Follows;
    var evs :| Leads(g, jobs, INITIAL, evs, s);
    LeadsOne(g, jobs, s, e, t);
    LeadsConcat(g, jobs, INITIAL, evs, s, [e], t);
  }

  ghost predicate Distinct(a: Item, b: Item, c: Item)
  {
    a != b && b != c && a != c
  }

  ghost function S1(a: Item, b: Item, c: Item): State
  {
    State([a], map[a := Rec(Waiting, 0, 0, multiset{})],
          map[a := Links([], 0, {})],
          [], [], {a}, {}, {}, [], {}, [], 0, false)
  }

  ghost function S2(a: Item, b: Item, c: Item): State
  {
    State([a, b], map[a := Rec(Waiting, 0, 0, multiset{}), b := Rec(Waiting, 0, 0, multiset{})],
          map[a := Links([], 0, {}), b := Links([], 0, {})],
          [], [], {a, b}, {}, {}, [], {}, [], 0, false)
  }

  ghost function S3(a: Item, b: Item, c: Item): State
  {
    State([a, b], map[a := Rec(Waiting, 0, 0, multiset{}), b := Rec(Build, 0, 0, multiset{})],
          map[a := Links([], 0, {}), b := Links([], 0, {})],
          [b], [], {a}, {}, {}, [], {}, [], 1, false)
  }

  ghost function S4(a: Item, b: Item, c: Item): State
  {
    State([a, b], map[a := Rec(Waiting, 0, 0, multiset{}), b := Rec(Run, 0, 0, multiset{})],
          map[a := Links([], 0, {}), b := Links([], 0, {})],
          [], [b], {a}, {}, {}, [b], {b}, [], 1, false)
  }

  ghost function S5(a: Item, b: Item, c: Item): State
  {
    State([a, b], map[a := Rec(Waiting, 1, 0, multiset{}), b := Rec(Run, 0, 0, multiset{a})],
          map[a := Links([], 1, {b}), b := Links([a], 0, {})],
          [], [b], {a}, {}, {}, [b], {b}, [], 1, false)
  }

  ghost function S6(a: Item, b: Item, c: Item): State
  {
    State([a, b, c],
          map[a := Rec(Waiting, 1, 0, multiset{}), b := Rec(Run, 0, 0, multiset{a}),
              c := Rec(Waiting, 0, 0, multiset{})],
          map[a := Links([], 1, {b}), b := Links([a], 0, {}), c := Links([], 0, {})],
          [], [b], {a, c}, {}, {}, [b], {b}, [], 1, false)
  }

  ghost function S7(a: Item, b: Item, c: Item): State
  {
    State([a, b, c],
          map[a := Rec(Waiting, 1, 0, multiset{}), b := Rec(Run, 0, 0, multiset{a}), c := Rec(Build, 0, 0, multiset{})],
          map[a := Links([], 1, {b}), b := Links([a], 0, {}), c := Links([], 0, {})],
          [c], [b], {a}, {}, {}, [b], {b}, [], 2, false)
  }

  lemma Event1(a: Item, b: Item, c: Item, more: bool, jobs: int)
    requires Distinct(a, b, c) && jobs > 0
    ensures Follows(Three(a, b, c, more), jobs, INITIAL, Register(a), S1(a, b, c))
  {
    var g, s := Three(a, b, c, more), INITIAL;
    assert Step(g, jobs, s, Register(a)).items == S1(a, b, c).items;
    assert Step(g, jobs, s, Register(a)).links == S1(a, b, c).links;
  }

  lemma FirstShape(a: Item, b: Item, c: Item, more: bool, jobs: int)
    requires Distinct(a, b, c) && jobs > 0
    ensures Shape(Three(a, b, c, more), S1(a, b, c))
    ensures Enabled(Three(a, b, c, more), jobs, S1(a, b, c), Register(b))
  {
  }

  lemma Event2(a: Item, b: Item, c: Item, more: bool, jobs: int)
    requires Distinct(a, b, c) && jobs > 0
    ensures Follows(Three(a, b, c, more), jobs, S1(a, b, c), Register(b), S2(a, b, c))
  {
    hide Three, Shape, Enabled;
    var s := S1(a, b, c);
    FirstShape(a, b, c, more, jobs);
    assert DoRegister(s, b).items == S2(a, b, c).items;
    assert DoRegister(s, b).links == S2(a, b, c).links;
  }

  lemma SecondShape(a: Item, b: Item, c: Item, more: bool, jobs: int)
    requires Distinct(a, b, c) && jobs > 0
    ensures Shape(Three(a, b, c, more), S2(a, b, c))
    ensures Enabled(Three(a, b, c, more), jobs, S2(a, b, c), Close(b))
  {
  }

  lemma Event3(a: Item, b: Item, c: Item, more: bool, jobs: int)
    requires Distinct(a, b, c) && jobs > 0
    ensures Follows(Three(a, b, c, more), jobs, S2(a, b, c), Close(b), S3(a, b, c))
  {
    hide Three, Shape, Enabled, Complete;
    var s := S2(a, b, c);
    SecondShape(a, b, c, more, jobs);
    assert AddBuild(s, b).items == S3(a, b, c).items;
  }

  lemma ThirdShape(a: Item, b: Item, c: Item, more: bool, jobs: int)
    requires Distinct(a, b, c) && jobs > 0
    ensures Shape(Three(a, b, c, more), S3(a, b, c))
    ensures Enabled(Three(a, b, c, more), jobs, S3(a, b, c), Fork(true))
  {
  }

  lemma Event4(a: Item, b: Item, c: Item, more: bool, jobs: int)
    requires Distinct(a, b, c) && jobs > 0
    ensures Follows(Three(a, b, c, more), jobs, S3(a, b, c), Fork(true), S4(a, b, c))
  {
    hide Three, Shape, Enabled, Complete;
    var s := S3(a, b, c);
    ThirdShape(a, b, c, more, jobs);
    assert Tracked(s).items == S4(a, b, c).items;
  }

  lemma FifthIs(a: Item, b: Item, c: Item, t: State)
    requires Distinct(a, b, c) && Linked(S4(a, b, c), t, a, b) && Awaited(S4(a, b, c), t, a, b)
    ensures t == S5(a, b, c)
  {
    assert [a] + [] == [a] && multiset{} + multiset{a} == multiset{a} && {} + {b} == {b};
    assert t.items == S5(a, b, c).items;
    assert t.links == S5(a, b, c).links;
  }

  lemma FourthShape(a: Item, b: Item, c: Item, more: bool, jobs: int)
    requires Distinct(a, b, c) && jobs > 0
    ensures Shape(Three(a, b, c, more), S4(a, b, c))
    ensures Enabled(Three(a, b, c, more), jobs, S4(a, b, c), Depn(a, b))
  {
  }

  lemma Event5(a: Item, b: Item, c: Item, more: bool, jobs: int)
    requires Distinct(a, b, c) && jobs > 0
    ensures Follows(Three(a, b, c, more), jobs, S4(a, b, c), Depn(a, b), S5(a, b, c))
  {
    hide Shape, Enabled, Await, Linked, Awaited;
    var s := S4(a, b, c);
    FourthShape(a, b, c, more, jobs);
    AwaitIs(s, a, b);
    FifthIs(a, b, c, Await(Link(s, a, b), a, b));
  }

  lemma FifthShape(a: Item, b: Item, c: Item, jobs: int)
    requires Distinct(a, b, c) && jobs > 0
    ensures Shape(Three(a, b, c, true), S5(a, b, c))
    ensures Enabled(Three(a, b, c, true), jobs, S5(a, b, c), Register(c))
  {
  }

  lemma Event6(a: Item, b: Item, c: Item, jobs: int)
    requires Distinct(a, b, c) && jobs > 0
    ensures Follows(Three(a, b, c, true), jobs, S5(a, b, c), Register(c), S6(a, b, c))
  {
    hide Three, Shape, Enabled;
    var s := S5(a, b, c);
    FifthShape(a, b, c, jobs);
    assert DoRegister(s, c).items == S6(a, b, c).items;
    assert DoRegister(s, c).links == S6(a, b, c).links;
  }

  lemma SixthShape(a: Item, b: Item, c: Item, jobs: int)
    requires Distinct(a, b, c) && jobs > 0
    ensures Shape(Three(a, b, c, true), S6(a, b, c))
    ensures Enabled(Three(a, b, c, true), jobs, S6(a, b, c), Close(c))
  {
  }

  lemma Event7(a: Item, b: Item, c: Item, jobs: int)
    requires Distinct(a, b, c) && jobs > 0
    ensures Follows(Three(a, b, c, true), jobs, S6(a, b, c), Close(c), S7(a, b, c))
  {
    hide Three, Shape, Enabled, Complete;
    var s := S6(a, b, c);
    SixthShape(a, b, c, jobs);
    assert AddBuild(s, c).items == S7(a, b, c).items;
  }

  lemma WakeCascade(g: Graph, e: State, x: Item, y: Item)
    requires Shape(g, e) && x in e.items && y in e.items && x != y && e.links[x].dbase == [y]
    requires e.items[y].status.Waiting? && e.items[y].dcount == 1 && e.items[x].xcode == 0
    ensures Complete(g, e, x) == Finish(AddBuild(Drop(Begin(e, x), x, y), y), x)
  {
    var n := Begin(e, x);
    assert y in e.links[x].dbase;
    assert CompleteFrom(g, n, x, 0) == CompleteFrom(g, Notify(g, n, x, y), x, 1);
    assert Notify(g, n, x, y) == AddBuild(Drop(n, x, y), y);
  }

  /** The item `x` exits with code 0; only `y`, which waits for nothing else, depends on it. */
  lemma Wakes(g: Graph, s: State, x: Item, y: Item)
    requires Shape(g, s) && x in s.items && y in s.items && x != y && s.links[x].dbase == [y]
    requires s.items[y].status.Waiting? && s.items[y].dcount == 1
    ensures var t := DoReap(g, s, x, 0);
            && t.build == s.build + [y] && t.run == Without(s.run, x) && t.open == s.open && SameKeys(s, t)
            && (forall z <- s.items :: z != x && z != y ==> t.items[z] == s.items[z])
  {
    hide Climbs, Drop, OnlyAt, Dropped;
    var e := Exited(s, x, 0);
    WokenBefore(s, e, x, y);
    WakeCascade(g, e, x, y);
    var d := Drop(Begin(e, x), x, y);
    DropIs(Begin(e, x), x, y);
    DropRest(Begin(e, x), d, x, y);
    var u := AddBuild(d, y);
    AddBuildIs(d, u, y);
    FinishIs(u, Finish(u, x), x);
    WakeRest(s, e, d, u, Finish(u, x), x, y);
  }

  lemma WokenBefore(s: State, e: State, x: Item, y: Item)
    requires x in s.items && e == Exited(s, x, 0) && y != x
    ensures OnlyAt(s, e, x) && e.items[x].xcode == 0 && (y in s.items ==> y in e.items && e.items[y] == s.items[y])
  {
  }

  lemma DropRest(n: State, d: State, x: Item, y: Item)
    requires Dropped(n, d, x, y)
    ensures d == n.(items := d.items) && SameKeys(n, d) && d.items[y].status == n.items[y].status
    ensures forall z <- n.items :: z != x && z != y ==> d.items[z] == n.items[z]
  {
  }

  lemma WakeRest(s: State, e: State, d: State, u: State, f: State, x: Item, y: Item)
    requires OnlyAt(s, e, x) && SameKeys(e, d) && OnlyAt(d, u, y) && OnlyAt(u, f, x)
    requires forall z <- e.items :: z != x && z != y ==> d.items[z] == e.items[z]
    ensures SameKeys(s, f) && forall z <- s.items :: z != x && z != y ==> f.items[z] == s.items[z]
  {
  }

  lemma Running(a: Item, b: Item, c: Item, more: bool, jobs: int)
    requires Distinct(a, b, c) && jobs > 0
    ensures Reached(Three(a, b, c, more), jobs, S5(a, b, c))
  {
    hide Follows, Three, S1, S2, S3, S4, S5, Distinct;
    var g := Three(a, b, c, more);
    assert Leads(g, jobs, INITIAL, [], INITIAL);
    Event1(a, b, c, more, jobs);
    Then(g, jobs, INITIAL, Register(a), S1(a, b, c));
    Event2(a, b, c, more, jobs);
    Then(g, jobs, S1(a, b, c), Register(b), S2(a, b, c));
    Event3(a, b, c, more, jobs);
    Then(g, jobs, S2(a, b, c), Close(b), S3(a, b, c));
    Event4(a, b, c, more, jobs);
    Then(g, jobs, S3(a, b, c), Fork(true), S4(a, b, c));
    Event5(a, b, c, more, jobs);
    Then(g, jobs, S4(a, b, c), Depn(a, b), S5(a, b, c));
  }

  /** `a` waits for `b` only, which has no other dependent. */
  ghost predicate WaitsFor(s: State, a: Item, b: Item)
  {
    && a in s.items && b in s.items && a != b && b in s.links && s.links[b].dbase == [a]
    && s.items[a].status.Waiting? && s.items[a].dcount == 1
  }

  lemma SeventhReap(a: Item, b: Item, c: Item)
    requires Distinct(a, b, c)
    ensures var g, s := Three(a, b, c, true), S7(a, b, c);
            && WaitsFor(s, a, b) && Shape(g, s) && Enabled(g, 1, s, Reap(b, 0))
            && c in s.items && c != a && c != b && !s.items[c].status.Done?
  {
  }

  lemma Reaps(g: Graph, jobs: int, s: State, x: Item)
    requires Shape(g, s) && Enabled(g, jobs, s, Reap(x, 0))
    ensures x in s.items && Follows(g, jobs, s, Reap(x, 0), DoReap(g, s, x, 0))
  {
    hide Climbs, Complete;
  }

  lemma NoCycle(a: Item, b: Item, c: Item, more: bool)
    requires Distinct(a, b, c)
    ensures var g := Three(a, b, c, more);
            Acyclic(g) && a in g.deps && b in g.deps && c in g.deps && g.deps[a] == if more then [b, c] else [b]
  {
  }

  lemma Registered(a: Item, b: Item, c: Item, jobs: int)
    requires Distinct(a, b, c) && jobs > 0
    ensures Reached(Three(a, b, c, true), jobs, S7(a, b, c))
  {
    hide Follows, Three, S5, S6, S7, Distinct;
    var g := Three(a, b, c, true);
    Running(a, b, c, true, jobs);
    Event6(a, b, c, jobs);
    Then(g, jobs, S5(a, b, c), Register(c), S6(a, b, c));
    Event7(a, b, c, jobs);
    Then(g, jobs, S6(a, b, c), Close(c), S7(a, b, c));
  }

  /** The build of `b` is reaped while the list of `a` is read: `a` is queued although `c` was not built. */
  lemma QueuedTooEarly(a: Item, b: Item, c: Item) returns (g: Graph, t: State)
    requires Distinct(a, b, c)
    ensures Acyclic(g) && Reached(g, 1, t)
    ensures a in t.build && a in g.deps && c in g.deps[a] && c in t.items && !t.items[c].status.Done?
  {
    hide Follows, Reached, Three, S7, Climbs, Acyclic;
    g := Three(a, b, c, true);
    Registered(a, b, c, 1);
    var s := S7(a, b, c);
    NoCycle(a, b, c, true);
    SeventhReap(a, b, c);
    Reaps(g, 1, s, b);
    Wakes(g, s, b, a);
    t := DoReap(g, s, b, 0);
    Then(g, 1, s, Reap(b, 0), t);
  }

  lemma LastClose(a: Item, b: Item, c: Item)
    requires Distinct(a, b, c)
    ensures var g, s := Three(a, b, c, false), S5(a, b, c);
            Follows(g, 1, s, Close(a), s.(total := 2, open := {}))
  {
  }

  lemma LastReap(a: Item, b: Item, c: Item)
    requires Distinct(a, b, c)
    ensures var g, s := Three(a, b, c, false), S5(a, b, c).(total := 2, open := {});
            && Shape(g, s) && WaitsFor(s, a, b) && s.build == [] && s.run == [b]
            && Enabled(g, 1, s, Reap(b, 0))
  {
  }

  /** The last running build is reaped without waiting: the drain finds nothing to wait for while `a` is queued. */
  lemma DrainStopsShort(a: Item, b: Item, c: Item) returns (g: Graph, t: State)
    requires Distinct(a, b, c)
    ensures Acyclic(g) && Reached(g, 1, t) && t.open == {} && t.run == [] && t.build == [a]
  {
    hide Follows, Reached, Three, S5, Climbs, Acyclic;
    g := Three(a, b, c, false);
    Running(a, b, c, false, 1);
    var s := S5(a, b, c).(total := 2, open := {});
    NoCycle(a, b, c, false);
    LastClose(a, b, c);
    LastReap(a, b, c);
    Then(g, 1, S5(a, b, c), Close(a), s);
    Reaps(g, 1, s, b);
    Wakes(g, s, b, a);
    t := DoReap(g, s, b, 0);
    Then(g, 1, s, Reap(b, 0), t);
  }

  // ---------------------------------------------------------------- an abort

  ghost function S8(a: Item, b: Item, c: Item): State
  {
    State([a, b, c],
          map[a := Rec(Waiting, 1, 0, multiset{}), b := Rec(Run, 0, 0, multiset{a}), c := Rec(Run, 0, 0, multiset{})],
          map[a := Links([], 1, {b}), b := Links([a], 0, {}), c := Links([], 0, {})],
          [], [c, b], {a}, {}, {}, [b, c], {b, c}, [], 2, false)
  }

  lemma SeventhShape(a: Item, b: Item, c: Item)
    requires Distinct(a, b, c)
    ensures Shape(Three(a, b, c, true), S7(a, b, c))
    ensures Enabled(Three(a, b, c, true), 2, S7(a, b, c), Fork(true))
  {
  }

  lemma Event8(a: Item, b: Item, c: Item)
    requires Distinct(a, b, c)
    ensures Follows(Three(a, b, c, true), 2, S7(a, b, c), Fork(true), S8(a, b, c))
  {
    hide Three, Shape, Enabled, Complete;
    var s := S7(a, b, c);
    SeventhShape(a, b, c);
    assert [b] + [c] == [b, c] && [c] + [b] == [c, b] && {b} + {c} == {b, c};
    assert Tracked(s).items == S8(a, b, c).items;
  }

  /** The list of `a` is open, `b` is read and `c` comes next. */
  ghost predicate Halfway(g: Graph, s: State, a: Item, b: Item, c: Item)
  {
    && a in s.open && c !in s.open && a in s.items && b in s.items && c in s.items && !s.aborted
    && a in g.deps && g.deps[a] == [b, c] && a in s.links && s.links[a].read == 1
  }

  lemma EighthShape(a: Item, b: Item, c: Item)
    requires Distinct(a, b, c)
    ensures var g, s := Three(a, b, c, true), S8(a, b, c);
            && Shape(g, s) && WaitsFor(s, a, b) && Halfway(g, s, a, b, c) && s.build == [] && s.run == [c, b]
  {
  }

  lemma ReachedQuiet(g: Graph, jobs: int, s: State)
    requires Acyclic(g) && Reached(g, jobs, s)
    ensures Quiet(g, s) && Shape(g, s)
  {
    hide Leads, Climbs;
    var evs :| Leads(g, jobs, INITIAL, evs, s);
    InitialQuiet(g);
    RunKeeps(g, jobs, INITIAL, evs, s);
  }

  /** One build is collected while the list of `a` is open. */
  lemma ReapHalfway(g: Graph, jobs: int, s: State, x: Item, a: Item, b: Item, c: Item) returns (t: State)
    requires Acyclic(g) && Reached(g, jobs, s) && Halfway(g, s, a, b, c) && x in s.run && x in s.items && Shape(g, s)
    ensures t == DoReap(g, s, x, 0) && Reached(g, jobs, t) && Quiet(g, t) && Shape(g, t) && Halfway(g, t, a, b, c)
    ensures Collects(s, t) && Ends(t, x, 0)
  {
    hide Reached, Climbs, Quiet, Complete, Lasting;
    ReachedQuiet(g, jobs, s);
    Reaps(g, jobs, s, x);
    t := DoReap(g, s, x, 0);
    Then(g, jobs, s, Reap(x, 0), t);
    ReachedQuiet(g, jobs, t);
    ReapCollects(g, jobs, s, Reap(x, 0), t);
  }

  lemma QueuedOpen(g: Graph, s: State, a: Item)
    requires Quiet(g, s) && a in s.build && a in s.open
    ensures a in s.early
  {
    hide Core, Verdict;
    InBuild(g, s, a);
    NowEarly(g, s, a);
  }

  /** The list of `a` ends when `a` is queued and `b` and `c` are built. */
  lemma EndOfList(g: Graph, jobs: int, s: State, a: Item, b: Item, c: Item) returns (t: State)
    requires Acyclic(g) && Reached(g, jobs, s) && Halfway(g, s, a, b, c) && a in s.early
    requires Ends(s, b, 0) && Ends(s, c, 0) && a != b && a != c
    ensures Reached(g, jobs, t) && t.aborted
  {
    hide Reached, Climbs, Quiet, Complete;
    ReachedQuiet(g, jobs, s);
    var u := DoDepn(s, a, c);
    assert Follows(g, jobs, s, Depn(a, c), u);
    Then(g, jobs, s, Depn(a, c), u);
    ReachedQuiet(g, jobs, u);
    t := DoClose(g, u, a);
    assert Follows(g, jobs, u, Close(a), t);
    Then(g, jobs, u, Close(a), t);
    AbortsExactly(g, jobs, u, Close(a), t);
  }

  /** With two jobs, the builds of `b` and `c` are collected when the list of `c` ends.  So `a` is queued while its own
      list is read, and when that ends there is nothing left to wait for: the program aborts. */
  lemma EndsInAbort(a: Item, b: Item, c: Item) returns (g: Graph, t: State)
    requires Distinct(a, b, c)
    ensures Acyclic(g) && Reached(g, 2, t) && t.aborted
  {
    hide Follows, Reached, Three, S7, S8, Climbs, Acyclic, Quiet;
    g := Three(a, b, c, true);
    NoCycle(a, b, c, true);
    Registered(a, b, c, 2);
    Event8(a, b, c);
    var s := S8(a, b, c);
    Then(g, 2, S7(a, b, c), Fork(true), s);
    EighthShape(a, b, c);
    var u := ReapHalfway(g, 2, s, b, a, b, c);
    Wakes(g, s, b, a);
    QueuedOpen(g, u, a);
    var v := ReapHalfway(g, 2, u, c, a, b, c);
    t := EndOfList(g, 2, v, a, b, c);
  }
}
