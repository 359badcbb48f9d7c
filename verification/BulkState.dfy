/** The bulk-build scheduler of flappy-fbulk, as states and events.

    Packages are registered one after the other; while the dependency list of a package is being read it is
    `open`.  Completions of builds are delivered at any moment in between, so every theorem here is about
    every interleaving of the events `Register`, `Depn`, `Close`, `Fork` and `Reap`. */
module BulkState {

  type Item = string

  datatype Status = Waiting | DepFail | Build | Run | Done

  /** The fields that completions update.  `left` holds the entries of the item's reverse-dependency list that
      are still to be delivered; the other fields are those of the program. */
  datatype Rec = Rec(status: Status, dcount: int, xcode: int, left: multiset<Item>)

  /** The fields that reading a dependency list updates: the reverse-dependency list, the number of lines of the
      item's own list that were read, and the dependencies that they named. */
  datatype Links = Links(dbase: seq<Item>, read: nat, from: set<Item>)

  /** The dependency lists that are read, with a ranking that witnesses that they form no cycle. */
  datatype Graph = Graph(deps: map<Item, seq<Item>>, rank: map<Item, nat>, top: nat)

  ghost predicate Acyclic(g: Graph)
  {
    && (forall p <- g.deps :: p in g.rank && g.rank[p] <= g.top)
    && (forall p, d | p in g.deps && d in g.deps[p] :: d in g.deps && d in g.rank && g.rank[d] < g.rank[p])
  }

  /** `active` holds the items whose completion is being processed, `early` the items that were queued while
      open, `started` (as a set `forked`) and `finished` the items in the order in which a fork was attempted and in
      which they became Done. */
  datatype State = State(
    order: seq<Item>,
    items: map<Item, Rec>,
    links: map<Item, Links>,
    build: seq<Item>,
    run: seq<Item>,
    open: set<Item>,
    active: set<Item>,
    early: set<Item>,
    started: seq<Item>,
    forked: set<Item>,
    finished: seq<Item>,
    total: nat,
    aborted: bool)

  const INITIAL := State([], map[], map[], [], [], {}, {}, {}, [], {}, [], 0, false)

  /** Reverse dependencies climb the ranking. */
  ghost predicate Climbs(g: Graph, links: map<Item, Links>)
  {
    && (forall i <- links :: i in g.deps && i in g.rank && g.rank[i] <= g.top)
    && (forall i, x | i in links && x in links[i].dbase :: x in links && g.rank[i] < g.rank[x])
  }

  ghost predicate Keyed(s: State)
  {
    forall x :: x in s.items <==> x in s.links
  }

  ghost predicate Shape(g: Graph, s: State)
  {
    Keyed(s) && Climbs(g, s.links)
  }

  ghost predicate SameFrame(s: State, r: State)
  {
    && r.order == s.order && r.links == s.links && r.run == s.run && r.open == s.open
    && r.started == s.started && r.forked == s.forked && r.total == s.total && r.aborted == s.aborted
    && s.early <= r.early <= s.early + s.open && |s.finished| <= |r.finished|
  }

  // ---------------------------------------------------------------- completion of a build

  ghost function Put(s: State, x: Item, r: Rec): State
  {
    s.(items := s.items[x := r])
  }

  ghost function AddBuild(s: State, x: Item): State
    requires x in s.items
  {
    Put(s, x, s.items[x].(status := Build)).(build := s.build + [x],
                                             early := if x in s.open then s.early + {x} else s.early)
  }

  ghost function Take(s: State, item: Item, x: Item): State
    requires item in s.items
  {
    Put(s, item, s.items[item].(left := s.items[item].left - multiset{x}))
  }

  ghost function Count(s: State, x: Item, n: int): State
    requires x in s.items
  {
    Put(s, x, s.items[x].(dcount := s.items[x].dcount + n))
  }

  /** One entry of `item` that names `x` is delivered. */
  ghost function Drop(s: State, item: Item, x: Item): State
    requires item in s.items && x in s.items
  {
    Count(Take(s, item, x), x, -1)
  }

  ghost function Fail(s: State, x: Item, code: int): State
    requires x in s.items
  {
    Put(s, x, s.items[x].(xcode := code, status := DepFail))
  }

  ghost function Begin(s: State, x: Item): State
  {
    s.(active := s.active + {x})
  }

  ghost function Finish(s: State, x: Item): State
    requires x in s.items
  {
    Put(s, x, s.items[x].(status := Done)).(finished := s.finished + [x], active := s.active - {x})
  }

  predicate Listening(r: Rec)
  {
    r.status.Waiting? || r.status.DepFail?
  }

  /** Delivers the completion of `item` to one dependent `x`. */
  ghost function Notify(g: Graph, s: State, item: Item, x: Item): (r: State)
    requires Shape(g, s) && item in s.items && x in s.items && g.rank[item] < g.rank[x]
    ensures Shape(g, r) && SameFrame(s, r)
    decreases g.top - g.rank[item], 0
  {
    var t := Drop(s, item, x);
    if !Listening(s.items[x]) then t
    else if s.items[item].xcode != 0 then Complete(g, Fail(t, x, s.items[item].xcode), x)
    else if t.items[x].dcount != 0 then t
    else if s.items[x].status.Waiting? then AddBuild(t, x)
    else Complete(g, t, x)
  }

  /** Delivers it to the dependents from the k-th on. */
  ghost function CompleteFrom(g: Graph, s: State, item: Item, k: nat): (r: State)
    requires Shape(g, s) && item in s.items && k <= |s.links[item].dbase|
    ensures Shape(g, r) && SameFrame(s, r)
    decreases g.top - g.rank[item], 1 + |s.links[item].dbase| - k
  {
    if k == |s.links[item].dbase| then s
    else CompleteFrom(g, Notify(g, s, item, s.links[item].dbase[k]), item, k + 1)
  }

  ghost function Complete(g: Graph, s: State, item: Item): (r: State)
    requires Shape(g, s) && item in s.items
    ensures Shape(g, r) && SameFrame(s, r)
    decreases g.top - g.rank[item], 2 + |s.links[item].dbase|
  {
    Finish(CompleteFrom(g, Begin(s, item), item, 0), item)
  }

  // ---------------------------------------------------------------- events

  datatype Event =
    | Register(p: Item)
    | Depn(p: Item, x: Item)
    | Close(p: Item)
    | Fork(ok: bool)
    | Reap(x: Item, code: int)

  ghost predicate Enabled(g: Graph, jobs: int, s: State, e: Event)
    requires Shape(g, s)
  {
    && !s.aborted
    && match e
       case Register(p) => p in g.deps && p !in s.items
       case Depn(p, x) => p in s.open && p in s.items && x in s.items && x !in s.open
                          && s.links[p].read < |g.deps[p]| && x == g.deps[p][s.links[p].read]
       case Close(p) => p in s.open && p in s.items && s.links[p].read == |g.deps[p]|
       case Fork(_) => s.build != [] && s.build[0] in s.items && |s.run| < jobs
       case Reap(x, _) => x in s.run && x in s.items
  }

  ghost function DoRegister(s: State, p: Item): State
  {
    s.(order := s.order + [p], items := s.items[p := Rec(Waiting, 0, 0, multiset{})],
       links := s.links[p := Links([], 0, {})], open := s.open + {p})
  }

  /** Records the edge on both sides. */
  ghost function Link(s: State, p: Item, x: Item): State
    requires p in s.links && x in s.links
  {
    var l := s.links[x := s.links[x].(dbase := [p] + s.links[x].dbase)];
    s.(links := l[p := l[p].(read := l[p].read + 1, from := l[p].from + {x})])
  }

  ghost function Add(s: State, x: Item, p: Item): State
    requires x in s.items
  {
    Put(s, x, s.items[x].(left := s.items[x].left + multiset{p}))
  }

  ghost function Await(s: State, p: Item, x: Item): State
    requires p in s.items && x in s.items
  {
    Count(Add(s, x, p), p, 1)
  }

  ghost function DoDepn(s: State, p: Item, x: Item): State
    requires Keyed(s) && p in s.items && x in s.items
  {
    var t := Link(s, p, x);
    if !s.items[x].status.Done? then Await(t, p, x)
    else if s.items[x].xcode == 0 then t
    else if Listening(s.items[p]) then Fail(t, p, s.items[x].xcode)
    else t.(aborted := true)
  }

  ghost function DoClose(g: Graph, s: State, p: Item): State
    requires Shape(g, s) && p in s.items
  {
    var t := s.(total := s.total + 1, open := s.open - {p});
    if s.items[p].dcount != 0 then t
    else if s.items[p].status.Waiting? then AddBuild(t, p)
    else if s.items[p].status.DepFail? then Complete(g, t, p)
    else t.(aborted := true)
  }

  ghost function Launch(s: State): State
    requires s.build != [] && s.build[0] in s.items
  {
    var x := s.build[0];
    Put(s, x, s.items[x].(status := Run)).(build := s.build[1..], started := s.started + [x], forked := s.forked + {x})
  }

  ghost function SetCode(s: State, x: Item, code: int): State
    requires x in s.items
  {
    Put(s, x, s.items[x].(xcode := code))
  }

  /** The child runs. */
  ghost function Tracked(s: State): State
    requires s.build != [] && s.build[0] in s.items
  {
    Launch(s).(run := [s.build[0]] + s.run)
  }

  /** The fork failed. */
  ghost function Crashed(s: State): State
    requires s.build != [] && s.build[0] in s.items
  {
    SetCode(Launch(s), s.build[0], -98)
  }

  ghost function DoFork(g: Graph, s: State, ok: bool): State
    requires Shape(g, s) && s.build != [] && s.build[0] in s.items
  {
    var x := s.build[0];
    if ok then Tracked(s) else Complete(g, Crashed(s), x)
  }

  ghost function Without<T>(s: seq<T>, x: T): seq<T>
  {
    if s == [] then [] else if s[0] == x then s[1..] else [s[0]] + Without(s[1..], x)
  }

  ghost function Exited(s: State, x: Item, code: int): State
    requires x in s.items
  {
    SetCode(s.(run := Without(s.run, x)), x, code)
  }

  ghost function DoReap(g: Graph, s: State, x: Item, code: int): State
    requires Shape(g, s) && x in s.items
  {
    Complete(g, Exited(s, x, code), x)
  }

  ghost function Step(g: Graph, jobs: int, s: State, e: Event): State
    requires Shape(g, s) && Enabled(g, jobs, s, e)
  {
    match e
    case Register(p) => DoRegister(s, p)
    case Depn(p, x) => DoDepn(s, p, x)
    case Close(p) => DoClose(g, s, p)
    case Fork(ok) => DoFork(g, s, ok)
    case Reap(x, code) => DoReap(g, s, x, code)
  }

  ghost predicate Follows(g: Graph, jobs: int, s: State, e: Event, t: State)
  {
    Shape(g, s) && Enabled(g, jobs, s, e) && t == Step(g, jobs, s, e)
  }

  /** `evs` leads from `s` to `t`. */
  ghost predicate Leads(g: Graph, jobs: int, s: State, evs: seq<Event>, t: State)
    decreases |evs|
  {
    if evs == [] then s == t
    else exists m :: Follows(g, jobs, s, evs[0], m) && Leads(g, jobs, m, evs[1..], t)
  }

  lemma {:induction false} LeadsConcat(g: Graph, jobs: int, s: State, a: seq<Event>, t: State, b: seq<Event>, u: State)
    requires Leads(g, jobs, s, a, t) && Leads(g, jobs, t, b, u)
    ensures Leads(g, jobs, s, a + b, u)
    decreases |a|
  {
    if a == [] {
      assert a + b == b;
    } else {
      var ab := a + b;
      assert ab[0] == a[0] && ab[1..] == a[1..] + b;
      var m :| Follows(g, jobs, s, a[0], m) && Leads(g, jobs, m, a[1..], t);
      LeadsConcat(g, jobs, m, a[1..], t, b, u);
      assert Follows(g, jobs, s, ab[0], m) && Leads(g, jobs, m, ab[1..], u);
    }
  }

  lemma LeadsOne(g: Graph, jobs: int, s: State, e: Event, t: State)
    requires Follows(g, jobs, s, e, t)
    ensures Leads(g, jobs, s, [e], t)
  {
    assert Leads(g, jobs, t, [e][1..], t);
  }
}
