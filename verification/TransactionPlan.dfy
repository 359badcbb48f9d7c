/** Which of the collected paths are removed, by which package, and in what order. */
module TransactionPlan {
  import opened Common
  import opened TransactionFiles

  datatype Check = Match | Missing | Mismatch | Failed(code: int)

  datatype DirState = Absent | Unreadable | Holds(entries: nat)

  /** The configuration, and what the disk answers: the hash check of a file, the target of a symlink and the number of
      entries of a directory. */
  datatype Env = Env(preserved: set<Path>, force: bool, hash: Path -> Check, target: Path -> Option<string>,
                     dir: Path -> DirState)

  const BASE_SYMLINKS: set<Path> :=
    {"/bin", "/sbin", "/usr/sbin", "/lib", "/lib32", "/lib64", "/usr/lib32", "/usr/lib64", "/var/run"}

  predicate Beneath(dir: Path, p: Path)
  {
    |dir| < |p| && p[..|dir|] == dir && p[|dir|] == '/'
  }

  lemma BeneathExactly(dir: Path, p: Path)
    ensures Beneath(dir, p) <==> exists rest :: p == dir + "/" + rest
  {
    if Beneath(dir, p) {
      assert p == dir + "/" + p[|dir| + 1..];
    }
  }

  // ---------------------------------------------------------------- what happens to one path

  datatype Fate = Keep | Gone | Drop

  /** A directory that gives way to a file or a symlink. */
  predicate Replaced(env: Env, p: Path, it: Item)
  {
    && p !in env.preserved && it.was.Some? && it.will.Some?
    && it.was.value.kind == Dir && it.will.value.kind != Dir && it.will.value.kind != ConfFile
  }

  /** The path is obsolete, or changes its type. */
  predicate Obsolete(env: Env, p: Path, it: Item)
  {
    && p !in env.preserved && it.was.Some?
    && if it.will.None? then !it.was.value.preserve
       else it.will.value.kind != ConfFile && it.will.value.kind != it.was.value.kind
  }

  function FateOf(env: Env, p: Path, it: Item): (r: Fate)
    ensures r != Keep ==> Obsolete(env, p, it)
    ensures r == Drop ==> it.was.Some?
  {
    if !Obsolete(env, p, it) || p in BASE_SYMLINKS then Keep
    else if !it.was.value.hashed then LinkFate(env, p, it)
    else
      match env.hash(p)
      case Missing => Gone
      case Mismatch => if it.was.value.removepkg && it.will.None? && env.force then LinkFate(env, p, it) else Keep
      case _ => LinkFate(env, p, it)
  }

  /** Removing a package without force keeps a symlink whose target changed. */
  function LinkFate(env: Env, p: Path, it: Item): Fate
    requires it.was.Some?
  {
    var was := it.was.value;
    if was.removepkg && was.kind == Link && it.will.None? && !env.force && env.target(p) != Some(was.target) then Keep
    else Drop
  }

  /** The package that removes the path: the first of the two in the transaction. */
  function Owner(it: Item): Rec
    requires it.was.Some?
  {
    if it.will.Some? && it.was.value.idx > it.will.value.idx then it.will.value else it.was.value
  }

  // ---------------------------------------------------------------- the order of paths

  ghost predicate Listing(items: map<Path, Item>, order: seq<Path>)
  {
    && (forall i, j | 0 <= i < j < |order| :: order[i] != order[j])
    && (forall p :: p in order <==> p in items)
    && (forall p <- items :: items[p].was.Some? || items[p].will.Some?)
  }

  ghost predicate LongestFirst(order: seq<Path>)
  {
    forall i, j | 0 <= i < j < |order| :: |order[i]| >= |order[j]|
  }

  ghost predicate SameMembers(a: seq<Path>, b: seq<Path>)
  {
    (forall i, j | 0 <= i < j < |b| :: b[i] != b[j]) && forall p :: p in a <==> p in b
  }

  /** Sorts by length; all that is used of it is its contract, which leaves paths of equal length in any order. */
  method SortItems(list: seq<Path>) returns (order: seq<Path>)
    requires forall i, j | 0 <= i < j < |list| :: list[i] != list[j]
    ensures LongestFirst(order) && SameMembers(list, order)
  {
    if list == [] {
      order := [];
    } else {
      var init, p := list[..|list| - 1], list[|list| - 1];
      assert list == init + [p];
      var sorted := SortItems(init);
      var i := 0;
      while i < |sorted| && |sorted[i]| >= |p|
        invariant i <= |sorted| && forall k | 0 <= k < i :: |sorted[k]| >= |p|
      {
        i := i + 1;
      }
      order := sorted[..i] + [p] + sorted[i..];
      InsertSorted(init, p, sorted, i);
    }
  }

  lemma InsertSorted(init: seq<Path>, p: Path, sorted: seq<Path>, i: nat)
    requires LongestFirst(sorted) && SameMembers(init, sorted) && p !in init && i <= |sorted|
    requires forall k | 0 <= k < i :: |sorted[k]| >= |p|
    requires i < |sorted| ==> |sorted[i]| < |p|
    ensures var order := sorted[..i] + [p] + sorted[i..]; LongestFirst(order) && SameMembers(init + [p], order)
  {
    hide SameMembers;
    InsertMembers(init, p, sorted, i);
  }

  lemma InsertMembers(init: seq<Path>, p: Path, sorted: seq<Path>, i: nat)
    requires SameMembers(init, sorted) && p !in init && i <= |sorted|
    ensures SameMembers(init + [p], sorted[..i] + [p] + sorted[i..])
  {
    var a, b := sorted[..i], sorted[i..];
    assert sorted == a + b;
    assert forall q :: q in a + [p] + b <==> q in a || q == p || q in b;
    assert forall q :: q in sorted <==> q in a || q in b;
    forall x, y | 0 <= x < y < |a + [p] + b|
      ensures (a + [p] + b)[x] != (a + [p] + b)[y]
    {
      assert p !in sorted;
      var u, v := if x < i then x else x - 1, if y < i then y else y - 1;
      if x != i && y != i {
        assert sorted[u] != sorted[v];
      } else {
        assert y != i ==> sorted[v] in sorted;
        assert x != i ==> sorted[u] in sorted;
      }
    }
  }

  // ---------------------------------------------------------------- planning

  ghost function Under(items: map<Path, Item>, dir: Path): set<Path>
  {
    set p | p in items && Beneath(dir, p)
  }

  /** Everything tracked beneath the directory goes away, and nothing else is in it, by number. */
  ghost predicate Clearable(env: Env, items: map<Path, Item>, dir: Path)
  {
    match env.dir(dir)
    case Absent => true
    case Unreadable => false
    case Holds(n) => (forall p <- Under(items, dir) :: FateOf(env, p, items[p]) != Keep) && n <= |Under(items, dir)|
  }

  /** The paths that `name` removes, in the order of `order`. */
  ghost function Removals(env: Env, items: map<Path, Item>, order: seq<Path>, name: string): (r: seq<Path>)
    requires forall p <- order :: p in items
    ensures forall p :: p in r <==> p in order && FateOf(env, p, items[p]) == Drop && Owner(items[p]).name == name
  {
    if order == [] then []
    else
      var init, p := order[..|order| - 1], order[|order| - 1];
      assert order == init + [p];
      var r := Removals(env, items, init, name);
      if FateOf(env, p, items[p]) == Drop && Owner(items[p]).name == name then r + [p] else r
  }

  lemma {:induction false} RemovalsSorted(env: Env, items: map<Path, Item>, order: seq<Path>, name: string)
    requires LongestFirst(order) && forall p <- order :: p in items
    ensures LongestFirst(Removals(env, items, order, name))
  {
    hide FateOf, Owner;
    if order != [] {
      var init := order[..|order| - 1];
      assert order == init + [order[|order| - 1]];
      RemovalsSorted(env, items, init, name);
      var r := Removals(env, items, init, name);
      forall k | 0 <= k < |r|
        ensures |r[k]| >= |order[|order| - 1]|
      {
        assert r[k] in init;
      }
    }
  }

  type Plan = map<string, seq<Path>>

  function ListOf(plan: Plan, name: string): seq<Path>
  {
    if name in plan then plan[name] else []
  }

  ghost predicate Plans(env: Env, items: map<Path, Item>, order: seq<Path>, plan: Plan)
    requires forall p <- order :: p in items
  {
    forall name :: ListOf(plan, name) == Removals(env, items, order, name)
  }

  ghost predicate Deleted(env: Env, items: map<Path, Item>, order: seq<Path>, i: nat, deleted: set<Path>)
    requires i <= |order| && forall p <- order :: p in items
  {
    forall p :: p in deleted <==> p in order[..i] && FateOf(env, p, items[p]) != Keep
  }

  method CanDeleteDirectory(env: Env, items: map<Path, Item>, dir: Path, order: seq<Path>, i: nat, deleted: set<Path>)
    returns (ok: bool)
    requires Listing(items, order) && LongestFirst(order) && i < |order| && order[i] == dir
    requires Deleted(env, items, order, i, deleted)
    ensures ok <==> Clearable(env, items, dir)
  {
    hide FateOf, Listing, LongestFirst, Deleted, Under, Beneath;
    var state := env.dir(dir);
    if !state.Holds? {
      return state == Absent;
    }
    var rmcount := 0;
    for k := 0 to i
      invariant rmcount == |set p | p in order[..k] && Beneath(dir, p)|
      invariant forall p | p in order[..k] && Beneath(dir, p) :: p in deleted
    {
      var p := order[k];
      CountOne(items, order, k, dir);
      assert order[..k + 1] == order[..k] + [p];
      if Beneath(dir, p) {
        if p !in deleted {
          NotCleared(env, items, order, i, deleted, dir, k);
          return false;
        }
        rmcount := rmcount + 1;
      }
    }
    AllBefore(env, items, order, i, deleted, dir);
    ok := state.entries <= rmcount;
  }

  lemma CountOne(items: map<Path, Item>, order: seq<Path>, k: nat, dir: Path)
    requires k < |order| && Listing(items, order)
    ensures |set p | p in order[..k + 1] && Beneath(dir, p)|
         == |set p | p in order[..k] && Beneath(dir, p)| + if Beneath(dir, order[k]) then 1 else 0
  {
    hide Beneath;
    assert order[..k + 1] == order[..k] + [order[k]];
    var s := set p | p in order[..k] && Beneath(dir, p);
    assert order[k] !in s;
    assert (set p | p in order[..k + 1] && Beneath(dir, p)) == if Beneath(dir, order[k]) then s + {order[k]} else s;
  }

  lemma NotCleared(env: Env, items: map<Path, Item>, order: seq<Path>, i: nat, deleted: set<Path>, dir: Path, k: nat)
    requires Listing(items, order) && k < i < |order| && Deleted(env, items, order, i, deleted)
    requires Beneath(dir, order[k]) && order[k] !in deleted
    ensures order[k] in Under(items, dir) && FateOf(env, order[k], items[order[k]]) == Keep
  {
    hide FateOf, Beneath;
    assert order[k] in order[..i];
  }

  /** Everything beneath a directory is longer, so it comes before. */
  lemma AllBefore(env: Env, items: map<Path, Item>, order: seq<Path>, i: nat, deleted: set<Path>, dir: Path)
    requires Listing(items, order) && LongestFirst(order) && i < |order| && order[i] == dir
    requires Deleted(env, items, order, i, deleted)
    ensures (set p | p in order[..i] && Beneath(dir, p)) == Under(items, dir)
    ensures (forall p | p in order[..i] && Beneath(dir, p) :: p in deleted) ==>
              forall p <- Under(items, dir) :: FateOf(env, p, items[p]) != Keep
  {
    hide FateOf;
    forall p | p in Under(items, dir)
      ensures p in order[..i]
    {
      var k :| 0 <= k < |order| && order[k] == p;
    }
  }

  /** The code after the path was looked at: a hash check that fails for another reason than the contents leaves its
      code behind, until the next check. */
  function NextCode(env: Env, p: Path, it: Item, rv: int): int
  {
    if Obsolete(env, p, it) && p !in BASE_SYMLINKS && it.was.value.hashed then
      if env.hash(p).Failed? then env.hash(p).code else 0
    else rv
  }

  /** The code of the last check. */
  ghost function LastCode(env: Env, items: map<Path, Item>, order: seq<Path>): int
    requires forall p <- order :: p in items
  {
    if order == [] then 0
    else
      var init, p := order[..|order| - 1], order[|order| - 1];
      assert order == init + [p];
      NextCode(env, p, items[p], LastCode(env, items, init))
  }

  /** The hash of the path is checked: it is given up or changes its type, nobody preserves it, and it has a hash. */
  ghost predicate Examined(env: Env, p: Path, it: Item)
  {
    && p !in env.preserved && p !in BASE_SYMLINKS && it.was.Some? && it.was.value.hashed
    && match it.will
       case None => !it.was.value.preserve
       case Some(will) => will.kind != ConfFile && will.kind != it.was.value.kind
  }

  /** The last path that is checked leaves its code; without any the code is 0. */
  lemma {:induction false} LastExamined(env: Env, items: map<Path, Item>, order: seq<Path>, k: nat)
    requires forall p <- order :: p in items
    requires k <= |order| && forall j | k <= j < |order| :: !Examined(env, order[j], items[order[j]])
    requires k > 0 ==> Examined(env, order[k - 1], items[order[k - 1]])
    ensures LastCode(env, items, order) ==
            if k > 0 && env.hash(order[k - 1]).Failed? then env.hash(order[k - 1]).code else 0
  {
    if order != [] {
      var n := |order| - 1;
      assert order == order[..n] + [order[n]];
      if k <= n {
        LastExamined(env, items, order[..n], k);
      }
    }
  }

  /** Plans the removals.  It fails exactly when a directory that has to make room for a file cannot be emptied. */
  method CollectObsoletes(env: Env, items: map<Path, Item>, order: seq<Path>) returns (ok: bool, rv: int, plan: Plan)
    requires Listing(items, order) && LongestFirst(order)
    ensures ok <==> forall p <- items :: Replaced(env, p, items[p]) ==> Clearable(env, items, p)
    ensures ok ==> Plans(env, items, order, plan)
    ensures ok ==> rv == LastCode(env, items, order)
  {
    hide FateOf, Obsolete, Replaced, Clearable, Plans, Deleted, LongestFirst, NextCode;
    plan, rv := map[], 0;
    var deleted: set<Path> := {};
    StartPlan(env, items, order);
    for i := 0 to |order|
      invariant Deleted(env, items, order, i, deleted)
      invariant Plans(env, items, order[..i], plan)
      invariant forall p <- order[..i] :: Replaced(env, p, items[p]) ==> Clearable(env, items, p)
      invariant rv == LastCode(env, items, order[..i])
    {
      var p := order[i];
      assert order[..i + 1] == order[..i] + [p];
      if Replaced(env, p, items[p]) {
        var can := CanDeleteDirectory(env, items, p, order, i, deleted);
        if !can {
          return false, rv, plan;
        }
      }
      assert order[..i + 1][..i] == order[..i];
      rv := NextCode(env, p, items[p], rv);
      NextPlan(env, items, order, i, deleted, plan);
      if FateOf(env, p, items[p]) == Drop {
        var name := Owner(items[p]).name;
        plan := plan[name := ListOf(plan, name) + [p]];
      }
      if FateOf(env, p, items[p]) != Keep {
        deleted := deleted + {p};
      }
    }
    assert order[..|order|] == order;
    ok := true;
  }

  lemma StartPlan(env: Env, items: map<Path, Item>, order: seq<Path>)
    requires forall p <- order :: p in items
    ensures Deleted(env, items, order, 0, {}) && Plans(env, items, order[..0], map[])
  {
  }

  lemma NextPlan(env: Env, items: map<Path, Item>, order: seq<Path>, i: nat, deleted: set<Path>, plan: Plan)
    requires i < |order| && forall p <- order :: p in items
    requires Deleted(env, items, order, i, deleted) && Plans(env, items, order[..i], plan)
    ensures var p := order[i];
            var fate := FateOf(env, p, items[p]);
            && Deleted(env, items, order, i + 1, if fate != Keep then deleted + {p} else deleted)
            && (fate != Drop ==> Plans(env, items, order[..i + 1], plan))
            && (fate == Drop ==>
                  var name := Owner(items[p]).name;
                  Plans(env, items, order[..i + 1], plan[name := ListOf(plan, name) + [p]]))
  {
    hide FateOf, Owner, Plans, Removals;
    assert order[..i + 1] == order[..i] + [order[i]];
    PlanMore(env, items, order, i, plan);
  }

  lemma PlanMore(env: Env, items: map<Path, Item>, order: seq<Path>, i: nat, plan: Plan)
    requires i < |order| && (forall p <- order :: p in items) && Plans(env, items, order[..i], plan)
    ensures var p := order[i];
            var fate := FateOf(env, p, items[p]);
            && (fate != Drop ==> Plans(env, items, order[..i + 1], plan))
            && (fate == Drop ==>
                  var name := Owner(items[p]).name;
                  Plans(env, items, order[..i + 1], plan[name := ListOf(plan, name) + [p]]))
  {
    OneRemoval(env, items, order, i);
    hide FateOf, Owner, Removals;
    var p := order[i];
    if FateOf(env, p, items[p]) == Drop {
      var name := Owner(items[p]).name;
      var plan1 := plan[name := ListOf(plan, name) + [p]];
      forall n
        ensures ListOf(plan1, n) == Removals(env, items, order[..i + 1], n)
      {
        assert ListOf(plan1, n) == if n == name then ListOf(plan, n) + [p] else ListOf(plan, n);
        assert ListOf(plan, n) == Removals(env, items, order[..i], n);
      }
    }
  }

  lemma OneRemoval(env: Env, items: map<Path, Item>, order: seq<Path>, i: nat)
    requires i < |order| && forall p <- order :: p in items
    ensures var p := order[i];
            forall name :: Removals(env, items, order[..i + 1], name) == Removals(env, items, order[..i], name)
              + if FateOf(env, p, items[p]) == Drop && Owner(items[p]).name == name then [p] else []
  {
    hide FateOf, Owner;
    assert order[..i + 1][..i] == order[..i];
  }
}
