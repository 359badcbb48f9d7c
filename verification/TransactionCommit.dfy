/** The loop that carries a planned transaction out, and why the plan is safe in that order. */
module TransactionCommit {
  import opened Common
  import opened TransactionFiles
  import opened TransactionPlan

  /** A scheduled removal, or a file taken from an archive, in the turn of package `at`. */
  datatype Action = Drops(path: Path, at: nat) | Puts(path: Path, at: nat)

  /** The package removes what is listed under its name: when it is removed, unless it is only removed to be updated, is
      gone already or was half removed; or before it is unpacked, unless it preserves files. */
  predicate RunsList(e: Entry)
  {
    if e.ttype == Remove then !e.quiet else Unpacks(e) && !e.preserve
  }

  predicate BringsFile(e: Entry, p: Path)
  {
    Unpacks(e) && exists l <- e.incoming :: l.path == p && l.kind != Dir
  }

  ghost function DropAll(paths: seq<Path>, at: nat): (r: seq<Action>)
    ensures |r| == |paths| && forall k | 0 <= k < |r| :: r[k] == Drops(paths[k], at)
  {
    seq(|paths|, k requires 0 <= k < |paths| => Drops(paths[k], at))
  }

  /** Directories in an archive are ignored. */
  ghost function PutAll(lines: seq<Line>, at: nat): seq<Action>
  {
    if lines == [] then []
    else
      var l := lines[|lines| - 1];
      PutAll(lines[..|lines| - 1], at) + if l.kind == Dir then [] else [Puts(l.path, at)]
  }

  lemma {:induction false} PutAllHolds(lines: seq<Line>, at: nat)
    ensures forall a <- PutAll(lines, at) ::
              a.Puts? && a.at == at && exists l <- lines :: l.kind != Dir && l.path == a.path
    ensures forall l <- lines | l.kind != Dir :: Puts(l.path, at) in PutAll(lines, at)
  {
    if lines != [] {
      assert lines == lines[..|lines| - 1] + [lines[|lines| - 1]];
      PutAllHolds(lines[..|lines| - 1], at);
    }
  }

  /** Every line of the archive is unpacked at its place, unless it is a directory. */
  lemma {:induction false} UnpackedInOrder(before: seq<Line>, l: Line, after: seq<Line>, at: nat)
    ensures PutAll(before + [l] + after, at)
         == PutAll(before, at) + (if l.kind == Dir then [] else [Puts(l.path, at)]) + PutAll(after, at)
  {
    var lines := before + [l] + after;
    if after == [] {
      assert lines[..|lines| - 1] == before;
    } else {
      assert lines[..|lines| - 1] == before + [l] + after[..|after| - 1];
      UnpackedInOrder(before, l, after[..|after| - 1], at);
    }
  }

  ghost function Turn(e: Entry, at: nat, plan: Plan): seq<Action>
  {
    (if RunsList(e) then DropAll(ListOf(plan, e.name), at) else []) + if Unpacks(e) then PutAll(e.incoming, at) else []
  }

  ghost function Log(t: Trans, n: nat, plan: Plan): seq<Action>
    requires n <= |t|
  {
    if n == 0 then [] else Log(t, n - 1, plan) + Turn(t[n - 1], n, plan)
  }

  method RemovePkgFiles(paths: seq<Path>, at: nat, log0: seq<Action>) returns (log: seq<Action>)
    ensures log == log0 + DropAll(paths, at)
  {
    log := log0;
    for k := 0 to |paths|
      invariant log == log0 + DropAll(paths, at)[..k]
    {
      log := log + [Drops(paths[k], at)];
    }
  }

  method UnpackArchive(lines: seq<Line>, at: nat, log0: seq<Action>) returns (log: seq<Action>)
    ensures log == log0 + PutAll(lines, at)
  {
    log := log0;
    for k := 0 to |lines|
      invariant log == log0 + PutAll(lines[..k], at)
    {
      assert lines[..k + 1][..k] == lines[..k];
      if lines[k].kind == Dir {
        continue;
      }
      log := log + [Puts(lines[k].path, at)];
    }
    assert lines[..|lines|] == lines;
  }

  method TakeTurn(e: Entry, at: nat, plan: Plan, log0: seq<Action>) returns (log: seq<Action>)
    ensures log == log0 + Turn(e, at, plan)
  {
    hide RunsList, Unpacks, DropAll, PutAll;
    log := log0;
    if RunsList(e) {
      log := RemovePkgFiles(ListOf(plan, e.name), at, log);
    }
    if Unpacks(e) {
      log := UnpackArchive(e.incoming, at, log);
    }
  }

  method Commit(t: Trans, plan: Plan) returns (log: seq<Action>)
    ensures log == Log(t, |t|, plan)
  {
    hide Turn;
    log := [];
    for i := 0 to |t|
      invariant log == Log(t, i, plan)
    {
      log := TakeTurn(t[i], i + 1, plan, log);
    }
  }

  // ---------------------------------------------------------------- the order of the log

  /** Turns follow one another; within one, removals come first and longer paths before shorter ones. */
  ghost predicate InTurns(log: seq<Action>)
  {
    forall x, y | 0 <= x < y < |log| :: Precedes(log[x], log[y])
  }

  predicate Precedes(a: Action, b: Action)
  {
    a.at <= b.at && (a.at == b.at && b.Drops? ==> a.Drops? && |a.path| >= |b.path|)
  }

  lemma TurnOrdered(e: Entry, at: nat, plan: Plan)
    requires LongestFirst(ListOf(plan, e.name))
    ensures InTurns(Turn(e, at, plan))
    ensures forall a <- Turn(e, at, plan) :: a.at == at
    ensures forall p :: Drops(p, at) in Turn(e, at, plan) <==> RunsList(e) && p in ListOf(plan, e.name)
    ensures forall p :: Puts(p, at) in Turn(e, at, plan) <==> BringsFile(e, p)
  {
    hide RunsList, Unpacks, DropAll, PutAll, InTurns;
    var drops := if RunsList(e) then DropAll(ListOf(plan, e.name), at) else [];
    var puts := if Unpacks(e) then PutAll(e.incoming, at) else [];
    assert Turn(e, at, plan) == drops + puts;
    PutAllHolds(e.incoming, at);
    DropsOrdered(drops, puts, at);
    if RunsList(e) {
      DropsListed(ListOf(plan, e.name), at);
    }
  }

  lemma DropsListed(paths: seq<Path>, at: nat)
    ensures forall p :: Drops(p, at) in DropAll(paths, at) <==> p in paths
  {
    forall p | p in paths
      ensures Drops(p, at) in DropAll(paths, at)
    {
      var k :| 0 <= k < |paths| && paths[k] == p;
      assert DropAll(paths, at)[k] == Drops(p, at);
    }
  }

  lemma DropsOrdered(drops: seq<Action>, puts: seq<Action>, at: nat)
    requires forall k | 0 <= k < |drops| :: drops[k].Drops? && drops[k].at == at
    requires forall x, y | 0 <= x < y < |drops| :: |drops[x].path| >= |drops[y].path|
    requires forall a <- puts :: a.Puts? && a.at == at
    ensures InTurns(drops + puts)
  {
    forall x, y | 0 <= x < y < |drops + puts|
      ensures Precedes((drops + puts)[x], (drops + puts)[y])
    {
      if y >= |drops| {
        assert puts[y - |drops|] in puts;
        assert x >= |drops| ==> puts[x - |drops|] in puts;
      }
    }
  }

  lemma {:induction false} LogOrdered(t: Trans, n: nat, plan: Plan)
    requires n <= |t| && forall name :: LongestFirst(ListOf(plan, name))
    ensures InTurns(Log(t, n, plan))
    ensures forall a <- Log(t, n, plan) :: 1 <= a.at <= n && a in Turn(t[a.at - 1], a.at, plan)
  {
    hide LongestFirst, Turn, Precedes;
    if n > 0 {
      LogOrdered(t, n - 1, plan);
      TurnOrdered(t[n - 1], n, plan);
      Joined(Log(t, n - 1, plan), Turn(t[n - 1], n, plan), n);
    }
  }

  lemma Joined(a: seq<Action>, b: seq<Action>, n: nat)
    requires InTurns(a) && InTurns(b) && (forall x <- a :: x.at < n) && forall y <- b :: y.at == n
    ensures InTurns(a + b)
  {
    forall x, y | 0 <= x < y < |a + b|
      ensures Precedes((a + b)[x], (a + b)[y])
    {
      if x < |a| <= y {
        assert a[x] in a && b[y - |a|] in b;
      } else if |a| <= x {
        assert Precedes(b[x - |a|], b[y - |a|]);
      }
    }
  }

  /** Everything a package does in its turn is in the log. */
  lemma {:induction false} Logged(t: Trans, n: nat, plan: Plan, i: nat, a: Action)
    requires i < n <= |t| && a in Turn(t[i], i + 1, plan)
    ensures a in Log(t, n, plan)
  {
    hide Turn;
    if i < n - 1 {
      Logged(t, n - 1, plan, i, a);
    }
  }

  // ---------------------------------------------------------------- no new file is lost

  /** The path is removed after it was unpacked. */
  ghost predicate Lost(log: seq<Action>, p: Path)
  {
    exists x, y :: 0 <= x < y < |log| && log[x].Puts? && log[x].path == p && log[y].Drops? && log[y].path == p
  }

  /** A package that brings the path is followed by another that has it on its list. */
  ghost predicate Overtaken(t: Trans, plan: Plan, p: Path)
  {
    exists i, j :: 0 <= i < j < |t| && BringsFile(t[i], p) && RunsList(t[j]) && p in ListOf(plan, t[j].name)
  }

  lemma LostOvertaken(t: Trans, plan: Plan, p: Path)
    requires Lost(Log(t, |t|, plan), p) && forall name :: LongestFirst(ListOf(plan, name))
    ensures Overtaken(t, plan, p)
  {
    hide LongestFirst, Turn, InTurns, RunsList, BringsFile;
    var log := Log(t, |t|, plan);
    LogOrdered(t, |t|, plan);
    var x, y :| 0 <= x < y < |log| && log[x].Puts? && log[x].path == p && log[y].Drops? && log[y].path == p;
    var i, j := log[x].at, log[y].at;
    assert log[x] in log && log[y] in log;
    TurnOrdered(t[i - 1], i, plan);
    TurnOrdered(t[j - 1], j, plan);
    assert log[x] == Puts(p, i) && log[y] == Drops(p, j);
    PutsFirst(log, x, y);
    assert BringsFile(t[i - 1], p) && RunsList(t[j - 1]);
  }

  lemma OvertakenLost(t: Trans, plan: Plan, p: Path)
    requires Overtaken(t, plan, p) && forall name :: LongestFirst(ListOf(plan, name))
    ensures Lost(Log(t, |t|, plan), p)
  {
    hide LongestFirst, Turn, InTurns, RunsList, BringsFile, Log;
    var log := Log(t, |t|, plan);
    LogOrdered(t, |t|, plan);
    var i, j :| 0 <= i < j < |t| && BringsFile(t[i], p) && RunsList(t[j]) && p in ListOf(plan, t[j].name);
    TurnOrdered(t[i], i + 1, plan);
    TurnOrdered(t[j], j + 1, plan);
    var x := Place(t, plan, i, Puts(p, i + 1));
    var y := Place(t, plan, j, Drops(p, j + 1));
    if y <= x {
      NotEarlier(log, y, x);
    }
  }

  lemma Place(t: Trans, plan: Plan, i: nat, a: Action) returns (x: nat)
    requires i < |t| && a in Turn(t[i], i + 1, plan)
    ensures x < |Log(t, |t|, plan)| && Log(t, |t|, plan)[x] == a
  {
    hide Turn, Log;
    Logged(t, |t|, plan, i, a);
    x :| 0 <= x < |Log(t, |t|, plan)| && Log(t, |t|, plan)[x] == a;
  }

  /** A file is lost exactly when its provider is overtaken. */
  lemma LostExactly(t: Trans, plan: Plan, p: Path)
    requires forall name :: LongestFirst(ListOf(plan, name))
    ensures Lost(Log(t, |t|, plan), p) <==> Overtaken(t, plan, p)
  {
    hide *;
    if Lost(Log(t, |t|, plan), p) {
      LostOvertaken(t, plan, p);
    }
    if Overtaken(t, plan, p) {
      OvertakenLost(t, plan, p);
    }
  }

  lemma PutsFirst(log: seq<Action>, x: nat, y: nat)
    requires InTurns(log) && x < y < |log| && log[x].Puts? && log[y].Drops?
    ensures log[x].at < log[y].at
  {
    assert Precedes(log[x], log[y]);
  }

  lemma NotEarlier(log: seq<Action>, x: nat, y: nat)
    requires InTurns(log) && x <= y < |log|
    ensures log[x].at <= log[y].at
    ensures x < y && log[x].at == log[y].at && log[x].Drops? && log[y].Drops? ==> |log[x].path| >= |log[y].path|
  {
    if x < y {
      assert Precedes(log[x], log[y]);
    }
  }

  ghost predicate UniqueNames(t: Trans)
  {
    forall i, j | 0 <= i < j < |t| :: t[i].name != t[j].name
  }

  /** The table and the plan are those of the transaction. */
  ghost predicate Planned(t: Trans, env: Env, items: map<Path, Item>, order: seq<Path>, plan: Plan)
  {
    && (forall p <- items :: items[p] == Item(Was(Outs(t), p), Will(Ins(t), p)))
    && Listing(items, order) && LongestFirst(order) && Plans(env, items, order, plan)
  }

  lemma ListsSorted(t: Trans, env: Env, items: map<Path, Item>, order: seq<Path>, plan: Plan)
    requires Planned(t, env, items, order, plan)
    ensures forall name :: LongestFirst(ListOf(plan, name))
  {
    hide LongestFirst, FateOf, Was, Will;
    forall name
      ensures LongestFirst(ListOf(plan, name))
    {
      RemovalsSorted(env, items, order, name);
    }
  }

  /** A list holds what its package owns and is to drop. */
  lemma IsOnList(t: Trans, env: Env, items: map<Path, Item>, order: seq<Path>, plan: Plan, name: string, p: Path)
    requires Planned(t, env, items, order, plan)
    ensures p in ListOf(plan, name) <==> p in items && FateOf(env, p, items[p]) == Drop && Owner(items[p]).name == name
  {
    hide LongestFirst, FateOf, Was, Will, Owner;
    assert p in ListOf(plan, name) <==> p in Removals(env, items, order, name);
  }

  /** What stands on a list is dropped, and its owner is the package the list is of. */
  lemma OnList(t: Trans, env: Env, items: map<Path, Item>, order: seq<Path>, plan: Plan, name: string, p: Path)
    requires Planned(t, env, items, order, plan) && p in ListOf(plan, name)
    ensures p in items && FateOf(env, p, items[p]) == Drop && Owner(items[p]).name == name
    ensures items[p] == Item(Was(Outs(t), p), Will(Ins(t), p))
  {
    hide LongestFirst, FateOf, Was, Will, Owner;
    IsOnList(t, env, items, order, plan, name, p);
  }

  /** In terms of the table: a file is lost exactly when it is to be dropped and a package that brings it is followed by
      a package of the name of its owner. */
  lemma PlannedLoss(t: Trans, env: Env, items: map<Path, Item>, order: seq<Path>, plan: Plan, p: Path)
    requires Planned(t, env, items, order, plan)
    ensures Lost(Log(t, |t|, plan), p) <==>
            p in items && FateOf(env, p, items[p]) == Drop
            && exists i, j :: 0 <= i < j < |t| && BringsFile(t[i], p) && RunsList(t[j])
                              && t[j].name == Owner(items[p]).name
  {
    hide Planned, FateOf, BringsFile, RunsList, Lost, Log, LongestFirst, Owner;
    ListsSorted(t, env, items, order, plan);
    LostExactly(t, plan, p);
    forall name
      ensures p in ListOf(plan, name) <==>
              p in items && FateOf(env, p, items[p]) == Drop && Owner(items[p]).name == name
    {
      IsOnList(t, env, items, order, plan, name, p);
    }
  }

  /** A kept record is numbered after a package of its name, which gives the path up with that type. */
  lemma WasOf(t: Trans, p: Path)
    requires Was(Outs(t), p).Some?
    ensures var w := Was(Outs(t), p).value;
            && 1 <= w.idx <= |t| && t[w.idx - 1].name == w.name && t[w.idx - 1].installed.Some?
            && !Skipped(t[w.idx - 1]) && w.preserve == t[w.idx - 1].preserve
            && exists l <- t[w.idx - 1].installed.value :: l.path == p && l.kind == w.kind
                                                          && (l.kind == Link ==> l.target == w.target)
  {
    hide Was, Shares, Numbered, Share;
    Remover(Outs(t), p);
    InOrder(t, |t|, true);
    var k :| 0 <= k < |Outs(t)| && Stands(Outs(t)[k], Was(Outs(t), p).value);
    var r := Outs(t)[k];
    LineOf(t[r.idx - 1], r.idx, r);
  }

  lemma LineOf(e: Entry, idx: nat, r: Rec)
    requires r in Share(e, idx, true)
    ensures e.installed.Some? && !Skipped(e) && r.name == e.name && r.preserve == e.preserve
    ensures exists l <- e.installed.value :: l.path == r.path && l.kind == r.kind && l.target == r.target
                                             && (Plain(l) && l.hashed ==> r.hashed)
  {
    var s := Share(e, idx, true);
    var m :| 0 <= m < |s| && s[m] == r;
    assert e.installed.value[m] in e.installed.value;
  }

  lemma WillOf(t: Trans, p: Path)
    requires Will(Ins(t), p).Some?
    ensures var w := Will(Ins(t), p).value; 1 <= w.idx <= |t| && t[w.idx - 1].name == w.name
  {
    hide Will, Shares, Numbered;
    FirstProvider(Ins(t), p);
    InOrder(t, |t|, false);
    var f :| 0 <= f < |Ins(t)| && Will(Ins(t), p) == Some(Ins(t)[f]);
    var r := Ins(t)[f];
    var s := Share(t[r.idx - 1], r.idx, false);
    var m :| 0 <= m < |s| && s[m] == r;
  }

  /** The record kept of the incoming packages is the earliest. */
  lemma WillFirst(t: Trans, p: Path, i: nat)
    requires i < |t| && BringsFile(t[i], p)
    ensures Will(Ins(t), p).Some? && Will(Ins(t), p).value.idx <= i + 1
  {
    var l :| l in t[i].incoming && l.path == p && l.kind != Dir;
    var k :| 0 <= k < |t[i].incoming| && t[i].incoming[k] == l;
    var r := Share(t[i], i + 1, false)[k];
    Shared(t, |t|, false, i, r);
    InOrder(t, |t|, false);
    FirstProvider(Ins(t), p);
    var m :| 0 <= m < |Ins(t)| && Ins(t)[m] == r;
    var f :| 0 <= f < |Ins(t)| && Will(Ins(t), p) == Some(Ins(t)[f]) && forall k | 0 <= k < f :: Ins(t)[k].path != p;
    assert f <= m;
  }

  /** The owner is a package of the transaction; with unique names its number is known from its name. */
  lemma OwnerOf(t: Trans, env: Env, items: map<Path, Item>, order: seq<Path>, plan: Plan, j: nat, p: Path)
    requires Planned(t, env, items, order, plan) && UniqueNames(t) && j < |t| && p in ListOf(plan, t[j].name)
    ensures p in items && items[p].was.Some? && Owner(items[p]).idx == j + 1
    ensures FateOf(env, p, items[p]) == Drop && items[p] == Item(Was(Outs(t), p), Will(Ins(t), p))
  {
    OnList(t, env, items, order, plan, t[j].name, p);
    hide FateOf, Planned, Was, Will;
    WasOf(t, p);
    if items[p].will.Some? {
      WillOf(t, p);
    }
  }

  /** No scheduled removal comes after the path was unpacked, if no two packages of the transaction share a name. */
  lemma NothingLost(t: Trans, env: Env, items: map<Path, Item>, order: seq<Path>, plan: Plan, p: Path)
    requires Planned(t, env, items, order, plan) && UniqueNames(t)
    ensures !Lost(Log(t, |t|, plan), p)
  {
    hide Planned, UniqueNames, FateOf, Was, Will, BringsFile, RunsList, Lost, Log;
    ListsSorted(t, env, items, order, plan);
    LostExactly(t, plan, p);
    if Overtaken(t, plan, p) {
      var i, j :| 0 <= i < j < |t| && BringsFile(t[i], p) && RunsList(t[j]) && p in ListOf(plan, t[j].name);
      OwnerOf(t, env, items, order, plan, j, p);
      WillFirst(t, p, i);
    }
  }

  /** `a` is removed, `b` brings its file as a symlink, and a second entry for `a`, which was installed as the first
      entry says, follows. */
  function Twice(a: string, b: string, p: Path): Trans
  {
    [Entry(Remove, a, [], Some([Line(p, File, false, "")]), false, false),
     Entry(Install, b, [Line(p, Link, false, "")], None, false, false),
     Entry(Install, a, [], Some([Line(p, File, false, "")]), false, false)]
  }

  /** With a name that occurs twice a file can be lost: the second entry works through the list of the name again. */
  lemma NamedTwiceLoses(a: string, b: string, p: Path, env: Env)
    requires a != b && p !in env.preserved && p !in BASE_SYMLINKS
    ensures var t := Twice(a, b, p);
            var items := map[p := Item(Was(Outs(t), p), Will(Ins(t), p))];
            && Fine(false, Ins(t), Outs(t)) && Planned(t, env, items, [p], map[a := [p]])
            && Lost(Log(t, |t|, map[a := [p]]), p)
  {
    hide *;
    TwicePlanned(a, b, p, env);
    TwiceOvertaken(a, b, p);
    OvertakenLost(Twice(a, b, p), map[a := [p]], p);
  }

  lemma TwicePlanned(a: string, b: string, p: Path, env: Env)
    requires p !in env.preserved && p !in BASE_SYMLINKS
    ensures var t := Twice(a, b, p);
            var items := map[p := Item(Was(Outs(t), p), Will(Ins(t), p))];
            Fine(false, Ins(t), Outs(t)) && Planned(t, env, items, [p], map[a := [p]])
  {
    hide Twice, Was, Will, Outs, Ins, Plans, InClash, OutClash, FateOf;
    var was, will := Rec(p, File, false, "", a, 1, false, true), Rec(p, Link, false, "", b, 2, false, false);
    var again := was.(idx := 3, removepkg := false);
    TwiceRecords(a, b, p, was, will, again);
    Single(was);
    Single(will);
    SecondTime(was, again);
    TwicePlans(env, was, will);
    assert [was, again][..0] == [] && [was, again][..1] == [was] && [will][..0] == [];
  }

  /** A file that is given up a second time keeps its first record. */
  lemma SecondTime(was: Rec, again: Rec)
    requires was.kind == File && again == was.(idx := 3, removepkg := false)
    ensures Was([was, again], was.path) == Some(was) && !OutClash([was], again)
  {
    Single(was);
    assert [was, again][..1] == [was];
  }

  lemma TwicePlans(env: Env, was: Rec, will: Rec)
    requires was.path !in env.preserved && was.path !in BASE_SYMLINKS && was.kind == File && !was.hashed
    requires will.kind == Link && was.idx <= will.idx
    ensures var p := was.path; Plans(env, map[p := Item(Some(was), Some(will))], [p], map[was.name := [p]])
  {
    var p := was.path;
    var items := map[p := Item(Some(was), Some(will))];
    assert FateOf(env, p, items[p]) == Drop && Owner(items[p]) == was;
    hide FateOf, Owner;
    forall name
      ensures ListOf(map[was.name := [p]], name) == Removals(env, items, [p], name)
    {
      assert [p][..0] == [];
      assert Removals(env, items, [], name) == [];
    }
  }

  lemma TwiceOvertaken(a: string, b: string, p: Path)
    ensures Overtaken(Twice(a, b, p), map[a := [p]], p)
    ensures forall name :: LongestFirst(ListOf(map[a := [p]], name))
  {
    var t, plan := Twice(a, b, p), map[a := [p]];
    assert Line(p, Link, false, "") in t[1].incoming;
    assert BringsFile(t[1], p) && RunsList(t[2]) && ListOf(plan, t[2].name) == [p];
  }

  lemma TwiceRecords(a: string, b: string, p: Path, was: Rec, will: Rec, again: Rec)
    requires was == Rec(p, File, false, "", a, 1, false, true) && will == Rec(p, Link, false, "", b, 2, false, false)
    requires again == was.(idx := 3, removepkg := false)
    ensures Ins(Twice(a, b, p)) == [will] && Outs(Twice(a, b, p)) == [was, again]
  {
    var t := Twice(a, b, p);
    OneLine(t[0], 1, Line(p, File, false, ""));
    OneLine(t[2], 3, Line(p, File, false, ""));
    assert Share(t[0], 1, false) == [] && Share(t[1], 2, false) == [will] && Share(t[2], 3, false) == [];
    assert Share(t[0], 1, true) == [was] && Share(t[1], 2, true) == [] && Share(t[2], 3, true) == [again];
    hide Share;
    assert Shares(t, 0, false) == [] && Shares(t, 0, true) == [];
    assert Shares(t, 1, false) == [] && Shares(t, 1, true) == [was];
    assert Shares(t, 2, false) == [will] && Shares(t, 2, true) == [was];
  }

  lemma OneLine(e: Entry, idx: nat, l: Line)
    requires e.installed == Some([l]) && !Skipped(e)
    ensures Share(e, idx, true) == [MakeRec(l, Plain(l) && l.hashed, e.name, idx, e.preserve, e.ttype == Remove)]
  {
    assert !Found([l], 0) && (Found([l], 1) <==> Plain(l) && l.hashed);
  }

  lemma Single(r: Rec)
    ensures Was([r], r.path) == Some(r) && Will([r], r.path) == Some(r)
    ensures !InClash([], r) && !OutClash([], r)
  {
    assert [r][..0] == [];
  }

  // ---------------------------------------------------------------- what a transaction never removes

  /** The administrator protects the path, a package preserves it, it is brought again with the same type or as a
      configuration file, or its contents were modified and its removal is not forced. */
  ghost predicate Protected(env: Env, it: Item, p: Path)
  {
    || p in env.preserved || p in BASE_SYMLINKS || it.was.None?
    || (it.will.None? && it.was.value.preserve)
    || (it.will.Some? && (it.will.value.kind == ConfFile || it.will.value.kind == it.was.value.kind))
    || (it.was.value.hashed && env.hash(p) == Mismatch && !(env.force && it.was.value.removepkg && it.will.None?))
  }

  /** Whatever the transaction is, no turn removes a protected path, or one that no package gives up. */
  lemma NeverRemoved(t: Trans, env: Env, items: map<Path, Item>, order: seq<Path>, plan: Plan, p: Path, x: nat)
    requires Planned(t, env, items, order, plan) && x < |Log(t, |t|, plan)|
    requires p !in items || Protected(env, items[p], p)
    ensures Log(t, |t|, plan)[x] != Drops(p, Log(t, |t|, plan)[x].at)
  {
    hide Planned, LongestFirst, Turn, InTurns, Log, RunsList;
    ListsSorted(t, env, items, order, plan);
    LogOrdered(t, |t|, plan);
    var a := Log(t, |t|, plan)[x];
    assert a in Log(t, |t|, plan);
    TurnOrdered(t[a.at - 1], a.at, plan);
    if p in ListOf(plan, t[a.at - 1].name) {
      OnList(t, env, items, order, plan, t[a.at - 1].name, p);
      Spared(env, items[p], p);
    }
  }

  lemma Spared(env: Env, it: Item, p: Path)
    ensures Protected(env, it, p) ==> FateOf(env, p, it) != Drop
  {
  }

  /** A file that is not on the disk any more. */
  ghost predicate Vanished(env: Env, it: Item, p: Path)
  {
    it.was.Some? && it.was.value.hashed && env.hash(p) == Missing
  }

  /** A symlink that was changed stays when its package is removed without force. */
  ghost predicate Moved(env: Env, it: Item, p: Path)
  {
    && it.was.Some? && it.was.value.kind == Link && it.was.value.removepkg && it.will.None? && !env.force
    && env.target(p) != Some(it.was.value.target)
  }

  /** A path is dropped exactly when it is not protected, there and no changed symlink; a file that is not there counts
      as gone. */
  lemma FateExactly(env: Env, it: Item, p: Path)
    ensures FateOf(env, p, it) == Drop <==> !Protected(env, it, p) && !Vanished(env, it, p) && !Moved(env, it, p)
    ensures FateOf(env, p, it) == Gone <==> !Protected(env, it, p) && Vanished(env, it, p)
  {
  }

  /** Of the package that gives the path up and the one that brings it, the earlier owns the removal. */
  lemma OwnerFirst(it: Item)
    requires it.was.Some?
    ensures Owner(it) == it.was.value || (it.will.Some? && Owner(it) == it.will.value)
    ensures Owner(it).idx <= it.was.value.idx && (it.will.Some? ==> Owner(it).idx <= it.will.value.idx)
  {
  }

  /** What is removed, and in whose turn: a package that is removed, and not quietly, and one that is installed or
      updated and preserves nothing, remove all that they own and that is not protected, vanished or moved. */
  ghost predicate Removed(env: Env, items: map<Path, Item>, e: Entry, p: Path)
  {
    && (if e.ttype == Remove then !e.quiet else e.ttype in {Install, Reinstall, Update} && !e.preserve)
    && p in items && !Protected(env, items[p], p) && !Vanished(env, items[p], p) && !Moved(env, items[p], p)
    && Owner(items[p]).name == e.name
  }

  lemma RemovedExactly(t: Trans, env: Env, items: map<Path, Item>, order: seq<Path>, plan: Plan, p: Path, at: nat)
    requires Planned(t, env, items, order, plan) && 1 <= at <= |t|
    ensures Drops(p, at) in Log(t, |t|, plan) <==> Removed(env, items, t[at - 1], p)
    ensures Puts(p, at) in Log(t, |t|, plan) <==> BringsFile(t[at - 1], p)
  {
    hide Planned, LongestFirst, Turn, InTurns, Log, FateOf, Protected, Vanished, Moved, Owner, BringsFile;
    ListsSorted(t, env, items, order, plan);
    LogOrdered(t, |t|, plan);
    TurnOrdered(t[at - 1], at, plan);
    IsOnList(t, env, items, order, plan, t[at - 1].name, p);
    if p in items {
      FateExactly(env, items[p], p);
    }
    if Drops(p, at) in Turn(t[at - 1], at, plan) {
      Logged(t, |t|, plan, at - 1, Drops(p, at));
    }
    if Puts(p, at) in Turn(t[at - 1], at, plan) {
      Logged(t, |t|, plan, at - 1, Puts(p, at));
    }
  }

  // ---------------------------------------------------------------- removals from the bottom up

  /** Every manifest of an installed package lists the directories above each path. */
  ghost predicate ParentsListed(t: Trans)
  {
    forall i, l, d | 0 <= i < |t| && t[i].installed.Some? && l in t[i].installed.value && d != ""
                     && Beneath(d, l.path) ::
      exists m <- t[i].installed.value :: m.path == d && m.kind == Dir
  }

  /** Whoever gives up a path gives up the directories above it, so the last remover of such a directory comes no
      earlier. */
  lemma ParentLater(t: Trans, d: Path, p: Path)
    requires ParentsListed(t) && d != "" && Beneath(d, p) && Was(Outs(t), p).Some? && Was(Outs(t), d).Some?
    requires Was(Outs(t), d).value.kind == Dir && !Was(Outs(t), d).value.preserve
    ensures Was(Outs(t), p).value.idx <= Was(Outs(t), d).value.idx
  {
    WasOf(t, p);
    var i := Was(Outs(t), p).value.idx - 1;
    var l :| l in t[i].installed.value && l.path == p;
    var m :| m in t[i].installed.value && m.path == d && m.kind == Dir;
    var k :| 0 <= k < |t[i].installed.value| && t[i].installed.value[k] == m;
    var r := Share(t[i], i + 1, true)[k];
    Shared(t, |t|, true, i, r);
    InOrder(t, |t|, true);
    var n :| 0 <= n < |Outs(t)| && Outs(t)[n] == r;
    LastRemover(Outs(t), d, n);
  }

  /** A scheduled directory that nobody brings again is removed after every scheduled path beneath it. */
  lemma BottomUp(t: Trans, env: Env, items: map<Path, Item>, order: seq<Path>, plan: Plan, d: Path, p: Path, x: nat,
                 y: nat)
    requires Planned(t, env, items, order, plan) && UniqueNames(t) && ParentsListed(t)
    requires var log := Log(t, |t|, plan);
             x < |log| && y < |log| && log[x].Drops? && log[x].path == d && log[y].Drops? && log[y].path == p
    requires d != "" && Beneath(d, p) && d in items && items[d].will.None?
    requires items[d].was.Some? ==> items[d].was.value.kind == Dir
    ensures y < x
  {
    hide Planned, UniqueNames, FateOf, Was, Will, RunsList, Turn, ParentsListed, Log, InTurns, LongestFirst;
    var log := Log(t, |t|, plan);
    ListsSorted(t, env, items, order, plan);
    LogOrdered(t, |t|, plan);
    assert log[x] in log && log[y] in log;
    var i, j := log[x].at, log[y].at;
    TurnOrdered(t[i - 1], i, plan);
    TurnOrdered(t[j - 1], j, plan);
    assert log[x] == Drops(d, i) && log[y] == Drops(p, j);
    OwnerOf(t, env, items, order, plan, i - 1, d);
    OwnerOf(t, env, items, order, plan, j - 1, p);
    ParentLater(t, d, p);
    assert j <= i;
    if x <= y {
      NotEarlier(log, x, y);
    }
  }
}
