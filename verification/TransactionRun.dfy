/** A transaction as a whole: collected, planned and carried out. */
module TransactionRun {
  import opened Common
  import opened TransactionFiles
  import opened TransactionPlan
  import opened TransactionCommit

  datatype Outcome = Conflict(status: Status) | NotEmpty | CheckFailed(code: int) | Done(log: seq<Action>)

  ghost function Touched(t: Trans): set<Path>
  {
    set r | r in Outs(t) + Ins(t) :: r.path
  }

  /** The records kept of the paths of a transaction. */
  ghost function Table(t: Trans): (items: map<Path, Item>)
    ensures forall p <- items :: items[p] == Item(Was(Outs(t), p), Will(Ins(t), p))
  {
    map p | p in Touched(t) :: Item(Was(Outs(t), p), Will(Ins(t), p))
  }

  lemma TableIs(t: Trans, items: map<Path, Item>, list: seq<Path>)
    requires Tabled(items, list, Ins(t), Outs(t))
    ensures items == Table(t)
  {
    hide Was, Will, Shares;
    forall p
      ensures p in items <==> p in Touched(t)
    {
      Remover(Outs(t), p);
      FirstProvider(Ins(t), p);
      TouchedBy(t, p);
    }
  }

  lemma TouchedBy(t: Trans, p: Path)
    ensures p in Touched(t) <==> (exists k | 0 <= k < |Outs(t)| :: Outs(t)[k].path == p)
                                 || exists k | 0 <= k < |Ins(t)| :: Ins(t)[k].path == p
  {
    hide Shares, Outs, Ins;
    if k :| 0 <= k < |Outs(t)| && Outs(t)[k].path == p {
      assert Outs(t)[k] in Outs(t) + Ins(t);
    } else if k :| 0 <= k < |Ins(t)| && Ins(t)[k].path == p {
      assert Ins(t)[k] in Outs(t) + Ins(t);
    }
  }

  /** Every directory that gives way to a file can be emptied. */
  ghost predicate MakesRoom(t: Trans, env: Env)
  {
    forall p <- Table(t) :: Replaced(env, p, Table(t)[p]) ==> Clearable(env, Table(t), p)
  }

  /** A sorted listing of the paths; which of equal length comes first is left to the sort. */
  ghost predicate Sorted(t: Trans, order: seq<Path>)
    ensures Sorted(t, order) ==> forall p <- order :: p in Table(t)
  {
    Listing(Table(t), order) && LongestFirst(order)
  }

  /** A directory that has to make room for something else and cannot be cleared: it cannot be read, something tracked
      beneath it stays, or it has more entries than are tracked. */
  ghost predicate InTheWay(t: Trans, env: Env, p: Path)
  {
    var items := Table(t);
    && p in items && p !in env.preserved && items[p].was.Some? && items[p].will.Some?
    && items[p].was.value.kind == Dir && items[p].will.value.kind in {File, Link}
    && match env.dir(p)
       case Absent => false
       case Unreadable => true
       case Holds(n) =>
         || n > |set q | q in items && Beneath(p, q)|
         || exists q <- items :: Beneath(p, q) && (Protected(env, items[q], q)
                                                   || (Moved(env, items[q], q) && !Vanished(env, items[q], q)))
  }

  lemma NoRoomExactly(t: Trans, env: Env)
    ensures MakesRoom(t, env) <==> forall p :: !InTheWay(t, env, p)
  {
    hide Table, FateOf, Protected, Moved, Vanished, Beneath;
    var items := Table(t);
    forall q <- items
      ensures FateOf(env, q, items[q]) == Keep <==>
              Protected(env, items[q], q) || (Moved(env, items[q], q) && !Vanished(env, items[q], q))
    {
      FateExactly(env, items[q], q);
    }
    forall p <- items
      ensures InTheWay(t, env, p) <==> Replaced(env, p, items[p]) && !Clearable(env, items, p)
    {
      WayAt(t, env, items, p);
    }
  }

  lemma WayAt(t: Trans, env: Env, items: map<Path, Item>, p: Path)
    requires items == Table(t) && p in items
    requires forall q <- items :: FateOf(env, q, items[q]) == Keep <==>
               Protected(env, items[q], q) || (Moved(env, items[q], q) && !Vanished(env, items[q], q))
    ensures InTheWay(t, env, p) <==> Replaced(env, p, items[p]) && !Clearable(env, items, p)
  {
    hide Table, FateOf, Protected, Moved, Vanished, Beneath;
  }

  lemma {:induction false} CodeFrom(env: Env, items: map<Path, Item>, order: seq<Path>)
    requires forall p <- order :: p in items
    ensures LastCode(env, items, order) != 0 ==>
              exists p <- order :: env.hash(p) == Failed(LastCode(env, items, order))
  {
    if order != [] {
      var init, p := order[..|order| - 1], order[|order| - 1];
      assert order == init + [p];
      CodeFrom(env, items, init);
      assert p in order;
    }
  }

  /** Collects, plans and carries out a transaction.

      It ends as the clashes, the directories that have to make room and the last hash check decide; otherwise its
      packages take their turns in order, each removing what is to be removed before it unpacks what it brings. */
  method RunTransaction(t: Trans, env: Env, ignore: bool) returns (r: Outcome)
    ensures r.Conflict? <==> !Fine(ignore, Ins(t), Outs(t))
    ensures r.NotEmpty? <==> Fine(ignore, Ins(t), Outs(t)) && !MakesRoom(t, env)
    ensures r.NotEmpty? <==> Fine(ignore, Ins(t), Outs(t)) && exists p :: InTheWay(t, env, p)
    ensures r.CheckFailed? ==> r.code != 0 && exists p <- Table(t) :: env.hash(p) == Failed(r.code)
    ensures r.CheckFailed? ==>
              exists order :: Sorted(t, order) && LastCode(env, Table(t), order) == r.code
    ensures r.Done? ==> exists order, plan ::
              Planned(t, env, Table(t), order, plan) && LastCode(env, Table(t), order) == 0
              && r.log == Log(t, |t|, plan)
    ensures r.Done? ==> InTurns(r.log)
    ensures r.Done? ==> forall p, at: nat | 1 <= at <= |t| ::
              Drops(p, at) in r.log <==> Removed(env, Table(t), t[at - 1], p)
    ensures r.Done? ==> forall p, at: nat | 1 <= at <= |t| :: Puts(p, at) in r.log <==> BringsFile(t[at - 1], p)
    ensures r.Done? && UniqueNames(t) ==> forall p :: !Lost(r.log, p)
    ensures r.Done? && UniqueNames(t) && ParentsListed(t) ==> RemovedBottomUp(t, r.log)
  {
    hide Fine, FateOf, Was, Will, UniqueNames, ParentsListed, Lost, Log, RemovedBottomUp, Plans, Clearable, Replaced;
    hide Table, LastCode, Removed, BringsFile, InTurns, InTheWay, LongestFirst;
    NoRoomExactly(t, env);
    var status, table := CollectAll(t, ignore);
    if status != Ok {
      return Conflict(status);
    }
    var order := SortItems(table.list);
    TableIs(t, table.items, table.list);
    TableListed(t, table.items, table.list, order);
    var ok, rv, plan := CollectObsoletes(env, table.items, order);
    if !ok {
      return NotEmpty;
    }
    if rv != 0 {
      CodeFrom(env, table.items, order);
      SameListed(table.items, order);
      return CheckFailed(rv);
    }
    var log := Commit(t, plan);
    assert Planned(t, env, Table(t), order, plan);
    ListsSorted(t, env, table.items, order, plan);
    LogOrdered(t, |t|, plan);
    forall p, at: nat | 1 <= at <= |t|
      ensures Drops(p, at) in log <==> Removed(env, Table(t), t[at - 1], p)
      ensures Puts(p, at) in log <==> BringsFile(t[at - 1], p)
    {
      RemovedExactly(t, env, Table(t), order, plan, p, at);
    }
    if UniqueNames(t) {
      forall p
        ensures !Lost(log, p)
      {
        NothingLost(t, env, table.items, order, plan, p);
      }
      if ParentsListed(t) {
        AllBottomUp(t, env, table.items, order, plan);
      }
    }
    r := Done(log);
  }

  lemma SameListed(items: map<Path, Item>, order: seq<Path>)
    requires Listing(items, order)
    ensures forall p <- order :: p in items
  {
  }

  // ---------------------------------------------------------------- what that means for the manifests

  /** The i-th package, from zero, gives the line up. */
  ghost predicate GivesUp(t: Trans, i: nat, l: Line)
  {
    i < |t| && t[i].ttype !in {Hold, Configure} && t[i].installed.Some? && l in t[i].installed.value
  }

  ghost predicate BringsPath(t: Trans, i: nat, p: Path)
  {
    i < |t| && t[i].ttype in {Install, Reinstall, Update} && exists l <- t[i].incoming :: l.path == p
  }

  /** A path that packages give up and nobody brings is removed in the turn of one of them, if none of them preserves
      it or is removed quietly, nothing protects it, and what is on the disk is what was installed. */
  lemma GivenUpGoes(t: Trans, env: Env, log: seq<Action>, i: nat, l: Line) returns (k: nat)
    requires forall p, at: nat | 1 <= at <= |t| :: Drops(p, at) in log <==> Removed(env, Table(t), t[at - 1], p)
    requires GivesUp(t, i, l) && forall j :: !BringsPath(t, j, l.path)
    requires l.path !in env.preserved && l.path !in BASE_SYMLINKS && env.hash(l.path) == Match
    requires forall j: nat, m | GivesUp(t, j, m) && m.path == l.path ::
               !t[j].preserve && !t[j].quiet && (m.kind == Link ==> env.target(l.path) == Some(m.target))
    ensures k < |t| && Drops(l.path, k + 1) in log && exists m :: GivesUp(t, k, m) && m.path == l.path
  {
    hide Was, Will, Shares;
    var p := l.path;
    WillBrings(t, p);
    KeptRecord(t, i, l);
    var w := Was(Outs(t), p).value;
    WasOf(t, p);
    k := w.idx - 1;
    var m :| m in t[k].installed.value && m.path == p && m.kind == w.kind && (m.kind == Link ==> m.target == w.target);
    assert GivesUp(t, k, m);
    assert t[k].ttype == Remove || t[k].ttype in {Install, Reinstall, Update};
    TableAt(t, p);
    assert Removed(env, Table(t), t[k], p);
  }

  lemma TableAt(t: Trans, p: Path)
    requires Was(Outs(t), p).Some?
    ensures p in Table(t)
  {
    hide Was, Will, Shares;
    Remover(Outs(t), p);
    TouchedBy(t, p);
  }

  lemma WillBrings(t: Trans, p: Path)
    ensures Will(Ins(t), p).Some? ==> exists j :: BringsPath(t, j, p)
  {
    hide Was, Will, Shares;
    if Will(Ins(t), p).Some? {
      WillLine(t, p);
      var i, l :| 0 <= i < |t| && Unpacks(t[i]) && l in t[i].incoming && l.path == p;
      assert BringsPath(t, i, p);
    }
  }

  lemma KeptRecord(t: Trans, i: nat, l: Line)
    requires GivesUp(t, i, l)
    ensures Was(Outs(t), l.path).Some?
  {
    hide Was, Will;
    var m :| 0 <= m < |t[i].installed.value| && t[i].installed.value[m] == l;
    var r := Share(t[i], i + 1, true)[m];
    Shared(t, |t|, true, i, r);
    var n :| 0 <= n < |Outs(t)| && Outs(t)[n] == r;
    Remover(Outs(t), l.path);
  }

  /** Conversely, whatever is removed is given up by a package and protected by nobody. */
  lemma RemovedWasGivenUp(t: Trans, env: Env, log: seq<Action>, p: Path, at: nat)
    requires forall q, n: nat | 1 <= n <= |t| :: Drops(q, n) in log <==> Removed(env, Table(t), t[n - 1], q)
    requires 1 <= at <= |t| && Drops(p, at) in log
    ensures exists i, l :: GivesUp(t, i, l) && l.path == p
    ensures p !in env.preserved && p !in BASE_SYMLINKS
    ensures t[at - 1].ttype == Remove ==> !t[at - 1].quiet
  {
    hide Was, Will, Shares;
    WasOf(t, p);
    var w := Was(Outs(t), p).value;
    var l :| l in t[w.idx - 1].installed.value && l.path == p;
    assert GivesUp(t, w.idx - 1, l);
  }

  /** A file whose contents were modified is never removed without force. */
  lemma ModifiedStays(t: Trans, env: Env, log: seq<Action>, p: Path, at: nat)
    requires forall q, n: nat | 1 <= n <= |t| :: Drops(q, n) in log <==> Removed(env, Table(t), t[n - 1], q)
    requires forall i: nat, l | GivesUp(t, i, l) && l.path == p :: l.kind in {File, ConfFile} && l.hashed
    requires env.hash(p) == Mismatch && !env.force && 1 <= at <= |t|
    ensures Drops(p, at) !in log
  {
    hide Was, Will, Shares;
    AllHashed(t, p);
  }

  lemma AllHashed(t: Trans, p: Path)
    requires forall i: nat, l | GivesUp(t, i, l) && l.path == p :: l.kind in {File, ConfFile} && l.hashed
    ensures Was(Outs(t), p).Some? ==> Was(Outs(t), p).value.hashed
  {
    hide Was, Shares, Share;
    InOrder(t, |t|, true);
    forall k | 0 <= k < |Outs(t)| && Outs(t)[k].path == p
      ensures Outs(t)[k].kind != Dir && Outs(t)[k].hashed
    {
      var r := Outs(t)[k];
      LineOf(t[r.idx - 1], r.idx, r);
      var l :| l in t[r.idx - 1].installed.value && l.path == p && l.kind == r.kind
               && (Plain(l) && l.hashed ==> r.hashed);
      assert GivesUp(t, r.idx - 1, l);
      assert Plain(l) && l.hashed;
    }
    FirstRemover(Outs(t), p);
  }

  /** Whenever a directory that nobody brings again and a path beneath it are both removed, the path goes first. */
  ghost predicate RemovedBottomUp(t: Trans, log: seq<Action>)
  {
    forall x, y | 0 <= x < |log| && 0 <= y < |log| && log[x].Drops? && log[y].Drops? && log[x].path != ""
                  && Beneath(log[x].path, log[y].path) && GoneDir(t, log[x].path) ::
      y < x
  }

  ghost predicate GoneDir(t: Trans, d: Path)
  {
    && (forall i, l | 0 <= i < |t| && Unpacks(t[i]) && l in t[i].incoming :: l.path != d)
    && (forall i, l | 0 <= i < |t| && t[i].installed.Some? && l in t[i].installed.value && l.path == d :: l.kind == Dir)
  }

  lemma GoneRecords(t: Trans, d: Path)
    requires GoneDir(t, d)
    ensures Will(Ins(t), d).None?
    ensures Was(Outs(t), d).Some? ==> Was(Outs(t), d).value.kind == Dir
  {
    hide Was, Will, Shares;
    if Was(Outs(t), d).Some? {
      WasOf(t, d);
    }
    if Will(Ins(t), d).Some? {
      WillLine(t, d);
    }
  }

  lemma WillLine(t: Trans, d: Path)
    requires Will(Ins(t), d).Some?
    ensures exists i, l :: 0 <= i < |t| && Unpacks(t[i]) && l in t[i].incoming && l.path == d
  {
    hide Was, Will;
    FirstProvider(Ins(t), d);
    InOrder(t, |t|, false);
    var f :| 0 <= f < |Ins(t)| && Will(Ins(t), d) == Some(Ins(t)[f]);
    var r := Ins(t)[f];
    var s := Share(t[r.idx - 1], r.idx, false);
    var m :| 0 <= m < |s| && s[m] == r;
    assert t[r.idx - 1].incoming[m] in t[r.idx - 1].incoming;
  }

  lemma AllBottomUp(t: Trans, env: Env, items: map<Path, Item>, order: seq<Path>, plan: Plan)
    requires Planned(t, env, items, order, plan) && UniqueNames(t) && ParentsListed(t)
    ensures RemovedBottomUp(t, Log(t, |t|, plan))
  {
    hide Planned, UniqueNames, FateOf, Was, Will, RunsList, Turn, ParentsListed, Log, GoneDir;
    var log := Log(t, |t|, plan);
    ListsSorted(t, env, items, order, plan);
    LogOrdered(t, |t|, plan);
    forall x, y | 0 <= x < |log| && 0 <= y < |log| && log[x].Drops? && log[y].Drops? && log[x].path != ""
                  && Beneath(log[x].path, log[y].path) && GoneDir(t, log[x].path)
      ensures y < x
    {
      var d, i := log[x].path, log[x].at;
      assert log[x] in log && log[x] == Drops(d, i);
      TurnOrdered(t[i - 1], i, plan);
      OnList(t, env, items, order, plan, t[i - 1].name, d);
      GoneRecords(t, d);
      BottomUp(t, env, items, order, plan, d, log[y].path, x, y);
    }
  }

  lemma TableListed(t: Trans, items: map<Path, Item>, list: seq<Path>, order: seq<Path>)
    requires Tabled(items, list, Ins(t), Outs(t)) && LongestFirst(order) && SameMembers(list, order)
    requires forall p <- items :: items[p].was.Some? || items[p].will.Some?
    ensures Listing(items, order)
  {
  }
}
