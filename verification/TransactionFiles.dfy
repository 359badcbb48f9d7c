/** The files a transaction touches: one table of paths, with at most one package that gives a path up and at most one
    that brings it. */
module TransactionFiles {
  import opened Common

  type Path = string

  datatype Kind = Link | Dir | File | ConfFile

  /** One line of a package's manifest. */
  datatype Line = Line(path: Path, kind: Kind, hashed: bool, target: string)

  datatype TransType = Install | Reinstall | Update | Remove | Hold | Configure

  /** A package in the transaction: the manifest in its archive, the manifest of the installed version if there is one,
      and what its removal has to heed. */
  datatype Entry = Entry(ttype: TransType, name: string, incoming: seq<Line>, installed: Option<seq<Line>>,
                         preserve: bool, quiet: bool)

  type Trans = seq<Entry>

  /** A manifest line together with the package it belongs to and the place of that package in the transaction. */
  datatype Rec = Rec(path: Path, kind: Kind, hashed: bool, target: string, name: string, idx: nat, preserve: bool,
                     removepkg: bool)

  datatype Item = Item(was: Option<Rec>, will: Option<Rec>)

  datatype Status = Ok | Exists | Perm

  // ---------------------------------------------------------------- the records of a transaction

  predicate Skipped(e: Entry)
  {
    e.ttype == Hold || e.ttype == Configure
  }

  predicate Unpacks(e: Entry)
  {
    e.ttype == Install || e.ttype == Reinstall || e.ttype == Update
  }

  function MakeRec(l: Line, hashed: bool, name: string, idx: nat, preserve: bool, removepkg: bool): Rec
  {
    Rec(l.path, l.kind, hashed, l.target, name, idx, preserve, removepkg)
  }

  predicate Plain(l: Line)
  {
    l.kind == File || l.kind == ConfFile
  }

  /** Whether a hash was found on one of the first `n` lines: a line that lacks one is recorded with the hash that was
      found last. */
  predicate Found(lines: seq<Line>, n: nat)
    requires n <= |lines|
  {
    n > 0 && (Found(lines, n - 1) || (Plain(lines[n - 1]) && lines[n - 1].hashed))
  }

  /** Once a hash was found, every later file has one. */
  lemma {:induction false} HashCarried(lines: seq<Line>, n: nat)
    requires n <= |lines|
    ensures Found(lines, n) <==> exists k | 0 <= k < n :: lines[k].kind in {File, ConfFile} && lines[k].hashed
  {
    if n > 0 {
      HashCarried(lines, n - 1);
    }
  }

  /** Hashes matter only for what is given up, and only for files. */
  ghost function Recs(lines: seq<Line>, name: string, idx: nat, preserve: bool, removepkg: bool, out: bool)
    : (r: seq<Rec>)
    ensures |r| == |lines|
    ensures forall k | 0 <= k < |lines| ::
              r[k] == MakeRec(lines[k], out && Plain(lines[k]) && Found(lines, k + 1), name, idx, preserve, removepkg)
  {
    seq(|lines|, k requires 0 <= k < |lines| =>
      MakeRec(lines[k], out && Plain(lines[k]) && Found(lines, k + 1), name, idx, preserve, removepkg))
  }

  /** What a package gives up, or what it brings. */
  ghost function Share(e: Entry, idx: nat, out: bool): (r: seq<Rec>)
    ensures forall k | 0 <= k < |r| :: r[k].idx == idx
  {
    if !out then
      if Unpacks(e) then Recs(e.incoming, e.name, idx, false, false, false) else []
    else if Skipped(e) || e.installed.None? then []
    else Recs(e.installed.value, e.name, idx, e.preserve, e.ttype == Remove, true)
  }

  /** What the first `n` packages give up, or what they bring; packages are numbered from one. */
  ghost function Shares(t: Trans, n: nat, out: bool): seq<Rec>
    requires n <= |t|
  {
    if n == 0 then [] else Shares(t, n - 1, out) + Share(t[n - 1], n, out)
  }

  ghost function Ins(t: Trans): seq<Rec>
  {
    Shares(t, |t|, false)
  }

  ghost function Outs(t: Trans): seq<Rec>
  {
    Shares(t, |t|, true)
  }

  // ---------------------------------------------------------------- what the table holds

  /** The record kept of the packages that give `p` up. */
  ghost function Was(outs: seq<Rec>, p: Path): (r: Option<Rec>)
    ensures r.Some? ==> r.value.path == p
  {
    if outs == [] then None
    else
      var prev, r := Was(outs[..|outs| - 1], p), outs[|outs| - 1];
      if r.path != p then prev
      else if prev.None? then Some(r)
      else Some(Merge(prev.value, r))
  }

  /** A later package takes a directory over, unless the earlier one preserves it. */
  function Merge(prev: Rec, r: Rec): Rec
  {
    if prev.kind == Dir && r.kind == Dir && !(r.idx < prev.idx || prev.preserve) then
      prev.(name := r.name, idx := r.idx, preserve := r.preserve, removepkg := r.removepkg)
    else prev
  }

  /** The record kept of the packages that bring `p`: the first. */
  ghost function Will(ins: seq<Rec>, p: Path): (r: Option<Rec>)
    ensures r.Some? ==> r.value.path == p
  {
    if ins == [] then None
    else
      var prev := Will(ins[..|ins| - 1], p);
      if prev.None? && ins[|ins| - 1].path == p then Some(ins[|ins| - 1]) else prev
  }

  ghost predicate InClash(ins: seq<Rec>, r: Rec)
  {
    var w := Will(ins, r.path);
    w.Some? && !(w.value.kind == Dir && r.kind == Dir)
  }

  ghost predicate OutClash(outs: seq<Rec>, r: Rec)
  {
    var w := Was(outs, r.path);
    w.Some? && !(w.value.kind == Dir && r.kind == Dir) && w.value.preserve != r.preserve
  }

  ghost predicate Fine(ignore: bool, ins: seq<Rec>, outs: seq<Rec>)
  {
    && (!ignore ==> forall k | 0 <= k < |ins| :: !InClash(ins[..k], ins[k]))
    && (forall k | 0 <= k < |outs| :: !OutClash(outs[..k], outs[k]))
  }

  lemma FineMore(ignore: bool, ins: seq<Rec>, outs: seq<Rec>, r: Rec)
    ensures Fine(ignore, ins + [r], outs) <==> Fine(ignore, ins, outs) && (ignore || !InClash(ins, r))
    ensures Fine(ignore, ins, outs + [r]) <==> Fine(ignore, ins, outs) && !OutClash(outs, r)
  {
    var s, t := ins + [r], outs + [r];
    assert s[..|ins|] == ins && t[..|outs|] == outs;
    assert forall k | 0 <= k < |ins| :: s[..k] == ins[..k];
    assert forall k | 0 <= k < |outs| :: t[..k] == outs[..k];
  }

  lemma FinePrefix(ignore: bool, ins: seq<Rec>, outs: seq<Rec>, moreIns: seq<Rec>, moreOuts: seq<Rec>)
    requires Fine(ignore, moreIns, moreOuts) && ins <= moreIns && outs <= moreOuts
    ensures Fine(ignore, ins, outs)
  {
    assert forall k | 0 <= k < |ins| :: ins[..k] == moreIns[..k];
    assert forall k | 0 <= k < |outs| :: outs[..k] == moreOuts[..k];
  }

  /** Every path seen is in the table once, with the records the specification keeps. */
  ghost predicate Tabled(items: map<Path, Item>, list: seq<Path>, ins: seq<Rec>, outs: seq<Rec>)
  {
    && (forall i, j | 0 <= i < j < |list| :: list[i] != list[j])
    && (forall p :: p in list <==> p in items)
    && (forall p <- items :: items[p] == Item(Was(outs, p), Will(ins, p)))
    && (forall p <- items :: items[p].was.Some? || items[p].will.Some?)
    && (forall p | p !in items :: Was(outs, p).None? && Will(ins, p).None?)
  }

  /** The table after one more record: nothing changes but the item of its path. */
  lemma TabledMore(items: map<Path, Item>, list: seq<Path>, ins: seq<Rec>, outs: seq<Rec>, ins1: seq<Rec>,
                   outs1: seq<Rec>, p: Path, items1: map<Path, Item>, list1: seq<Path>)
    requires Tabled(items, list, ins, outs)
    requires forall q | q != p :: Was(outs1, q) == Was(outs, q) && Will(ins1, q) == Will(ins, q)
    requires items1 == items[p := Item(Was(outs1, p), Will(ins1, p))]
    requires items1[p].was.Some? || items1[p].will.Some?
    requires list1 == if p in items then list else list + [p]
    ensures Tabled(items1, list1, ins1, outs1)
  {
    hide Was, Will;
  }

  lemma Elsewhere(ins: seq<Rec>, outs: seq<Rec>, r: Rec)
    ensures forall q | q != r.path :: Was(outs + [r], q) == Was(outs, q) && Will(ins + [r], q) == Will(ins, q)
  {
    assert (ins + [r])[..|ins|] == ins && (outs + [r])[..|outs|] == outs;
  }

  lemma Held(items: map<Path, Item>, list: seq<Path>, ins: seq<Rec>, outs: seq<Rec>, p: Path)
    requires Tabled(items, list, ins, outs)
    ensures if p in items then items[p] == Item(Was(outs, p), Will(ins, p))
            else Was(outs, p).None? && Will(ins, p).None?
  {
  }

  lemma Latest(ins: seq<Rec>, outs: seq<Rec>, r: Rec)
    ensures var prev := Was(outs, r.path);
            Was(outs + [r], r.path) == if prev.None? then Some(r) else Some(Merge(prev.value, r))
    ensures var prev := Will(ins, r.path); Will(ins + [r], r.path) == if prev.None? then Some(r) else prev
  {
    assert (ins + [r])[..|ins|] == ins && (outs + [r])[..|outs|] == outs;
  }

  // ---------------------------------------------------------------- collecting

  class FileTable {
    var items: map<Path, Item>
    var list: seq<Path>
    ghost var ins: seq<Rec>
    ghost var outs: seq<Rec>

    ghost predicate Valid()
      reads this
    {
      Tabled(items, list, ins, outs)
    }

    constructor ()
      ensures Valid() && ins == [] && outs == []
    {
      items, list, ins, outs := map[], [], [], [];
    }

    method CollectFile(r: Rec, removefile: bool, ignore: bool) returns (rv: Status)
      requires Valid()
      modifies this
      ensures Valid()
      ensures removefile ==> ins == old(ins) && outs == old(outs) + [r]
      ensures !removefile ==> ins == old(ins) + [r] && outs == old(outs)
      ensures rv == if removefile then (if OutClash(old(outs), r) then Perm else Ok)
                    else (if InClash(old(ins), r) && !ignore then Exists else Ok)
    {
      hide Tabled, Was, Will;
      ghost var items0, list0 := items, list;
      Elsewhere(ins, outs, r);
      Held(items, list, ins, outs, r.path);
      Latest(ins, outs, r);
      if r.path !in items {
        list := list + [r.path];
        items := items[r.path := Item(None, None)];
      }
      var it := items[r.path];
      rv := Ok;
      if removefile {
        if it.was.None? {
          items := items[r.path := it.(was := Some(r))];
        } else if it.was.value.kind == Dir && r.kind == Dir {
          if !(r.idx < it.was.value.idx || it.was.value.preserve) {
            items := items[r.path := it.(was := Some(it.was.value.(name := r.name, idx := r.idx, preserve := r.preserve,
                                                                   removepkg := r.removepkg)))];
          }
        } else if it.was.value.preserve != r.preserve {
          rv := Perm;
        }
        TabledMore(items0, list0, ins, outs, ins, outs + [r], r.path, items, list);
        outs := outs + [r];
      } else {
        if it.will.None? {
          items := items[r.path := it.(will := Some(r))];
        } else if !(it.will.value.kind == Dir && r.kind == Dir) && !ignore {
          rv := Exists;
        }
        TabledMore(items0, list0, ins, outs, ins + [r], outs, r.path, items, list);
        ins := ins + [r];
      }
    }

    /** Collects one manifest; files that exist already do not stop it. */
    method CollectFiles(lines: seq<Line>, name: string, idx: nat, preserve: bool, removepkg: bool, removefile: bool,
                        ignore: bool)
      returns (rv: Status)
      requires Valid() && Fine(ignore, ins, outs)
      modifies this
      ensures Valid()
      ensures var more := Recs(lines, name, idx, preserve, removepkg, removefile);
              var ins1, outs1 := if removefile then old(ins) else old(ins) + more,
                                 if removefile then old(outs) + more else old(outs);
              && (rv == Ok <==> Fine(ignore, ins1, outs1))
              && (rv == Ok ==> ins == ins1 && outs == outs1)
    {
      hide Fine, Tabled, Recs;
      ghost var more := Recs(lines, name, idx, preserve, removepkg, removefile);
      ghost var ins0, outs0 := ins, outs;
      ghost var ins1, outs1 := if removefile then ins else ins + more, if removefile then outs + more else outs;
      var error, found := false, false;
      for i := 0 to |lines|
        invariant Valid() && (found <==> removefile && Found(lines, i))
        invariant !error ==> Fine(ignore, ins, outs)
        invariant error ==> !removefile && !Fine(ignore, ins1, outs1)
        invariant !error ==> ins == (if removefile then ins0 else ins0 + more[..i])
        invariant !error ==> outs == (if removefile then outs0 + more[..i] else outs0)
      {
        assert more[..i + 1] == more[..i] + [more[i]];
        if removefile && Plain(lines[i]) && lines[i].hashed {
          found := true;
        }
        var r := MakeRec(lines[i], found && Plain(lines[i]), name, idx, preserve, removepkg);
        assert more[i] == r;
        assert ins0 + more[..i] + [more[i]] == ins0 + more[..i + 1] <= ins0 + more;
        assert outs0 + more[..i] + [more[i]] == outs0 + more[..i + 1] <= outs0 + more;
        FineMore(ignore, ins, outs, r);
        rv := CollectFile(r, removefile, ignore);
        if rv != Ok && !error && Fine(ignore, ins1, outs1) {
          FinePrefix(ignore, ins, outs, ins1, outs1);
        }
        if rv == Exists {
          error := true;
        } else if rv != Ok {
          return;
        }
      }
      assert more[..|lines|] == more;
      rv := if error then Exists else Ok;
    }
  }

  /** Collects the files of one package, what it brings before what it gives up. */
  method CollectEntry(table: FileTable, e: Entry, idx: nat, ignore: bool) returns (rv: Status)
    requires table.Valid() && Fine(ignore, table.ins, table.outs)
    modifies table
    ensures table.Valid()
    ensures var ins1, outs1 := old(table.ins) + Share(e, idx, false), old(table.outs) + Share(e, idx, true);
            && (rv == Ok <==> Fine(ignore, ins1, outs1))
            && (rv == Ok ==> table.ins == ins1 && table.outs == outs1)
  {
    hide Fine, Tabled, Recs;
    ghost var ins1, outs1 := table.ins + Share(e, idx, false), table.outs + Share(e, idx, true);
    rv := Ok;
    if Unpacks(e) {
      rv := table.CollectFiles(e.incoming, e.name, idx, false, false, false, ignore);
      if rv != Ok {
        Unless(ignore, ins1, old(table.outs), ins1, outs1);
        return;
      }
    }
    assert table.ins == ins1;
    if !Skipped(e) && e.installed.Some? {
      rv := table.CollectFiles(e.installed.value, e.name, idx, e.preserve, e.ttype == Remove, true, ignore);
    } else {
      assert outs1 == table.outs;
    }
  }

  /** Collects the files of every package; the first package in conflict ends it. */
  method CollectAll(t: Trans, ignore: bool) returns (rv: Status, table: FileTable)
    ensures rv == Ok <==> Fine(ignore, Ins(t), Outs(t))
    ensures rv == Ok ==> table.Valid() && table.ins == Ins(t) && table.outs == Outs(t)
    ensures fresh(table)
  {
    hide Fine, Tabled, Share;
    table := new FileTable();
    NothingClashes(ignore);
    for i := 0 to |t|
      invariant fresh(table) && table.Valid()
      invariant table.ins == Shares(t, i, false) && table.outs == Shares(t, i, true)
      invariant Fine(ignore, table.ins, table.outs)
    {
      rv := CollectEntry(table, t[i], i + 1, ignore);
      if rv != Ok {
        Upto(t, i + 1, true);
        Upto(t, i + 1, false);
        Unless(ignore, Shares(t, i + 1, false), Shares(t, i + 1, true), Ins(t), Outs(t));
        return;
      }
    }
    rv := Ok;
  }

  lemma NothingClashes(ignore: bool)
    ensures Fine(ignore, [], [])
  {
  }

  lemma {:induction false} Upto(t: Trans, n: nat, out: bool)
    requires n <= |t|
    ensures Shares(t, n, out) <= Shares(t, |t|, out)
    decreases |t| - n
  {
    if n < |t| {
      Upto(t, n + 1, out);
    }
  }

  lemma Unless(ignore: bool, ins: seq<Rec>, outs: seq<Rec>, moreIns: seq<Rec>, moreOuts: seq<Rec>)
    requires !Fine(ignore, ins, outs) && ins <= moreIns && outs <= moreOuts
    ensures !Fine(ignore, moreIns, moreOuts)
  {
    if Fine(ignore, moreIns, moreOuts) {
      FinePrefix(ignore, ins, outs, moreIns, moreOuts);
    }
  }

  // ---------------------------------------------------------------- what success means

  /** Without the ignore flag: no path comes twice, but for directories. */
  ghost predicate OneProvider(ins: seq<Rec>)
  {
    forall i, j | 0 <= i < j < |ins| && ins[i].path == ins[j].path :: ins[i].kind == Dir && ins[j].kind == Dir
  }

  lemma {:induction false} ProviderOnce(ins: seq<Rec>, outs: seq<Rec>)
    requires forall k | 0 <= k < |outs| :: !OutClash(outs[..k], outs[k])
    ensures Fine(false, ins, outs) <==> OneProvider(ins)
  {
    if ins == [] {
    } else {
      var init, r := ins[..|ins| - 1], ins[|ins| - 1];
      assert ins == init + [r];
      ProviderOnce(init, outs);
      FineMore(false, init, outs, r);
      FirstProvider(init, r.path);
      if OneProvider(init) {
        ClashLast(init, r);
      }
    }
  }

  lemma ClashLast(init: seq<Rec>, r: Rec)
    requires OneProvider(init)
    ensures !InClash(init, r) <==> OneProvider(init + [r])
  {
    var s := init + [r];
    FirstProvider(init, r.path);
    if InClash(init, r) {
      var f :| 0 <= f < |init| && Will(init, r.path) == Some(init[f]);
      assert s[f] == init[f] && s[|init|] == r;
    } else {
      forall i, j | 0 <= i < j < |s| && s[i].path == s[j].path
        ensures s[i].kind == Dir && s[j].kind == Dir
      {
        if j == |init| {
          var f :| 0 <= f < |init| && Will(init, r.path) == Some(init[f]);
          if i != f {
            assert init[if i < f then i else f].path == init[if i < f then f else i].path;
          }
        }
      }
    }
  }

  /** The record kept is that of the first package to bring the path. */
  lemma {:induction false} FirstProvider(ins: seq<Rec>, p: Path)
    ensures Will(ins, p).None? <==> forall k | 0 <= k < |ins| :: ins[k].path != p
    ensures Will(ins, p).Some? ==>
              exists f | 0 <= f < |ins| :: Will(ins, p) == Some(ins[f]) && forall k | 0 <= k < f :: ins[k].path != p
  {
    if ins != [] {
      var init := ins[..|ins| - 1];
      assert ins == init + [ins[|ins| - 1]];
      FirstProvider(init, p);
      if Will(init, p).Some? {
        var f :| 0 <= f < |init| && Will(init, p) == Some(init[f]) && forall k | 0 <= k < f :: init[k].path != p;
        assert ins[f] == init[f];
      } else if ins[|ins| - 1].path == p {
        assert Will(ins, p) == Some(ins[|ins| - 1]);
      }
    }
  }

  // ---------------------------------------------------------------- who gives a path up

  /** The record kept comes from one of the packages that give the path up. */
  lemma {:induction false} Remover(outs: seq<Rec>, p: Path)
    ensures Was(outs, p).None? <==> forall k | 0 <= k < |outs| :: outs[k].path != p
    ensures Was(outs, p).Some? ==> exists k | 0 <= k < |outs| :: Stands(outs[k], Was(outs, p).value)
  {
    if outs != [] {
      var init, r := outs[..|outs| - 1], outs[|outs| - 1];
      assert outs == init + [r];
      Remover(init, p);
      if Was(init, p).Some? {
        var k :| 0 <= k < |init| && Stands(init[k], Was(init, p).value);
        assert outs[k] == init[k];
        assert Stands(outs[k], Was(outs, p).value) || Stands(outs[|init|], Was(outs, p).value);
      } else if r.path == p {
        assert Stands(outs[|init|], Was(outs, p).value);
      }
    }
  }

  /** The kept record `w` speaks for the package of `r`. */
  predicate Stands(r: Rec, w: Rec)
  {
    r.path == w.path && r.kind == w.kind && r.name == w.name && r.idx == w.idx && r.preserve == w.preserve
    && r.removepkg == w.removepkg && (r.kind == Link ==> r.target == w.target)
  }

  ghost predicate Numbered(recs: seq<Rec>)
  {
    forall i, j | 0 <= i < j < |recs| :: recs[i].idx <= recs[j].idx
  }

  /** Of the packages that give up a path that is no directory the record of the first is kept. */
  lemma {:induction false} FirstRemover(outs: seq<Rec>, p: Path)
    requires forall k | 0 <= k < |outs| && outs[k].path == p :: outs[k].kind != Dir
    ensures Was(outs, p).None? <==> forall k | 0 <= k < |outs| :: outs[k].path != p
    ensures Was(outs, p).Some? ==>
              exists f | 0 <= f < |outs| :: Was(outs, p) == Some(outs[f]) && forall k | 0 <= k < f :: outs[k].path != p
  {
    Remover(outs, p);
    if outs != [] {
      var init, r := outs[..|outs| - 1], outs[|outs| - 1];
      assert outs == init + [r];
      assert forall k | 0 <= k < |init| :: outs[k] == init[k];
      FirstRemover(init, p);
      if Was(init, p).Some? {
        var f :| 0 <= f < |init| && Was(init, p) == Some(init[f]) && forall k | 0 <= k < f :: init[k].path != p;
        assert outs[f] == init[f];
      } else if r.path == p {
        assert outs[|init|] == r;
      }
    }
  }

  ghost predicate Alike(outs: seq<Rec>, p: Path)
  {
    forall i, j | 0 <= i < j < |outs| && outs[i].path == p && outs[j].path == p :: outs[i].preserve == outs[j].preserve
  }

  ghost predicate NoClash(outs: seq<Rec>, p: Path)
  {
    forall k | 0 <= k < |outs| && outs[k].path == p :: !OutClash(outs[..k], outs[k])
  }

  /** Packages give up a path that is no directory without a clash if and only if all of them preserve it or none
      does. */
  lemma {:induction false} PreservedAlike(outs: seq<Rec>, p: Path)
    requires forall k | 0 <= k < |outs| && outs[k].path == p :: outs[k].kind != Dir
    ensures NoClash(outs, p) <==> Alike(outs, p)
  {
    if outs != [] {
      var init, r := outs[..|outs| - 1], outs[|outs| - 1];
      assert outs == init + [r];
      assert forall k | 0 <= k < |init| :: outs[k] == init[k];
      PreservedAlike(init, p);
      FirstRemover(init, p);
      hide Was;
      ClashMore(init, r, p);
      AlikeMore(init, r, p);
    }
  }

  lemma ClashMore(init: seq<Rec>, r: Rec, p: Path)
    ensures NoClash(init + [r], p) <==> NoClash(init, p) && (r.path == p ==> !OutClash(init, r))
  {
    hide OutClash;
    var s := init + [r];
    assert s[..|init|] == init && s[|init|] == r;
    assert forall k | 0 <= k < |init| :: s[k] == init[k] && s[..k] == init[..k];
  }

  lemma AlikeMore(init: seq<Rec>, r: Rec, p: Path)
    requires Was(init, p).None? <==> forall k | 0 <= k < |init| :: init[k].path != p
    requires Was(init, p).Some? ==> exists f | 0 <= f < |init| :: Was(init, p) == Some(init[f]) && init[f].path == p
    ensures Alike(init + [r], p) <==>
            Alike(init, p) && (r.path == p && Was(init, p).Some? ==> Was(init, p).value.preserve == r.preserve)
  {
    hide Was;
    var s := init + [r];
    assert s[|init|] == r && forall k | 0 <= k < |init| :: s[k] == init[k];
    if Was(init, p).Some? && r.path == p && Alike(init, p) {
      var f :| 0 <= f < |init| && Was(init, p) == Some(init[f]) && init[f].path == p;
      assert forall k | 0 <= k < |init| && init[k].path == p :: init[k].preserve == init[f].preserve;
      assert s[f] == init[f];
    }
  }

  /** A directory that nobody preserves is removed by the last package that gives it up. */
  lemma {:induction false} LastRemover(outs: seq<Rec>, p: Path, k: nat)
    requires Numbered(outs) && k < |outs| && outs[k].path == p && outs[k].kind == Dir
    requires Was(outs, p).Some? && Was(outs, p).value.kind == Dir && !Was(outs, p).value.preserve
    ensures outs[k].idx <= Was(outs, p).value.idx
  {
    var init, r := outs[..|outs| - 1], outs[|outs| - 1];
    assert outs == init + [r];
    Remover(init, p);
    if k < |init| {
      assert init[k] == outs[k];
      LastRemover(init, p, k);
    } else if Was(init, p).Some? {
      var j :| 0 <= j < |init| && Stands(init[j], Was(init, p).value);
      assert outs[j].idx <= r.idx;
    }
  }

  /** The records are in transaction order, and each belongs to the package it is numbered after. */
  lemma {:induction false} InOrder(t: Trans, n: nat, out: bool)
    requires n <= |t|
    ensures Numbered(Shares(t, n, out))
    ensures forall k | 0 <= k < |Shares(t, n, out)| ::
              var r := Shares(t, n, out)[k]; 1 <= r.idx <= n && r in Share(t[r.idx - 1], r.idx, out)
  {
    hide Share;
    if n > 0 {
      InOrder(t, n - 1, out);
      var init, last := Shares(t, n - 1, out), Share(t[n - 1], n, out);
      forall k | 0 <= k < |Shares(t, n, out)|
        ensures var r := Shares(t, n, out)[k]; 1 <= r.idx <= n && r in Share(t[r.idx - 1], r.idx, out)
      {
        if k >= |init| {
          assert Shares(t, n, out)[k] == last[k - |init|];
        }
      }
    }
  }

  /** Every manifest line of a package in the transaction has its record. */
  lemma {:induction false} Shared(t: Trans, n: nat, out: bool, i: nat, r: Rec)
    requires i < n <= |t| && r in Share(t[i], i + 1, out)
    ensures r in Shares(t, n, out)
  {
    if i < n - 1 {
      Shared(t, n - 1, out, i, r);
    }
  }
}
