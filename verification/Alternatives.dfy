/** The registry of alternatives: for every group the packages that provide it, the current one first. */
module Alternatives {
  import opened Common

  type Name = string

  type Group = string

  /** alts: the links of each group the package provides; bare: it has neither run_depends nor shlib-requires. */
  datatype Pkg = Pkg(alts: map<Group, seq<string>>, bare: bool)

  type Db = map<Name, Pkg>

  type Groups = map<Group, seq<Name>>

  function ListOf(groups: Groups, g: Group): seq<Name>
  {
    if g in groups then groups[g] else []
  }

  ghost predicate Provides(db: Db, p: Name, g: Group)
  {
    p in db && g in db[p].alts
  }

  /** The list of `g` holds, once each, exactly the installed packages that provide it. */
  ghost predicate Exact(db: Db, groups: Groups, g: Group)
  {
    && NoDup(ListOf(groups, g))
    && (forall p :: p in ListOf(groups, g) <==> Provides(db, p, g))
    && (g in groups ==> groups[g] != [])
  }

  /** No group is empty. */
  ghost predicate Clean(groups: Groups)
  {
    forall g <- groups :: groups[g] != []
  }

  ghost predicate AllExact(db: Db, groups: Groups)
  {
    forall g :: Exact(db, groups, g)
  }

  /** The list with `p` taken out; nothing else moves. */
  function Without(s: seq<Name>, p: Name): (r: seq<Name>)
    ensures forall x :: x in r <==> x in s && x != p
  {
    if s == [] then []
    else
      assert s == [s[0]] + s[1..];
      if s[0] == p then Without(s[1..], p) else [s[0]] + Without(s[1..], p)
  }

  lemma {:induction false} WithoutNoDup(s: seq<Name>, p: Name)
    requires NoDup(s)
    ensures NoDup(Without(s, p))
  {
    if s != [] {
      var rest := Without(s[1..], p);
      WithoutNoDup(s[1..], p);
      assert forall i | 0 <= i < |rest| :: rest[i] in s[1..];
    }
  }

  lemma {:induction false} WithoutAbsent(s: seq<Name>, p: Name)
    requires p !in s
    ensures Without(s, p) == s
  {
    if s != [] {
      assert s == [s[0]] + s[1..];
      WithoutAbsent(s[1..], p);
    }
  }

  /** flappy_remove_string_from_array: the first match goes; there is no other. */
  method RemoveString(s: seq<Name>, p: Name) returns (r: seq<Name>)
    requires NoDup(s)
    ensures r == Without(s, p)
  {
    var i := 0;
    while i < |s| && s[i] != p
      invariant i <= |s| && p !in s[..i]
    {
      i := i + 1;
    }
    Cut(s, p, i);
    r := if i < |s| then s[..i] + s[i + 1..] else s;
  }

  lemma {:induction false} Cut(s: seq<Name>, p: Name, i: nat)
    requires NoDup(s) && i <= |s| && p !in s[..i] && (i < |s| ==> s[i] == p)
    ensures Without(s, p) == if i < |s| then s[..i] + s[i + 1..] else s
  {
    if i == |s| {
      assert s[..i] == s;
      WithoutAbsent(s, p);
    } else if i == 0 {
      assert p !in s[1..];
      WithoutAbsent(s[1..], p);
      assert s[..0] + s[1..] == s[1..];
    } else {
      assert s[0] in s[..i];
      assert s[1..][..i - 1] == s[..i][1..];
      Cut(s[1..], p, i - 1);
      assert [s[0]] + (s[1..][..i - 1] + s[1..][i..]) == s[..i] + s[i + 1..];
    }
  }

  // ---------------------------------------------------------------- what the operations do to one list

  /** Putting `p` at the head. */
  function Promoted(l: seq<Name>, p: Name): seq<Name>
  {
    [p] + Without(l, p)
  }

  /** Taking `p` out on an update.  If it was current, its successor is the most recent provider, or the next one if
      the new package is bare. */
  function Pruned(l: seq<Name>, p: Name, bare: bool): seq<Name>
  {
    var rest := Without(l, p);
    if rest == [] || l[0] != p || bare then rest else Promoted(rest, rest[|rest| - 1])
  }

  function Added(l: seq<Name>, p: Name): seq<Name>
  {
    if p in l then l else l + [p]
  }

  /** The list of `g` after `p` was installed or updated to `new1`. */
  function Registered(db: Db, groups: Groups, p: Name, new1: Pkg, g: Group): seq<Name>
  {
    var l := ListOf(groups, g);
    var kept := if p in db && g in db[p].alts && (g !in new1.alts || new1.alts[g] == []) then Pruned(l, p, new1.bare)
                else l;
    if g in new1.alts then Added(kept, p) else kept
  }

  lemma PromotedHolds(l: seq<Name>, p: Name)
    requires NoDup(l) && p in l
    ensures NoDup(Promoted(l, p)) && forall x :: x in Promoted(l, p) <==> x in l
  {
    WithoutNoDup(l, p);
    assert forall i | 0 <= i < |Without(l, p)| :: Without(l, p)[i] in Without(l, p);
  }

  lemma PrunedHolds(l: seq<Name>, p: Name, bare: bool)
    requires NoDup(l)
    ensures NoDup(Pruned(l, p, bare)) && forall x :: x in Pruned(l, p, bare) <==> x in l && x != p
  {
    var rest := Without(l, p);
    WithoutNoDup(l, p);
    if rest != [] {
      PromotedHolds(rest, rest[|rest| - 1]);
    }
  }

  lemma RegisteredHolds(db: Db, groups: Groups, p: Name, new1: Pkg, g: Group)
    requires Exact(db, groups, g)
    ensures NoDup(Registered(db, groups, p, new1, g))
    ensures forall x :: x in Registered(db, groups, p, new1, g) <==> Provides(db[p := new1], x, g)
  {
    PrunedHolds(ListOf(groups, g), p, new1.bare);
    hide Pruned;
  }

  // ---------------------------------------------------------------- the same, by positions

  /** `p` was moved to the head; the others keep their order. */
  ghost predicate InFront(l: seq<Name>, l1: seq<Name>, p: Name)
  {
    exists k | 0 <= k < |l| :: l[k] == p && l1 == [p] + l[..k] + l[k + 1..]
  }

  /** `p` was taken out; the others keep their order. */
  ghost predicate TakenOut(l: seq<Name>, l1: seq<Name>, p: Name)
  {
    if p in l then exists k | 0 <= k < |l| :: l[k] == p && l1 == l[..k] + l[k + 1..] else l1 == l
  }

  /** `p` was taken out; if it was current, the provider that registered last takes its place, or the next one if the
      new package is bare. */
  ghost predicate Succeeded(l: seq<Name>, l1: seq<Name>, p: Name, bare: bool)
  {
    if |l| > 1 && l[0] == p && !bare then l1 == [l[|l| - 1]] + l[1..|l| - 1] else TakenOut(l, l1, p)
  }

  /** The version `new1` of `p` gives up the group that the installed version provides. */
  ghost predicate GivesUp(db: Db, p: Name, new1: Pkg, g: Group)
  {
    p in db && g in db[p].alts && (g !in new1.alts || new1.alts[g] == [])
  }

  /** A new provider comes last, one that is known keeps its place, and one that gives the group up is succeeded. */
  ghost predicate Joined(db: Db, p: Name, new1: Pkg, g: Group, l: seq<Name>, l1: seq<Name>)
  {
    if GivesUp(db, p, new1, g) then
      exists kept :: Succeeded(l, kept, p, new1.bare) && l1 == if g in new1.alts then kept + [p] else kept
    else
      l1 == if g in new1.alts && p !in l then l + [p] else l
  }

  lemma CutAt(l: seq<Name>, p: Name, k: nat)
    requires NoDup(l) && k < |l| && l[k] == p
    ensures Without(l, p) == l[..k] + l[k + 1..]
  {
    assert p !in l[..k];
    hide Without;
    Cut(l, p, k);
  }

  lemma WithoutPlace(l: seq<Name>, p: Name)
    requires NoDup(l)
    ensures TakenOut(l, Without(l, p), p)
    ensures p in l ==> InFront(l, Promoted(l, p), p)
  {
    hide NoDup, Without;
    if p in l {
      var k :| 0 <= k < |l| && l[k] == p;
      CutAt(l, p, k);
      assert [p] + (l[..k] + l[k + 1..]) == [p] + l[..k] + l[k + 1..];
    } else {
      WithoutAbsent(l, p);
    }
  }

  /** The last provider of a longer list takes the place of the first. */
  lemma LastPromoted(l: seq<Name>, p: Name)
    requires NoDup(l) && |l| > 1 && l[0] == p
    ensures Pruned(l, p, false) == [l[|l| - 1]] + l[1..|l| - 1]
  {
    hide NoDup, Without;
    var rest, n := l[1..], |l| - 2;
    CutAt(l, p, 0);
    assert l[..0] + rest == rest;
    WithoutNoDup(l, p);
    CutAt(rest, rest[n], n);
    assert rest[..n] + rest[n + 1..] == l[1..|l| - 1];
  }

  lemma PrunedPlace(l: seq<Name>, p: Name, bare: bool)
    requires NoDup(l)
    ensures Succeeded(l, Pruned(l, p, bare), p, bare)
  {
    hide NoDup, Without, TakenOut;
    WithoutPlace(l, p);
    if |l| > 1 && l[0] == p && !bare {
      LastPromoted(l, p);
    } else if |l| == 1 && l[0] == p {
      CutAt(l, p, 0);
    } else if l == [] {
      WithoutAbsent(l, p);
    }
  }

  lemma RegisteredPlace(db: Db, groups: Groups, p: Name, new1: Pkg, g: Group)
    requires NoDup(ListOf(groups, g))
    ensures Joined(db, p, new1, g, ListOf(groups, g), Registered(db, groups, p, new1, g))
  {
    var l := ListOf(groups, g);
    PrunedHolds(l, p, new1.bare);
    PrunedPlace(l, p, new1.bare);
    hide Pruned, Succeeded;
  }

  // ---------------------------------------------------------------- the registry

  datatype Status = Ok | NoEntry

  class Registry {
    var db: Db
    var groups: Groups

    ghost predicate Valid()
      reads this
    {
      AllExact(db, groups)
    }

    constructor ()
      ensures Valid() && db == map[]
    {
      db, groups := map[], map[];
    }

    /** Writes a list back; an empty group is removed. */
    method Store(g: Group, l: seq<Name>)
      modifies `groups
      ensures forall h :: ListOf(groups, h) == if h == g then l else ListOf(old(groups), h)
      ensures Clean(old(groups)) ==> Clean(groups)
    {
      groups := if l == [] then groups - {g} else groups[g := l];
    }

    /** switch_alt_group asserts that the new current package is installed. */
    method SwitchAltGroup(g: Group, p: Name)
      requires Provides(db, p, g)
    {
      assert p in db;
    }

    method AlternativesSet(p: Name, only: set<Group>) returns (rv: Status)
      requires Valid() && |only| <= 1
      modifies `groups
      ensures Valid()
      ensures rv == Ok <==> p in db && db[p].alts != map[] && only <= db[p].alts.Keys
      ensures forall g | rv == Ok :: ListOf(groups, g) ==
                if g in db[p].alts && (only == {} || g in only) then Promoted(ListOf(old(groups), g), p)
                else ListOf(old(groups), g)
      ensures forall g | rv == Ok && g in db[p].alts && (only == {} || g in only) ::
                InFront(ListOf(old(groups), g), ListOf(groups, g), p)
      ensures rv == NoEntry ==> groups == old(groups)
    {
      hide Exact, Provides, NoDup, InFront, Without;
      if p !in db || |db[p].alts| == 0 || !(only <= db[p].alts.Keys) {
        assert p in db && |db[p].alts| == 0 ==> db[p].alts == map[];
        return NoEntry;
      }
      ghost var groups0 := groups;
      var todo := if only == {} then db[p].alts.Keys else only;
      ghost var all := todo;
      while todo != {}
        invariant todo <= all && Valid()
        invariant forall g :: ListOf(groups, g) ==
                    if g in all && g !in todo then Promoted(ListOf(groups0, g), p) else ListOf(groups0, g)
        decreases |todo|
      {
        var g :| g in todo;
        GroupExact(db, groups, g, p);
        var rest := RemoveString(groups[g], p);
        PromoteExact(db, groups, g, p, [p] + rest);
        groups := groups[g := [p] + rest];
        todo := todo - {g};
      }
      rv := Ok;
      AllInFront(db, groups0, groups, all, p);
    }

    /** Called for a package that goes away or is about to be updated; in the latter case only the links change. */
    method AlternativesUnregister(p: Name, update: bool)
      requires Valid() && p in db
      modifies `groups
      ensures update ==> groups == old(groups)
      ensures !update ==> forall g :: ListOf(groups, g) == Without(ListOf(old(groups), g), p)
      ensures Clean(groups)
    {
      hide Exact, Provides, Clean, DroppedBut;
      NoEmpty(db, groups);
      ghost var groups0 := groups;
      var todo := if update then {} else db[p].alts.Keys;
      DropStart(groups, p, db[p].alts.Keys);
      while todo != {}
        invariant todo <= db[p].alts.Keys && Clean(groups)
        invariant if update then groups == groups0 && todo == {}
                  else DroppedBut(groups0, groups, p, db[p].alts.Keys, todo)
        decreases |todo|
      {
        var g :| g in todo;
        ghost var groups1 := groups;
        DropNext(groups0, groups, p, db[p].alts.Keys, todo, g);
        DropGroup(groups0, g, p);
        DropStep(groups0, groups1, groups, p, db[p].alts.Keys, todo, g);
        todo := todo - {g};
      }
      if !update {
        OthersUntouched(db, groups0, groups, p);
      }
    }

    method DropGroup(ghost groups0: Groups, g: Group, p: Name)
      requires AllExact(db, groups0) && p in db && g in db[p].alts && ListOf(groups, g) == ListOf(groups0, g)
      requires Clean(groups)
      modifies `groups
      ensures forall h :: ListOf(groups, h) == if h == g then Without(ListOf(groups0, g), p) else ListOf(old(groups), h)
      ensures Clean(groups)
    {
      hide Exact, Provides, Clean;
      GroupExact(db, groups0, g, p);
      var l := ListOf(groups, g);
      var current := l[0] == p;
      var rest := RemoveString(l, p);
      Store(g, rest);
      if rest != [] && current {
        Successor(db, groups0, g, p, rest[0]);
        SwitchAltGroup(g, rest[0]);
      }
    }

    method PruneAltgroup(p: Name, bare: bool, g: Group)
      requires Exact(db, groups, g) && Provides(db, p, g) && Clean(groups)
      modifies `groups
      ensures forall h :: ListOf(groups, h) == if h == g then Pruned(ListOf(old(groups), g), p, bare)
                                               else ListOf(old(groups), h)
      ensures Succeeded(ListOf(old(groups), g), ListOf(groups, g), p, bare)
      ensures Clean(groups)
    {
      PrunedPlace(ListOf(groups, g), p, bare);
      OneExact(db, groups, g, p);
      hide Exact, NoDup, Clean, Succeeded;
      var l := groups[g];
      var current := l[0] == p;
      var rest := RemoveString(l, p);
      Store(g, rest);
      if rest == [] || !current {
        return;
      }
      if bare {
        Rest(db, l, g, p, rest[0]);
        SwitchAltGroup(g, rest[0]);
        return;
      }
      var last := rest[|rest| - 1];
      Rest(db, l, g, p, last);
      WithoutNoDup(l, p);
      var others := RemoveString(rest, last);
      Store(g, [last] + others);
      SwitchAltGroup(g, last);
    }

    method RemoveObsoletes(p: Name, new1: Pkg)
      requires Valid()
      modifies `groups
      ensures forall g :: ListOf(groups, g) ==
                if p in db && g in db[p].alts && (g !in new1.alts || new1.alts[g] == [])
                then Pruned(ListOf(old(groups), g), p, new1.bare) else ListOf(old(groups), g)
      ensures Clean(groups)
    {
      hide Exact, Provides, Pruned, Clean, Added;
      NoEmpty(db, groups);
      if p !in db {
        return;
      }
      ghost var groups0 := groups;
      var todo := db[p].alts.Keys;
      while todo != {}
        invariant todo <= db[p].alts.Keys
        invariant forall g :: ListOf(groups, g) ==
                    if g in db[p].alts && g !in todo && (g !in new1.alts || new1.alts[g] == [])
                    then Pruned(ListOf(groups0, g), p, new1.bare) else ListOf(groups0, g)
        invariant Clean(groups)
        decreases |todo|
      {
        var g :| g in todo;
        if g !in new1.alts || |new1.alts[g]| == 0 {
          StillExact(db, groups0, groups, g, p);
          PruneAltgroup(p, new1.bare, g);
        }
        todo := todo - {g};
      }
    }

    method AlternativesRegister(p: Name, new1: Pkg)
      requires Valid()
      modifies `groups
      ensures forall g :: ListOf(groups, g) == Registered(db, old(groups), p, new1, g)
      ensures Clean(groups)
    {
      hide Exact, Provides, Pruned, Clean, Added;
      ghost var groups0 := groups;
      RemoveObsoletes(p, new1);
      hide AddedBut;
      ghost var groups1 := groups;
      var todo := new1.alts.Keys;
      AddStart(groups, p, new1.alts.Keys);
      while todo != {}
        invariant todo <= new1.alts.Keys && Clean(groups) && AddedBut(groups1, groups, p, new1.alts.Keys, todo)
        decreases |todo|
      {
        var g :| g in todo;
        ghost var groups2 := groups;
        var l := ListOf(groups, g);
        if p !in l {
          Store(g, l + [p]);
        }
        AddStep(groups1, groups2, groups, p, new1.alts.Keys, todo, g);
        todo := todo - {g};
      }
      AllAdded(db, groups0, groups1, groups, p, new1);
    }

    /** A package is installed, reinstalled or updated. */
    method Install(p: Name, new1: Pkg)
      requires Valid()
      modifies this
      ensures Valid() && db == old(db)[p := new1]
      ensures forall g :: ListOf(groups, g) == Registered(old(db), old(groups), p, new1, g)
      ensures forall g :: Joined(old(db), p, new1, g, ListOf(old(groups), g), ListOf(groups, g))
    {
      hide Exact, Registered, Clean, Joined;
      ghost var groups0 := groups;
      if p in db {
        AlternativesUnregister(p, true);
      }
      AlternativesRegister(p, new1);
      ghost var db1 := db[p := new1];
      forall g
        ensures Exact(db1, groups, g)
        ensures Joined(db, p, new1, g, ListOf(groups0, g), ListOf(groups, g))
      {
        assert Exact(db, groups0, g);
        ExactOnce(db, groups0, g);
        RegisteredPlace(db, groups0, p, new1, g);
        RegisteredHolds(db, groups0, p, new1, g);
        MakeExact(db1, groups, g);
      }
      db := db[p := new1];
    }

    /** A package is removed: the next provider becomes current where it was. */
    method Remove(p: Name)
      requires Valid() && p in db
      modifies this
      ensures Valid() && db == old(db) - {p}
      ensures forall g :: ListOf(groups, g) == Without(ListOf(old(groups), g), p)
      ensures forall g :: TakenOut(ListOf(old(groups), g), ListOf(groups, g), p)
    {
      hide Exact, Clean, TakenOut;
      ghost var groups0 := groups;
      AlternativesUnregister(p, false);
      ghost var db1 := db - {p};
      forall g
        ensures Exact(db1, groups, g)
        ensures TakenOut(ListOf(groups0, g), ListOf(groups, g), p)
      {
        assert Exact(db, groups0, g);
        ExactOnce(db, groups0, g);
        WithoutPlace(ListOf(groups0, g), p);
        GoneExact(db, groups0, groups, g, p);
      }
      db := db - {p};
    }
  }

  // ---------------------------------------------------------------- lemmas of the operations

  lemma FrontOf(db: Db, groups: Groups, g: Group, p: Name)
    requires AllExact(db, groups) && p in db && g in db[p].alts
    ensures InFront(ListOf(groups, g), Promoted(ListOf(groups, g), p), p)
  {
    GroupExact(db, groups, g, p);
    hide *;
    WithoutPlace(ListOf(groups, g), p);
  }

  lemma AllInFront(db: Db, groups0: Groups, groups: Groups, all: set<Group>, p: Name)
    requires AllExact(db, groups0) && p in db && all <= db[p].alts.Keys
    requires forall g <- all :: ListOf(groups, g) == Promoted(ListOf(groups0, g), p)
    ensures forall g <- all :: InFront(ListOf(groups0, g), ListOf(groups, g), p)
  {
    hide AllExact, ListOf, Promoted, InFront;
    forall g <- all
      ensures InFront(ListOf(groups0, g), ListOf(groups, g), p)
    {
      FrontOf(db, groups0, g, p);
    }
  }

  lemma ExactOnce(db: Db, groups: Groups, g: Group)
    requires Exact(db, groups, g)
    ensures NoDup(ListOf(groups, g))
  {
  }

  lemma MakeExact(db: Db, groups: Groups, g: Group)
    requires NoDup(ListOf(groups, g)) && (forall p :: p in ListOf(groups, g) <==> Provides(db, p, g))
    requires Clean(groups)
    ensures Exact(db, groups, g)
  {
  }

  /** `p` has been taken out of the groups `keys`, but for those in `todo`. */
  ghost predicate DroppedBut(groups0: Groups, groups: Groups, p: Name, keys: set<Group>, todo: set<Group>)
  {
    forall g :: ListOf(groups, g) ==
      if g in keys && g !in todo then Without(ListOf(groups0, g), p) else ListOf(groups0, g)
  }

  lemma DropStart(groups: Groups, p: Name, keys: set<Group>)
    ensures DroppedBut(groups, groups, p, keys, keys)
  {
  }

  lemma DropNext(groups0: Groups, groups: Groups, p: Name, keys: set<Group>, todo: set<Group>, g: Group)
    requires DroppedBut(groups0, groups, p, keys, todo) && g in todo
    ensures ListOf(groups, g) == ListOf(groups0, g)
  {
  }

  lemma DropStep(groups0: Groups, groups: Groups, groups1: Groups, p: Name, keys: set<Group>, todo: set<Group>,
      g: Group)
    requires DroppedBut(groups0, groups, p, keys, todo) && g in keys
    requires forall h :: ListOf(groups1, h) == if h == g then Without(ListOf(groups0, g), p) else ListOf(groups, h)
    ensures DroppedBut(groups0, groups1, p, keys, todo - {g})
  {
    hide ListOf, Without;
  }

  /** `p` has been added to the groups `keys`, but for those in `todo`. */
  ghost predicate AddedBut(groups0: Groups, groups: Groups, p: Name, keys: set<Group>, todo: set<Group>)
  {
    forall g :: ListOf(groups, g) ==
      if g in keys && g !in todo then Added(ListOf(groups0, g), p) else ListOf(groups0, g)
  }

  lemma AddStart(groups: Groups, p: Name, keys: set<Group>)
    ensures AddedBut(groups, groups, p, keys, keys)
  {
  }

  lemma AddStep(groups0: Groups, groups: Groups, groups1: Groups, p: Name, keys: set<Group>, todo: set<Group>, g: Group)
    requires AddedBut(groups0, groups, p, keys, todo) && g in keys && g in todo
    requires if p in ListOf(groups, g) then groups1 == groups
             else forall h :: ListOf(groups1, h) == if h == g then ListOf(groups, g) + [p] else ListOf(groups, h)
    ensures AddedBut(groups0, groups1, p, keys, todo - {g})
  {
    hide ListOf;
  }

  lemma AllAdded(db: Db, groups0: Groups, groups1: Groups, groups: Groups, p: Name, new1: Pkg)
    requires forall g :: ListOf(groups1, g) ==
               if p in db && g in db[p].alts && (g !in new1.alts || new1.alts[g] == [])
               then Pruned(ListOf(groups0, g), p, new1.bare) else ListOf(groups0, g)
    requires AddedBut(groups1, groups, p, new1.alts.Keys, {})
    ensures forall g :: ListOf(groups, g) == Registered(db, groups0, p, new1, g)
  {
    hide Pruned, Added, ListOf;
  }

  lemma NoEmpty(db: Db, groups: Groups)
    requires AllExact(db, groups)
    ensures Clean(groups)
  {
    forall g | g in groups
      ensures groups[g] != []
    {
      assert Exact(db, groups, g);
    }
  }

  lemma GroupExact(db: Db, groups: Groups, g: Group, p: Name)
    requires AllExact(db, groups) && p in db && g in db[p].alts
    ensures g in groups && NoDup(groups[g]) && p in groups[g] && groups[g] == ListOf(groups, g)
  {
    assert Exact(db, groups, g) && Provides(db, p, g);
  }

  lemma OneExact(db: Db, groups: Groups, g: Group, p: Name)
    requires Exact(db, groups, g) && Provides(db, p, g)
    ensures g in groups && NoDup(groups[g]) && p in groups[g] && groups[g] == ListOf(groups, g)
    ensures forall q :: q in groups[g] <==> Provides(db, q, g)
  {
  }

  lemma Rest(db: Db, l: seq<Name>, g: Group, p: Name, q: Name)
    requires (forall x :: x in l <==> Provides(db, x, g)) && q in Without(l, p)
    ensures Provides(db, q, g)
  {
  }

  lemma PromoteExact(db: Db, groups: Groups, g: Group, p: Name, l: seq<Name>)
    requires AllExact(db, groups) && p in ListOf(groups, g) && l == Promoted(ListOf(groups, g), p)
    ensures AllExact(db, groups[g := l])
  {
    assert Exact(db, groups, g);
    PromotedHolds(ListOf(groups, g), p);
    var groups1 := groups[g := l];
    forall h
      ensures Exact(db, groups1, h)
    {
      assert Exact(db, groups, h);
    }
  }

  lemma Successor(db: Db, groups: Groups, g: Group, p: Name, q: Name)
    requires AllExact(db, groups) && q in Without(ListOf(groups, g), p)
    ensures Provides(db, q, g)
  {
    assert Exact(db, groups, g);
  }

  /** A list the package does not provide does not hold it. */
  lemma OthersUntouched(db: Db, groups0: Groups, groups: Groups, p: Name)
    requires AllExact(db, groups0) && p in db && DroppedBut(groups0, groups, p, db[p].alts.Keys, {})
    ensures forall g :: ListOf(groups, g) == Without(ListOf(groups0, g), p)
  {
    forall g
      ensures ListOf(groups, g) == Without(ListOf(groups0, g), p)
    {
      assert Exact(db, groups0, g);
      if g !in db[p].alts {
        assert !Provides(db, p, g);
        WithoutAbsent(ListOf(groups0, g), p);
      }
    }
  }

  lemma StillExact(db: Db, groups0: Groups, groups: Groups, g: Group, p: Name)
    requires AllExact(db, groups0) && p in db && g in db[p].alts && ListOf(groups, g) == ListOf(groups0, g)
    requires Clean(groups)
    ensures Exact(db, groups, g) && Provides(db, p, g)
  {
    assert Exact(db, groups0, g);
  }

  lemma GoneExact(db: Db, groups0: Groups, groups: Groups, g: Group, p: Name)
    requires Exact(db, groups0, g) && ListOf(groups, g) == Without(ListOf(groups0, g), p)
    requires Clean(groups)
    ensures Exact(db - {p}, groups, g)
  {
    WithoutNoDup(ListOf(groups0, g), p);
  }
}
