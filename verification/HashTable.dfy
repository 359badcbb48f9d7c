/** The hash table behind every lookup of the library: buckets that double, and the list of elements in the order in
    which they were added.  It refines a finite map. */
module HashTable {
  import opened Common

  const INITIAL_LOG2: nat := 5
  const CAPACITY_THRESH: nat := 10

  /** An element with its key and the hash of the key; `value` stands for whatever it holds. */
  datatype Elem = Elem(key: string, hashv: nat, value: nat)

  datatype Bucket = Bucket(chain: seq<Elem>, count: nat, mult: nat)

  function Pow2(n: nat): (r: nat)
    ensures r > 0
  {
    if n == 0 then 1 else 2 * Pow2(n - 1)
  }

  /** HASH_TO_BKT: the number of buckets is a power of two, so masking is taking the remainder. */
  function Slot(h: nat, n: nat): (r: nat)
    requires n > 0
    ensures r < n
  {
    h % n
  }

  // ---------------------------------------------------------------- sums over the buckets

  ghost function Total(bs: seq<Bucket>): nat
  {
    if bs == [] then 0 else Total(bs[..|bs| - 1]) + bs[|bs| - 1].count
  }

  function Over(count: nat, ideal: nat): nat
  {
    if count > ideal then count - ideal else 0
  }

  /** The items beyond the ideal length, bucket by bucket. */
  ghost function Excess(bs: seq<Bucket>, ideal: nat): nat
  {
    if bs == [] then 0 else Excess(bs[..|bs| - 1], ideal) + Over(bs[|bs| - 1].count, ideal)
  }

  /** There is no excess exactly when every bucket is ideal, and never less than what ideal buckets cannot hold. */
  lemma {:induction false} ExcessBounds(bs: seq<Bucket>, ideal: nat)
    ensures Excess(bs, ideal) == 0 <==> forall i | 0 <= i < |bs| :: bs[i].count <= ideal
    ensures Excess(bs, ideal) <= Total(bs) <= Excess(bs, ideal) + |bs| * ideal
  {
    if bs != [] {
      var init := bs[..|bs| - 1];
      assert bs == init + [bs[|bs| - 1]];
      ExcessBounds(init, ideal);
      assert |bs| * ideal == |init| * ideal + ideal;
    }
  }

  lemma {:induction false} SumsUpdate(bs: seq<Bucket>, i: nat, b: Bucket, ideal: nat)
    requires i < |bs|
    ensures Total(bs[i := b]) + bs[i].count == Total(bs) + b.count
    ensures Excess(bs[i := b], ideal) + Over(bs[i].count, ideal) == Excess(bs, ideal) + Over(b.count, ideal)
  {
    var n := |bs| - 1;
    if i == n {
      assert bs[i := b][..n] == bs[..n];
    } else {
      assert bs[i := b][..n] == bs[..n][i := b];
      SumsUpdate(bs[..n], i, b, ideal);
    }
  }

  function Empties(n: nat): (bs: seq<Bucket>)
    ensures |bs| == n && forall i | 0 <= i < n :: bs[i] == Bucket([], 0, 0)
  {
    seq(n, i => Bucket([], 0, 0))
  }

  lemma {:induction false} EmptiesSum(n: nat, ideal: nat)
    ensures Total(Empties(n)) == 0 && Excess(Empties(n), ideal) == 0
  {
    if n > 0 {
      assert Empties(n)[..n - 1] == Empties(n - 1);
      EmptiesSum(n - 1, ideal);
    }
  }

  // ---------------------------------------------------------------- which elements are where

  /** Each bucket holds, once each, exactly the elements of `es` whose hash leads to it. */
  ghost predicate Placed(bs: seq<Bucket>, es: set<Elem>)
  {
    && |bs| > 0
    && (forall i | 0 <= i < |bs| :: NoDup(bs[i].chain) && bs[i].count == |bs[i].chain|)
    && (forall i, e | 0 <= i < |bs| :: e in bs[i].chain <==> e in es && Slot(e.hashv, |bs|) == i)
  }

  ghost predicate Keyed(order: seq<Elem>, hash: string -> nat)
  {
    && (forall e <- order :: e.hashv == hash(e.key))
    && (forall i, j | 0 <= i < j < |order| :: order[i].key != order[j].key)
  }

  /** The map the table stands for. */
  ghost function Contents(order: seq<Elem>): map<string, nat>
  {
    if order == [] then map[] else Contents(order[..|order| - 1])[order[|order| - 1].key := order[|order| - 1].value]
  }

  lemma {:induction false} ContentsAt(order: seq<Elem>, hash: string -> nat, e: Elem)
    requires Keyed(order, hash) && e in order
    ensures e.key in Contents(order) && Contents(order)[e.key] == e.value
  {
    var init := order[..|order| - 1];
    assert order == init + [order[|order| - 1]];
    if e in init {
      ContentsAt(init, hash, e);
    }
  }

  lemma {:induction false} ContentsKey(order: seq<Elem>, key: string)
    ensures key in Contents(order) <==> exists e <- order :: e.key == key
  {
    if order != [] {
      var init, e := order[..|order| - 1], order[|order| - 1];
      assert order == init + [e];
      ContentsKey(init, key);
      if e.key == key {
        assert e in order;
      }
    }
  }

  lemma AddPlaced(bs: seq<Bucket>, es: set<Elem>, e: Elem, mult: nat)
    requires Placed(bs, es) && e !in es
    ensures var i := Slot(e.hashv, |bs|);
            Placed(bs[i := Bucket([e] + bs[i].chain, bs[i].count + 1, mult)], es + {e})
  {
    hide Slot;
    var i := Slot(e.hashv, |bs|);
    assert e !in bs[i].chain;
  }

  lemma RemovePlaced(bs: seq<Bucket>, es: set<Elem>, e: Elem, k: nat)
    requires Placed(bs, es) && e in es && k < |bs[Slot(e.hashv, |bs|)].chain| && bs[Slot(e.hashv, |bs|)].chain[k] == e
    ensures var i := Slot(e.hashv, |bs|);
            bs[i].count > 0 &&
            Placed(bs[i := bs[i].(chain := bs[i].chain[..k] + bs[i].chain[k + 1..], count := bs[i].count - 1)],
                   es - {e})
  {
    hide Slot;
    var i := Slot(e.hashv, |bs|);
    Without(bs[i].chain, k);
  }

  lemma Without(es: seq<Elem>, k: nat)
    requires k < |es| && NoDup(es)
    ensures NoDup(es[..k] + es[k + 1..])
    ensures forall e :: e in es[..k] + es[k + 1..] <==> e in es && e != es[k]
  {
    var rest := es[..k] + es[k + 1..];
    assert forall j | 0 <= j < |rest| :: rest[j] == es[if j < k then j else j + 1];
    forall e | e in es && e != es[k]
      ensures e in rest
    {
      var j :| 0 <= j < |es| && es[j] == e;
      assert rest[if j < k then j else j - 1] == e;
    }
  }

  // ---------------------------------------------------------------- the multiplier after a doubling

  /** The multiplier of a bucket that has received `count` elements. */
  function MultOf(count: nat, ideal: nat): nat
  {
    if count == 0 then 0
    else
      var m := MultOf(count - 1, ideal);
      if count > ideal && count > m * ideal then m + 1 else m
  }

  /** It is the length in ideal lengths, give or take one: 0 when the length is ideal. */
  lemma {:induction false} MultBounds(count: nat, ideal: nat)
    requires ideal > 0
    ensures MultOf(count, ideal) == 0 <==> count <= ideal
    ensures count <= MultOf(count, ideal) * ideal + ideal
    ensures MultOf(count, ideal) > 0 ==> MultOf(count, ideal) * ideal < count + ideal
  {
    if count > 0 {
      MultBounds(count - 1, ideal);
      var m := MultOf(count - 1, ideal);
      OneMore(m, ideal);
    }
  }

  lemma OneMore(m: nat, ideal: nat)
    ensures (m + 1) * ideal == m * ideal + ideal
  {
  }

  /** Ceiling division as a quotient and a remainder; the program shifts and masks, as the number of buckets is a power
      of two. */
  function Ideal(n: nat, buckets: nat): nat
    requires buckets > 0
  {
    n / buckets + if n % buckets != 0 then 1 else 0
  }

  /** It is the least length at which the buckets can hold everything. */
  lemma IdealIsCeiling(n: nat, buckets: nat, l: nat)
    requires buckets > 0
    ensures Ideal(n, buckets) <= l <==> n <= l * buckets
  {
    var q, r := n / buckets, n % buckets;
    assert n == q * buckets + r;
    if l <= q - 1 {
      Mono(l + 1, q, buckets);
    } else if l >= q + 1 {
      Mono(q + 1, l, buckets);
    }
    OneMore(l, buckets);
    OneMore(q, buckets);
  }

  lemma Mono(a: nat, b: nat, c: nat)
    requires a <= b
    ensures a * c <= b * c
  {
  }

  lemma NewBuckets()
    ensures Pow2(INITIAL_LOG2) == 32
  {
    assert Pow2(5) == 2 * Pow2(4) == 4 * Pow2(3) == 8 * Pow2(2);
  }

  lemma SlotIs(h: nat)
    ensures forall n: nat | n > 0 :: Slot(h, n) == h % n
  {
  }

  // ---------------------------------------------------------------- the table

  class Table {
    const hash: string -> nat
    var order: seq<Elem>
    var buckets: seq<Bucket>
    var log2: nat
    var numItems: nat
    var ideal: nat
    var nonideal: nat
    var ineff: nat
    var noexpand: bool

    ghost predicate Valid()
      reads this
    {
      && Keyed(order, hash) && numItems == |order|
      && (order != [] ==> |buckets| == Pow2(log2) && Placed(buckets, Elements(order)) && Total(buckets) == numItems)
    }

    ghost function View(): map<string, nat>
      reads this
    {
      Contents(order)
    }

    constructor (hash: string -> nat)
      ensures Valid() && order == [] && this.hash == hash
    {
      this.hash := hash;
      order, buckets, log2, numItems, ideal, nonideal, ineff, noexpand := [], [], 0, 0, 0, 0, 0, false;
    }

    /** HASH_FIND: the element of that key, which is unique. */
    method Find(key: string) returns (r: bool, value: nat)
      requires Valid()
      ensures r <==> key in View()
      ensures r ==> View()[key] == value
    {
      hide Slot, Contents, Keyed, Pow2;
      value := 0;
      if order == [] {
        ContentsKey(order, key);
        return false, 0;
      }
      var h := hash(key);
      var chain := buckets[Slot(h, |buckets|)].chain;
      var k := 0;
      while k < |chain|
        invariant 0 <= k <= |chain|
        invariant forall j | 0 <= j < k :: chain[j].key != key
      {
        if chain[k].hashv == h && chain[k].key == key {
          assert chain[k] in Elements(order);
          ContentsAt(order, hash, chain[k]);
          return true, chain[k].value;
        }
        NotKey(order, hash, buckets, h, k, key);
        k := k + 1;
      }
      r := false;
      Absent(order, hash, buckets, h, key);
    }

    /** HASH_ADD_KEYPTR: the caller has made sure that the key is absent.

        A new table has 32 buckets.  They are doubled when the bucket that takes the element comes to ten elements, or
        to ten times the multiplier that it has plus one, unless doubling is inhibited. */
    method Add(key: string, value: nat)
      requires Valid() && key !in View()
      modifies this
      ensures Valid() && order == old(order) + [Elem(key, hash(key), value)]
      ensures View() == old(View())[key := value]
      ensures old(order) == [] ==> |buckets| == 32 && !noexpand
      ensures old(order) != [] ==>
                var b := old(buckets)[hash(key) % |old(buckets)|];
                |buckets| == if b.count + 1 >= 10 * (b.mult + 1) && !old(noexpand) then 2 * |old(buckets)|
                             else |old(buckets)|
      ensures old(order) != [] && |buckets| == |old(buckets)| ==> noexpand == old(noexpand)
    {
      NewBuckets();
      SlotIs(hash(key));
      hide Slot, Contents, Pow2, Keyed, Placed, Excess;
      var e := Elem(key, hash(key), value);
      if order == [] {
        buckets, log2, numItems := Empties(Pow2(INITIAL_LOG2)), INITIAL_LOG2, 0;
        ideal, nonideal, ineff, noexpand := 0, 0, 0, false;
        EmptyPlaced(Pow2(INITIAL_LOG2), order);
        EmptiesSum(Pow2(INITIAL_LOG2), 0);
      }
      ghost var order0 := order;
      AddKeyed(order, hash, e);
      order := order + [e];
      numItems := numItems + 1;
      var i := Slot(e.hashv, |buckets|);
      var b := buckets[i];
      AddPlaced(buckets, Elements(order0), e, b.mult);
      SumsUpdate(buckets, i, Bucket([e] + b.chain, b.count + 1, b.mult), 0);
      buckets := buckets[i := Bucket([e] + b.chain, b.count + 1, b.mult)];
      AddContents(order0, e);
      if b.count + 1 >= (b.mult + 1) * CAPACITY_THRESH && !noexpand {
        ExpandBuckets();
      }
    }

    /** HASH_EXPAND_BUCKETS: twice as many buckets, the same elements. */
    method ExpandBuckets()
      requires Valid() && order != []
      modifies this
      ensures Valid() && order == old(order) && |buckets| == 2 * |old(buckets)|
      ensures |buckets| == Pow2(log2) && log2 == old(log2) + 1
      ensures ideal == Ideal(|order|, |buckets|) && nonideal == Excess(buckets, ideal)
      ensures forall i | 0 <= i < |buckets| :: buckets[i].mult == MultOf(buckets[i].count, ideal)
      ensures ineff == (if nonideal > numItems / 2 then old(ineff) + 1 else 0)
      ensures noexpand <==> old(noexpand) || ineff > 1
    {
      hide Slot, Contents, Keyed, Placed, Excess, Total, MultOf;
      var n := 2 * |buckets|;
      ideal := Ideal(numItems, n);
      nonideal := 0;
      var fresh1 := Empties(n);
      EmptyPlaced(n, []);
      EmptiesSum(n, ideal);
      NoMult(fresh1, ideal);
      ghost var es := Elements(order);
      NoneBelow(buckets, fresh1);
      for i := 0 to |buckets|
        invariant |fresh1| == n && Placed(fresh1, Below(buckets, i)) && Total(fresh1) == Total(buckets[..i])
        invariant nonideal == Excess(fresh1, ideal) && Mults(fresh1, ideal)
        modifies `nonideal
      {
        var more: nat;
        fresh1, more := MoveChain(buckets, i, ideal, fresh1, es);
        nonideal := nonideal + more;
        assert buckets[..i + 1] == buckets[..i] + [buckets[i]];
        TotalMore(buckets, i);
      }
      assert buckets[..|buckets|] == buckets;
      AllBelow(buckets, es);
      buckets := fresh1;
      log2 := log2 + 1;
      ineff := if nonideal > numItems / 2 then ineff + 1 else 0;
      if ineff > 1 {
        noexpand := true;
      }
    }

    /** HASH_DELETE: the last element takes the table with it. */
    method Delete(key: string)
      requires Valid() && key in View()
      modifies this
      ensures Valid() && View() == old(View()) - {key}
      ensures exists k | 0 <= k < |old(order)| ::
                old(order)[k].key == key && order == old(order)[..k] + old(order)[k + 1..]
    {
      hide Slot, Contents, Keyed, Placed, Excess;
      ContentsKey(order, key);
      var k := 0;
      while order[k].key != key
        invariant k < |order| && exists j | k <= j < |order| :: order[j].key == key
        decreases |order| - k
      {
        k := k + 1;
      }
      var e := order[k];
      DeleteKeyed(order, hash, k);
      if |order| == 1 {
        assert order[..k] + order[k + 1..] == [];
        order, buckets, numItems := [], [], 0;
      } else {
        InChain(order, buckets, e);
        var i := Slot(e.hashv, |buckets|);
        var b := buckets[i];
        var j := 0;
        while b.chain[j] != e
          invariant j < |b.chain| && e in b.chain[j..]
          decreases |b.chain| - j
        {
          j := j + 1;
        }
        RemovePlaced(buckets, Elements(order), e, j);
        var b1 := b.(chain := b.chain[..j] + b.chain[j + 1..], count := b.count - 1);
        SumsUpdate(buckets, i, b1, 0);
        buckets := buckets[i := b1];
        order := order[..k] + order[k + 1..];
        numItems := numItems - 1;
      }
    }
  }

  // ---------------------------------------------------------------- lemmas of the operations

  lemma NotKey(order: seq<Elem>, hash: string -> nat, bs: seq<Bucket>, h: nat, k: nat, key: string)
    requires Keyed(order, hash) && Placed(bs, Elements(order)) && h == hash(key)
    requires k < |bs[Slot(h, |bs|)].chain|
    requires var e := bs[Slot(h, |bs|)].chain[k]; !(e.hashv == h && e.key == key)
    ensures bs[Slot(h, |bs|)].chain[k].key != key
  {
    hide Slot;
    assert bs[Slot(h, |bs|)].chain[k] in Elements(order);
  }

  lemma Absent(order: seq<Elem>, hash: string -> nat, bs: seq<Bucket>, h: nat, key: string)
    requires Keyed(order, hash) && Placed(bs, Elements(order)) && h == hash(key)
    requires forall e <- bs[Slot(h, |bs|)].chain :: e.key != key
    ensures key !in Contents(order)
  {
    hide Slot, Contents;
    ContentsKey(order, key);
    forall e | e in order
      ensures e.key != key
    {
      assert e in Elements(order);
      assert e in bs[Slot(e.hashv, |bs|)].chain;
    }
  }

  lemma EmptyPlaced(n: nat, order: seq<Elem>)
    requires n > 0 && order == []
    ensures Placed(Empties(n), Elements(order))
  {
    hide Slot;
  }

  lemma AddKeyed(order: seq<Elem>, hash: string -> nat, e: Elem)
    requires Keyed(order, hash) && e.key !in Contents(order) && e.hashv == hash(e.key)
    ensures Keyed(order + [e], hash) && e !in order && Elements(order + [e]) == Elements(order) + {e}
  {
    hide Contents;
    ContentsKey(order, e.key);
    forall i, j | 0 <= i < j < |order + [e]|
      ensures (order + [e])[i].key != (order + [e])[j].key
    {
      assert order[i] in order;
    }
  }

  lemma AddContents(order: seq<Elem>, e: Elem)
    ensures Contents(order + [e]) == Contents(order)[e.key := e.value]
  {
    assert (order + [e])[..|order|] == order;
  }

  lemma DeleteKeyed(order: seq<Elem>, hash: string -> nat, k: nat)
    requires Keyed(order, hash) && k < |order|
    ensures var rest := order[..k] + order[k + 1..];
            && Keyed(rest, hash) && Elements(rest) == Elements(order) - {order[k]}
            && Contents(rest) == Contents(order) - {order[k].key}
  {
    var rest := order[..k] + order[k + 1..];
    assert NoDup(order);
    Without(order, k);
    hide Contents;
    assert forall j | 0 <= j < |rest| :: rest[j] == order[if j < k then j else j + 1];
    SameContents(rest, order, hash, order[k]);
  }

  lemma SameContents(rest: seq<Elem>, order: seq<Elem>, hash: string -> nat, gone: Elem)
    requires Keyed(order, hash) && Keyed(rest, hash) && gone in order
    requires forall e :: e in rest <==> e in order && e != gone
    ensures Contents(rest) == Contents(order) - {gone.key}
  {
    hide Contents;
    forall key
      ensures key in Contents(rest) <==> key in Contents(order) && key != gone.key
      ensures key in Contents(rest) ==> Contents(rest)[key] == Contents(order)[key]
    {
      ContentsKey(rest, key);
      ContentsKey(order, key);
      OneKey(order, hash, gone);
      if key in Contents(rest) {
        var e :| e in rest && e.key == key;
        ContentsAt(rest, hash, e);
        ContentsAt(order, hash, e);
      }
    }
  }

  lemma OneKey(order: seq<Elem>, hash: string -> nat, e: Elem)
    requires Keyed(order, hash) && e in order
    ensures forall x | x in order && x.key == e.key :: x == e
  {
    forall x | x in order && x.key == e.key
      ensures x == e
    {
      var i :| 0 <= i < |order| && order[i] == e;
      var j :| 0 <= j < |order| && order[j] == x;
    }
  }

  lemma InChain(order: seq<Elem>, bs: seq<Bucket>, e: Elem)
    requires Placed(bs, Elements(order)) && e in order
    ensures e in bs[Slot(e.hashv, |bs|)].chain
  {
    hide Slot;
    assert e in Elements(order);
  }

  // ---------------------------------------------------------------- doubling

  /** The elements of the first `i` buckets. */
  ghost function Below(bs: seq<Bucket>, i: nat): set<Elem>
    requires i <= |bs|
  {
    set k, e | 0 <= k < i && e in bs[k].chain :: e
  }

  ghost predicate Mults(bs: seq<Bucket>, ideal: nat)
  {
    forall i | 0 <= i < |bs| :: bs[i].mult == MultOf(bs[i].count, ideal)
  }

  lemma NoneBelow(bs: seq<Bucket>, fresh1: seq<Bucket>)
    requires Placed(fresh1, Elements([]))
    ensures Placed(fresh1, Below(bs, 0)) && Total(bs[..0]) == 0
  {
    assert Below(bs, 0) == Elements([]);
  }

  lemma NoMult(bs: seq<Bucket>, ideal: nat)
    requires forall i | 0 <= i < |bs| :: bs[i] == Bucket([], 0, 0)
    ensures Mults(bs, ideal)
  {
  }

  lemma TotalMore(bs: seq<Bucket>, i: nat)
    requires i < |bs|
    ensures Total(bs[..i + 1]) == Total(bs[..i]) + bs[i].count
  {
    assert bs[..i + 1][..i] == bs[..i];
  }

  lemma AllBelow(bs: seq<Bucket>, es: set<Elem>)
    requires Placed(bs, es)
    ensures Below(bs, |bs|) == es
  {
    hide Slot;
    forall e | e in es
      ensures e in Below(bs, |bs|)
    {
      assert e in bs[Slot(e.hashv, |bs|)].chain;
    }
  }

  /** Moves the chain of the i-th old bucket, from its head. */
  method MoveChain(bs: seq<Bucket>, i: nat, ideal: nat, fresh0: seq<Bucket>, ghost es: set<Elem>)
    returns (fresh1: seq<Bucket>, more: nat)
    requires Placed(bs, es) && i < |bs| && Placed(fresh0, Below(bs, i)) && Mults(fresh0, ideal)
    ensures |fresh1| == |fresh0| && Placed(fresh1, Below(bs, i + 1)) && Mults(fresh1, ideal)
    ensures Total(fresh1) == Total(fresh0) + bs[i].count
    ensures Excess(fresh1, ideal) == Excess(fresh0, ideal) + more
  {
    hide Slot, Placed, Mults, Excess, Total, Below;
    fresh1, more := fresh0, 0;
    var chain := bs[i].chain;
    ChainOf(bs, i, es);
    for k := 0 to |chain|
      invariant |fresh1| == |fresh0| && Placed(fresh1, Below(bs, i) + Elements(chain[..k])) && Mults(fresh1, ideal)
      invariant Total(fresh1) == Total(fresh0) + k && Excess(fresh1, ideal) == Excess(fresh0, ideal) + more
    {
      var e := chain[k];
      NextOf(bs, i, es, k);
      Nonempty(fresh1, Below(bs, i) + Elements(chain[..k]));
      var j := Slot(e.hashv, |fresh1|);
      var b := fresh1[j];
      var count, mult := b.count + 1, b.mult;
      if count > ideal {
        more := more + 1;
        if count > mult * ideal {
          mult := mult + 1;
        }
      }
      AddPlaced(fresh1, Below(bs, i) + Elements(chain[..k]), e, mult);
      SumsUpdate(fresh1, j, Bucket([e] + b.chain, count, mult), ideal);
      MultsMore(fresh1, ideal, j, Bucket([e] + b.chain, count, mult));
      fresh1 := fresh1[j := Bucket([e] + b.chain, count, mult)];
    }
    BelowMore(bs, i);
    assert chain[..|chain|] == chain;
  }

  lemma Nonempty(bs: seq<Bucket>, es: set<Elem>)
    requires Placed(bs, es)
    ensures |bs| > 0
  {
  }

  lemma ChainOf(bs: seq<Bucket>, i: nat, es: set<Elem>)
    requires Placed(bs, es) && i < |bs|
    ensures bs[i].count == |bs[i].chain|
    ensures Below(bs, i) + Elements(bs[i].chain[..0]) == Below(bs, i)
  {
  }

  lemma NextOf(bs: seq<Bucket>, i: nat, es: set<Elem>, k: nat)
    requires Placed(bs, es) && i < |bs| && k < |bs[i].chain|
    ensures var s, e := Below(bs, i) + Elements(bs[i].chain[..k]), bs[i].chain[k];
            e !in s && s + {e} == Below(bs, i) + Elements(bs[i].chain[..k + 1])
  {
    hide Slot;
    var e := bs[i].chain[k];
    assert e in bs[i].chain;
    assert forall j | 0 <= j < k :: bs[i].chain[j] != e;
    assert bs[i].chain[..k + 1] == bs[i].chain[..k] + [e];
  }

  lemma MultsMore(bs: seq<Bucket>, ideal: nat, j: nat, b: Bucket)
    requires Mults(bs, ideal) && j < |bs| && b.count == bs[j].count + 1
    requires b.mult == if b.count > ideal && b.count > bs[j].mult * ideal then bs[j].mult + 1 else bs[j].mult
    ensures Mults(bs[j := b], ideal)
  {
  }

  lemma BelowMore(bs: seq<Bucket>, i: nat)
    requires i < |bs|
    ensures Below(bs, i + 1) == Below(bs, i) + Elements(bs[i].chain)
  {
  }

  // ---------------------------------------------------------------- whole runs

  /** AddItem looks the key up first, as the callers do. */
  datatype Op = AddItem(key: string, value: nat) | DelItem(key: string) | Lookup(key: string)

  function Apply(m: map<string, nat>, op: Op): map<string, nat>
  {
    match op
    case AddItem(k, v) => if k in m then m else m[k := v]
    case DelItem(k) => m - {k}
    case Lookup(k) => m
  }

  /** What a map answers to a sequence of operations. */
  ghost function Answers(m: map<string, nat>, ops: seq<Op>): seq<Option<nat>>
    decreases |ops|
  {
    if ops == [] then []
    else [if ops[0].key in m then Some(m[ops[0].key]) else None] + Answers(Apply(m, ops[0]), ops[1..])
  }

  lemma NextAnswer(m: map<string, nat>, ops: seq<Op>, i: nat)
    requires i < |ops|
    ensures var op := ops[i];
            Answers(m, ops[i..])
            == [if op.key in m then Some(m[op.key]) else None] + Answers(Apply(m, op), ops[i + 1..])
  {
    assert ops[i..][1..] == ops[i + 1..];
  }

  /** Over any run the table answers as the map does, whatever the hash function. */
  method Run(hash: string -> nat, ops: seq<Op>) returns (answers: seq<Option<nat>>)
    ensures answers == Answers(map[], ops)
  {
    hide Contents, Answers;
    var t := new Table(hash);
    ContentsNone(t.order);
    answers := [];
    assert ops[0..] == ops;
    for i := 0 to |ops|
      invariant t.Valid() && fresh(t)
      invariant answers + Answers(t.View(), ops[i..]) == Answers(map[], ops)
    {
      NextAnswer(t.View(), ops, i);
      var answer := Serve(t, ops[i]);
      answers := answers + [answer];
    }
    NoAnswers(t.View(), ops[|ops|..]);
  }

  method Serve(t: Table, op: Op) returns (answer: Option<nat>)
    requires t.Valid()
    modifies t
    ensures t.Valid() && t.View() == Apply(old(t.View()), op)
    ensures answer == if op.key in old(t.View()) then Some(old(t.View())[op.key]) else None
  {
    hide Contents, Keyed, Placed;
    var found, value := t.Find(op.key);
    answer := if found then Some(value) else None;
    if op.AddItem? && !found {
      t.Add(op.key, op.value);
    } else if op.DelItem? && found {
      t.Delete(op.key);
    }
  }

  lemma NoAnswers(m: map<string, nat>, ops: seq<Op>)
    requires ops == []
    ensures Answers(m, ops) == []
  {
  }

  lemma ContentsNone(order: seq<Elem>)
    requires order == []
    ensures Contents(order) == map[]
  {
  }
}
