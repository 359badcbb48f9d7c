/** Lexical cleaning of a path: the walk over the buffer, and the stack of components it stands for. */
module PathClean {

  const PATH_MAX: nat := 4096

  // ---------------------------------------------------------------- components

  /** The length of the element at the front. */
  function ElemLen(s: string): (n: nat)
    ensures n <= |s| && '/' !in s[..n] && (n < |s| ==> s[n] == '/')
  {
    if s == "" || s[0] == '/' then 0
    else
      var n := ElemLen(s[1..]);
      assert s[..n + 1] == [s[0]] + s[1..][..n];
      n + 1
  }

  /** The elements between the slashes. */
  function Comps(s: string): (cs: seq<string>)
    ensures forall c <- cs :: c != "" && '/' !in c
    decreases |s|
  {
    if s == "" then []
    else if s[0] == '/' then Comps(s[1..])
    else [s[..ElemLen(s)]] + Comps(s[ElemLen(s)..])
  }

  predicate Rooted(s: string)
  {
    s != "" && s[0] == '/'
  }

  // ---------------------------------------------------------------- the stack

  function Push(rooted: bool, st: seq<string>, c: string): seq<string>
  {
    if c == "." then st
    else if c != ".." then st + [c]
    else if st != [] && st[|st| - 1] != ".." then st[..|st| - 1]
    else if rooted then st
    else st + [c]
  }

  function Norm(rooted: bool, st: seq<string>, cs: seq<string>): seq<string>
    decreases |cs|
  {
    if cs == [] then st else Norm(rooted, Push(rooted, st, cs[0]), cs[1..])
  }

  /** Every component after a slash. */
  function Abs(st: seq<string>): (s: string)
    ensures st != [] ==> s != "" && s[0] == '/'
  {
    if st == [] then ""
    else
      var s := Abs(st[..|st| - 1]);
      s + "/" + st[|st| - 1]
  }

  /** The text of a stack; a relative one has no slash in front. */
  function Open(rooted: bool, st: seq<string>): string
  {
    if st == [] then (if rooted then "/" else "")
    else if rooted then Abs(st)
    else Abs(st)[1..]
  }

  function Render(rooted: bool, st: seq<string>): string
  {
    var s := Open(rooted, st);
    if s == "" then "." else s
  }

  function Cleaned(s: string): string
  {
    Render(Rooted(s), Norm(Rooted(s), [], Comps(s)))
  }

  predicate IsComp(c: string)
  {
    c != "" && '/' !in c
  }

  /** No empty or "." component; ".." only in front, and never in a rooted path. */
  ghost predicate Canonical(rooted: bool, st: seq<string>)
  {
    && (forall i | 0 <= i < |st| :: IsComp(st[i]) && st[i] != ".")
    && (rooted ==> forall i | 0 <= i < |st| :: st[i] != "..")
    && (forall i, j | 0 <= i < j < |st| && st[j] == ".." :: st[i] == "..")
  }

  lemma PushCanonical(rooted: bool, st: seq<string>, c: string)
    requires Canonical(rooted, st) && IsComp(c)
    ensures Canonical(rooted, Push(rooted, st, c))
  {
  }

  lemma {:induction false} NormCanonical(rooted: bool, st: seq<string>, cs: seq<string>)
    requires Canonical(rooted, st) && forall c <- cs :: IsComp(c)
    ensures Canonical(rooted, Norm(rooted, st, cs))
    decreases |cs|
  {
    if cs != [] {
      PushCanonical(rooted, st, cs[0]);
      NormCanonical(rooted, Push(rooted, st, cs[0]), cs[1..]);
    }
  }

  lemma OpenPush(rooted: bool, st: seq<string>, c: string)
    ensures Open(rooted, st + [c]) == if st == [] then Open(rooted, []) + c else Open(rooted, st) + "/" + c
  {
    assert (st + [c])[..|st|] == st;
    if st == [] {
      assert Abs([c]) == "/" + c;
      assert Abs([c])[1..] == c;
    } else {
      assert (Abs(st) + "/" + c)[1..] == Abs(st)[1..] + "/" + c;
    }
  }

  // ---------------------------------------------------------------- text and components

  lemma {:induction false} CompsConcat(a: string, b: string)
    ensures Comps(a + "/" + b) == Comps(a) + Comps(b)
    decreases |a|
  {
    var s := a + "/" + b;
    if a == "" {
      assert s[1..] == b;
    } else if a[0] == '/' {
      assert s[1..] == a[1..] + "/" + b;
      CompsConcat(a[1..], b);
    } else {
      var n := ElemLen(a);
      ElemLenConcat(a, "/" + b);
      assert s == a + ("/" + b);
      assert s[..n] == a[..n] && s[n..] == a[n..] + "/" + b;
      CompsConcat(a[n..], b);
    }
  }

  lemma {:induction false} ElemLenConcat(a: string, b: string)
    requires b == "" || b[0] == '/'
    ensures ElemLen(a + b) == ElemLen(a)
  {
    if a != "" && a[0] != '/' {
      assert (a + b)[1..] == a[1..] + b;
      ElemLenConcat(a[1..], b);
    } else if a == "" {
      assert a + b == b;
    }
  }

  lemma CompsOne(c: string)
    requires IsComp(c)
    ensures Comps(c) == [c]
  {
    assert c[0] in c;
    assert ElemLen(c) == |c|;
    assert c[..|c|] == c;
  }

  lemma {:induction false} CompsAbs(st: seq<string>)
    requires forall c <- st :: IsComp(c)
    ensures Comps(Abs(st)) == st
  {
    if st != [] {
      var init, c := st[..|st| - 1], st[|st| - 1];
      CompsAbs(init);
      CompsConcat(Abs(init), c);
      CompsOne(c);
      assert st == init + [c];
    }
  }

  lemma CompsOpen(rooted: bool, st: seq<string>)
    requires forall c <- st :: IsComp(c)
    ensures Comps(Open(rooted, st)) == st
    ensures Rooted(Open(rooted, st)) <==> rooted
  {
    CompsAbs(st);
    if st != [] {
      AbsFirst(st);
    }
  }

  lemma {:induction false} AbsFirst(st: seq<string>)
    requires st != [] && forall c <- st :: IsComp(c)
    ensures |Abs(st)| > 1 && Abs(st)[1] != '/'
  {
    assert st[|st| - 1] in st;
    if |st| > 1 {
      AbsFirst(st[..|st| - 1]);
    } else {
      assert IsComp(st[0]) && st[0][0] in st[0];
      assert Abs(st) == "/" + st[0];
    }
  }

  // ---------------------------------------------------------------- what cleaning promises

  /** A canonical stack is left alone. */
  lemma {:induction false} NormDone(rooted: bool, st: seq<string>, cs: seq<string>)
    requires Canonical(rooted, st + cs)
    ensures Norm(rooted, st, cs) == st + cs
    decreases |cs|
  {
    if cs != [] {
      assert (st + cs)[|st|] == cs[0];
      if cs[0] == ".." && st != [] {
        assert (st + cs)[|st| - 1] == "..";
      }
      assert Push(rooted, st, cs[0]) == st + [cs[0]];
      assert st + [cs[0]] + cs[1..] == st + cs;
      NormDone(rooted, st + [cs[0]], cs[1..]);
    }
  }

  lemma CleanedStack(s: string)
    ensures Canonical(Rooted(s), Norm(Rooted(s), [], Comps(s)))
    ensures Rooted(Cleaned(s)) <==> Rooted(s)
    ensures Norm(Rooted(s), [], Comps(Cleaned(s))) == Norm(Rooted(s), [], Comps(s))
  {
    var r, st := Rooted(s), Norm(Rooted(s), [], Comps(s));
    NormCanonical(r, [], Comps(s));
    CompsOpen(r, st);
    NormDone(r, [], st);
    if Open(r, st) == "" {
      CompsOne(".");
      assert Norm(r, [], ["."]) == Norm(r, [], []);
    }
  }

  /** Cleaning twice changes nothing more. */
  lemma Idempotent(s: string)
    ensures Cleaned(Cleaned(s)) == Cleaned(s)
  {
    CleanedStack(s);
  }

  /** In the result ".." stands only in front, and only in a relative path; there is no "." but the path "." itself. */
  lemma DotsInFront(s: string)
    ensures Cleaned(s) == "." || Canonical(Rooted(s), Comps(Cleaned(s)))
  {
    CleanedStack(s);
    CompsOpen(Rooted(s), Norm(Rooted(s), [], Comps(s)));
  }

  /** The result is no longer than the input, except that an empty path becomes ".". */
  lemma NotLonger(s: string)
    ensures |Cleaned(s)| <= if s == "" then 1 else |s|
  {
    var r := Rooted(s);
    if r {
      Shorter(true, [], Comps(s[1..]));
      CompsLength(s[1..]);
    } else {
      Shorter(false, [], Comps(s));
      CompsLength(s);
    }
  }

  function Sum(cs: seq<string>): nat
  {
    if cs == [] then 0 else |cs[0]| + 1 + Sum(cs[1..])
  }

  lemma {:induction false} CompsLength(s: string)
    ensures Sum(Comps(s)) <= |s| + 1 && (s == "" ==> Sum(Comps(s)) == 0)
    ensures s != "" && s[0] == '/' ==> Sum(Comps(s)) <= |s|
    decreases |s|
  {
    if s == "" {
    } else if s[0] == '/' {
      CompsLength(s[1..]);
    } else {
      CompsLength(s[ElemLen(s)..]);
      assert Comps(s)[1..] == Comps(s[ElemLen(s)..]);
    }
  }

  /** The length with a slash for every component, which bounds the text. */
  lemma {:induction false} Shorter(rooted: bool, st: seq<string>, cs: seq<string>)
    ensures |Abs(Norm(rooted, st, cs))| <= |Abs(st)| + Sum(cs)
    decreases |cs|
  {
    if cs != [] {
      var st1 := Push(rooted, st, cs[0]);
      assert st1 == st + [cs[0]] ==> st1[..|st|] == st;
      Shorter(rooted, st1, cs[1..]);
    }
  }

  // ---------------------------------------------------------------- the meaning of a path

  /** The directory a component leads to from an absolute directory, given as the names on the way down to it. */
  function Step(base: seq<string>, c: string): seq<string>
  {
    if c == "." then base
    else if c == ".." then (if base == [] then [] else base[..|base| - 1])
    else base + [c]
  }

  function Walk(base: seq<string>, cs: seq<string>): seq<string>
    decreases |cs|
  {
    if cs == [] then base else Walk(Step(base, cs[0]), cs[1..])
  }

  function Place(base: seq<string>, s: string): seq<string>
  {
    Walk(if Rooted(s) then [] else base, Comps(s))
  }

  lemma {:induction false} WalkConcat(base: seq<string>, a: seq<string>, b: seq<string>)
    ensures Walk(base, a + b) == Walk(Walk(base, a), b)
    decreases |a|
  {
    if a == [] {
      assert a + b == b;
    } else {
      assert (a + b)[1..] == a[1..] + b;
      WalkConcat(Step(base, a[0]), a[1..], b);
    }
  }

  lemma PushWalk(rooted: bool, base: seq<string>, st: seq<string>, c: string)
    requires Canonical(rooted, st) && (rooted ==> base == [])
    ensures Walk(base, Push(rooted, st, c)) == Step(Walk(base, st), c)
  {
    WalkConcat(base, st, [c]);
    if st != [] {
      var init, last := st[..|st| - 1], st[|st| - 1];
      assert st == init + [last];
      WalkConcat(base, init, [last]);
    }
  }

  lemma {:induction false} NormWalk(rooted: bool, base: seq<string>, st: seq<string>, cs: seq<string>)
    requires Canonical(rooted, st) && (rooted ==> base == []) && forall c <- cs :: IsComp(c)
    ensures Walk(base, Norm(rooted, st, cs)) == Walk(Walk(base, st), cs)
    decreases |cs|
  {
    if cs != [] {
      PushWalk(rooted, base, st, cs[0]);
      PushCanonical(rooted, st, cs[0]);
      NormWalk(rooted, base, Push(rooted, st, cs[0]), cs[1..]);
    }
  }

  /** From every absolute directory the cleaned path leads where the path led. */
  lemma SamePlace(base: seq<string>, s: string)
    ensures Place(base, Cleaned(s)) == Place(base, s)
  {
    var r, st := Rooted(s), Norm(Rooted(s), [], Comps(s));
    var b := if r then [] else base;
    CleanedStack(s);
    NormWalk(r, b, [], Comps(s));
    NormWalk(r, b, [], Comps(Cleaned(s)));
  }

  /** A rooted path is cleaned to the place it names. */
  lemma CleanedIsPlace(s: string)
    requires Rooted(s)
    ensures Cleaned(s) == Render(true, Place([], s))
  {
    NormWalk(true, [], [], Comps(s));
    NormCanonical(true, [], Comps(s));
    WalkNames(Norm(true, [], Comps(s)));
  }

  lemma WalkNames(st: seq<string>)
    requires Canonical(true, st)
    ensures Walk([], st) == st
  {
    WalkDown([], st);
  }

  lemma {:induction false} WalkDown(base: seq<string>, st: seq<string>)
    requires forall k | 0 <= k < |st| :: st[k] != "." && st[k] != ".."
    ensures Walk(base, st) == base + st
    decreases |st|
  {
    if st == [] {
      assert base + st == base;
    } else {
      WalkDown(base + [st[0]], st[1..]);
      assert base + [st[0]] + st[1..] == base + st;
    }
  }
}
