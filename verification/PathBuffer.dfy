/** Cleaning a path in place, and writing the relative path from one place to another into a buffer of limited size. */
module PathBuffer {
  import opened PathClean

  /** The text in a buffer ends before the first NUL. */
  function Text(a: seq<char>): (s: string)
    ensures s <= a && '\0' !in s
    ensures '\0' in a ==> |s| < |a| && a[|s|] == '\0'
  {
    if a == [] || a[0] == '\0' then ""
    else
      assert a == [a[0]] + a[1..];
      [a[0]] + Text(a[1..])
  }

  lemma {:induction false} TextEnds(a: seq<char>, n: nat)
    requires n < |a| && a[n] == '\0' && '\0' !in a[..n]
    ensures Text(a) == a[..n]
  {
    if n > 0 {
      assert a[0] in a[..n];
      assert a[1..][..n - 1] == a[..n][1..];
      assert forall c <- a[1..][..n - 1] :: c in a[..n];
      TextEnds(a[1..], n - 1);
      assert a[..n] == [a[0]] + a[1..][..n - 1];
    }
  }

  method ReadText(a: array<char>) returns (s: string)
    requires '\0' in a[..]
    ensures s == Text(a[..])
  {
    var n := 0;
    assert a[0..] == a[..];
    while a[n] != '\0'
      invariant n < a.Length && '\0' !in a[..n] && '\0' in a[n..]
      decreases a.Length - n
    {
      assert a[n..] == [a[n]] + a[n + 1..];
      assert a[..n + 1] == a[..n] + [a[n]];
      n := n + 1;
    }
    assert a[..][..n] == a[..n];
    TextEnds(a[..], n);
    s := a[..n];
  }

  // ---------------------------------------------------------------- cleaning in place

  /** What is written so far: the text of the stack, whose first `k` components are "..". */
  ghost predicate Writes(out: string, dotdot: nat, rooted: bool, st: seq<string>, k: nat)
  {
    && out == Open(rooted, st) && '\0' !in out
    && k <= |st| && (rooted ==> k == 0)
    && (forall i | 0 <= i < |st| :: IsComp(st[i]) && (st[i] == ".." <==> i < k))
    && dotdot == |Open(rooted, st[..k])|
  }

  /** A component is left to backtrack over exactly when there is text beyond the dots. */
  lemma {:induction false} Longer(rooted: bool, st: seq<string>, k: nat)
    requires k <= |st| && forall i | 0 <= i < |st| :: IsComp(st[i])
    ensures |Open(rooted, st[..k])| <= |Open(rooted, st)|
    ensures k < |st| ==> |Open(rooted, st[..k])| < |Open(rooted, st)|
  {
    if k < |st| {
      var init := st[..|st| - 1];
      assert st == init + [st[|st| - 1]] && init[..k] == st[..k];
      Longer(rooted, init, k);
      OpenPush(rooted, init, st[|st| - 1]);
    } else {
      assert st[..k] == st;
    }
  }

  /** What the pointers tell: is there something to backtrack over, is there something at all? */
  lemma Bounds(out: string, dotdot: nat, rooted: bool, st: seq<string>, k: nat)
    requires Writes(out, dotdot, rooted, st, k)
    ensures |out| > dotdot <==> k < |st|
    ensures |out| > (if rooted then 1 else 0) <==> st != []
    ensures k < |st| ==> st[|st| - 1] != ".."
    ensures k == |st| && st != [] ==> st[|st| - 1] == ".." && !rooted
  {
    Longer(rooted, st, k);
    Longer(rooted, st, 0);
    assert st[..0] == [] && (k == |st| ==> st[..k] == st);
    hide Open;
  }

  /** Without its last component the text of the stack ends at the last slash, or where the dots end. */
  lemma Popped(s: string, dotdot: nat, rooted: bool, st: seq<string>, k: nat) returns (n: nat)
    requires k < |st| && Writes(s, dotdot, rooted, st, k)
    ensures dotdot <= n < |s| && Writes(s[..n], dotdot, rooted, st[..|st| - 1], k)
    ensures n == dotdot || s[n] == '/'
    ensures forall i | n < i < |s| :: s[i] != '/'
  {
    hide Writes, Open;
    n := |Open(rooted, st[..|st| - 1])|;
    Shorten(s, dotdot, rooted, st, k);
    LastName(s, Open(rooted, st[..|st| - 1]), if |st| == 1 then "" else "/", st[|st| - 1]);
  }

  lemma Shorten(s: string, dotdot: nat, rooted: bool, st: seq<string>, k: nat)
    requires k < |st| && Writes(s, dotdot, rooted, st, k)
    ensures var init, c := st[..|st| - 1], st[|st| - 1];
            && s == Open(rooted, init) + (if |st| == 1 then "" else "/") + c && IsComp(c)
            && Writes(Open(rooted, init), dotdot, rooted, init, k)
            && dotdot <= |Open(rooted, init)| && (|st| == 1 ==> dotdot == |Open(rooted, init)|)
  {
    var init, c := st[..|st| - 1], st[|st| - 1];
    assert st == init + [c] && init[..k] == st[..k];
    OpenPush(rooted, init, c);
    Longer(rooted, init, k);
    hide Open;
    assert init == [] ==> init[..k] == init;
    NoNulPrefix(s, Open(rooted, init));
  }

  lemma NoNulPrefix(s: string, a: string)
    requires '\0' !in s && a <= s
    ensures '\0' !in a
  {
    assert forall x <- a :: x in s;
  }

  lemma LastName(s: string, a: string, sep: string, c: string)
    requires s == a + sep + c && IsComp(c) && (sep == "" || sep == "/")
    ensures s[..|a|] == a && (sep == "/" ==> s[|a|] == '/')
    ensures forall i | |a| < i < |s| :: s[i] != '/'
  {
    assert forall i | |a| + |sep| <= i < |s| :: s[i] == c[i - |a| - |sep|];
  }

  method Backtrack(dst: array<char>, d: nat, dotdot: nat, rooted: bool, ghost st: seq<string>, ghost k: nat)
    returns (e: nat)
    requires dotdot < d <= dst.Length && k < |st| && Writes(dst[..d], dotdot, rooted, st, k)
    ensures e <= d && Writes(dst[..e], dotdot, rooted, st[..|st| - 1], k)
  {
    hide Writes, Open;
    ghost var s := dst[..d];
    ghost var n := Popped(s, dotdot, rooted, st, k);
    e := d - 1;
    while e > dotdot && dst[e] != '/'
      invariant n <= e < d
    {
      assert dst[e] == s[e];
      e := e - 1;
    }
    assert e < d && dst[e] == s[e];
    assert dst[..n] == s[..n];
  }

  method AppendText(dst: array<char>, d: nat, x: string) returns (e: nat)
    requires d + |x| <= dst.Length
    modifies dst
    ensures e == d + |x| && dst[..e] == old(dst[..d]) + x
  {
    e := d;
    ghost var before := dst[..d];
    for k := 0 to |x|
      invariant e == d + k && dst[..e] == before + x[..k]
    {
      dst[e] := x[k];
      e := e + 1;
      assert dst[..e] == dst[..e - 1] + [x[k]];
      assert x[..k + 1] == x[..k] + [x[k]];
    }
    assert x[..|x|] == x;
  }

  /** Writes one element, after a slash if there is something before it. */
  method WriteElem(dst: array<char>, d: nat, dotdot: nat, rooted: bool, c: string, ghost st: seq<string>, ghost k: nat)
    returns (e: nat)
    requires d + |c| + (if st == [] then 0 else 1) <= dst.Length
    requires Writes(dst[..d], dotdot, rooted, st, k) && IsComp(c) && c != "." && '\0' !in c
    requires c == ".." ==> !rooted && k == |st|
    modifies dst
    ensures e == d + |c| + (if st == [] then 0 else 1)
    ensures Writes(dst[..e], if c == ".." then e else dotdot, rooted, st + [c], if c == ".." then k + 1 else k)
  {
    hide Writes, Open;
    ghost var out := dst[..d];
    Bounds(out, dotdot, rooted, st, k);
    e := d;
    if d > (if rooted then 1 else 0) {
      e := AppendText(dst, d, "/");
    }
    e := AppendText(dst, e, c);
    assert st != [] ==> out + "/" + c == dst[..e];
    Pushed(out, dotdot, rooted, st, k, c, dst[..e]);
  }

  lemma Pushed(out: string, dotdot: nat, rooted: bool, st: seq<string>, k: nat, c: string, out1: string)
    requires Writes(out, dotdot, rooted, st, k) && IsComp(c) && '\0' !in c && (c == ".." ==> !rooted && k == |st|)
    requires out1 == if st == [] then out + c else out + "/" + c
    ensures Writes(out1, if c == ".." then |out1| else dotdot, rooted, st + [c], if c == ".." then k + 1 else k)
  {
    OpenPush(rooted, st, c);
    hide Open;
    var st1 := st + [c];
    assert st1[..k] == st[..k];
    if c == ".." {
      assert st1[..k + 1] == st1;
    }
  }

  /** The next element of `buf` is `c`, and the walk goes on behind it. */
  lemma NextElem(rooted: bool, st: seq<string>, buf: string, p: nat, n: nat)
    requires p < |buf| && buf[p] != '/' && n == ElemLen(buf[p..])
    ensures n > 0 && p + n <= |buf| && buf[p..p + n] == buf[p..][..n] && IsComp(buf[p..p + n])
    ensures p + n < |buf| ==> buf[p + n] == '/'
    ensures Norm(rooted, st, Comps(buf[p..])) == Norm(rooted, Push(rooted, st, buf[p..p + n]), Comps(buf[p + n..]))
  {
    var s := buf[p..];
    assert s[n..] == buf[p + n..];
    assert Comps(s) == [s[..n]] + Comps(s[n..]);
    assert Comps(s)[1..] == Comps(s[n..]);
  }

  /** How long the element at `p` is, told from its characters as the cases of the walk do. */
  lemma DotElem(buf: string, p: nat)
    requires p < |buf| && buf[p] == '.'
    ensures ElemLen(buf[p..]) == 1 <==> p + 1 == |buf| || buf[p + 1] == '/'
    ensures p + 1 < |buf| && buf[p + 1] == '.' ==>
              (ElemLen(buf[p..]) == 2 <==> p + 2 == |buf| || buf[p + 2] == '/')
    ensures ElemLen(buf[p..]) == 1 ==> buf[p..p + 1] == "."
    ensures ElemLen(buf[p..]) != 1 ==> p + 1 < |buf|
  {
    assert buf[p..][1..] == buf[p + 1..];
    if p + 1 < |buf| {
      assert buf[p + 1..][1..] == buf[p + 2..];
    }
  }

  /** Handles the element at `p`. */
  method CleanElem(dst: array<char>, d: nat, dotdot: nat, rooted: bool, buf: string, p: nat, ghost st: seq<string>,
                   ghost k: nat)
    returns (d1: nat, dotdot1: nat, p1: nat, ghost st1: seq<string>, ghost k1: nat)
    requires p < |buf| < dst.Length && buf[p] != '/' && '\0' !in buf
    requires d <= p && (st != [] ==> d < p) && Writes(dst[..d], dotdot, rooted, st, k)
    modifies dst
    ensures p < p1 <= |buf| && (p1 < |buf| ==> buf[p1] == '/') && d1 <= p1
    ensures Writes(dst[..d1], dotdot1, rooted, st1, k1)
    ensures Norm(rooted, st, Comps(buf[p..])) == Norm(rooted, st1, Comps(buf[p1..]))
  {
    hide Norm, Comps, Open, Writes, ElemLen;
    NextElem(rooted, st, buf, p, ElemLen(buf[p..]));
    d1, dotdot1, st1, k1 := d, dotdot, st, k;
    if buf[p] == '.' {
      DotElem(buf, p);
      if p + 1 == |buf| || buf[p + 1] == '/' {
        p1 := p + 1;
        return;
      }
      if buf[p + 1] == '.' && (p + 2 == |buf| || buf[p + 2] == '/') {
        p1 := p + 2;
        d1, dotdot1, st1, k1 := CleanDotdot(dst, d, dotdot, rooted, p, st, k);
        return;
      }
    }
    NotDots(buf, p);
    p1, d1, st1 := CleanName(dst, d, dotdot, rooted, buf, p, st, k);
  }

  method CleanDotdot(dst: array<char>, d: nat, dotdot: nat, rooted: bool, p: nat, ghost st: seq<string>, ghost k: nat)
    returns (d1: nat, dotdot1: nat, ghost st1: seq<string>, ghost k1: nat)
    requires p + 2 < dst.Length && d <= p && (st != [] ==> d < p) && Writes(dst[..d], dotdot, rooted, st, k)
    modifies dst
    ensures d1 <= p + 2 && st1 == Push(rooted, st, "..") && Writes(dst[..d1], dotdot1, rooted, st1, k1)
  {
    hide Open, Writes;
    Bounds(dst[..d], dotdot, rooted, st, k);
    d1, dotdot1, st1, k1 := d, dotdot, Push(rooted, st, ".."), k;
    if d > dotdot {
      d1 := Backtrack(dst, d, dotdot, rooted, st, k);
    } else if !rooted {
      AtDots(dst[..d], dotdot, rooted, st, k);
      d1 := WriteElem(dst, d, dotdot, rooted, "..", st, k);
      dotdot1, k1 := d1, k + 1;
    } else {
      AtDots(dst[..d], dotdot, rooted, st, k);
    }
  }

  lemma AtDots(out: string, dotdot: nat, rooted: bool, st: seq<string>, k: nat)
    requires Writes(out, dotdot, rooted, st, k) && |out| <= dotdot
    ensures k == |st| && (rooted ==> st == [])
  {
    Bounds(out, dotdot, rooted, st, k);
  }

  method CleanName(dst: array<char>, d: nat, dotdot: nat, rooted: bool, buf: string, p: nat, ghost st: seq<string>,
                   ghost k: nat)
    returns (p1: nat, d1: nat, ghost st1: seq<string>)
    requires p < |buf| < dst.Length && buf[p] != '/' && '\0' !in buf
    requires d <= p && (st != [] ==> d < p) && Writes(dst[..d], dotdot, rooted, st, k)
    requires var c := buf[p..p + ElemLen(buf[p..])]; c != "." && c != ".."
    modifies dst
    ensures p1 == p + ElemLen(buf[p..]) && d1 <= p1
    ensures st1 == Push(rooted, st, buf[p..p1]) && Writes(dst[..d1], dotdot, rooted, st1, k)
  {
    hide Open, Writes, Comps, Norm;
    NextElem(rooted, st, buf, p, ElemLen(buf[p..]));
    p1 := p;
    while p1 < |buf| && buf[p1] != '/'
      invariant p <= p1 <= p + ElemLen(buf[p..])
    {
      assert buf[p..][p1 - p] == buf[p1];
      p1 := p1 + 1;
    }
    OutOfElem(buf, p, p1);
    var c := buf[p..p1];
    assert '\0' !in c by {
      assert forall x <- c :: x in buf;
    }
    d1 := WriteElem(dst, d, dotdot, rooted, c, st, k);
    st1 := st + [c];
  }

  lemma OutOfElem(buf: string, p: nat, p1: nat)
    requires p <= p1 <= |buf| && p1 <= p + ElemLen(buf[p..]) && (p1 == |buf| || buf[p1] == '/')
    ensures p1 == p + ElemLen(buf[p..])
  {
    var s := buf[p..];
    assert forall i | 0 <= i < ElemLen(s) :: s[i] in s[..ElemLen(s)];
  }

  /** An element that is neither of the two cases is neither "." nor "..". */
  lemma NotDots(buf: string, p: nat)
    requires p < |buf|
    requires buf[p] == '.' ==> p + 1 < |buf| && buf[p + 1] != '/'
                               && !(buf[p + 1] == '.' && (p + 2 == |buf| || buf[p + 2] == '/'))
    ensures var c := buf[p..p + ElemLen(buf[p..])]; c != "." && c != ".."
  {
    var n := ElemLen(buf[p..]);
    var c := buf[p..p + n];
    assert n > 0 ==> c[0] == buf[p];
    assert n > 1 ==> c[1] == buf[p + 1];
    if buf[p] == '.' {
      DotElem(buf, p);
    }
  }

  /** Cleans the path in the buffer.  A path that is too long is refused and left alone. */
  method CleanInPlace(dst: array<char>) returns (len: int)
    requires '\0' in dst[..]
    requires Text(dst[..]) == "" ==> dst.Length >= 2
    modifies dst
    ensures |Text(old(dst[..]))| >= PATH_MAX ==> len == -1 && dst[..] == old(dst[..])
    ensures |Text(old(dst[..]))| < PATH_MAX ==>
              '\0' in dst[..] && Text(dst[..]) == Cleaned(Text(old(dst[..]))) && len == |Text(dst[..])|
  {
    var buf := ReadText(dst);
    if |buf| >= PATH_MAX {
      return -1;
    }
    var rooted := |buf| > 0 && buf[0] == '/';
    var p, d, dotdot := 0, 0, 0;
    if rooted {
      dst[0] := '/';
      p, d, dotdot := 1, 1, 1;
    }
    assert dst[..d] == Open(rooted, []);
    assert Comps(buf) == Comps(buf[p..]) by {
      assert buf[0..] == buf;
    }
    d := CleanRest(dst, d, dotdot, rooted, buf, p);
    if d == 0 {
      dst[0] := '.';
      d := 1;
    }
    assert dst[..d] == Cleaned(buf);
    dst[d] := '\0';
    assert dst[..][..d] == dst[..d] && dst[..][d] == '\0';
    TextEnds(dst[..], d);
    len := d;
  }

  method CleanRest(dst: array<char>, d0: nat, dotdot0: nat, rooted: bool, buf: string, p0: nat) returns (d: nat)
    requires |buf| < dst.Length && '\0' !in buf && d0 == dotdot0 == p0 <= |buf|
    requires Writes(dst[..d0], dotdot0, rooted, [], 0)
    modifies dst
    ensures d <= |buf| && dst[..d] == Open(rooted, Norm(rooted, [], Comps(buf[p0..]))) && '\0' !in dst[..d]
  {
    hide Open, Writes, Norm, Comps;
    d := d0;
    var dotdot, p := dotdot0, p0;
    ghost var st: seq<string>, k: nat := [], 0;
    while p < |buf|
      invariant d <= p <= |buf| && Writes(dst[..d], dotdot, rooted, st, k)
      invariant st != [] && p < |buf| && buf[p] != '/' ==> d < p
      invariant Norm(rooted, st, Comps(buf[p..])) == Norm(rooted, [], Comps(buf[p0..]))
      decreases |buf| - p
    {
      if buf[p] == '/' {
        SkipSlash(buf, p);
        p := p + 1;
      } else {
        d, dotdot, p, st, k := CleanElem(dst, d, dotdot, rooted, buf, p, st, k);
      }
    }
    AtEnd(dst[..d], dotdot, rooted, st, k, buf[p..]);
  }

  lemma SkipSlash(buf: string, p: nat)
    requires p < |buf| && buf[p] == '/'
    ensures Comps(buf[p..]) == Comps(buf[p + 1..])
  {
    assert buf[p..][1..] == buf[p + 1..];
  }

  lemma AtEnd(out: string, dotdot: nat, rooted: bool, st: seq<string>, k: nat, rest: string)
    requires Writes(out, dotdot, rooted, st, k) && rest == ""
    ensures out == Open(rooted, Norm(rooted, st, Comps(rest))) && '\0' !in out
  {
    hide Open;
  }
}
