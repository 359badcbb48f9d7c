/** The thread pool that walks an array: every worker starts with a slice of its own and then takes further slices
    from a shared cursor.  The workers run interleaved, one step at a time; the cursor is updated in one step. */
module WorkerPool {

  /** The modulus of the program's unsigned arithmetic. */
  const WORD := 0x1_0000_0000

  /** What the callback returns for an element, and whether it asks to end the loop. */
  datatype Answer = Answer(r: int, done: bool)

  predicate Halts(a: Answer)
  {
    a.r != 0 || a.done
  }

  datatype Config = Config(count: nat, threads: nat, slice: nat)

  function Min(a: nat, b: nat): nat
  {
    if a < b then a else b
  }

  /** The number of workers and the length of a slice for `count` elements on `cpus` processors. */
  function Plan(count: nat, cpus: nat): (c: Config)
    requires 1 < count && 1 < cpus
  {
    if cpus >= count then Config(count, count, 1)
    else
      var s := count / cpus;
      Config(count, cpus, if s > 32 then 32 else s)
  }

  /** A worker that was not created yet, that works on [i, end), that found nothing more to do, or that was told to
      stop and leaves [i, end) behind. */
  datatype Worker =
    | Pending(start: nat, end: nat)
    | Busy(i: nat, end: nat)
    | Exited
    | Stopped(i: nat, end: nat)

  /** `creating` says that the main thread may still create workers. */
  datatype Pool = Pool(reserved: nat, workers: seq<Worker>, creating: bool, visited: seq<nat>)

  datatype Step = Create(w: nat) | GiveUp | Visit(w: nat, stop: bool) | Reserve(w: nat)

  function Start(c: Config): Pool
  {
    var ws := seq(c.threads, j requires 0 <= j => Pending(j * c.slice, j * c.slice + c.slice));
    Pool(c.slice * c.threads, ws, true, [])
  }

  predicate Enabled(c: Config, p: Pool, s: Step)
  {
    match s
    case Create(w) =>
      p.creating && w < |p.workers| && p.workers[w].Pending? && forall v | 0 <= v < w :: !p.workers[v].Pending?
    case GiveUp => p.creating
    case Visit(w, _) =>
      w < |p.workers| && p.workers[w].Busy? && p.workers[w].i < p.workers[w].end && p.workers[w].i < c.count
    case Reserve(w) =>
      w < |p.workers| && p.workers[w].Busy? && !(p.workers[w].i < p.workers[w].end && p.workers[w].i < c.count)
  }

  function Entered(c: Config, i: nat, end: nat): Worker
  {
    if i < c.count then Busy(i, end) else Exited
  }

  function Next(c: Config, p: Pool, s: Step): Pool
    requires Enabled(c, p, s)
  {
    match s
    case Create(w) =>
      p.(workers := p.workers[w := Entered(c, p.workers[w].start, p.workers[w].end)])
    case GiveUp =>
      p.(creating := false)
    case Visit(w, stop) =>
      var i, end := p.workers[w].i, p.workers[w].end;
      p.(visited := p.visited + [i],
         workers := p.workers[w := if stop then Stopped(i + 1, end) else Busy(i + 1, end)])
    case Reserve(w) =>
      var end := (p.reserved + c.slice) % WORD;
      p.(reserved := end, workers := p.workers[w := Entered(c, p.reserved, end)])
  }

  // ---------------------------------------------------------------- who holds which index

  predicate Claims(w: Worker, x: nat)
  {
    match w
    case Pending(i, end) => i <= x < end
    case Busy(i, end) => i <= x < end
    case Stopped(i, end) => i <= x < end
    case Exited => false
  }

  ghost predicate Held(p: Pool, x: nat)
  {
    exists w :: 0 <= w < |p.workers| && Claims(p.workers[w], x)
  }

  function Hi(w: Worker): nat
  {
    if w.Exited? then 0 else w.end
  }

  function Total(ws: seq<Worker>, f: Worker -> nat): nat
  {
    if ws == [] then 0 else Total(ws[..|ws| - 1], f) + f(ws[|ws| - 1])
  }

  lemma {:induction false} TotalUpdate(ws: seq<Worker>, f: Worker -> nat, w: nat, v: Worker)
    requires w < |ws|
    ensures Total(ws[w := v], f) + f(ws[w]) == Total(ws, f) + f(v)
  {
    var n := |ws| - 1;
    if w == n {
      assert ws[w := v][..n] == ws[..n];
    } else {
      assert ws[w := v][..n] == ws[..n][w := v];
      TotalUpdate(ws[..n], f, w, v);
    }
  }

  const GONE: Worker -> nat := (w: Worker) => if w.Exited? then 1 else 0

  /** The steps that a worker may still need besides visiting and moving the cursor. */
  const WEIGHT: Worker -> nat := (w: Worker) => if w.Pending? then 2 else if w.Busy? then 1 else 0

  ghost predicate Sized(c: Config)
  {
    1 <= c.slice <= 32 && 1 <= c.threads && c.slice * c.threads <= c.count && 2 * c.count + 31 < WORD
  }

  lemma SliceFits(count: nat, cpus: nat)
    requires 0 < cpus < count
    ensures 1 <= count / cpus && cpus * (count / cpus) <= count < cpus * (count / cpus + 1)
  {
  }

  /** As many workers as processors, or as elements if these are fewer, each with a first slice of the greatest length
      up to 32 that all of them can have. */
  lemma PlanSized(count: nat, cpus: nat)
    requires 1 < count && 1 < cpus && 2 * count + 31 < WORD
    ensures Sized(Plan(count, cpus))
    ensures Plan(count, cpus).count == count && Plan(count, cpus).threads == Min(cpus, count)
    ensures var c := Plan(count, cpus); c.slice == 32 || c.threads * (c.slice + 1) > count
  {
    if cpus < count {
      SliceFits(count, cpus);
      Scale(cpus, Plan(count, cpus).slice, count / cpus);
    }
  }

  ghost predicate Bounds(c: Config, p: Pool)
  {
    && |p.workers| == c.threads
    && p.reserved + 1 <= c.count + c.slice + c.slice * Total(p.workers, GONE)
    && (forall w | 0 <= w < |p.workers| :: Hi(p.workers[w]) <= p.reserved)
    && (forall w | 0 <= w < |p.workers| :: p.workers[w].Exited? ==> c.count <= p.reserved)
    && (forall w | 0 <= w < |p.workers| :: p.workers[w].Pending? ==> p.workers[w].start < c.count)
  }

  /** The workers are created in order; those to come hold their own slices. */
  ghost predicate Queue(c: Config, p: Pool)
  {
    && (forall w | 0 <= w < |p.workers| && p.workers[w].Pending? ::
        p.workers[w] == Pending(w * c.slice, w * c.slice + c.slice))
    && (forall v, w | 0 <= v < w < |p.workers| && p.workers[v].Pending? :: p.workers[w].Pending?)
  }

  /** Two workers never hold the same index, and what was visited is what was handed out and is held no more. */
  ghost predicate Shared(c: Config, p: Pool)
  {
    && (forall v, w, x | 0 <= v < w < |p.workers| && Claims(p.workers[v], x) :: !Claims(p.workers[w], x))
    && (forall x: nat :: multiset(p.visited)[x] == if x < p.reserved && x < c.count && !Held(p, x) then 1 else 0)
  }

  ghost predicate Inv(c: Config, p: Pool)
  {
    Bounds(c, p) && Queue(c, p) && Shared(c, p)
  }

  lemma {:induction false} GoneBound(ws: seq<Worker>)
    ensures Total(ws, GONE) <= |ws|
  {
    if ws != [] {
      GoneBound(ws[..|ws| - 1]);
    }
  }

  lemma {:induction false} SomeLeft(ws: seq<Worker>, w: nat)
    requires w < |ws| && !ws[w].Exited?
    ensures Total(ws, GONE) + 1 <= |ws|
  {
    GoneBound(ws[w := Exited]);
    TotalUpdate(ws, GONE, w, Exited);
  }

  lemma Another(s: nat, e: nat)
    ensures s * (e + 1) == s * e + s
  {
  }

  lemma Scale(s: nat, a: nat, b: nat)
    requires a <= b
    ensures s * a <= s * b
  {
  }

  /** The cursor stays far enough from the end of the unsigned range: taking a slice never wraps around. */
  lemma CursorBound(c: Config, p: Pool)
    requires Sized(c) && Bounds(c, p)
    ensures p.reserved <= 2 * c.count + c.slice - 1
    ensures forall w | 0 <= w < |p.workers| :: Hi(p.workers[w]) <= 2 * c.count + c.slice - 1
  {
    hide Total;
    GoneBound(p.workers);
    Scale(c.slice, Total(p.workers, GONE), c.threads);
  }

  lemma NoWrap(c: Config, p: Pool, w: nat)
    requires Sized(c) && Bounds(c, p) && w < |p.workers| && !p.workers[w].Exited?
    ensures (p.reserved + c.slice) % WORD == p.reserved + c.slice
    ensures p.reserved + c.slice + 1 <= c.count + c.slice + c.slice * (Total(p.workers, GONE) + 1)
  {
    hide Total;
    SomeLeft(p.workers, w);
    var e := Total(p.workers, GONE);
    Scale(c.slice, e + 1, c.threads);
    Another(c.slice, e);
  }

  // ---------------------------------------------------------------- every step keeps the shares

  lemma HeldElse(p: Pool, q: Pool, w: nat, x: nat)
    requires w < |p.workers| && |q.workers| == |p.workers|
    requires forall v | 0 <= v < |p.workers| && v != w :: q.workers[v] == p.workers[v]
    requires Claims(q.workers[w], x) == Claims(p.workers[w], x)
    ensures Held(q, x) == Held(p, x)
  {
    if Held(p, x) {
      var v :| 0 <= v < |p.workers| && Claims(p.workers[v], x);
      assert Claims(q.workers[v], x);
    }
  }

  lemma VisitShares(c: Config, p: Pool, q: Pool, w: nat, stop: bool)
    requires Shared(c, p) && Enabled(c, p, Visit(w, stop)) && q == Next(c, p, Visit(w, stop))
             && Hi(p.workers[w]) <= p.reserved
    ensures Shared(c, q)
  {
    var i := p.workers[w].i;
    assert Claims(p.workers[w], i);
    assert !Held(q, i);
    forall x: nat
      ensures multiset(q.visited)[x] == if x < q.reserved && x < c.count && !Held(q, x) then 1 else 0
    {
      if x != i {
        HeldElse(p, q, w, x);
      }
    }
  }

  lemma VisitKeeps(c: Config, p: Pool, w: nat, stop: bool)
    requires Sized(c) && Inv(c, p) && Enabled(c, p, Visit(w, stop))
    ensures Inv(c, Next(c, p, Visit(w, stop)))
  {
    hide Shared, Total;
    var q := Next(c, p, Visit(w, stop));
    TotalUpdate(p.workers, GONE, w, q.workers[w]);
    VisitShares(c, p, q, w, stop);
  }

  lemma ReserveShares(c: Config, p: Pool, q: Pool, w: nat)
    requires Shared(c, p) && Enabled(c, p, Reserve(w))
    requires forall v | 0 <= v < |p.workers| :: Hi(p.workers[v]) <= p.reserved
    requires q == p.(reserved := p.reserved + c.slice,
                     workers := p.workers[w := Entered(c, p.reserved, p.reserved + c.slice)])
    ensures Shared(c, q)
  {
    forall x: nat
      ensures multiset(q.visited)[x] == if x < q.reserved && x < c.count && !Held(q, x) then 1 else 0
    {
      if x < p.reserved && x < c.count {
        HeldElse(p, q, w, x);
      } else if x < q.reserved && x < c.count {
        assert Claims(q.workers[w], x);
      }
    }
  }

  lemma ReserveBounds(c: Config, p: Pool, q: Pool, w: nat)
    requires Sized(c) && Bounds(c, p) && Enabled(c, p, Reserve(w))
    requires q == p.(reserved := p.reserved + c.slice,
                     workers := p.workers[w := Entered(c, p.reserved, p.reserved + c.slice)])
    requires q.reserved + 1 <= c.count + c.slice + c.slice * (Total(p.workers, GONE) + 1)
    ensures Bounds(c, q)
  {
    hide Total;
    TotalUpdate(p.workers, GONE, w, q.workers[w]);
    if p.reserved < c.count {
      assert Total(q.workers, GONE) == Total(p.workers, GONE);
      Scale(c.slice, 0, Total(p.workers, GONE));
    } else {
      assert Total(q.workers, GONE) == Total(p.workers, GONE) + 1;
    }
  }

  lemma ReserveKeeps(c: Config, p: Pool, w: nat)
    requires Sized(c) && Inv(c, p) && Enabled(c, p, Reserve(w))
    ensures Inv(c, Next(c, p, Reserve(w)))
  {
    hide Shared, Total, Bounds, Sized;
    var q := Next(c, p, Reserve(w));
    NoWrap(c, p, w);
    BelowCursor(c, p);
    ReserveShares(c, p, q, w);
    ReserveBounds(c, p, q, w);
  }

  lemma BelowCursor(c: Config, p: Pool)
    requires Bounds(c, p)
    ensures forall v | 0 <= v < |p.workers| :: Hi(p.workers[v]) <= p.reserved
  {
    hide Total;
  }

  lemma CreateKeeps(c: Config, p: Pool, w: nat)
    requires Sized(c) && Inv(c, p) && Enabled(c, p, Create(w))
    ensures Inv(c, Next(c, p, Create(w)))
  {
    hide Total;
    var q := Next(c, p, Create(w));
    TotalUpdate(p.workers, GONE, w, q.workers[w]);
    forall x: nat
      ensures Held(p, x) == Held(q, x)
    {
      HeldElse(p, q, w, x);
    }
  }

  lemma Apart(s: nat, v: nat, w: nat)
    requires v < w
    ensures v * s + s <= w * s
  {
    Scale(s, v + 1, w);
    Another(s, v);
  }

  lemma StartApart(c: Config, v: nat, w: nat, x: nat)
    requires v < w < c.threads && Claims(Start(c).workers[v], x)
    ensures !Claims(Start(c).workers[w], x)
  {
    Apart(c.slice, v, w);
  }

  lemma StartHeld(c: Config, x: nat)
    requires Sized(c) && x < c.slice * c.threads
    ensures Held(Start(c), x)
  {
    var w := Owner(c.slice, c.threads, x);
    assert Claims(Start(c).workers[w], x);
  }

  lemma StartShares(c: Config)
    requires Sized(c)
    ensures Shared(c, Start(c))
  {
    hide Claims, Held;
    var p := Start(c);
    forall v, w, x | 0 <= v < w < |p.workers| && Claims(p.workers[v], x)
      ensures !Claims(p.workers[w], x)
    {
      StartApart(c, v, w, x);
    }
    forall x: nat | x < p.reserved
      ensures Held(p, x)
    {
      StartHeld(c, x);
    }
  }

  lemma StartKeeps(c: Config)
    requires Sized(c)
    ensures Inv(c, Start(c))
  {
    hide Shared, Total;
    var p := Start(c);
    NoneGone(p.workers);
    forall j | 0 <= j < c.threads
      ensures Hi(p.workers[j]) <= p.reserved && p.workers[j].start < c.count
    {
      Apart(c.slice, j, c.threads);
    }
    StartShares(c);
  }

  lemma {:induction false} NoneGone(ws: seq<Worker>)
    requires forall w | 0 <= w < |ws| :: ws[w].Pending?
    ensures Total(ws, GONE) == 0
  {
    if ws != [] {
      NoneGone(ws[..|ws| - 1]);
    }
  }

  /** The slice that contains x. */
  lemma {:induction false} Owner(s: nat, n: nat, x: nat) returns (w: nat)
    requires x < s * n
    ensures w < n && w * s <= x < w * s + s
  {
    Another(s, n - 1);
    if s * (n - 1) <= x {
      w := n - 1;
    } else {
      w := Owner(s, n - 1, x);
    }
  }

  /** Every step of every interleaving keeps the shares, whichever worker makes it. */
  lemma StepKeeps(c: Config, p: Pool, s: Step)
    requires Sized(c) && Inv(c, p) && Enabled(c, p, s)
    ensures Inv(c, Next(c, p, s))
  {
    match s
    case Create(w) => CreateKeeps(c, p, w);
    case GiveUp => assert forall x: nat :: Held(p, x) == Held(Next(c, p, s), x);
    case Visit(w, stop) => VisitKeeps(c, p, w, stop);
    case Reserve(w) => ReserveKeeps(c, p, w);
  }

  ghost predicate Leads(c: Config, p: Pool, steps: seq<Step>, q: Pool)
    decreases |steps|
  {
    if steps == [] then p == q else Enabled(c, p, steps[0]) && Leads(c, Next(c, p, steps[0]), steps[1..], q)
  }

  lemma {:induction false} RunKeeps(c: Config, p: Pool, steps: seq<Step>, q: Pool)
    requires Sized(c) && Inv(c, p) && Leads(c, p, steps, q)
    ensures Inv(c, q)
    decreases |steps|
  {
    if steps != [] {
      StepKeeps(c, p, steps[0]);
      RunKeeps(c, Next(c, p, steps[0]), steps[1..], q);
    }
  }

  // ---------------------------------------------------------------- what is visited

  /** In every reachable state no index was visited twice, none is out of range, and no cursor has wrapped around. */
  lemma NoneTwice(c: Config, steps: seq<Step>, p: Pool, i: nat, j: nat)
    requires Sized(c) && Leads(c, Start(c), steps, p) && i < j < |p.visited|
    ensures p.visited[i] != p.visited[j] && p.visited[i] < c.count
    ensures p.reserved <= 2 * c.count + c.slice - 1
    ensures forall w | 0 <= w < |p.workers| :: Hi(p.workers[w]) <= 2 * c.count + c.slice - 1
  {
    StartKeeps(c);
    RunKeeps(c, Start(c), steps, p);
    CursorBound(c, p);
    hide Bounds, Queue, Total, Start, Leads, Held;
    var v := p.visited;
    assert v == v[..i] + [v[i]] + v[i + 1..j] + [v[j]] + v[j + 1..];
    assert multiset(v)[v[i]] <= 1;
  }

  /** The order in which the sequential routine visits the array. */
  function Sequential(n: nat): (s: seq<nat>)
    ensures |s| == n
  {
    seq(n, i requires 0 <= i => i)
  }

  lemma {:induction false} SequentialCounts(n: nat, x: nat)
    ensures multiset(Sequential(n))[x] == if x < n then 1 else 0
  {
    if n > 0 {
      assert Sequential(n) == Sequential(n - 1) + [n - 1];
      SequentialCounts(n - 1, x);
    }
  }

  /** When all workers were created and ran out of work, exactly the indices of the sequential walk were visited. */
  lemma AllVisited(c: Config, steps: seq<Step>, p: Pool)
    requires Sized(c) && Leads(c, Start(c), steps, p) && forall w | 0 <= w < |p.workers| :: p.workers[w].Exited?
    ensures multiset(p.visited) == multiset(Sequential(c.count))
  {
    StartKeeps(c);
    RunKeeps(c, Start(c), steps, p);
    assert p.workers[0].Exited?;
    forall x: nat
      ensures multiset(p.visited)[x] == multiset(Sequential(c.count))[x]
    {
      SequentialCounts(c.count, x);
      assert !Held(p, x);
    }
  }

  lemma HeldSlices(c: Config, p: Pool, k: nat, x: nat)
    requires Queue(c, p) && 0 < c.slice && k <= c.threads == |p.workers|
    requires forall w | 0 <= w < |p.workers| :: if w < k then p.workers[w].Exited? else p.workers[w].Pending?
    ensures Held(p, x) <==> k * c.slice <= x < c.threads * c.slice
  {
    if Held(p, x) {
      var v :| 0 <= v < |p.workers| && Claims(p.workers[v], x);
      SlotRange(c.slice, c.threads, k, v, x);
    }
    if k * c.slice <= x < c.threads * c.slice {
      var w := Owner(c.slice, c.threads, x);
      SlotFrom(c.slice, k, w, x);
      assert Claims(p.workers[w], x);
    }
  }

  lemma SlotRange(s: nat, n: nat, k: nat, v: nat, x: nat)
    requires k <= v < n && v * s <= x < v * s + s
    ensures k * s <= x < n * s
  {
    Scale(s, k, v);
    Apart(s, v, n);
  }

  lemma SlotFrom(s: nat, k: nat, w: nat, x: nat)
    requires k * s <= x < w * s + s
    ensures k <= w
  {
    if w < k {
      Apart(s, w, k);
    }
  }

  /** When only the first k workers could be created and ran out of work, exactly the slices of the others are
      missing. */
  lemma MissingSlices(c: Config, steps: seq<Step>, p: Pool, k: nat, x: nat)
    requires Sized(c) && Leads(c, Start(c), steps, p) && 1 <= k <= c.threads == |p.workers| && x < c.count
    requires forall w | 0 <= w < |p.workers| :: if w < k then p.workers[w].Exited? else p.workers[w].Pending?
    ensures multiset(p.visited)[x] == if k * c.slice <= x < c.threads * c.slice then 0 else 1
  {
    hide Queue, Total, Held;
    StartKeeps(c);
    RunKeeps(c, Start(c), steps, p);
    assert p.workers[0].Exited?;
    HeldSlices(c, p, k, x);
  }

  // ---------------------------------------------------------------- termination

  /** The indices below `n` that a worker still holds. */
  function Work(n: nat): Worker -> nat
  {
    (w: Worker) => match w
      case Exited => 0
      case Pending(i, end) => if i < end then Min(end, n) - Min(i, n) else 0
      case Busy(i, end) => if i < end then Min(end, n) - Min(i, n) else 0
      case Stopped(i, end) => if i < end then Min(end, n) - Min(i, n) else 0
  }

  function Measure(c: Config, p: Pool): nat
  {
    2 * (c.count - Min(p.reserved, c.count)) + Total(p.workers, Work(c.count)) + Total(p.workers, WEIGHT)
    + if p.creating then 1 else 0
  }

  lemma StepDecreases(c: Config, p: Pool, s: Step)
    requires Sized(c) && Inv(c, p) && Enabled(c, p, s)
    ensures Measure(c, Next(c, p, s)) < Measure(c, p)
  {
    hide Shared, Total, Queue;
    var q := Next(c, p, s);
    if !s.GiveUp? {
      TotalUpdate(p.workers, Work(c.count), s.w, q.workers[s.w]);
      TotalUpdate(p.workers, WEIGHT, s.w, q.workers[s.w]);
      if s.Reserve? {
        NoWrap(c, p, s.w);
      }
    }
  }

  /** No run is longer than the initial measure, fair or not. */
  lemma {:induction false} RunsEnd(c: Config, p: Pool, steps: seq<Step>, q: Pool)
    requires Sized(c) && Inv(c, p) && Leads(c, p, steps, q)
    ensures |steps| + Measure(c, q) <= Measure(c, p)
    decreases |steps|
  {
    if steps != [] {
      StepKeeps(c, p, steps[0]);
      StepDecreases(c, p, steps[0]);
      RunsEnd(c, Next(c, p, steps[0]), steps[1..], q);
    }
  }

  /** A pool in which nothing can happen has created what it could and has only workers that finished or stopped. */
  lemma Stuck(c: Config, p: Pool, w: nat)
    requires (forall s :: !Enabled(c, p, s)) && w < |p.workers|
    ensures !p.creating && !p.workers[w].Busy?
  {
    assert !Enabled(c, p, GiveUp);
    assert !Enabled(c, p, Visit(w, false)) && !Enabled(c, p, Reserve(w));
  }

  // ---------------------------------------------------------------- what the callback says

  /** The number of elements of `visited` at which the callback halts. */
  ghost function Halting(fn: nat -> Answer, visited: seq<nat>): nat
  {
    if visited == [] then 0
    else Halting(fn, visited[..|visited| - 1]) + if Halts(fn(visited[|visited| - 1])) then 1 else 0
  }

  ghost predicate Silent(fn: nat -> Answer, from: nat, to: nat)
  {
    forall y: nat | from <= y < to :: !Halts(fn(y))
  }

  const HALTED: Worker -> nat := (w: Worker) => if w.Stopped? then 1 else 0

  /** A worker's slice starts at a multiple of its length; the callback has not halted there, or just did. */
  ghost predicate OwnSlice(s: nat, fn: nat -> Answer, w: Worker)
    requires s > 0
  {
    match w
    case Pending(i, end) => i % s == 0 && end == i + s
    case Busy(i, end) => s <= end && end % s == 0 && end - s <= i <= end && Silent(fn, end - s, i)
    case Exited => true
    case Stopped(i, end) =>
      s <= end && end % s == 0 && end - s < i <= end && Silent(fn, end - s, i - 1) && Halts(fn(i - 1))
  }

  ghost predicate LastOf(ws: seq<Worker>, w: nat, x: nat)
  {
    w < |ws| && ws[w].Stopped? && ws[w].i == x + 1
  }

  /** Nobody goes past an element at which the callback halts; whoever meets one stops. */
  ghost predicate Heard(c: Config, fn: nat -> Answer, p: Pool)
    requires c.slice > 0
  {
    && p.reserved % c.slice == 0 && c.slice * c.threads <= p.reserved
    && (forall w | 0 <= w < |p.workers| :: OwnSlice(c.slice, fn, p.workers[w]))
    && (forall x <- p.visited :: Silent(fn, x - x % c.slice, x))
    && (forall x <- p.visited | Halts(fn(x)) :: exists w :: LastOf(p.workers, w, x))
    && (forall w, x :: LastOf(p.workers, w, x) ==> x in p.visited)
    && Halting(fn, p.visited) == Total(p.workers, HALTED)
  }

  lemma Beginning(s: nat, a: nat, x: nat)
    requires s > 0 && a % s == 0 && a <= x < a + s
    ensures x - x % s == a && (a + s) % s == 0
  {
    assert x == s * (a / s) + (x - a);
    Remainder(s, a / s, x - a);
    assert a + s == s * (a / s + 1);
    Remainder(s, a / s + 1, 0);
  }

  lemma Remainder(s: nat, k: nat, r: nat)
    requires r < s
    ensures (s * k + r) % s == r
  {
    var q := (s * k + r) / s;
    assert s * k + r == s * q + (s * k + r) % s;
    Another(s, q);
    Another(s, k);
    if q < k {
      Scale(s, q + 1, k);
    } else if k < q {
      Scale(s, k + 1, q);
    }
  }

  lemma Multiple(s: nat, k: nat)
    requires s > 0
    ensures (k * s) % s == 0
  {
    Remainder(s, k, 0);
  }

  lemma StartHeard(c: Config, fn: nat -> Answer)
    requires Sized(c)
    ensures Heard(c, fn, Start(c))
  {
    var p := Start(c);
    Multiple(c.slice, c.threads);
    forall w | 0 <= w < |p.workers|
      ensures OwnSlice(c.slice, fn, p.workers[w])
    {
      Multiple(c.slice, w);
    }
    NoneHalted(p.workers);
  }

  lemma {:induction false} NoneHalted(ws: seq<Worker>)
    requires forall w | 0 <= w < |ws| :: ws[w].Pending?
    ensures Total(ws, HALTED) == 0
  {
    if ws != [] {
      NoneHalted(ws[..|ws| - 1]);
    }
  }

  /** A worker stops exactly when the callback halts. */
  predicate Obeys(fn: nat -> Answer, p: Pool, s: Step)
  {
    s.Visit? && s.w < |p.workers| && p.workers[s.w].Busy? ==> (s.stop <==> Halts(fn(p.workers[s.w].i)))
  }

  lemma VisitSlice(s: nat, fn: nat -> Answer, i: nat, end: nat)
    requires s > 0 && OwnSlice(s, fn, Busy(i, end)) && i < end
    ensures Silent(fn, i - i % s, i)
    ensures OwnSlice(s, fn, if Halts(fn(i)) then Stopped(i + 1, end) else Busy(i + 1, end))
  {
    EndBack(s, end);
    Beginning(s, end - s, i);
  }

  lemma VisitLast(p: Pool, q: Pool, w: nat, i: nat, fn: nat -> Answer)
    requires w < |p.workers| == |q.workers| && q.visited == p.visited + [i]
    requires p.workers[w].Busy? && forall v | 0 <= v < |p.workers| && v != w :: q.workers[v] == p.workers[v]
    requires Halts(fn(i)) <==> q.workers[w].Stopped?
    requires q.workers[w].Stopped? ==> q.workers[w].i == i + 1
    requires forall x <- p.visited | Halts(fn(x)) :: exists v :: LastOf(p.workers, v, x)
    requires forall v, x :: LastOf(p.workers, v, x) ==> x in p.visited
    ensures forall x <- q.visited | Halts(fn(x)) :: exists v :: LastOf(q.workers, v, x)
    ensures forall v, x :: LastOf(q.workers, v, x) ==> x in q.visited
  {
    forall x <- q.visited | Halts(fn(x))
      ensures exists v :: LastOf(q.workers, v, x)
    {
      if x in p.visited {
        var v :| LastOf(p.workers, v, x);
        assert LastOf(q.workers, v, x);
      } else {
        assert LastOf(q.workers, w, x);
      }
    }
    forall v, x | LastOf(q.workers, v, x)
      ensures x in q.visited
    {
      assert v != w ==> LastOf(p.workers, v, x);
    }
  }

  lemma VisitHeard(c: Config, fn: nat -> Answer, p: Pool, w: nat, stop: bool)
    requires c.slice > 0 && Heard(c, fn, p) && Enabled(c, p, Visit(w, stop)) && Obeys(fn, p, Visit(w, stop))
    ensures Heard(c, fn, Next(c, p, Visit(w, stop)))
  {
    hide Total, OwnSlice, LastOf, Silent;
    var q := Next(c, p, Visit(w, stop));
    var i, end := p.workers[w].i, p.workers[w].end;
    TotalUpdate(p.workers, HALTED, w, q.workers[w]);
    VisitSlice(c.slice, fn, i, end);
    VisitLast(p, q, w, i, fn);
    assert q.visited[..|q.visited| - 1] == p.visited;
  }

  lemma EndBack(s: nat, end: nat)
    requires 0 < s <= end && end % s == 0
    ensures (end - s) % s == 0
  {
    assert end == s * (end / s);
    Another(s, end / s - 1);
    Remainder(s, end / s - 1, 0);
  }

  lemma SameHalted(p: Pool, q: Pool, w: nat)
    requires w < |p.workers| == |q.workers| && q.workers == p.workers[w := q.workers[w]] && q.visited == p.visited
    requires !p.workers[w].Stopped? && !q.workers[w].Stopped?
    ensures Total(q.workers, HALTED) == Total(p.workers, HALTED)
    ensures forall v, x :: LastOf(q.workers, v, x) <==> LastOf(p.workers, v, x)
  {
    TotalUpdate(p.workers, HALTED, w, q.workers[w]);
  }

  /** The callback keeps its word along every step. */
  lemma StepHeard(c: Config, fn: nat -> Answer, p: Pool, s: Step)
    requires Sized(c) && Inv(c, p) && Heard(c, fn, p) && Enabled(c, p, s) && Obeys(fn, p, s)
    ensures Heard(c, fn, Next(c, p, s))
  {
    hide Total, Shared, Halting;
    var q := Next(c, p, s);
    match s
    case Create(w) =>
      SameHalted(p, q, w);
      Beginning(c.slice, p.workers[w].start, p.workers[w].start);
    case GiveUp =>
    case Visit(w, stop) =>
      VisitHeard(c, fn, p, w, stop);
    case Reserve(w) =>
      NoWrap(c, p, w);
      SameHalted(p, q, w);
      Beginning(c.slice, p.reserved, p.reserved);
  }

  // ---------------------------------------------------------------- the routines

  /** `visited` are the elements up to the first at which the callback halts, and `r` is what it returned last. */
  ghost predicate Walked(fn: nat -> Answer, count: nat, visited: seq<nat>, r: int)
  {
    var n := |visited|;
    && n <= count && visited == Sequential(n)
    && Silent(fn, 0, if n == 0 then 0 else n - 1)
    && (n < count ==> n > 0 && Halts(fn(n - 1)))
    && r == if n == 0 then 0 else fn(n - 1).r
  }

  /** The single-threaded walk. */
  method Foreach(count: nat, fn: nat -> Answer) returns (visited: seq<nat>, r: int)
    ensures Walked(fn, count, visited, r)
  {
    visited, r := [], 0;
    for i := 0 to count
      invariant visited == Sequential(i) && Silent(fn, 0, i) && r == 0
    {
      visited := visited + [i];
      var answer := fn(i);
      r := answer.r;
      if r != 0 || answer.done {
        return;
      }
    }
  }

  /** The next step of worker `w`. */
  method WorkerStep(c: Config, fn: nat -> Answer, p: Pool, w: nat) returns (q: Pool, ghost s: Step)
    requires w < |p.workers| && p.workers[w].Busy?
    ensures Enabled(c, p, s) && q == Next(c, p, s) && !s.Create? && Obeys(fn, p, s)
    ensures q.creating == p.creating
  {
    var i, end := p.workers[w].i, p.workers[w].end;
    if i < end && i < c.count {
      var answer := fn(i);
      var stop := answer.r != 0 || answer.done;
      s := Visit(w, stop);
      q := p.(visited := p.visited + [i],
              workers := p.workers[w := if stop then Stopped(i + 1, end) else Busy(i + 1, end)]);
    } else {
      s := Reserve(w);
      var next := p.reserved;
      end := (next + c.slice) % WORD;
      q := p.(reserved := end, workers := p.workers[w := if next < c.count then Busy(next, end) else Exited]);
    }
  }

  /** The first `made` workers were created. */
  ghost predicate Created(p: Pool, made: nat)
  {
    forall w | 0 <= w < |p.workers| :: p.workers[w].Pending? <==> made <= w
  }

  lemma StartLeads(c: Config)
    ensures Created(Start(c), 0) && Leads(c, Start(c), [], Start(c)) && |Start(c).workers| == c.threads
  {
  }

  lemma StepCreated(c: Config, p: Pool, s: Step, made: nat)
    requires Created(p, made) && Enabled(c, p, s) && !s.Create?
    ensures Created(Next(c, p, s), made) && |Next(c, p, s).workers| == |p.workers|
  {
  }

  /** How many workers are created: all, or those before the first whose creation fails. */
  ghost predicate Made(c: Config, fails: nat -> bool, made: nat)
  {
    made <= c.threads && (forall w: nat | w < made :: !fails(w)) && (made < c.threads ==> fails(made))
  }

  /** Creates the next worker; the last one and any failure end the creation. */
  method CreateNext(c: Config, fails: nat -> bool, p: Pool, made: nat) returns (q: Pool, n: nat, ghost s: Step)
    requires p.creating && made <= c.threads == |p.workers| && Created(p, made)
    requires forall w: nat | w < made :: !fails(w)
    ensures Enabled(c, p, s) && q == Next(c, p, s) && n <= c.threads && Created(q, n) && !s.Visit?
    ensures |q.workers| == |p.workers| && if q.creating then forall w: nat | w < n :: !fails(w) else Made(c, fails, n)
  {
    if made == c.threads || fails(made) {
      s, n := GiveUp, made;
      q := p.(creating := false);
    } else {
      s, n := Create(made), made + 1;
      var worker := p.workers[made];
      q := p.(workers := p.workers[made := Entered(c, worker.start, worker.end)]);
    }
  }

  /** The main thread creates the workers in order, `made` of them before it is done or a creation fails; in between
      any running worker makes the next step. */
  method RunPool(c: Config, fails: nat -> bool, fn: nat -> Answer) returns (p: Pool, made: nat, ghost steps: seq<Step>)
    requires Sized(c)
    ensures Leads(c, Start(c), steps, p) && Inv(c, p) && Heard(c, fn, p) && Made(c, fails, made)
    ensures |p.workers| == c.threads && Created(p, made)
    ensures forall w | 0 <= w < |p.workers| :: !p.workers[w].Busy?
  {
    hide Inv, Total, Sized, Measure, Created, Leads, Heard;
    StartLeads(c);
    p, made, steps := Start(c), 0, [];
    StartKeeps(c);
    SliceSize(c);
    StartHeard(c, fn);
    while true
      invariant Leads(c, Start(c), steps, p) && Inv(c, p) && Heard(c, fn, p) && made <= c.threads == |p.workers|
      invariant Created(p, made) && if p.creating then forall w: nat | w < made :: !fails(w) else Made(c, fails, made)
      decreases Measure(c, p)
    {
      ghost var p0 := p;
      ghost var s: Step;
      var wait: bool := *;
      var w := Runnable(p.workers);
      if w < |p.workers| && (wait || !p.creating) {
        p, s := WorkerStep(c, fn, p, w);
        StepCreated(c, p0, s, made);
      } else if p.creating {
        p, made, s := CreateNext(c, fails, p, made);
      } else {
        break;
      }
      StepKeeps(c, p0, s);
      StepHeard(c, fn, p0, s);
      StepDecreases(c, p0, s);
      LeadsMore(c, Start(c), steps, p0, s);
      steps := steps + [s];
    }
  }

  lemma SliceSize(c: Config)
    requires Sized(c)
    ensures c.slice > 0
  {
  }

  /** `x` is visited: its slice belongs to one of the `made` workers that were created, or was taken from the cursor,
      which ended at `reserved`, and the callback halts nowhere before it in its slice. */
  ghost predicate Reached(c: Config, fn: nat -> Answer, made: nat, reserved: nat, x: nat)
    requires c.slice > 0
  {
    && (x < made * c.slice || c.threads * c.slice <= x < reserved)
    && Silent(fn, x - x % c.slice, x)
  }

  /** The multi-threaded walk.  Without any worker the single-threaded walk takes over.

      Which elements are visited depends on the callback and on where the cursor ended alone; it ends before the array
      does only if the callback made every worker stop. */
  method ForeachMulti(count: nat, cpus: nat, fails: nat -> bool, fn: nat -> Answer)
      returns (visited: seq<nat>, r: int, made: nat, reserved: nat)
    requires 2 * count + 31 < WORD
    ensures forall i, j | 0 <= i < j < |visited| :: visited[i] != visited[j]
    ensures made == 0 <==> cpus <= 1 || count <= 1 || fails(0)
    ensures made == 0 ==> Walked(fn, count, visited, r)
    ensures made > 0 ==> Sized(Plan(count, cpus)) && Made(Plan(count, cpus), fails, made)
    ensures made > 0 ==>
              forall x: nat :: x in visited <==> x < count && Reached(Plan(count, cpus), fn, made, reserved, x)
    ensures made > 0 && reserved < count ==> Halting(fn, visited) == made
    ensures r != 0 ==> exists x <- visited :: fn(x).r == r
    ensures r == 0 <==> forall x <- visited :: fn(x).r == 0
    ensures made > 0 && made == Plan(count, cpus).threads && Silent(fn, 0, count) ==>
              multiset(visited) == multiset(Sequential(count))
  {
    hide Inv, Heard, Reached, Halting, Leads, Created, Walked, Silent, Plan;
    visited, r, made, reserved := [], 0, 0, 0;
    if cpus > 1 && count > 1 {
      var c := Plan(count, cpus);
      PlanSized(count, cpus);
      var p;
      ghost var steps;
      p, made, steps := RunPool(c, fails, fn);
      if made > 0 {
        visited, reserved := p.visited, p.reserved;
        ReportPool(c, steps, fn, p, made);
        r := FirstError(c, fn, p, made);
        return;
      }
    }
    visited, r := Foreach(count, fn);
    WalkReports(fn, count, visited, r);
  }

  /** Any running worker, or the number of workers when none runs. */
  method Runnable(ws: seq<Worker>) returns (w: nat)
    ensures w <= |ws| && (w < |ws| ==> ws[w].Busy?)
    ensures w == |ws| ==> forall v | 0 <= v < |ws| :: !ws[v].Busy?
  {
    if v: nat :| v < |ws| && ws[v].Busy? {
      w := v;
    } else {
      w := |ws|;
    }
  }

  /** Without a worker that is busy, what is missing is held by a worker that was not created or that stopped. */
  lemma ReachedExactly(c: Config, fn: nat -> Answer, p: Pool, made: nat, x: nat)
    requires Sized(c) && Inv(c, p) && Heard(c, fn, p) && made <= c.threads == |p.workers| && Created(p, made)
    requires forall w | 0 <= w < |p.workers| :: !p.workers[w].Busy?
    ensures x in p.visited <==> x < c.count && Reached(c, fn, made, p.reserved, x)
  {
    hide Total, Halting, Created, Sized;
    SliceSize(c);
    Counted(c, p, x);
    Scale(c.slice, made, c.threads);
    if made * c.slice <= x < c.threads * c.slice {
      StillHeld(c, p, made, x);
    } else if x !in p.visited && x < p.reserved && x < c.count {
      var w :| 0 <= w < |p.workers| && Claims(p.workers[w], x);
      IsPending(p, made, w);
      assert OwnSlice(c.slice, fn, p.workers[w]);
      if p.workers[w].Pending? {
        SlotRange(c.slice, c.threads, made, w, x);
      } else {
        EndBack(c.slice, p.workers[w].end);
        Beginning(c.slice, p.workers[w].end - c.slice, x);
      }
    }
  }

  lemma StillHeld(c: Config, p: Pool, made: nat, x: nat)
    requires Queue(c, p) && 0 < c.slice && |p.workers| == c.threads && Created(p, made)
    requires made * c.slice <= x < c.threads * c.slice
    ensures Held(p, x)
  {
    var w := Owner(c.slice, c.threads, x);
    SlotFrom(c.slice, made, w, x);
    assert Claims(p.workers[w], x);
  }

  lemma Counted(c: Config, p: Pool, x: nat)
    requires Inv(c, p)
    ensures x in p.visited <==> x < p.reserved && x < c.count && !Held(p, x)
    ensures multiset(p.visited)[x] <= 1
  {
    hide Total, Queue, Bounds;
  }

  lemma IsPending(p: Pool, made: nat, w: nat)
    requires Created(p, made) && w < |p.workers|
    ensures p.workers[w].Pending? <==> made <= w
  {
  }

  lemma {:induction false} AllHalted(ws: seq<Worker>, made: nat)
    requires made <= |ws| && forall w | 0 <= w < |ws| :: if w < made then ws[w].Stopped? else ws[w].Pending?
    ensures Total(ws, HALTED) == made
  {
    if ws != [] {
      var n := |ws| - 1;
      AllHalted(ws[..n], if made <= n then made else n);
    }
  }

  lemma {:induction false} NoHalting(fn: nat -> Answer, visited: seq<nat>)
    requires forall x <- visited :: !Halts(fn(x))
    ensures Halting(fn, visited) == 0
  {
    if visited != [] {
      assert visited[|visited| - 1] in visited;
      NoHalting(fn, visited[..|visited| - 1]);
    }
  }

  /** The cursor ends before the array does only if every worker stopped. */
  lemma CutShort(c: Config, fn: nat -> Answer, p: Pool, made: nat)
    requires Sized(c) && Inv(c, p) && Heard(c, fn, p) && made <= c.threads == |p.workers| && Created(p, made)
    requires (forall w | 0 <= w < |p.workers| :: !p.workers[w].Busy?) && p.reserved < c.count
    ensures Halting(fn, p.visited) == made
  {
    hide Total, Halting, Shared, Queue, OwnSlice, LastOf;
    AllHalted(p.workers, made);
  }

  lemma ReportPool(c: Config, steps: seq<Step>, fn: nat -> Answer, p: Pool, made: nat)
    requires Sized(c) && Leads(c, Start(c), steps, p) && Inv(c, p) && Heard(c, fn, p)
    requires 1 <= made <= c.threads == |p.workers| && Created(p, made)
    requires forall w | 0 <= w < |p.workers| :: !p.workers[w].Busy?
    ensures forall i, j | 0 <= i < j < |p.visited| :: p.visited[i] != p.visited[j]
    ensures forall x: nat :: x in p.visited <==> x < c.count && Reached(c, fn, made, p.reserved, x)
    ensures p.reserved < c.count ==> Halting(fn, p.visited) == made
    ensures made == c.threads && Silent(fn, 0, c.count) ==> multiset(p.visited) == multiset(Sequential(c.count))
  {
    hide Inv, Heard, Created, Reached, Total, Leads, Halting, Held;
    forall i, j | 0 <= i < j < |p.visited|
      ensures p.visited[i] != p.visited[j]
    {
      NoneTwice(c, steps, p, i, j);
    }
    forall x: nat
      ensures x in p.visited <==> x < c.count && Reached(c, fn, made, p.reserved, x)
    {
      ReachedExactly(c, fn, p, made, x);
    }
    if p.reserved < c.count {
      CutShort(c, fn, p, made);
    }
    if made == c.threads && Silent(fn, 0, c.count) {
      NothingMissed(c, fn, p);
    }
  }

  lemma NothingMissed(c: Config, fn: nat -> Answer, p: Pool)
    requires Sized(c) && Inv(c, p)
    requires forall x: nat :: x in p.visited <==> x < c.count && Reached(c, fn, c.threads, p.reserved, x)
    requires p.reserved < c.count ==> Halting(fn, p.visited) == c.threads
    requires Silent(fn, 0, c.count)
    ensures multiset(p.visited) == multiset(Sequential(c.count))
  {
    hide Inv, Total, Halting;
    if forall x <- p.visited :: !Halts(fn(x)) {
      NoHalting(fn, p.visited);
    }
    forall x: nat
      ensures multiset(p.visited)[x] == multiset(Sequential(c.count))[x]
    {
      SequentialCounts(c.count, x);
      Counted(c, p, x);
      assert x in multiset(p.visited) <==> x in p.visited;
    }
  }

  lemma WalkReports(fn: nat -> Answer, count: nat, visited: seq<nat>, r: int)
    requires Walked(fn, count, visited, r)
    ensures forall i, j | 0 <= i < j < |visited| :: visited[i] != visited[j]
    ensures r != 0 ==> exists x <- visited :: fn(x).r == r
    ensures r == 0 <==> forall x <- visited :: fn(x).r == 0
  {
    if visited != [] {
      var n := |visited| - 1;
      assert visited[n] == n && n in visited;
      forall x <- visited
        ensures x == n || fn(x).r == 0
      {
        assert x <= n;
        assert x < n ==> !Halts(fn(x));
      }
    }
  }

  /** The code of the first worker that stopped with one. */
  method FirstError(c: Config, fn: nat -> Answer, p: Pool, made: nat) returns (r: int)
    requires c.slice > 0 && Heard(c, fn, p) && made <= |p.workers| && Created(p, made)
    ensures r != 0 ==> exists x <- p.visited :: fn(x).r == r
    ensures r == 0 <==> forall x <- p.visited :: fn(x).r == 0
  {
    hide Total, Halting, Silent;
    for j := 0 to made
      invariant forall w | 0 <= w < j :: p.workers[w].Stopped? ==> p.workers[w].i > 0 && fn(p.workers[w].i - 1).r == 0
    {
      if p.workers[j].Stopped? {
        assert OwnSlice(c.slice, fn, p.workers[j]);
        assert LastOf(p.workers, j, p.workers[j].i - 1);
        r := fn(p.workers[j].i - 1).r;
        if r != 0 {
          return;
        }
      }
    }
    r := 0;
    forall x <- p.visited
      ensures fn(x).r == 0
    {
      if Halts(fn(x)) {
        var w :| LastOf(p.workers, w, x);
      }
    }
  }

  lemma {:induction false} LeadsMore(c: Config, p: Pool, steps: seq<Step>, q: Pool, s: Step)
    requires Leads(c, p, steps, q) && Enabled(c, q, s)
    ensures Leads(c, p, steps + [s], Next(c, q, s))
    decreases |steps|
  {
    if steps == [] {
      assert [s][1..] == [];
    } else {
      assert (steps + [s])[1..] == steps[1..] + [s];
      LeadsMore(c, Next(c, p, steps[0]), steps[1..], q, s);
    }
  }
}
