/** The worker pool: `ThreadsMan`'s counters, the main thread that creates workers in batches, and the
    workers' own loop. A worker's decision to quit and its call of `tryThreadQuitting` are separate
    steps, as nothing in the source makes them one. Runs between restarts only. */
module WorkerPool {

  datatype Counters = Counters(threads: int, active: int, quitting: int, quitSwitch: bool)

  /** `tryThreadQuitting`. */
  function TryQuit(c: Counters, tIncr: nat): (Counters, bool) {
    if c.quitting + 1 > tIncr then (c, false)
    else if c.quitting + 1 == tIncr then (Counters(c.threads - 1, c.active, 0, false), true)
    else (Counters(c.threads - 1, c.active, c.quitting + 1, true), true)
  }

  /** `ThreadCreated`, `setActiveAndNotify` and `notActive`, on the counters. */
  function Counted(c: Counters): Counters {
    c.(threads := c.threads + 1)
  }

  function Activated(c: Counters): Counters {
    c.(active := c.active + 1)
  }

  function Deactivated(c: Counters): Counters {
    c.(active := c.active - 1)
  }

  class ThreadsMan {
    const tIncr: nat
    var threadsCount: int
    var activeThreads: int
    var quitingThreads: int
    var threadQuitSwitch: bool

    ghost function C(): Counters
      reads this
    {
      Counters(threadsCount, activeThreads, quitingThreads, threadQuitSwitch)
    }

    constructor (tIncr: nat)
      ensures this.tIncr == tIncr && C() == Counters(0, 0, 0, false)
    {
      this.tIncr := tIncr;
      threadsCount, activeThreads, quitingThreads, threadQuitSwitch := 0, 0, 0, false;
    }

    method TryThreadQuitting() returns (quit: bool)
      modifies this
      ensures (C(), quit) == TryQuit(old(C()), tIncr)
    {
      if quitingThreads + 1 > tIncr {
        return false;
      }
      threadQuitSwitch := true;
      quitingThreads := quitingThreads + 1;
      threadsCount := threadsCount - 1;
      if quitingThreads == tIncr {
        threadQuitSwitch := false;
        quitingThreads := 0;
      }
      return true;
    }

    method ThreadCreated()
      modifies this
      ensures C() == Counted(old(C()))
    {
      threadsCount := threadsCount + 1;
    }

    method SetActiveAndNotify()
      modifies this
      ensures C() == Activated(old(C()))
    {
      activeThreads := activeThreads + 1;
    }

    method NotActive()
      modifies this
      ensures C() == Deactivated(old(C()))
    {
      activeThreads := activeThreads - 1;
    }

    /** `CreateThreads`, when no worker runs in between. */
    method CreateThreads()
      modifies this
      ensures C() == old(C()).(threads := old(threadsCount) + tIncr)
    {
      var i := 1;
      while i <= tIncr
        invariant 1 <= i <= tIncr + 1
        invariant C() == old(C()).(threads := old(threadsCount) + (i - 1))
      {
        ThreadCreated();
        i := i + 1;
      }
    }
  }

  // ----- The pool as interleaved steps -----

  /** Where a worker is in `ForeRunner`'s loop; `Decided` lies between a test and the call it guards. */
  datatype Worker = Top | Decided(atTop: bool) | Polling | Busy | Served | Gone

  /** `toSpawn` threads of the batch are still to start; `uncounted` has started and is not counted. */
  datatype Pool = Pool(c: Counters, workers: seq<Worker>, toSpawn: nat, uncounted: nat)

  datatype Step =
    | Wake(sighup: bool)  // the main thread's wait is over
    | Spawn               // it starts a worker
    | Count               // it calls ThreadCreated
    | TestSwitch(w: nat)  // a worker looks at the quit switch
    | PollFails(w: nat)   // nothing to accept in time
    | Accept(w: nat)      // a client, setActiveAndNotify
    | Return(w: nat)      // the callback returned, notActive
    | TestSurplus(w: nat) // a worker looks for a reason to start a clean-up
    | Quit(w: nat)        // tryThreadQuitting

  function Start(): Pool {
    Pool(Counters(0, 0, 0, false), [], 0, 0)
  }

  /** The guard of the main thread's wait. */
  predicate WakeGuard(c: Counters, sighup: bool, tIncr: nat, tMax: nat) {
    (sighup || c.threads == c.active) && c.threads < tIncr + tMax
  }

  /** The guard of a worker's clean-up. */
  predicate CleanGuard(c: Counters, tIncr: nat) {
    c.threads > tIncr && c.active < c.threads - tIncr - 1
  }

  predicate At(p: Pool, w: nat, pc: Worker) {
    w < |p.workers| && p.workers[w] == pc
  }

  predicate Enabled(p: Pool, s: Step, tIncr: nat, tMax: nat) {
    match s
    case Wake(sighup) => p.toSpawn == 0 && p.uncounted == 0 && WakeGuard(p.c, sighup, tIncr, tMax)
    case Spawn => p.toSpawn > 0 && p.uncounted == 0
    case Count => p.uncounted > 0
    case TestSwitch(w) => At(p, w, Top)
    case PollFails(w) => At(p, w, Polling)
    case Accept(w) => At(p, w, Polling)
    case Return(w) => At(p, w, Busy)
    case TestSurplus(w) => At(p, w, Served)
    case Quit(w) => At(p, w, Decided(true)) || At(p, w, Decided(false))
  }

  function Moved(p: Pool, w: nat, pc: Worker): Pool
    requires w < |p.workers|
  {
    p.(workers := p.workers[w := pc])
  }

  function Next(p: Pool, s: Step, tIncr: nat, tMax: nat): Pool
    requires Enabled(p, s, tIncr, tMax)
  {
    match s
    case Wake(_) => p.(toSpawn := tIncr)
    case Spawn => p.(toSpawn := p.toSpawn - 1, uncounted := 1, workers := p.workers + [Top])
    case Count => p.(uncounted := p.uncounted - 1, c := Counted(p.c))
    case TestSwitch(w) => Moved(p, w, if p.c.quitSwitch then Decided(true) else Polling)
    case PollFails(w) => Moved(p, w, Served)
    case Accept(w) => Moved(p.(c := Activated(p.c)), w, Busy)
    case Return(w) => Moved(p.(c := Deactivated(p.c)), w, Served)
    case TestSurplus(w) => Moved(p, w, if CleanGuard(p.c, tIncr) then Decided(false) else Top)
    case Quit(w) =>
      var (c, quit) := TryQuit(p.c, tIncr);
      Moved(p.(c := c), w, if quit then Gone else if p.workers[w].atTop then Polling else Top)
  }

  // ----- The invariant -----

  function One(b: bool): nat {
    if b then 1 else 0
  }

  /** Workers inside a callback. */
  function BusyCount(workers: seq<Worker>): nat {
    if workers == [] then 0 else One(workers[0].Busy?) + BusyCount(workers[1..])
  }

  /** Workers that have not quit. */
  function LiveCount(workers: seq<Worker>): nat {
    if workers == [] then 0 else One(!workers[0].Gone?) + LiveCount(workers[1..])
  }

  lemma {:induction false} CountsAfterMove(workers: seq<Worker>, w: nat, pc: Worker)
    requires w < |workers|
    ensures BusyCount(workers[w := pc]) == BusyCount(workers) - One(workers[w].Busy?) + One(pc.Busy?)
    ensures LiveCount(workers[w := pc]) == LiveCount(workers) - One(!workers[w].Gone?) + One(!pc.Gone?)
  {
    if w == 0 {
      assert workers[w := pc][1..] == workers[1..];
    } else {
      assert workers[w := pc][1..] == workers[1..][w - 1 := pc];
      CountsAfterMove(workers[1..], w - 1, pc);
    }
  }

  lemma {:induction false} CountsAfterSpawn(workers: seq<Worker>)
    ensures BusyCount(workers + [Top]) == BusyCount(workers)
    ensures LiveCount(workers + [Top]) == LiveCount(workers) + 1
  {
    if workers == [] {
      assert workers + [Top] == [Top];
    } else {
      assert (workers + [Top])[1..] == workers[1..] + [Top];
      CountsAfterSpawn(workers[1..]);
    }
  }

  /** Threads counted, threads that have quit in the current clean-up, threads yet to be counted. */
  function Stock(p: Pool): int {
    p.c.threads + p.c.quitting + p.toSpawn + p.uncounted
  }

  /** `n` is a number of whole batches of `t`. */
  predicate WholeBatches(n: int, t: nat)
    requires t > 0
    decreases n
  {
    n == 0 || (n >= t && WholeBatches(n - t, t))
  }

  ghost predicate Inv(p: Pool, tIncr: nat, tMax: nat)
    requires tIncr > 0
  {
    // whole batches
    && WholeBatches(Stock(p), tIncr)
    && 0 <= p.c.quitting < tIncr
    && (p.c.quitSwitch <==> p.c.quitting > 0)
    && (p.c.quitting > 0 ==> Stock(p) >= 2 * tIncr)
    // the floor, once a batch has been ordered
    && ((Stock(p) == 0 && p.workers == []) || Stock(p) >= tIncr)
    // the main thread
    && p.uncounted <= 1 && p.toSpawn + p.uncounted <= tIncr
    && p.c.threads + p.toSpawn + p.uncounted < 2 * tIncr + tMax
    // what is counted
    && LiveCount(p.workers) == p.c.threads + p.uncounted
    && BusyCount(p.workers) == p.c.active
  }

  /** The condition `tryThreadQuitting` needs and does not test: a clean-up is under way, or more than
      one batch is left. */
  predicate Surplus(p: Pool, tIncr: nat) {
    p.c.quitting > 0 || p.c.threads + p.toSpawn + p.uncounted > tIncr
  }

  predicate Floor(p: Pool, tIncr: nat) {
    p.workers != [] ==> p.c.threads + p.toSpawn + p.uncounted >= tIncr
  }

  lemma MoreThanOneBatch(n: int, t: nat)
    requires t > 0 && WholeBatches(n, t) && n > t
    ensures n >= 2 * t && WholeBatches(n - t, t)
  {
    assert WholeBatches(n - t, t);
  }

  lemma QuitKeepsInv(p: Pool, w: nat, tIncr: nat, tMax: nat)
    requires tIncr > 0 && Inv(p, tIncr, tMax) && Enabled(p, Quit(w), tIncr, tMax) && Surplus(p, tIncr)
    ensures Inv(Next(p, Quit(w), tIncr, tMax), tIncr, tMax)
  {
    MoreThanOneBatch(Stock(p), tIncr);
    hide WholeBatches, BusyCount, LiveCount;
    CountsAfterMove(p.workers, w, Gone);
  }

  /** One step keeps the invariant, a call of `tryThreadQuitting` provided there is a surplus. */
  lemma StepKeepsInv(p: Pool, s: Step, tIncr: nat, tMax: nat)
    requires tIncr > 0 && Inv(p, tIncr, tMax) && Enabled(p, s, tIncr, tMax)
    requires s.Quit? ==> Surplus(p, tIncr)
    ensures Inv(Next(p, s, tIncr, tMax), tIncr, tMax)
  {
    assert WholeBatches(Stock(p), tIncr) && WholeBatches(Stock(p) + tIncr, tIncr);
    hide BusyCount, LiveCount, WholeBatches;
    match s
    case Wake(_) =>
    case Spawn =>
      CountsAfterSpawn(p.workers);
    case Count =>
    case TestSwitch(w) => CountsAfterMove(p.workers, w, if p.c.quitSwitch then Decided(true) else Polling);
    case PollFails(w) => CountsAfterMove(p.workers, w, Served);
    case Accept(w) => CountsAfterMove(p.workers, w, Busy);
    case Return(w) => CountsAfterMove(p.workers, w, Served);
    case TestSurplus(w) => CountsAfterMove(p.workers, w, if CleanGuard(p.c, tIncr) then Decided(false) else Top);
    case Quit(w) => QuitKeepsInv(p, w, tIncr, tMax);
  }

  /** Without a surplus one call takes the pool below its floor. */
  lemma QuitWithoutSurplusBreaksFloor(p: Pool, w: nat, tIncr: nat, tMax: nat)
    requires tIncr > 0 && Inv(p, tIncr, tMax) && Enabled(p, Quit(w), tIncr, tMax) && !Surplus(p, tIncr)
    ensures !Floor(Next(p, Quit(w), tIncr, tMax), tIncr)
  {
  }

  lemma InvMeansFloor(p: Pool, tIncr: nat, tMax: nat)
    requires tIncr > 0 && Inv(p, tIncr, tMax)
    ensures Floor(p, tIncr)
  {
  }

  // ----- Runs -----

  predicate Runs(p: Pool, steps: seq<Step>, tIncr: nat, tMax: nat)
    decreases steps
  {
    steps == [] ||
    (Enabled(p, steps[0], tIncr, tMax) && Runs(Next(p, steps[0], tIncr, tMax), steps[1..], tIncr, tMax))
  }

  function After(p: Pool, steps: seq<Step>, tIncr: nat, tMax: nat): Pool
    requires Runs(p, steps, tIncr, tMax)
    decreases steps
  {
    if steps == [] then p else After(Next(p, steps[0], tIncr, tMax), steps[1..], tIncr, tMax)
  }

  /** The floor holds in every state of the run. */
  predicate FloorThroughout(p: Pool, steps: seq<Step>, tIncr: nat, tMax: nat)
    requires Runs(p, steps, tIncr, tMax)
    decreases steps
  {
    && Floor(p, tIncr)
    && (steps != [] ==> FloorThroughout(Next(p, steps[0], tIncr, tMax), steps[1..], tIncr, tMax))
  }

  /** Every call of `tryThreadQuitting` in the run finds a surplus. */
  predicate SurplusAtEveryQuit(p: Pool, steps: seq<Step>, tIncr: nat, tMax: nat)
    requires Runs(p, steps, tIncr, tMax)
    decreases steps
  {
    steps == [] ||
    ((steps[0].Quit? ==> Surplus(p, tIncr)) &&
     SurplusAtEveryQuit(Next(p, steps[0], tIncr, tMax), steps[1..], tIncr, tMax))
  }

  lemma {:induction false} FloorIffSurplusFrom(p: Pool, steps: seq<Step>, tIncr: nat, tMax: nat)
    requires tIncr > 0 && Inv(p, tIncr, tMax) && Runs(p, steps, tIncr, tMax)
    ensures FloorThroughout(p, steps, tIncr, tMax) <==> SurplusAtEveryQuit(p, steps, tIncr, tMax)
    ensures SurplusAtEveryQuit(p, steps, tIncr, tMax) ==> Inv(After(p, steps, tIncr, tMax), tIncr, tMax)
    decreases steps
  {
    InvMeansFloor(p, tIncr, tMax);
    if steps != [] {
      var s := steps[0];
      if s.Quit? && !Surplus(p, tIncr) {
        QuitWithoutSurplusBreaksFloor(p, s.w, tIncr, tMax);
        assert !Floor(Next(p, s, tIncr, tMax), tIncr);
      } else {
        StepKeepsInv(p, s, tIncr, tMax);
        FloorIffSurplusFrom(Next(p, s, tIncr, tMax), steps[1..], tIncr, tMax);
      }
    }
  }

  /** From the start of the server, whatever the interleaving: the pool never falls below one batch if
      and only if every worker that calls `tryThreadQuitting` finds, at that moment, a clean-up under
      way or more than one batch left. Then all counters stay exact and bounded as well. */
  lemma FloorIffSurplus(steps: seq<Step>, tIncr: nat, tMax: nat)
    requires tIncr > 0 && Runs(Start(), steps, tIncr, tMax)
    ensures FloorThroughout(Start(), steps, tIncr, tMax) <==> SurplusAtEveryQuit(Start(), steps, tIncr, tMax)
    ensures SurplusAtEveryQuit(Start(), steps, tIncr, tMax) ==>
      var p := After(Start(), steps, tIncr, tMax);
      && Inv(p, tIncr, tMax)
      && TryQuit(p.c, tIncr).1
      && 0 <= p.c.active <= p.c.threads + p.uncounted
      && p.c.threads < 2 * tIncr + tMax
  {
    hide Start, FloorThroughout, SurplusAtEveryQuit, After, Runs, Inv, TryQuit, FreshDecision;
    StartInv(tIncr, tMax);
    FloorIffSurplusFrom(Start(), steps, tIncr, tMax);
    if SurplusAtEveryQuit(Start(), steps, tIncr, tMax) {
      InvBounds(After(Start(), steps, tIncr, tMax), tIncr, tMax);
    }
  }

  lemma InvBounds(p: Pool, tIncr: nat, tMax: nat)
    requires tIncr > 0 && Inv(p, tIncr, tMax)
    ensures TryQuit(p.c, tIncr).1
    ensures 0 <= p.c.active <= p.c.threads + p.uncounted && p.c.threads < 2 * tIncr + tMax
  {
    BusyAreLive(p.workers);
  }

  lemma StartInv(tIncr: nat, tMax: nat)
    requires tIncr > 0
    ensures Inv(Start(), tIncr, tMax) && FreshDecision(Start(), tIncr)
  {
    assert WholeBatches(0, tIncr) && LiveCount([]) == 0 && BusyCount([]) == 0;
    hide WholeBatches, LiveCount, BusyCount;
  }

  lemma {:induction false} BusyAreLive(workers: seq<Worker>)
    ensures BusyCount(workers) <= LiveCount(workers)
  {
    if workers != [] {
      BusyAreLive(workers[1..]);
    }
  }

  // ----- Test and call as one step -----

  /** No step comes between a worker's decision and its call. */
  predicate DecisionsAreAtomic(p: Pool, steps: seq<Step>, tIncr: nat, tMax: nat)
    requires Runs(p, steps, tIncr, tMax)
    decreases steps
  {
    steps == [] ||
    (((exists i :: 0 <= i < |p.workers| && p.workers[i].Decided?) ==> steps[0].Quit?) &&
     DecisionsAreAtomic(Next(p, steps[0], tIncr, tMax), steps[1..], tIncr, tMax))
  }

  /** At most one worker has decided, and for it the surplus is still there. */
  ghost predicate FreshDecision(p: Pool, tIncr: nat) {
    && (forall i, j | 0 <= i < j < |p.workers| :: !(p.workers[i].Decided? && p.workers[j].Decided?))
    && ((exists i :: 0 <= i < |p.workers| && p.workers[i].Decided?) ==> Surplus(p, tIncr))
  }

  lemma {:induction false} AtomicDecisionsFindSurplus(p: Pool, steps: seq<Step>, tIncr: nat, tMax: nat)
    requires tIncr > 0 && Inv(p, tIncr, tMax) && FreshDecision(p, tIncr)
    requires Runs(p, steps, tIncr, tMax) && DecisionsAreAtomic(p, steps, tIncr, tMax)
    ensures SurplusAtEveryQuit(p, steps, tIncr, tMax)
    decreases steps
  {
    if steps != [] {
      StepKeepsInv(p, steps[0], tIncr, tMax);
      var q := Next(p, steps[0], tIncr, tMax);
      assert FreshDecision(q, tIncr);
      AtomicDecisionsFindSurplus(q, steps[1..], tIncr, tMax);
    }
  }

  /** With decision and call in one step the pool, once it has a batch, never falls below one. */
  lemma AtomicDecisionsKeepFloor(steps: seq<Step>, tIncr: nat, tMax: nat)
    requires tIncr > 0 && Runs(Start(), steps, tIncr, tMax) && DecisionsAreAtomic(Start(), steps, tIncr, tMax)
    ensures FloorThroughout(Start(), steps, tIncr, tMax)
  {
    hide FloorThroughout, SurplusAtEveryQuit, After, Runs, DecisionsAreAtomic;
    StartInv(tIncr, tMax);
    AtomicDecisionsFindSurplus(Start(), steps, tIncr, tMax);
    FloorIffSurplus(steps, tIncr, tMax);
  }

  // ----- Separate steps: the floor can be lost -----

  ghost predicate Reachable(p: Pool, tIncr: nat, tMax: nat) {
    exists steps :: Runs(Start(), steps, tIncr, tMax) && After(Start(), steps, tIncr, tMax) == p
  }

  lemma {:induction false} AfterOneMore(p: Pool, steps: seq<Step>, s: Step, tIncr: nat, tMax: nat)
    requires Runs(p, steps, tIncr, tMax) && Enabled(After(p, steps, tIncr, tMax), s, tIncr, tMax)
    ensures Runs(p, steps + [s], tIncr, tMax)
    ensures After(p, steps + [s], tIncr, tMax) == Next(After(p, steps, tIncr, tMax), s, tIncr, tMax)
    decreases steps
  {
    if steps == [] {
      assert steps + [s] == [s] && [s][1..] == [];
    } else {
      assert (steps + [s])[1..] == steps[1..] + [s];
      AfterOneMore(Next(p, steps[0], tIncr, tMax), steps[1..], s, tIncr, tMax);
    }
  }

  lemma Go(p: Pool, s: Step, tIncr: nat, tMax: nat) returns (q: Pool)
    requires Reachable(p, tIncr, tMax) && Enabled(p, s, tIncr, tMax)
    ensures q == Next(p, s, tIncr, tMax) && Reachable(q, tIncr, tMax)
  {
    var steps :| Runs(Start(), steps, tIncr, tMax) && After(Start(), steps, tIncr, tMax) == p;
    AfterOneMore(Start(), steps, s, tIncr, tMax);
    q := Next(p, s, tIncr, tMax);
  }

  /** A batch created while nothing else moves. */
  lemma NewBatch(p: Pool) returns (q: Pool)
    requires Reachable(p, 2, 4) && Enabled(p, Wake(false), 2, 4) && p.uncounted == 0
    ensures Reachable(q, 2, 4)
    ensures q == Pool(p.c.(threads := p.c.threads + 2), p.workers + [Top, Top], 0, 0)
  {
    hide Reachable;
    q := Go(p, Wake(false), 2, 4);
    q := Go(q, Spawn, 2, 4);
    q := Go(q, Count, 2, 4);
    q := Go(q, Spawn, 2, 4);
    q := Go(q, Count, 2, 4);
    assert q.workers == p.workers + [Top, Top];
  }

  /** Two batches, the second created because both workers of the first were serving clients. */
  lemma FourWorkers() returns (q: Pool)
    ensures Reachable(q, 2, 4)
    ensures q == Pool(Counters(4, 0, 0, false), [Served, Served, Top, Top], 0, 0)
  {
    assert Runs(Start(), [], 2, 4) && After(Start(), [], 2, 4) == Start();
    assert Reachable(Start(), 2, 4);
    hide Reachable;
    q := NewBatch(Start());
    q := Go(q, TestSwitch(0), 2, 4);
    q := Go(q, Accept(0), 2, 4);
    q := Go(q, TestSwitch(1), 2, 4);
    q := Go(q, Accept(1), 2, 4);
    q := NewBatch(q);
    q := Go(q, Return(0), 2, 4);
    q := Go(q, Return(1), 2, 4);
    assert q.workers == [Served, Served, Top, Top];
  }

  /** With the default settings every worker can quit: three see a surplus before any of them calls
      `tryThreadQuitting`, the third call starts a second clean-up, and the fourth worker follows the
      quit switch. */
  lemma FloorCanBeLost() returns (p: Pool)
    ensures Reachable(p, 2, 4) && p.workers == [Gone, Gone, Gone, Gone] && p.c.threads == 0
  {
    p := FourWorkers();
    hide Reachable;
    p := Go(p, TestSwitch(2), 2, 4);
    p := Go(p, PollFails(2), 2, 4);
    p := Go(p, TestSurplus(0), 2, 4);
    p := Go(p, TestSurplus(1), 2, 4);
    p := Go(p, TestSurplus(2), 2, 4);
    assert p == Pool(Counters(4, 0, 0, false), [Decided(false), Decided(false), Decided(false), Top], 0, 0);
    p := Go(p, Quit(0), 2, 4);
    p := Go(p, Quit(1), 2, 4);
    p := Go(p, Quit(2), 2, 4);
    assert p == Pool(Counters(1, 0, 1, true), [Gone, Gone, Gone, Top], 0, 0);
    p := Go(p, TestSwitch(3), 2, 4);
    p := Go(p, Quit(3), 2, 4);
  }

  // ----- For which settings the floor is safe -----

  /** What a row of workers can do one after the other. */
  datatype Phase = Looking | Accepting | Returning | Deciding

  function From(phase: Phase): Worker {
    match phase
    case Looking => Top
    case Accepting => Polling
    case Returning => Busy
    case Deciding => Served
  }

  function To(phase: Phase): Worker {
    match phase
    case Looking => Polling
    case Accepting => Busy
    case Returning => Served
    case Deciding => Decided(false)
  }

  function StepOf(phase: Phase, w: nat): Step {
    match phase
    case Looking => TestSwitch(w)
    case Accepting => Accept(w)
    case Returning => Return(w)
    case Deciding => TestSurplus(w)
  }

  function Row(n: nat, pc: Worker): (r: seq<Worker>)
    ensures |r| == n && forall i | 0 <= i < n :: r[i] == pc
  {
    seq(n, _ => pc)
  }

  function Swept(p: Pool, phase: Phase, n: nat): Pool
    requires n <= |p.workers|
  {
    var active := if phase == Accepting then p.c.active + n else if phase == Returning then p.c.active - n else p.c.active;
    p.(c := p.c.(active := active), workers := Row(n, To(phase)) + p.workers[n..])
  }

  /** The first `n` workers go through a phase. */
  lemma {:induction false} Sweep(p: Pool, phase: Phase, n: nat, tIncr: nat, tMax: nat) returns (q: Pool)
    requires Reachable(p, tIncr, tMax) && n <= |p.workers| && !p.c.quitSwitch
    requires forall i | 0 <= i < n :: p.workers[i] == From(phase)
    requires phase == Deciding ==> CleanGuard(p.c, tIncr)
    ensures Reachable(q, tIncr, tMax) && q == Swept(p, phase, n)
  {
    hide Reachable;
    if n == 0 {
      assert p.workers == Row(0, To(phase)) + p.workers[0..];
      q := p;
    } else {
      q := Sweep(p, phase, n - 1, tIncr, tMax);
      assert q.workers[n - 1] == From(phase);
      q := Go(q, StepOf(phase, n - 1), tIncr, tMax);
      assert q.workers == Row(n, To(phase)) + p.workers[n..];
    }
  }

  /** The main thread creates what is left of a batch. */
  lemma {:induction false} SpawnRest(p: Pool, k: nat, tIncr: nat, tMax: nat) returns (q: Pool)
    requires Reachable(p, tIncr, tMax) && p.toSpawn == k && p.uncounted == 0
    ensures Reachable(q, tIncr, tMax)
    ensures q == Pool(p.c.(threads := p.c.threads + k), p.workers + Row(k, Top), 0, 0)
    decreases k
  {
    hide Reachable;
    if k == 0 {
      assert p.workers + Row(0, Top) == p.workers;
      q := p;
    } else {
      q := Go(p, Spawn, tIncr, tMax);
      q := Go(q, Count, tIncr, tMax);
      q := SpawnRest(q, k - 1, tIncr, tMax);
      assert q.workers == p.workers + Row(k, Top);
    }
  }

  lemma Batch(p: Pool, tIncr: nat, tMax: nat) returns (q: Pool)
    requires Reachable(p, tIncr, tMax) && p.toSpawn == p.uncounted == 0 && WakeGuard(p.c, false, tIncr, tMax)
    ensures Reachable(q, tIncr, tMax)
    ensures q == Pool(p.c.(threads := p.c.threads + tIncr), p.workers + Row(tIncr, Top), 0, 0)
  {
    hide Reachable;
    q := Go(p, Wake(false), tIncr, tMax);
    q := SpawnRest(q, tIncr, tIncr, tMax);
  }

  lemma StartReachable(tIncr: nat, tMax: nat)
    ensures Reachable(Start(), tIncr, tMax)
  {
    assert Runs(Start(), [], tIncr, tMax) && After(Start(), [], tIncr, tMax) == Start();
  }

  /** All of the first batch serve clients, so the main thread creates a second one. */
  lemma TwoBatches(tIncr: nat, tMax: nat) returns (q: Pool)
    requires tIncr > 0 && tMax > 0
    ensures Reachable(q, tIncr, tMax)
    ensures q == Pool(Counters(2 * tIncr, tIncr, 0, false), Row(tIncr, Busy) + Row(tIncr, Top), 0, 0)
  {
    StartReachable(tIncr, tMax);
    hide Reachable;
    q := Batch(Start(), tIncr, tMax);
    assert q.workers == Row(tIncr, Top);
    q := Sweep(q, Looking, tIncr, tIncr, tMax);
    assert q.workers == Row(tIncr, Polling);
    q := Sweep(q, Accepting, tIncr, tIncr, tMax);
    assert q.workers == Row(tIncr, Busy);
    q := Batch(q, tIncr, tMax);
  }

  /** A worker of the last batch finds nothing to accept. */
  lemma OneIdles(p: Pool, w: nat, tIncr: nat, tMax: nat) returns (q: Pool)
    requires Reachable(p, tIncr, tMax) && !p.c.quitSwitch && At(p, w, Top)
    ensures Reachable(q, tIncr, tMax) && q == p.(workers := p.workers[w := Served])
  {
    hide Reachable;
    q := Go(p, TestSwitch(w), tIncr, tMax);
    q := Go(q, PollFails(w), tIncr, tMax);
    assert q.workers == p.workers[w := Served];
  }

  /** The first `k` of the workers that have decided to quit do so. */
  lemma {:induction false} QuitRow(p: Pool, k: nat, tIncr: nat, tMax: nat) returns (q: Pool)
    requires Reachable(p, tIncr, tMax) && k <= tIncr && k <= |p.workers| && p.c.quitting == 0 && !p.c.quitSwitch
    requires forall i | 0 <= i < k :: p.workers[i] == Decided(false)
    requires tIncr > 0
    ensures Reachable(q, tIncr, tMax) && q.workers == Row(k, Gone) + p.workers[k..]
    ensures q == p.(workers := q.workers,
      c := Counters(p.c.threads - k, p.c.active, if k == tIncr then 0 else k, 0 < k < tIncr))
  {
    hide Reachable;
    if k == 0 {
      q := p;
    } else {
      q := QuitRow(p, k - 1, tIncr, tMax);
      assert q.workers[k - 1] == Decided(false);
      q := Go(q, Quit(k - 1), tIncr, tMax);
      assert q.workers == Row(k, Gone) + p.workers[k..];
    }
  }

  /** One worker more than a batch sees the surplus of one batch, and all of them quit. */
  lemma BatchLost(tIncr: nat, tMax: nat) returns (q: Pool)
    requires tIncr >= 2 && tMax > 0
    ensures Reachable(q, tIncr, tMax) && !Floor(q, tIncr)
  {
    hide Reachable;
    q := TwoBatches(tIncr, tMax);
    q := Sweep(q, Returning, tIncr, tIncr, tMax);
    q := OneIdles(q, tIncr, tIncr, tMax);
    q := Sweep(q, Deciding, tIncr + 1, tIncr, tMax);
    q := QuitRow(q, tIncr, tIncr, tMax);
    assert q.workers[tIncr] == Decided(false);
    q := Go(q, Quit(tIncr), tIncr, tMax);
  }

  /** Batches of one: three workers see a surplus of two, and all of them quit. */
  lemma LastWorkerLost(tMax: nat) returns (q: Pool)
    requires tMax >= 2
    ensures Reachable(q, 1, tMax) && !Floor(q, 1)
  {
    hide Reachable;
    q := TwoBatches(1, tMax);
    assert q.workers == [Busy, Top];
    q := Go(q, TestSwitch(1), 1, tMax);
    q := Go(q, Accept(1), 1, tMax);
    assert q.workers == [Busy, Busy];
    q := Batch(q, 1, tMax);
    assert q.workers == [Busy, Busy, Top];
    q := Sweep(q, Returning, 2, 1, tMax);
    q := OneIdles(q, 2, 1, tMax);
    assert q.workers == [Served, Served, Served];
    q := Sweep(q, Deciding, 3, 1, tMax);
    assert q == Pool(Counters(3, 0, 0, false), [Decided(false), Decided(false), Decided(false)], 0, 0);
    q := Go(q, Quit(0), 1, tMax);
    q := Go(q, Quit(1), 1, tMax);
    q := Go(q, Quit(2), 1, tMax);
  }

  lemma {:induction false} FloorAtTheEnd(p: Pool, steps: seq<Step>, tIncr: nat, tMax: nat)
    requires Runs(p, steps, tIncr, tMax) && FloorThroughout(p, steps, tIncr, tMax)
    ensures Floor(After(p, steps, tIncr, tMax), tIncr)
    decreases steps
  {
    hide Enabled, Next;
    if steps != [] {
      FloorAtTheEnd(Next(p, steps[0], tIncr, tMax), steps[1..], tIncr, tMax);
    }
  }

  /** Nobody has decided to quit. */
  predicate NobodyDecided(p: Pool) {
    forall i | 0 <= i < |p.workers| :: !p.workers[i].Decided?
  }

  predicate TooSmallToClean(tIncr: nat, tMax: nat) {
    tMax == 0 || (tIncr == 1 && tMax == 1)
  }

  lemma SmallPoolHasNoSurplus(p: Pool, tIncr: nat, tMax: nat)
    requires tIncr > 0 && TooSmallToClean(tIncr, tMax) && Inv(p, tIncr, tMax) && p.c.quitting == 0
    ensures !CleanGuard(p.c, tIncr)
  {
    BusyAreLive(p.workers);
    if Stock(p) > tIncr {
      MoreThanOneBatch(Stock(p), tIncr);
    }
  }

  lemma {:induction false} SmallPoolKeepsFloor(p: Pool, steps: seq<Step>, tIncr: nat, tMax: nat)
    requires tIncr > 0 && TooSmallToClean(tIncr, tMax) && Runs(p, steps, tIncr, tMax)
    requires Inv(p, tIncr, tMax) && p.c.quitting == 0 && NobodyDecided(p)
    ensures FloorThroughout(p, steps, tIncr, tMax)
    decreases steps
  {
    InvMeansFloor(p, tIncr, tMax);
    if steps != [] {
      SmallPoolHasNoSurplus(p, tIncr, tMax);
      StepKeepsInv(p, steps[0], tIncr, tMax);
      hide Inv, CleanGuard, TooSmallToClean;
      SmallPoolKeepsFloor(Next(p, steps[0], tIncr, tMax), steps[1..], tIncr, tMax);
    }
  }

  /** The settings for which no schedule takes the pool below one batch are those for which it never
      gets large enough to start a clean-up: no threads beyond the first batch, or one beyond one. */
  lemma FloorSafeIffTooSmallToClean(tIncr: nat, tMax: nat)
    requires tIncr > 0
    ensures (forall steps | Runs(Start(), steps, tIncr, tMax) :: FloorThroughout(Start(), steps, tIncr, tMax))
       <==> TooSmallToClean(tIncr, tMax)
  {
    hide Inv, Runs, FloorThroughout, After;
    if TooSmallToClean(tIncr, tMax) {
      StartInv(tIncr, tMax);
      forall steps | Runs(Start(), steps, tIncr, tMax)
        ensures FloorThroughout(Start(), steps, tIncr, tMax)
      {
        SmallPoolKeepsFloor(Start(), steps, tIncr, tMax);
      }
    } else {
      var q;
      if tIncr == 1 {
        q := LastWorkerLost(tMax);
      } else {
        q := BatchLost(tIncr, tMax);
      }
      var steps :| Runs(Start(), steps, tIncr, tMax) && After(Start(), steps, tIncr, tMax) == q;
      if FloorThroughout(Start(), steps, tIncr, tMax) {
        FloorAtTheEnd(Start(), steps, tIncr, tMax);
      }
    }
  }
}
