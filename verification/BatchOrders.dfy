/** When the main thread orders a batch of workers, and when a worker starts a clean-up, told from the
    workers themselves; over every run. */
module BatchOrders {
  import opened WorkerPool

  /** The counters count workers: those that have not quit, and those in a callback. */
  ghost predicate Exact(p: Pool) {
    LiveCount(p.workers) == p.c.threads + p.uncounted && BusyCount(p.workers) == p.c.active
  }

  lemma StepKeepsExact(p: Pool, s: Step, tIncr: nat, tMax: nat)
    requires Exact(p) && Enabled(p, s, tIncr, tMax)
    ensures Exact(Next(p, s, tIncr, tMax))
  {
    var q := Next(p, s, tIncr, tMax);
    match s
    case Wake(_) =>
    case Spawn => CountsAfterSpawn(p.workers);
    case Count =>
    case TestSwitch(w) => CountsAfterMove(p.workers, w, q.workers[w]);
    case PollFails(w) => CountsAfterMove(p.workers, w, q.workers[w]);
    case Accept(w) => CountsAfterMove(p.workers, w, q.workers[w]);
    case Return(w) => CountsAfterMove(p.workers, w, q.workers[w]);
    case TestSurplus(w) => CountsAfterMove(p.workers, w, q.workers[w]);
    case Quit(w) => CountsAfterMove(p.workers, w, q.workers[w]);
  }

  lemma {:induction false} RunKeepsExact(p: Pool, steps: seq<Step>, tIncr: nat, tMax: nat)
    requires Exact(p) && Runs(p, steps, tIncr, tMax)
    ensures Exact(After(p, steps, tIncr, tMax))
    decreases steps
  {
    hide Exact, Next, Enabled;
    if steps != [] {
      StepKeepsExact(p, steps[0], tIncr, tMax);
      RunKeepsExact(Next(p, steps[0], tIncr, tMax), steps[1..], tIncr, tMax);
    }
  }

  lemma {:induction false} AllBusyIff(workers: seq<Worker>)
    ensures BusyCount(workers) <= LiveCount(workers)
    ensures BusyCount(workers) == LiveCount(workers)
       <==> forall i | 0 <= i < |workers| :: workers[i].Busy? || workers[i].Gone?
  {
    if workers != [] {
      AllBusyIff(workers[1..]);
      assert forall i | 0 < i < |workers| :: workers[i] == workers[1..][i - 1];
      assert forall i | 0 <= i < |workers| - 1 :: workers[1..][i] == workers[i + 1];
    }
  }

  lemma OrderIff(p: Pool, sighup: bool, tIncr: nat, tMax: nat)
    requires Exact(p)
    ensures Enabled(p, Wake(sighup), tIncr, tMax) <==>
      && p.toSpawn == 0 && p.uncounted == 0
      && (sighup || forall i | 0 <= i < |p.workers| :: p.workers[i].Busy? || p.workers[i].Gone?)
      && LiveCount(p.workers) < tIncr + tMax
  {
    AllBusyIff(p.workers);
  }

  /** In every state a pool can reach, whatever its quits found: a batch is ordered exactly when the one
      before is complete, every worker that has not quit serves a client, or there was a SIGHUP, and there
      are fewer workers than the two settings together. */
  lemma BatchOrderedIff(steps: seq<Step>, sighup: bool, tIncr: nat, tMax: nat)
    requires Runs(Start(), steps, tIncr, tMax)
    ensures var p := After(Start(), steps, tIncr, tMax);
      Enabled(p, Wake(sighup), tIncr, tMax) <==>
        && p.toSpawn == 0 && p.uncounted == 0
        && (sighup || forall i | 0 <= i < |p.workers| :: p.workers[i].Busy? || p.workers[i].Gone?)
        && LiveCount(p.workers) < tIncr + tMax
  {
    hide *;
    StartIsExact();
    RunKeepsExact(Start(), steps, tIncr, tMax);
    OrderIff(After(Start(), steps, tIncr, tMax), sighup, tIncr, tMax);
  }

  lemma StartIsExact()
    ensures Exact(Start())
  {
  }

  lemma CleanUpIff(p: Pool, w: nat, tIncr: nat, tMax: nat)
    requires Exact(p) && At(p, w, Served)
    ensures Enabled(p, TestSurplus(w), tIncr, tMax)
    ensures Next(p, TestSurplus(w), tIncr, tMax).workers == p.workers[w :=
      if LiveCount(p.workers) - p.uncounted - BusyCount(p.workers) > tIncr + 1 then Decided(false) else Top]
  {
    AllBusyIff(p.workers);
    hide LiveCount, BusyCount;
  }

  /** And a worker that has served, or found nothing to accept, starts a clean-up exactly when more than a
      batch and one of the workers counted so far are without a client. */
  lemma CleanUpStartedIff(steps: seq<Step>, w: nat, tIncr: nat, tMax: nat)
    requires Runs(Start(), steps, tIncr, tMax) && At(After(Start(), steps, tIncr, tMax), w, Served)
    ensures Enabled(After(Start(), steps, tIncr, tMax), TestSurplus(w), tIncr, tMax)
    ensures var p := After(Start(), steps, tIncr, tMax);
      Next(p, TestSurplus(w), tIncr, tMax).workers == p.workers[w :=
        if LiveCount(p.workers) - p.uncounted - BusyCount(p.workers) > tIncr + 1 then Decided(false) else Top]
  {
    hide *;
    StartIsExact();
    RunKeepsExact(Start(), steps, tIncr, tMax);
    CleanUpIff(After(Start(), steps, tIncr, tMax), w, tIncr, tMax);
  }

  /** No counter holds up a worker, or the creation of an ordered batch: each goes on from where it is. */
  lemma NobodyIsHeldUp(p: Pool, w: nat, tIncr: nat, tMax: nat)
    requires w < |p.workers|
    ensures match p.workers[w]
      case Top => Enabled(p, TestSwitch(w), tIncr, tMax)
      case Polling => Enabled(p, PollFails(w), tIncr, tMax) && Enabled(p, Accept(w), tIncr, tMax)
      case Busy => Enabled(p, Return(w), tIncr, tMax)
      case Served => Enabled(p, TestSurplus(w), tIncr, tMax)
      case Decided(_) => Enabled(p, Quit(w), tIncr, tMax)
      case Gone => true
    ensures p.toSpawn + p.uncounted > 0 ==> Enabled(p, Spawn, tIncr, tMax) || Enabled(p, Count, tIncr, tMax)
  {
  }

  // ----- Clean-ups -----

  function Quits(steps: seq<Step>): nat {
    if steps == [] then 0 else One(steps[0].Quit?) + Quits(steps[1..])
  }

  ghost predicate CleanUpCounted(p: Pool, quits: nat, tIncr: nat)
    requires tIncr > 0
  {
    && 0 <= p.c.quitting < tIncr && WholeBatches(quits - p.c.quitting, tIncr)
    && (p.c.quitSwitch <==> p.c.quitting > 0)
  }

  lemma StepCountsQuits(p: Pool, s: Step, quits: nat, tIncr: nat, tMax: nat)
    requires tIncr > 0 && CleanUpCounted(p, quits, tIncr) && Enabled(p, s, tIncr, tMax)
    ensures CleanUpCounted(Next(p, s, tIncr, tMax), quits + One(s.Quit?), tIncr)
  {
    assert WholeBatches(quits - p.c.quitting + tIncr, tIncr);
    hide WholeBatches;
  }

  lemma {:induction false} RunCountsQuits(p: Pool, steps: seq<Step>, quits: nat, tIncr: nat, tMax: nat)
    requires tIncr > 0 && CleanUpCounted(p, quits, tIncr) && Runs(p, steps, tIncr, tMax)
    ensures CleanUpCounted(After(p, steps, tIncr, tMax), quits + Quits(steps), tIncr)
    decreases steps
  {
    hide CleanUpCounted, Next, Enabled;
    if steps != [] {
      StepCountsQuits(p, steps[0], quits, tIncr, tMax);
      RunCountsQuits(Next(p, steps[0], tIncr, tMax), steps[1..], quits + One(steps[0].Quit?), tIncr, tMax);
    }
  }

  lemma QuitIs(p: Pool, quits: nat, w: nat, tIncr: nat, tMax: nat)
    requires tIncr > 0 && CleanUpCounted(p, quits, tIncr) && Enabled(p, Quit(w), tIncr, tMax)
    ensures Next(p, Quit(w), tIncr, tMax).workers == p.workers[w := Gone]
  {
  }

  /** In every run the quits so far make whole rounds of `tIncr`, but for what `QuitingThreads` says; the switch
      is on exactly in the middle of a round, and a worker that calls `tryThreadQuitting` quits. */
  lemma RoundsOfQuits(steps: seq<Step>, w: nat, tIncr: nat, tMax: nat)
    requires tIncr > 0 && Runs(Start(), steps, tIncr, tMax)
    ensures var p := After(Start(), steps, tIncr, tMax);
      && 0 <= p.c.quitting < tIncr && WholeBatches(Quits(steps) - p.c.quitting, tIncr)
      && (p.c.quitSwitch <==> p.c.quitting > 0)
      && (Enabled(p, Quit(w), tIncr, tMax) ==> Next(p, Quit(w), tIncr, tMax).workers == p.workers[w := Gone])
  {
    assert CleanUpCounted(Start(), 0, tIncr);
    hide Enabled, Next, Runs, After, Quits, WholeBatches;
    RunCountsQuits(Start(), steps, 0, tIncr, tMax);
    if Enabled(After(Start(), steps, tIncr, tMax), Quit(w), tIncr, tMax) {
      QuitIs(After(Start(), steps, tIncr, tMax), Quits(steps), w, tIncr, tMax);
    }
  }

  /** With batches of no workers a worker would not quit: it goes on where the test left it. */
  lemma NoBatchNoQuit(p: Pool, w: nat, tMax: nat)
    requires p.c.quitting == 0 && Enabled(p, Quit(w), 0, tMax)
    ensures Next(p, Quit(w), 0, tMax) == p.(workers := p.workers[w := if p.workers[w] == Decided(true) then Polling else Top])
  {
  }

  // ----- A server without clients -----

  /** No client comes, and no SIGHUP. */
  predicate Quiet(steps: seq<Step>) {
    forall i | 0 <= i < |steps| :: !steps[i].Accept? && steps[i] != Wake(true)
  }

  ghost predicate OneBatch(p: Pool, tIncr: nat) {
    && p.c == Counters(p.c.threads, 0, 0, false)
    && p.c.threads + p.uncounted == |p.workers| && p.uncounted <= 1
    && |p.workers| + p.toSpawn <= tIncr
    && forall i | 0 <= i < |p.workers| :: p.workers[i] == Top || p.workers[i] == Polling || p.workers[i] == Served
  }

  lemma QuietStep(p: Pool, s: Step, tIncr: nat, tMax: nat)
    requires OneBatch(p, tIncr) && Enabled(p, s, tIncr, tMax) && !s.Accept? && s != Wake(true)
    ensures OneBatch(Next(p, s, tIncr, tMax), tIncr)
  {
  }

  lemma {:induction false} QuietRun(p: Pool, steps: seq<Step>, tIncr: nat, tMax: nat)
    requires OneBatch(p, tIncr) && Runs(p, steps, tIncr, tMax) && Quiet(steps)
    ensures OneBatch(After(p, steps, tIncr, tMax), tIncr)
    decreases steps
  {
    hide OneBatch, Next, Enabled;
    if steps != [] {
      QuietStep(p, steps[0], tIncr, tMax);
      assert forall i | 0 <= i < |steps[1..]| :: steps[1..][i] == steps[i + 1];
      QuietRun(Next(p, steps[0], tIncr, tMax), steps[1..], tIncr, tMax);
    }
  }

  /** A server without clients creates one batch, keeps it, and waits. */
  lemma WithoutClientsOneBatch(steps: seq<Step>, tIncr: nat, tMax: nat)
    requires Runs(Start(), steps, tIncr, tMax) && Quiet(steps)
    ensures var p := After(Start(), steps, tIncr, tMax);
      && |p.workers| + p.toSpawn <= tIncr && LiveCount(p.workers) == |p.workers| && p.c.active == 0
  {
    hide *;
    StartIsQuiet(tIncr);
    StartIsExact();
    QuietRun(Start(), steps, tIncr, tMax);
    RunKeepsExact(Start(), steps, tIncr, tMax);
    OneBatchIsAll(After(Start(), steps, tIncr, tMax), tIncr);
  }

  lemma StartIsQuiet(tIncr: nat)
    ensures OneBatch(Start(), tIncr)
  {
  }

  lemma OneBatchIsAll(p: Pool, tIncr: nat)
    requires OneBatch(p, tIncr) && Exact(p)
    ensures |p.workers| + p.toSpawn <= tIncr && LiveCount(p.workers) == |p.workers| && p.c.active == 0
  {
    hide LiveCount, BusyCount;
  }
}
