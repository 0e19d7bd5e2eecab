/** One `AccessCtl` record, step by step: testing a wait predicate, taking `writeLock` and changing a
    counter are separate steps of any number of threads, as in the source, where each wait holds a mutex
    of its own. A run ends when FCLOSE erases the record. */
module ControlRecord {

  datatype Thread =
    | Outside
    | ReadTested      // FSEEK or FREAD, past its wait
    | Reading         // between ++reading and endReadingAndNotify
    | WriteTested     // FWRITE, past its wait
    | WriteLocked     // holds writeLock, has not counted itself
    | Writing         // between ++writing and endWritingAndNotify
    | WriteLeaving    // has left, still holds writeLock
    | CloseTested     // FCLOSE, past its wait
    | CloseMarked     // has set bIsClosing

  datatype Lock = Free | Held(holder: nat)

  datatype Record = Record(live: bool, closing: bool, reading: int, writing: int, lock: Lock, threads: seq<Thread>)

  datatype Step =
    | TestRead(t: nat)
    | StartReading(t: nat)
    | EndReading(t: nat)
    | TestWrite(t: nat)
    | TakeLock(t: nat)
    | StartWriting(t: nat)
    | EndWriting(t: nat)
    | ReleaseLock(t: nat)
    | TestClose(t: nat)
    | MarkClosing(t: nat)
    | Erase(t: nat)
    | GiveUp(t: nat)    // the descriptor check after a wait fails

  function New(threads: nat): Record {
    Record(true, false, 0, 0, Free, seq(threads, _ => Outside))
  }

  predicate At(r: Record, t: nat, pc: Thread) {
    t < |r.threads| && r.threads[t] == pc
  }

  predicate Enabled(r: Record, s: Step) {
    r.live &&
    match s
    case TestRead(t) => At(r, t, Outside) && r.writing < 1 && !r.closing
    case StartReading(t) => At(r, t, ReadTested)
    case EndReading(t) => At(r, t, Reading)
    case TestWrite(t) => At(r, t, Outside) && r.reading < 1 && !r.closing
    case TakeLock(t) => At(r, t, WriteTested) && r.lock == Free
    case StartWriting(t) => At(r, t, WriteLocked)
    case EndWriting(t) => At(r, t, Writing)
    case ReleaseLock(t) => At(r, t, WriteLeaving)
    case TestClose(t) => At(r, t, Outside) && r.reading < 1 && r.writing < 1
    case MarkClosing(t) => At(r, t, CloseTested)
    case Erase(t) => At(r, t, CloseMarked)
    case GiveUp(t) => At(r, t, ReadTested) || At(r, t, WriteTested) || At(r, t, CloseMarked)
  }

  function Go(r: Record, t: nat, pc: Thread): Record
    requires t < |r.threads|
  {
    r.(threads := r.threads[t := pc])
  }

  function Next(r: Record, s: Step): Record
    requires Enabled(r, s)
  {
    match s
    case TestRead(t) => Go(r, t, ReadTested)
    case StartReading(t) => Go(r.(reading := r.reading + 1), t, Reading)
    case EndReading(t) => Go(r.(reading := r.reading - 1), t, Outside)
    case TestWrite(t) => Go(r, t, WriteTested)
    case TakeLock(t) => Go(r.(lock := Held(t)), t, WriteLocked)
    case StartWriting(t) => Go(r.(writing := r.writing + 1), t, Writing)
    case EndWriting(t) => Go(r.(writing := r.writing - 1), t, WriteLeaving)
    case ReleaseLock(t) => Go(r.(lock := Free), t, Outside)
    case TestClose(t) => Go(r, t, CloseTested)
    case MarkClosing(t) => Go(r.(closing := true), t, CloseMarked)
    case Erase(t) => Go(r.(live := false), t, Outside)
    case GiveUp(t) => Go(r, t, Outside)
  }

  // ----- What holds at this granularity -----

  predicate HoldsLock(pc: Thread) {
    pc in [WriteLocked, Writing, WriteLeaving]
  }

  function CountAt(threads: seq<Thread>, pc: Thread): nat {
    if threads == [] then 0 else (if threads[0] == pc then 1 else 0) + CountAt(threads[1..], pc)
  }

  lemma {:induction false} CountAfterGo(threads: seq<Thread>, t: nat, to: Thread, pc: Thread)
    requires t < |threads|
    ensures CountAt(threads[t := to], pc)
         == CountAt(threads, pc) - (if threads[t] == pc then 1 else 0) + (if to == pc then 1 else 0)
  {
    if t == 0 {
      assert threads[t := to][1..] == threads[1..];
    } else {
      assert threads[t := to][1..] == threads[1..][t - 1 := to];
      CountAfterGo(threads[1..], t - 1, to, pc);
    }
  }

  /** At most one thread stands where only the lock holder may. */
  lemma {:induction false} CountOfUnique(threads: seq<Thread>, pc: Thread, t: nat)
    requires forall u | 0 <= u < |threads| && u != t :: threads[u] != pc
    ensures CountAt(threads, pc) == if t < |threads| && threads[t] == pc then 1 else 0
  {
    if threads != [] {
      if t == 0 {
        CountOfUnique(threads[1..], pc, |threads|);
      } else {
        CountOfUnique(threads[1..], pc, t - 1);
      }
    }
  }

  /** The counters are exact, `writeLock` is held by just the thread that is past it, and `bIsClosing` is
      set once somebody has set it. */
  ghost predicate Inv(r: Record) {
    && r.reading == CountAt(r.threads, Reading)
    && r.writing == CountAt(r.threads, Writing)
    && (forall t | 0 <= t < |r.threads| :: HoldsLock(r.threads[t]) <==> r.lock == Held(t))
    && (r.lock.Held? ==> r.lock.holder < |r.threads|)
    && (forall t | 0 <= t < |r.threads| && r.threads[t] == CloseMarked :: r.closing)
  }

  lemma StepKeepsInv(r: Record, s: Step)
    requires Inv(r) && Enabled(r, s)
    ensures Inv(Next(r, s))
  {
    CountAfterGo(r.threads, s.t, Next(r, s).threads[s.t], Reading);
    CountAfterGo(r.threads, s.t, Next(r, s).threads[s.t], Writing);
  }

  /** Writers exclude each other: never two, and the one there is holds the lock. */
  lemma OneWriter(r: Record)
    requires Inv(r)
    ensures 0 <= r.writing <= 1
    ensures r.writing == 1 <==> r.lock.Held? && r.threads[r.lock.holder] == Writing
    ensures 0 <= r.reading
  {
    CountOfUnique(r.threads, Writing, if r.lock.Held? then r.lock.holder else 0);
  }

  predicate Runs(r: Record, steps: seq<Step>)
    decreases steps
  {
    steps == [] || (Enabled(r, steps[0]) && Runs(Next(r, steps[0]), steps[1..]))
  }

  function After(r: Record, steps: seq<Step>): Record
    requires Runs(r, steps)
    decreases steps
  {
    if steps == [] then r else After(Next(r, steps[0]), steps[1..])
  }

  lemma {:induction false} RunKeepsInv(r: Record, steps: seq<Step>)
    requires Inv(r) && Runs(r, steps)
    ensures Inv(After(r, steps))
    decreases steps
  {
    if steps != [] {
      StepKeepsInv(r, steps[0]);
      RunKeepsInv(Next(r, steps[0]), steps[1..]);
    }
  }

  lemma NewInv(threads: nat)
    ensures Inv(New(threads))
  {
    CountOfUnique(New(threads).threads, Reading, 0);
    CountOfUnique(New(threads).threads, Writing, 0);
  }

  /** For any number of threads and any schedule: the counters count, and writers exclude each other. */
  lemma CountersAreExact(threads: nat, steps: seq<Step>)
    requires Runs(New(threads), steps)
    ensures var r := After(New(threads), steps);
      && r.reading == CountAt(r.threads, Reading) && r.writing == CountAt(r.threads, Writing)
      && r.writing <= 1
      && (r.writing == 1 ==> r.lock.Held? && r.lock.holder < |r.threads| && r.threads[r.lock.holder] == Writing)
  {
    NewInv(threads);
    RunKeepsInv(New(threads), steps);
    OneWriter(After(New(threads), steps));
  }

  // ----- What does not: a test says nothing about the threads that are on their way -----

  /** The two accidents: a reader and a writer counted in at once, and a record erased while somebody
      is counted in. */
  datatype Hazard = ReaderMeetsWriter | ErasedUnderUser

  predicate Fine(h: Hazard, r: Record) {
    match h
    case ReaderMeetsWriter => !(r.reading > 0 && r.writing > 0)
    case ErasedUnderUser => r.live || (r.reading == 0 && r.writing == 0)
  }

  predicate ReaderSide(pc: Thread) {
    pc == ReadTested || pc == Reading
  }

  predicate WriterSide(pc: Thread) {
    pc == WriteTested || pc == WriteLocked || pc == Writing
  }

  predicate CloserSide(pc: Thread) {
    pc == CloseTested || pc == CloseMarked
  }

  /** The two sides that must not meet, from the test of each on. */
  predicate OnSide(h: Hazard, first: bool, pc: Thread) {
    match h
    case ReaderMeetsWriter => if first then ReaderSide(pc) else WriterSide(pc)
    case ErasedUnderUser => if first then ReaderSide(pc) || WriterSide(pc) else CloserSide(pc)
  }

  predicate Joins(h: Hazard, first: bool, s: Step) {
    match h
    case ReaderMeetsWriter => if first then s.TestRead? else s.TestWrite?
    case ErasedUnderUser => if first then s.TestRead? || s.TestWrite? else s.TestClose?
  }

  ghost predicate Present(h: Hazard, first: bool, r: Record) {
    exists t :: 0 <= t < |r.threads| && OnSide(h, first, r.threads[t])
  }

  /** A test that finds nobody of the other side past its own test. */
  ghost predicate Clean(h: Hazard, r: Record, s: Step) {
    && (Joins(h, true, s) ==> !Present(h, false, r))
    && (Joins(h, false, s) ==> !Present(h, true, r))
  }

  ghost predicate Apart(h: Hazard, r: Record) {
    && !(Present(h, true, r) && Present(h, false, r))
    && (h == ErasedUnderUser && !r.live ==> !Present(h, true, r))
  }

  /** Only a test puts a thread on a side. */
  lemma OnlyTestsJoin(h: Hazard, first: bool, r: Record, s: Step)
    requires Enabled(r, s) && Present(h, first, Next(r, s)) && !Joins(h, first, s)
    ensures Present(h, first, r)
  {
    var q := Next(r, s);
    var t :| 0 <= t < |q.threads| && OnSide(h, first, q.threads[t]);
    assert t != s.t ==> q.threads[t] == r.threads[t];
    assert OnSide(h, first, r.threads[t]);
  }

  lemma StepKeepsApart(h: Hazard, r: Record, s: Step)
    requires Inv(r) && Apart(h, r) && Enabled(r, s) && Clean(h, r, s)
    ensures Apart(h, Next(r, s))
  {
    if s.Erase? {
      assert OnSide(ErasedUnderUser, false, r.threads[s.t]);
    }
    forall first: bool | Present(h, first, Next(r, s)) && !Joins(h, first, s)
      ensures Present(h, first, r)
    {
      OnlyTestsJoin(h, first, r, s);
    }
    hide Inv, Present;
  }

  lemma CountedIsPresent(h: Hazard, r: Record)
    requires Inv(r)
    ensures r.reading > 0 ==> Present(h, true, r)
    ensures r.writing > 0 ==> Present(h, h == ErasedUnderUser, r)
  {
    if r.reading > 0 {
      CountedSomewhere(r.threads, Reading);
      var t :| 0 <= t < |r.threads| && r.threads[t] == Reading;
      assert OnSide(h, true, r.threads[t]);
    }
    if r.writing > 0 {
      CountedSomewhere(r.threads, Writing);
      var t :| 0 <= t < |r.threads| && r.threads[t] == Writing;
      assert OnSide(h, h == ErasedUnderUser, r.threads[t]);
    }
  }

  lemma {:induction false} CountedSomewhere(threads: seq<Thread>, pc: Thread)
    requires CountAt(threads, pc) > 0
    ensures exists t :: 0 <= t < |threads| && threads[t] == pc
  {
    if threads[0] != pc {
      CountedSomewhere(threads[1..], pc);
      var t :| 0 <= t < |threads[1..]| && threads[1..][t] == pc;
      assert threads[t + 1] == pc;
    }
  }

  lemma ApartMeansFine(h: Hazard, r: Record)
    requires Inv(r) && Apart(h, r)
    ensures Fine(h, r)
  {
    CountedIsPresent(h, r);
    OneWriter(r);
    hide Present, Inv;
  }

  ghost predicate AllClean(h: Hazard, r: Record, steps: seq<Step>)
    requires Runs(r, steps)
    decreases steps
  {
    steps == [] || (Clean(h, r, steps[0]) && AllClean(h, Next(r, steps[0]), steps[1..]))
  }

  lemma {:induction false} CleanRunStaysFine(h: Hazard, r: Record, steps: seq<Step>)
    requires Inv(r) && Apart(h, r) && Runs(r, steps) && AllClean(h, r, steps)
    ensures var q := After(r, steps); Inv(q) && Apart(h, q) && Fine(h, q)
    decreases steps
  {
    hide Inv, Apart, Clean, Fine, Enabled, Next;
    if steps == [] {
      ApartMeansFine(h, r);
    } else {
      StepKeepsInv(r, steps[0]);
      StepKeepsApart(h, r, steps[0]);
      CleanRunStaysFine(h, Next(r, steps[0]), steps[1..]);
    }
  }

  ghost predicate CanReach(h: Hazard, r: Record, q: Record) {
    exists steps :: Runs(r, steps) && AllClean(h, r, steps) && After(r, steps) == q
  }

  lemma {:induction false} OneMoreStep(h: Hazard, r: Record, steps: seq<Step>, s: Step)
    requires Runs(r, steps) && AllClean(h, r, steps)
    requires Enabled(After(r, steps), s) && Clean(h, After(r, steps), s)
    ensures Runs(r, steps + [s]) && AllClean(h, r, steps + [s])
    ensures After(r, steps + [s]) == Next(After(r, steps), s)
    decreases steps
  {
    hide Enabled, Next, Clean;
    if steps == [] {
      assert steps + [s] == [s] && [s][1..] == [];
    } else {
      assert (steps + [s])[1..] == steps[1..] + [s];
      OneMoreStep(h, Next(r, steps[0]), steps[1..], s);
    }
  }

  /** A step that is no test is always clean. */
  lemma Walk(h: Hazard, r: Record, q: Record, s: Step) returns (z: Record)
    requires CanReach(h, r, q) && Inv(q) && Enabled(q, s) && !s.TestRead? && !s.TestWrite? && !s.TestClose?
    ensures z == Next(q, s) && CanReach(h, r, z) && Inv(z)
  {
    assert Clean(h, q, s);
    StepKeepsInv(q, s);
    hide Enabled, Next, Clean, Inv;
    var steps :| Runs(r, steps) && AllClean(h, r, steps) && After(r, steps) == q;
    OneMoreStep(h, r, steps, s);
    z := Next(q, s);
  }

  /** When a thread is on its way to write and nobody writes, somebody can start writing; threads that
      have nothing to do with the lock stay where they are. */
  lemma WriterEnters(h: Hazard, r: Record, q: Record, t: nat) returns (z: Record)
    requires CanReach(h, r, q) && Inv(q) && q.live && q.writing == 0
    requires At(q, t, WriteTested) || At(q, t, WriteLocked)
    ensures CanReach(h, r, z) && Inv(z) && z.live && z.writing == 1 && z.reading == q.reading
    ensures |z.threads| == |q.threads|
    ensures forall u | 0 <= u < |q.threads| && u != t && !HoldsLock(q.threads[u]) :: z.threads[u] == q.threads[u]
  {
    OneWriter(q);
    hide CanReach, Inv;
    if At(q, t, WriteLocked) {
      z := Walk(h, r, q, StartWriting(t));
    } else if q.lock == Free {
      z := Walk(h, r, q, TakeLock(t));
      z := Walk(h, r, z, StartWriting(t));
    } else {
      var v := q.lock.holder;
      assert HoldsLock(q.threads[v]) && v < |q.threads| by { LockHolder(q); }
      if q.threads[v] == WriteLocked {
        z := Walk(h, r, q, StartWriting(v));
      } else {
        z := Walk(h, r, q, ReleaseLock(v));
        z := Walk(h, r, z, TakeLock(t));
        z := Walk(h, r, z, StartWriting(t));
      }
    }
  }

  lemma LockHolder(r: Record)
    requires Inv(r) && r.lock.Held?
    ensures r.lock.holder < |r.threads| && HoldsLock(r.threads[r.lock.holder])
  {
  }

  lemma CloserErases(h: Hazard, r: Record, q: Record, t: nat) returns (z: Record)
    requires CanReach(h, r, q) && Inv(q) && q.live && At(q, t, CloseTested)
    ensures CanReach(h, r, z) && !z.live && z.reading == q.reading && z.writing == q.writing
  {
    hide CanReach, Inv;
    z := Walk(h, r, q, MarkClosing(t));
    z := Walk(h, r, z, Erase(t));
  }

  lemma {:induction false} CountOfSome(threads: seq<Thread>, pc: Thread, t: nat)
    requires t < |threads| && threads[t] == pc
    ensures CountAt(threads, pc) >= 1
  {
    if t > 0 {
      CountOfSome(threads[1..], pc, t - 1);
    }
  }

  /** Who is past its test and not counted in yet. */
  lemma NotYetCounted(r: Record, t: nat)
    requires Inv(r) && t < |r.threads|
    ensures r.reading < 1 && ReaderSide(r.threads[t]) ==> r.threads[t] == ReadTested
    ensures r.writing < 1 && WriterSide(r.threads[t]) ==> r.threads[t] == WriteTested || r.threads[t] == WriteLocked
    ensures !r.closing && CloserSide(r.threads[t]) ==> r.threads[t] == CloseTested
  {
    CountOfSome(r.threads, r.threads[t], t);
  }

  /** Nobody writes while the side is present that writers must not meet. */
  lemma NobodyWrites(h: Hazard, r: Record, u: nat)
    requires Inv(r) && Apart(h, r) && u < |r.threads| && OnSide(h, h == ReaderMeetsWriter, r.threads[u])
    ensures r.writing == 0
  {
    assert Present(h, h == ReaderMeetsWriter, r);
    CountedIsPresent(h, r);
    OneWriter(r);
    hide Present, Inv;
  }

  /** A reader's or a writer's test with `u` of the other side past its own. */
  lemma UncleanEntryMeets(r: Record, s: Step, u: nat) returns (q: Record)
    requires Inv(r) && Apart(ReaderMeetsWriter, r) && Enabled(r, s) && u < |r.threads|
    requires (s.TestRead? && WriterSide(r.threads[u])) || (s.TestWrite? && ReaderSide(r.threads[u]))
    ensures CanReach(ReaderMeetsWriter, Next(r, s), q) && !Fine(ReaderMeetsWriter, q)
  {
    var h := ReaderMeetsWriter;
    NotYetCounted(r, u);
    OneWriter(r);
    StepKeepsInv(r, s);
    var q0 := Next(r, s);
    assert Runs(q0, []) && AllClean(h, q0, []) && After(q0, []) == q0;
    assert CanReach(h, q0, q0);
    if s.TestWrite? {
      NobodyWrites(h, r, u);
    }
    hide CanReach, Inv, Apart;
    q := Walk(h, q0, q0, StartReading(if s.TestRead? then s.t else u));
    OneReaderMore(q0, q);
    q := WriterEnters(h, q0, q, if s.TestRead? then u else s.t);
  }

  lemma OneReaderMore(q0: Record, q: Record)
    requires Inv(q0) && q.reading == q0.reading + 1
    ensures q.reading > 0
  {
    OneWriter(q0);
  }

  /** A test of FCLOSE with a reader or writer `u` past its own, or theirs with an FCLOSE past its own. */
  lemma UncleanCloseErases(r: Record, s: Step, u: nat) returns (q: Record)
    requires Inv(r) && Apart(ErasedUnderUser, r) && Enabled(r, s) && u < |r.threads|
    requires (s.TestClose? && OnSide(ErasedUnderUser, true, r.threads[u]))
          || ((s.TestRead? || s.TestWrite?) && CloserSide(r.threads[u]))
    ensures CanReach(ErasedUnderUser, Next(r, s), q) && !Fine(ErasedUnderUser, q)
  {
    var h := ErasedUnderUser;
    NotYetCounted(r, u);
    OneWriter(r);
    StepKeepsInv(r, s);
    var q0 := Next(r, s);
    assert Runs(q0, []) && AllClean(h, q0, []) && After(q0, []) == q0;
    assert CanReach(h, q0, q0);
    var user, closer := if s.TestClose? then u else s.t, if s.TestClose? then s.t else u;
    if s.TestWrite? {
      NobodyWrites(h, r, u);
    }
    hide CanReach, Inv, Apart;
    if q0.threads[user] == ReadTested {
      q := Walk(h, q0, q0, StartReading(user));
      OneReaderMore(q0, q);
    } else {
      q := WriterEnters(h, q0, q0, user);
    }
    q := CloserErases(h, q0, q, closer);
  }

  /** Exactly what a test must find. A step leaves the record safe for good -- in every continuation
      whose own tests are clean -- if and only if it is not a test made while a thread of the other side
      is past its test: the counters the source looks at do not show those threads. */
  lemma SafeIffCleanTest(h: Hazard, r: Record, s: Step)
    requires Inv(r) && Apart(h, r) && Enabled(r, s)
    ensures Clean(h, r, s) <==> forall q :: CanReach(h, Next(r, s), q) ==> Fine(h, q)
  {
    if Clean(h, r, s) {
      StepKeepsInv(r, s);
      StepKeepsApart(h, r, s);
      forall q | CanReach(h, Next(r, s), q)
        ensures Fine(h, q)
      {
        var steps :| Runs(Next(r, s), steps) && AllClean(h, Next(r, s), steps) && After(Next(r, s), steps) == q;
        CleanRunStaysFine(h, Next(r, s), steps);
      }
    } else {
      var first :| Joins(h, first, s) && Present(h, !first, r);
      var u :| 0 <= u < |r.threads| && OnSide(h, !first, r.threads[u]);
      var q;
      match h
      case ReaderMeetsWriter => q := UncleanEntryMeets(r, s, u);
      case ErasedUnderUser => q := UncleanCloseErases(r, s, u);
      assert CanReach(h, Next(r, s), q) && !Fine(h, q);
    }
  }

  /** For any number of threads and any schedule whose tests are clean, neither accident happens. */
  lemma CleanTestsKeepPolicy(h: Hazard, threads: nat, steps: seq<Step>)
    requires Runs(New(threads), steps) && AllClean(h, New(threads), steps)
    ensures Fine(h, After(New(threads), steps))
  {
    NewInv(threads);
    NewApart(h, threads);
    CleanRunStaysFine(h, New(threads), steps);
  }

  lemma NewApart(h: Hazard, threads: nat)
    ensures Apart(h, New(threads))
  {
    forall t, first: bool | 0 <= t < threads
      ensures !OnSide(h, first, New(threads).threads[t])
    {
    }
  }

  // ----- Entering in one step -----

  /** Past a test, and what the test is for not yet done. */
  predicate MidEntry(pc: Thread) {
    pc == ReadTested || pc == WriteTested || pc == WriteLocked || pc == CloseTested
  }

  /** Nobody tests while somebody is between a test and what it is for. */
  predicate EntriesAreAtomic(r: Record, steps: seq<Step>)
    requires Runs(r, steps)
    decreases steps
  {
    steps == [] ||
    ((steps[0].TestRead? || steps[0].TestWrite? || steps[0].TestClose? ==>
        forall t | 0 <= t < |r.threads| :: !MidEntry(r.threads[t])) &&
     EntriesAreAtomic(Next(r, steps[0]), steps[1..]))
  }

  lemma {:induction false} AtomicEntriesAreClean(h: Hazard, r: Record, steps: seq<Step>)
    requires Inv(r) && Runs(r, steps) && EntriesAreAtomic(r, steps)
    ensures AllClean(h, r, steps)
    decreases steps
  {
    if steps != [] {
      var s := steps[0];
      forall t: nat | t < |r.threads|
        ensures r.reading < 1 && ReaderSide(r.threads[t]) ==> MidEntry(r.threads[t])
        ensures r.writing < 1 && WriterSide(r.threads[t]) ==> MidEntry(r.threads[t])
        ensures !r.closing && CloserSide(r.threads[t]) ==> MidEntry(r.threads[t])
      {
        NotYetCounted(r, t);
      }
      assert Clean(h, r, s);
      StepKeepsInv(r, s);
      hide Inv, Clean;
      AtomicEntriesAreClean(h, Next(r, s), steps[1..]);
    }
  }

  /** With each test and what it is for done in one go, whole runs of any number of threads keep
      readers and writers apart, and no record is erased under a thread that is counted in. */
  lemma AtomicEntryKeepsExclusion(threads: nat, steps: seq<Step>)
    requires Runs(New(threads), steps) && EntriesAreAtomic(New(threads), steps)
    ensures var r := After(New(threads), steps);
      !(r.reading > 0 && r.writing > 0) && (!r.live ==> r.reading == 0 && r.writing == 0)
  {
    NewInv(threads);
    forall h: Hazard
      ensures Fine(h, After(New(threads), steps))
    {
      AtomicEntriesAreClean(h, New(threads), steps);
      CleanTestsKeepPolicy(h, threads, steps);
    }
    assert Fine(ReaderMeetsWriter, After(New(threads), steps));
    assert Fine(ErasedUnderUser, After(New(threads), steps));
  }

  // ----- The schedules that break the policy -----

  lemma OneStep(r: Record, s: Step, rest: seq<Step>)
    requires Enabled(r, s) && Runs(Next(r, s), rest)
    ensures Runs(r, [s] + rest) && After(r, [s] + rest) == After(Next(r, s), rest)
  {
    assert ([s] + rest)[1..] == rest;
  }

  /** A reader and a writer inside together. */
  lemma ReaderAndWriterTogether()
    ensures var steps := [TestRead(0), TestWrite(1), StartReading(0), TakeLock(1), StartWriting(1)];
      Runs(New(2), steps) && After(New(2), steps).reading == 1 && After(New(2), steps).writing == 1
  {
    var r1 := Next(New(2), TestRead(0));
    var r2 := Next(r1, TestWrite(1));
    var r3 := Next(r2, StartReading(0));
    var r4 := Next(r3, TakeLock(1));
    var r5 := Next(r4, StartWriting(1));
    hide Enabled, Next, New;
    OneStep(r4, StartWriting(1), []);
    OneStep(r3, TakeLock(1), [StartWriting(1)]);
    OneStep(r2, StartReading(0), [TakeLock(1), StartWriting(1)]);
    OneStep(r1, TestWrite(1), [StartReading(0), TakeLock(1), StartWriting(1)]);
    OneStep(New(2), TestRead(0), [TestWrite(1), StartReading(0), TakeLock(1), StartWriting(1)]);
  }

  lemma {:induction false} RunsConcat(r: Record, a: seq<Step>, b: seq<Step>)
    requires Runs(r, a) && Runs(After(r, a), b)
    ensures Runs(r, a + b) && After(r, a + b) == After(After(r, a), b)
    decreases a
  {
    hide Enabled, Next;
    if a == [] {
      assert a + b == b;
    } else {
      assert (a + b)[1..] == a[1..] + b;
      RunsConcat(Next(r, a[0]), a[1..], b);
    }
  }

  /** A reader counted in while an FCLOSE is between its test and its mark. */
  function ReaderBeforeMark(): Record {
    Record(true, false, 1, 0, Free, [CloseTested, Reading])
  }

  lemma ReaderPassesCloser()
    ensures var steps := [TestClose(0), TestRead(1), StartReading(1)];
      Runs(New(2), steps) && After(New(2), steps) == ReaderBeforeMark()
  {
    var r1 := Next(New(2), TestClose(0));
    var r2 := Next(r1, TestRead(1));
    var r3 := Next(r2, StartReading(1));
    assert r3.threads == [CloseTested, Reading];
    hide Enabled, Next, New;
    OneStep(r2, StartReading(1), []);
    OneStep(r1, TestRead(1), [StartReading(1)]);
    OneStep(New(2), TestClose(0), [TestRead(1), StartReading(1)]);
  }

  /** FCLOSE erases a record with a reader counted in. */
  lemma ErasedUnderReader()
    ensures var steps := [TestClose(0), TestRead(1), StartReading(1), MarkClosing(0), Erase(0)];
      Runs(New(2), steps) && After(New(2), steps) == Record(false, true, 1, 0, Free, [Outside, Reading])
  {
    ReaderPassesCloser();
    var r4 := Next(ReaderBeforeMark(), MarkClosing(0));
    var r5 := Next(r4, Erase(0));
    assert r5.threads == [Outside, Reading];
    hide Enabled, Next, New;
    OneStep(r4, Erase(0), []);
    OneStep(ReaderBeforeMark(), MarkClosing(0), [Erase(0)]);
    hide Runs, After;
    RunsConcat(New(2), [TestClose(0), TestRead(1), StartReading(1)], [MarkClosing(0), Erase(0)]);
  }
}
