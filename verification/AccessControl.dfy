/** Any number of threads on the shared tables. FOPEN tests in one step whether its file is open and
    registers it in another. Each other operation enters in two steps: it looks its file up and parks at
    its wait; then, in one step, finds its wait predicate true, re-checks the descriptor and counts
    itself in (FCLOSE: removes the file). A parked operation finds its control record by name when it
    resumes. */
module AccessControl {
  import opened FileOperations
  import opened TableConsistency
  import OS = OperatingSystem

  datatype Op = Seek | Read | Write | Close

  datatype Thread =
    | Idle
    | Opening(name: string)   // FOPEN found no descriptor for the name
    | Parked(op: Op, fd: int, name: string)
    | Inside(op: Op, fd: int, name: string)

  datatype State = State(tab: Tables, threads: seq<Thread>)

  datatype Step =
    | Connect                           // another thread starts serving
    | OpenTest(t: nat, name: string)    // FOPEN looks for a descriptor of the file
    | Register(t: nat, fd: int)         // the system grants fd, or refuses if it is not positive; FOPEN stores it
    | Ask(t: nat, op: Op, target: int)  // up to the wait
    | Enter(t: nat)                     // from the wait into the region, or out with an error
    | Leave(t: nat)                     // the end-and-notify of the region

  function Start(): State {
    State(NO_TABLES, [])
  }

  function RecordOf(tab: Tables, name: string): Control {
    if name in tab.access then tab.access[name] else FRESH
  }

  /** The wait predicate, and for FWRITE, when the descriptor check will pass, the write lock too:
      at this granularity it is held just while `writing` is not zero. */
  predicate MayEnter(tab: Tables, p: Thread)
    requires p.Parked?
  {
    var c := RecordOf(tab, p.name);
    match p.op
    case Seek => MayRead(c)
    case Read => MayRead(c)
    case Write => MayWrite(c) && (CheckFd(tab, p.fd) < 0 || c.writing == 0)
    case Close => MayClose(c)
  }

  /** A name is a token of the request, so it is not empty. */
  predicate Enabled(s: State, step: Step) {
    step == Connect ||
    (step.t < |s.threads| &&
     var p := s.threads[step.t];
     match step
     case Connect => true
     case OpenTest(_, name) => p.Idle? && name != ""
     case Register(_, fd) => p.Opening? && (fd > 0 ==> fd !in s.tab.openFiles)
     case Ask(_, _, _) => p.Idle?
     case Enter(_) => p.Parked? && MayEnter(s.tab, p)
     case Leave(_) => p.Inside?)
  }

  function WithRecord(tab: Tables, name: string, c: Control): Tables {
    tab.(access := tab.access[name := c])
  }

  function OpenTestStep(tab: Tables, name: string): (Tables, Thread) {
    var tab1 := tab.(nameToFd := Touch(tab.nameToFd, name, 0));
    (tab1, if tab1.nameToFd[name] > 0 then Idle else Opening(name))
  }

  function RegisterStep(tab: Tables, p: Thread, fd: int): Tables
    requires p.Opening?
  {
    if fd > 0 then Added(tab, p.name, fd) else tab
  }

  function AskStep(tab: Tables, op: Op, fd: int): (Tables, Thread) {
    if op != Write && CheckFd(tab, fd) < 0 then (tab, Idle)
    else
      var (tab1, name) := LookUpIn(tab, fd);
      (tab1, Parked(op, fd, name))
  }

  function EnterStep(tab: Tables, p: Thread): (Tables, Thread)
    requires p.Parked?
  {
    var c := RecordOf(tab, p.name);
    if p.op == Close then
      if CheckFd(tab, p.fd) < 0 then (WithRecord(tab, p.name, c.(closing := true)), Idle)
      else (Removed(tab, p.fd, p.name), Idle)
    else if p.op != Seek && CheckFd(tab, p.fd) < 0 then (WithRecord(tab, p.name, c), Idle)
    else if p.op == Write then
      (WithRecord(tab, p.name, c.(writing := c.writing + 1)), Inside(p.op, p.fd, p.name))
    else
      (WithRecord(tab, p.name, c.(reading := c.reading + 1)), Inside(p.op, p.fd, p.name))
  }

  function LeaveStep(tab: Tables, p: Thread): Tables
    requires p.Inside?
  {
    var c := RecordOf(tab, p.name);
    WithRecord(tab, p.name,
      if p.op == Write then c.(writing := c.writing - 1) else c.(reading := c.reading - 1))
  }

  function Next(s: State, step: Step): State
    requires Enabled(s, step)
  {
    match step
    case Connect => s.(threads := s.threads + [Idle])
    case OpenTest(t, name) =>
      var (tab, thread) := OpenTestStep(s.tab, name);
      State(tab, s.threads[t := thread])
    case Register(t, fd) => State(RegisterStep(s.tab, s.threads[t], fd), s.threads[t := Idle])
    case Ask(t, op, fd) =>
      var (tab, thread) := AskStep(s.tab, op, fd);
      State(tab, s.threads[t := thread])
    case Enter(t) =>
      var (tab, thread) := EnterStep(s.tab, s.threads[t]);
      State(tab, s.threads[t := thread])
    case Leave(t) => State(LeaveStep(s.tab, s.threads[t]), s.threads[t := Idle])
  }

  /** An operation nobody interrupts: its steps one after the other. */
  function Uninterrupted(tab: Tables, op: Op, fd: int): Tables {
    var (tab1, p1) := AskStep(tab, op, fd);
    if p1.Idle? || !MayEnter(tab1, p1) then tab1
    else
      var (tab2, p2) := EnterStep(tab1, p1);
      if p2.Inside? then LeaveStep(tab2, p2) else tab2
  }

  function UninterruptedOpen(tab: Tables, name: string, granted: int): Tables {
    var (tab1, p1) := OpenTestStep(tab, name);
    if p1.Opening? then RegisterStep(tab1, p1, granted) else tab1
  }

  /** The steps are the file client's operations, taken apart: run without interruption they leave the
      tables as the whole operations do. */
  lemma StepsComposeToOperations(w: World, fd: int, n: nat, data: string, name: string, choice: OS.OpenChoice)
    requires Quiescent(w.tab)
    ensures Uninterrupted(w.tab, Seek, fd) == SeekFd(w, fd, n).w.tab
    ensures Uninterrupted(w.tab, Read, fd) == ReadFd(w, fd, n, false).w.tab
    ensures Uninterrupted(w.tab, Write, fd) == WriteFd(w, fd, data).w.tab
    ensures Uninterrupted(w.tab, Close, fd) == CloseFd(w, fd, false).w.tab
    ensures UninterruptedOpen(w.tab, name, if OS.Open(w.os, name, choice).Some? then choice.fd else 0)
         == Fopen(w, ["FOPEN", name], choice).w.tab
  {
    OpenStepsCompose(w, name, choice);
    ReadStepsCompose(w, fd, n);
    WriteStepsCompose(w, fd, data);
    hide OS.Open, Fopen, SeekFd, ReadFd, WriteFd, CloseFd, Uninterrupted, UninterruptedOpen;
    CloseStepsCompose(w, fd);
  }

  lemma CountedInAndOut(w: World, fd: int)
    requires Quiescent(w.tab)
    ensures var (tab, name) := LookUpIn(w.tab, fd);
      tab.access[name] == FRESH && tab.access[name := FRESH] == tab.access
  {
  }

  lemma ReadStepsCompose(w: World, fd: int, n: nat)
    requires Quiescent(w.tab)
    ensures Uninterrupted(w.tab, Seek, fd) == SeekFd(w, fd, n).w.tab
    ensures Uninterrupted(w.tab, Read, fd) == ReadFd(w, fd, n, false).w.tab
  {
    CountedInAndOut(w, fd);
    hide OS.Seek, OS.Read, Quiescent;
  }

  lemma WriteStepsCompose(w: World, fd: int, data: string)
    requires Quiescent(w.tab)
    ensures Uninterrupted(w.tab, Write, fd) == WriteFd(w, fd, data).w.tab
  {
    CountedInAndOut(w, fd);
    hide OS.Write, Quiescent, Removed;
  }

  lemma CloseStepsCompose(w: World, fd: int)
    requires Quiescent(w.tab)
    ensures Uninterrupted(w.tab, Close, fd) == CloseFd(w, fd, false).w.tab
  {
    CountedInAndOut(w, fd);
    hide Quiescent, Removed;
  }

  lemma OpenStepsCompose(w: World, name: string, choice: OS.OpenChoice)
    ensures UninterruptedOpen(w.tab, name, if OS.Open(w.os, name, choice).Some? then choice.fd else 0)
         == Fopen(w, ["FOPEN", name], choice).w.tab
  {
  }

  // ----- Counting -----

  predicate ReadsIn(p: Thread, name: string) {
    p.Inside? && p.op != Write && p.name == name
  }

  predicate WritesIn(p: Thread, name: string) {
    p.Inside? && p.op == Write && p.name == name
  }

  function One(b: bool): nat {
    if b then 1 else 0
  }

  function Readers(threads: seq<Thread>, name: string): nat
    decreases |threads|
  {
    if threads == [] then 0 else One(ReadsIn(threads[0], name)) + Readers(threads[1..], name)
  }

  function Writers(threads: seq<Thread>, name: string): nat
    decreases |threads|
  {
    if threads == [] then 0 else One(WritesIn(threads[0], name)) + Writers(threads[1..], name)
  }

  lemma {:induction false} CountsAfterMove(threads: seq<Thread>, t: nat, p: Thread, name: string)
    requires t < |threads|
    ensures Readers(threads[t := p], name)
         == Readers(threads, name) - One(ReadsIn(threads[t], name)) + One(ReadsIn(p, name))
    ensures Writers(threads[t := p], name)
         == Writers(threads, name) - One(WritesIn(threads[t], name)) + One(WritesIn(p, name))
  {
    if t == 0 {
      assert threads[t := p][1..] == threads[1..];
    } else {
      assert threads[t := p][1..] == threads[1..][t - 1 := p];
      CountsAfterMove(threads[1..], t - 1, p, name);
    }
  }

  lemma {:induction false} CountsAfterConnect(threads: seq<Thread>, name: string)
    ensures Readers(threads + [Idle], name) == Readers(threads, name)
    ensures Writers(threads + [Idle], name) == Writers(threads, name)
  {
    if threads == [] {
      assert threads + [Idle] == [Idle];
    } else {
      assert (threads + [Idle])[1..] == threads[1..] + [Idle];
      CountsAfterConnect(threads[1..], name);
    }
  }

  lemma {:induction false} InsideIsCounted(threads: seq<Thread>, t: nat, name: string)
    requires t < |threads|
    ensures ReadsIn(threads[t], name) ==> Readers(threads, name) >= 1
    ensures WritesIn(threads[t], name) ==> Writers(threads, name) >= 1
  {
    if t > 0 {
      InsideIsCounted(threads[1..], t - 1, name);
    }
  }

  /** The access policy of the record kept under a name, on exact counters: readers may overlap, a writer
      is alone. */
  ghost predicate Policy(s: State) {
    forall n ::
      var c := RecordOf(s.tab, n);
      && c.reading == Readers(s.threads, n)
      && c.writing == Writers(s.threads, n)
      && c.writing <= 1
      && !(c.reading > 0 && c.writing > 0)
  }

  lemma MoveKeepsPolicy(s: State, t: nat, p: Thread, tab: Tables, name: string)
    requires Policy(s) && t < |s.threads|
    requires forall n | n != name :: RecordOf(tab, n) == RecordOf(s.tab, n)
    requires forall n | n != name :: (ReadsIn(p, n) <==> ReadsIn(s.threads[t], n))
                                  && (WritesIn(p, n) <==> WritesIn(s.threads[t], n))
    requires var c, d := RecordOf(s.tab, name), RecordOf(tab, name);
      && d.reading == c.reading - One(ReadsIn(s.threads[t], name)) + One(ReadsIn(p, name))
      && d.writing == c.writing - One(WritesIn(s.threads[t], name)) + One(WritesIn(p, name))
      && d.writing <= 1 && !(d.reading > 0 && d.writing > 0)
    ensures Policy(State(tab, s.threads[t := p]))
  {
    forall n
      ensures Readers(s.threads[t := p], n)
           == Readers(s.threads, n) - One(ReadsIn(s.threads[t], n)) + One(ReadsIn(p, n))
      ensures Writers(s.threads[t := p], n)
           == Writers(s.threads, n) - One(WritesIn(s.threads[t], n)) + One(WritesIn(p, n))
    {
      CountsAfterMove(s.threads, t, p, n);
    }
  }

  lemma EnterKeepsPolicy(s: State, t: nat)
    requires Policy(s) && Enabled(s, Enter(t))
    ensures Policy(Next(s, Enter(t)))
  {
    hide Readers, Writers;
    var (tab, p) := EnterStep(s.tab, s.threads[t]);
    MoveKeepsPolicy(s, t, p, tab, s.threads[t].name);
  }

  /** For the records the policy needs no hypothesis: no schedule, no descriptor the system grants, breaks
      it. What the records guard is the names looked up; the files follow under a hypothesis only
      (`DescriptorSafety`). */
  lemma StepKeepsPolicy(s: State, step: Step)
    requires Policy(s) && Enabled(s, step)
    ensures Policy(Next(s, step))
  {
    hide Readers, Writers;
    match step
    case Connect =>
      forall n
        ensures Readers(s.threads + [Idle], n) == Readers(s.threads, n)
        ensures Writers(s.threads + [Idle], n) == Writers(s.threads, n)
      {
        CountsAfterConnect(s.threads, n);
      }
    case OpenTest(t, name) =>
      var (tab, p) := OpenTestStep(s.tab, name);
      MoveKeepsPolicy(s, t, p, tab, "");
    case Register(t, fd) =>
      MoveKeepsPolicy(s, t, Idle, RegisterStep(s.tab, s.threads[t], fd), "");
    case Ask(t, op, fd) =>
      var (tab, p) := AskStep(s.tab, op, fd);
      MoveKeepsPolicy(s, t, p, tab, "");
    case Enter(t) =>
      EnterKeepsPolicy(s, t);
    case Leave(t) =>
      MoveKeepsPolicy(s, t, Idle, LeaveStep(s.tab, s.threads[t]), s.threads[t].name);
  }

  // ----- Runs -----

  predicate Runs(s: State, steps: seq<Step>)
    decreases steps
  {
    steps == [] || (Enabled(s, steps[0]) && Runs(Next(s, steps[0]), steps[1..]))
  }

  function After(s: State, steps: seq<Step>): State
    requires Runs(s, steps)
    decreases steps
  {
    if steps == [] then s else After(Next(s, steps[0]), steps[1..])
  }

  lemma {:induction false} RunKeepsPolicy(s: State, steps: seq<Step>)
    requires Policy(s) && Runs(s, steps)
    ensures Policy(After(s, steps))
    decreases steps
  {
    hide Policy;
    if steps != [] {
      StepKeepsPolicy(s, steps[0]);
      RunKeepsPolicy(Next(s, steps[0]), steps[1..]);
    }
  }

  /** Over every run, of any number of threads: the counters of the record kept under a name count
      exactly the threads inside that looked their file up as this name, and of these none writes while
      another reads or writes. */
  lemma PolicyAlwaysHolds(steps: seq<Step>, name: string)
    requires Runs(Start(), steps)
    ensures var s := After(Start(), steps); var c := RecordOf(s.tab, name);
      && c.reading == Readers(s.threads, name) && c.writing == Writers(s.threads, name)
      && c.writing <= 1 && !(c.reading > 0 && c.writing > 0)
  {
    hide After, Runs, Start;
    StartPolicy();
    RunKeepsPolicy(Start(), steps);
  }

  lemma StartPolicy()
    ensures Policy(Start())
  {
  }

  lemma {:induction false} WriterExists(threads: seq<Thread>, name: string)
    requires Writers(threads, name) > 0
    ensures exists t :: 0 <= t < |threads| && WritesIn(threads[t], name)
  {
    if WritesIn(threads[0], name) {
    } else {
      WriterExists(threads[1..], name);
      var t :| 0 <= t < |threads[1..]| && WritesIn(threads[1..][t], name);
      assert WritesIn(threads[t + 1], name);
    }
  }

  lemma {:induction false} ReaderExists(threads: seq<Thread>, name: string)
    requires Readers(threads, name) > 0
    ensures exists t :: 0 <= t < |threads| && ReadsIn(threads[t], name)
  {
    if ReadsIn(threads[0], name) {
    } else {
      ReaderExists(threads[1..], name);
      var t :| 0 <= t < |threads[1..]| && ReadsIn(threads[1..][t], name);
      assert ReadsIn(threads[t + 1], name);
    }
  }

  ghost predicate Reachable(q: State) {
    exists steps :: Runs(Start(), steps) && After(Start(), steps) == q
  }

  lemma {:induction false} AnyStep(s: State, steps: seq<Step>, step: Step)
    requires Runs(s, steps) && Enabled(After(s, steps), step)
    ensures Runs(s, steps + [step]) && After(s, steps + [step]) == Next(After(s, steps), step)
    decreases steps
  {
    hide Enabled, Next;
    if steps == [] {
      assert steps + [step] == [step] && [step][1..] == [];
    } else {
      assert (steps + [step])[1..] == steps[1..] + [step];
      AnyStep(Next(s, steps[0]), steps[1..], step);
    }
  }

  lemma Walk(q: State, step: Step) returns (r: State)
    requires Reachable(q) && Enabled(q, step)
    ensures r == Next(q, step) && Reachable(r)
  {
    hide Enabled, Next;
    var steps :| Runs(Start(), steps) && After(Start(), steps) == q;
    AnyStep(Start(), steps, step);
    r := Next(q, step);
  }

  lemma Serving(n: nat) returns (q: State)
    ensures Reachable(q) && q == State(NO_TABLES, seq(n, _ => Idle))
  {
    if n == 0 {
      assert Runs(Start(), []) && After(Start(), []) == Start();
      q := Start();
    } else {
      q := Serving(n - 1);
      q := Walk(q, Connect);
    }
  }
}
