/** What the tables make of the records' policy: whether descriptors in use stay open, and whether files,
    not names, are read and written apart. Any number of threads, each entry atomic as in
    `AccessControl`. */
module DescriptorSafety {
  import opened FileOperations
  import opened TableConsistency
  import opened AccessControl

  type Step = AccessControl.Step

  /** A thread that checks its descriptor after its wait: all but FSEEK's. */
  predicate Checks(p: Thread) {
    (p.Parked? || p.Inside?) && p.op != Seek
  }

  // ----- What is to be kept -----

  /** Inside FREAD or FWRITE with a descriptor that is open. */
  predicate Uses(s: State, t: nat) {
    && t < |s.threads| && s.threads[t].Inside? && Checks(s.threads[t])
    && s.threads[t].fd in s.tab.openFiles && s.threads[t].fd in s.tab.fdToName
  }

  /** The published access policy: of two threads that use descriptors of one file neither writes. */
  ghost predicate FilePolicy(s: State) {
    forall t: nat, u: nat | t != u && Uses(s, t) && Uses(s, u)
        && s.tab.fdToName[s.threads[t].fd] == s.tab.fdToName[s.threads[u].fd] ::
      s.threads[t].op != Write && s.threads[u].op != Write
  }

  /** A thread inside FREAD or FWRITE holds a descriptor that is open on the file it is counted for. */
  ghost predicate InUseValid(s: State) {
    forall t | 0 <= t < |s.threads| ::
      var p := s.threads[t];
      p.Inside? && Checks(p) ==> p.fd in s.tab.openFiles && p.fd in s.tab.fdToName && s.tab.fdToName[p.fd] == p.name
  }

  /** What is left of `Consistent` when a file may have several descriptors: each is listed once and has a
      name, and a name found in `NameToFd` leads to an open descriptor of its own. */
  ghost predicate Traceable(t: Tables) {
    && (forall i, j | 0 <= i < j < |t.openFiles| :: t.openFiles[i] != t.openFiles[j])
    && (forall fd | fd in t.openFiles :: fd > 0 && fd in t.fdToName)
    && (forall n | n in t.nameToFd && t.nameToFd[n] > 0 ::
          t.nameToFd[n] in t.openFiles && t.fdToName[t.nameToFd[n]] == n)
    && (forall fd | fd in t.fdToName && fd !in t.openFiles :: t.fdToName[fd] == "")
  }

  lemma ConsistentIsTraceable(t: Tables)
    requires Consistent(t)
    ensures Traceable(t)
  {
  }

  /** Tables, descriptors in use and files are in order; `doubles` tells whether a file may have been
      opened more than once. */
  ghost predicate Safe(s: State, doubles: bool) {
    (if doubles then Traceable(s.tab) else Consistent(s.tab)) && InUseValid(s) && FilePolicy(s)
  }

  // ----- The invariant -----

  /** A descriptor a parked thread waits with, if it is open, is open on the file the thread looked up. */
  ghost predicate ParkedFresh(s: State) {
    forall t | 0 <= t < |s.threads| ::
      var p := s.threads[t];
      p.Parked? && Checks(p) && p.fd in s.tab.openFiles ==>
        p.fd in s.tab.fdToName && s.tab.fdToName[p.fd] == p.name
  }

  /** Threads parked with one descriptor wait for one file, but for those that found no file at all. */
  ghost predicate OneName(s: State) {
    forall t, u | 0 <= t < |s.threads| && 0 <= u < |s.threads|
        && s.threads[t].Parked? && Checks(s.threads[t]) && s.threads[u].Parked? && Checks(s.threads[u]) ::
      s.threads[t].fd == s.threads[u].fd && s.threads[t].name != "" && s.threads[u].name != "" ==>
        s.threads[t].name == s.threads[u].name
  }

  /** No file has the empty name, which FWRITE looks up for a bad descriptor; so nobody closes it. */
  ghost predicate EmptyNameUnused(s: State) {
    && (forall fd | fd in s.tab.openFiles && fd in s.tab.fdToName :: s.tab.fdToName[fd] != "")
    && (forall t | 0 <= t < |s.threads| && s.threads[t].Parked? && s.threads[t].op == Close :: s.threads[t].name != "")
    && (forall t | 0 <= t < |s.threads| && s.threads[t].Opening? :: s.threads[t].name != "")
    && !RecordOf(s.tab, "").closing
  }

  /** The threads' side of the invariant. */
  ghost predicate Held(s: State) {
    InUseValid(s) && ParkedFresh(s) && OneName(s) && EmptyNameUnused(s)
  }

  /** Of each name that is not open at most one FOPEN is under way, and of others none. */
  ghost predicate OpeningApart(s: State) {
    && (forall t | 0 <= t < |s.threads| && s.threads[t].Opening? :: !Live(s.tab, s.threads[t].name))
    && (forall t, u | 0 <= t < u < |s.threads| && s.threads[t].Opening? :: s.threads[u] != s.threads[t])
  }

  /** Every file is opened once. */
  ghost predicate Single(s: State) {
    Consistent(s.tab) && OpeningApart(s)
  }

  ghost predicate Inv(s: State, doubles: bool) {
    Policy(s) && Traceable(s.tab) && Held(s) && (doubles || Single(s))
  }

  // ----- Clean steps -----

  /** The system does not hand out a descriptor with which some thread is still parked for another
      file. */
  predicate NoStaleReuse(s: State, step: Step)
    requires Enabled(s, step)
  {
    step.Register? && step.fd > 0 ==>
      forall t | 0 <= t < |s.threads| ::
        s.threads[t].Parked? && Checks(s.threads[t]) && s.threads[t].fd == step.fd ==>
          s.threads[t].name == s.threads[step.t].name
  }

  /** FOPEN looks for a descriptor while no other FOPEN of the file is between its look and its
      registration. */
  predicate NoDoubleOpen(s: State, step: Step) {
    step.OpenTest? ==> Opening(step.name) !in s.threads
  }

  predicate Clean(s: State, step: Step, doubles: bool)
    requires Enabled(s, step)
  {
    NoStaleReuse(s, step) && (doubles || NoDoubleOpen(s, step))
  }

  // ----- The tables -----

  lemma AddTraceable(t: Tables, name: string, fd: int)
    requires Traceable(t) && fd > 0 && fd !in t.openFiles
    ensures var u := Added(t, name, fd);
      && Traceable(u)
      && (forall x :: x in u.openFiles <==> x in t.openFiles || x == fd)
      && (forall x | x in t.openFiles :: u.fdToName[x] == t.fdToName[x])
  {
    var u := Added(t, name, fd);
    assert forall x :: x in u.openFiles <==> x in t.openFiles || x == fd;
  }

  lemma RemovalIsLocal(t: Tables, fd: int)
    requires Traceable(t) && fd in t.openFiles
    ensures var name := t.fdToName[fd]; var u := Removed(t, fd, name);
      && (forall n :: Live(u, n) <==> Live(t, n) && t.nameToFd[n] != fd)
      && (forall n | Live(u, n) :: u.nameToFd[n] == t.nameToFd[n])
      && (forall n | Live(t, n) && t.nameToFd[n] == fd :: n == name)
      && (forall n | n != name :: RecordOf(u, n) == RecordOf(t, n))
      && RecordOf(u, name) == FRESH
  {
    assert forall n | n in t.nameToFd && t.nameToFd[n] == fd :: n == t.fdToName[fd];
    hide Without;
  }

  lemma RemoveTraceable(t: Tables, fd: int)
    requires Traceable(t) && fd in t.openFiles
    ensures var u := Removed(t, fd, t.fdToName[fd]);
      && Traceable(u)
      && (forall x :: x in u.openFiles <==> x in t.openFiles && x != fd)
      && (forall x | x in u.openFiles :: u.fdToName[x] == t.fdToName[x])
  {
    WithoutKeepsOthers(t.openFiles, fd);
    RemovalIsLocal(t, fd);
    var u := Removed(t, fd, t.fdToName[fd]);
    assert u.openFiles == Without(t.openFiles, fd) && u.fdToName == t.fdToName - {fd};
    hide Removed, RecordOf, Without;
    assert forall n | n in u.nameToFd && u.nameToFd[n] > 0 :: Live(u, n);
  }

  /** Entries that `operator[]` inserts. */
  lemma StraysTraceable(t: Tables, fd: int, name: string)
    requires Traceable(t)
    ensures Traceable(LookUpIn(t, fd).0) && Traceable(t.(nameToFd := Touch(t.nameToFd, name, 0)))
  {
  }

  lemma StraysConsistent(t: Tables, fd: int, name: string)
    requires Consistent(t)
    ensures Consistent(LookUpIn(t, fd).0) && Consistent(t.(nameToFd := Touch(t.nameToFd, name, 0)))
  {
  }

  lemma RecordsOnly(t: Tables, u: Tables)
    requires u == t.(access := u.access)
    ensures Traceable(t) ==> Traceable(u)
    ensures Consistent(t) ==> Consistent(u)
  {
  }

  // ----- Steps keep the threads' side -----

  /** What a thread may become without a descriptor being granted or taken away. */
  predicate Becomes(tab: Tables, p: Thread, r: Thread) {
    match r
    case Idle => true
    case Opening(name) => name != ""
    case Parked(op, fd, name) =>
      && (Checks(r) ==> name == if fd in tab.openFiles && fd in tab.fdToName then tab.fdToName[fd] else "")
      && (op == Close ==> name != "")
    case Inside(op, fd, name) =>
      p == Parked(op, fd, name) && (Checks(r) ==> fd in tab.openFiles)
  }

  lemma MoveKeepsHeld(s: State, t: nat, r: Thread, tab: Tables)
    requires Held(s) && Traceable(s.tab) && t < |s.threads| && Becomes(s.tab, s.threads[t], r)
    requires tab.openFiles == s.tab.openFiles && RecordOf(tab, "").closing == RecordOf(s.tab, "").closing
    requires forall fd | fd in s.tab.openFiles :: fd in tab.fdToName && tab.fdToName[fd] == s.tab.fdToName[fd]
    ensures Held(State(tab, s.threads[t := r]))
  {
    hide RecordOf;
  }

  lemma RegisterKeepsHeld(s: State, t: nat, fd: int)
    requires Held(s) && Traceable(s.tab) && Enabled(s, Register(t, fd)) && NoStaleReuse(s, Register(t, fd)) && fd > 0
    ensures Held(Next(s, Register(t, fd)))
  {
    AddTraceable(s.tab, s.threads[t].name, fd);
    hide Traceable;
  }

  /** When FCLOSE removes a file, nobody reads or writes through its descriptor. */
  lemma CloseFindsNobodyInside(s: State, t: nat, doubles: bool)
    requires Inv(s, doubles) && Enabled(s, Enter(t))
    requires s.threads[t].op == Close && s.threads[t].fd in s.tab.openFiles
    ensures RecordOf(s.tab, s.threads[t].name).reading == RecordOf(s.tab, s.threads[t].name).writing == 0
    ensures forall u | 0 <= u < |s.threads| ::
      s.threads[u].Inside? && Checks(s.threads[u]) ==> s.threads[u].fd != s.threads[t].fd
  {
    forall u | 0 <= u < |s.threads|
      ensures s.threads[u].Inside? && Checks(s.threads[u]) ==> s.threads[u].fd != s.threads[t].fd
    {
      InsideIsCounted(s.threads, u, s.threads[t].name);
    }
  }

  lemma RemovalIs(s: State, t: nat)
    requires Held(s) && Enabled(s, Enter(t)) && s.threads[t].op == Close && s.threads[t].fd in s.tab.openFiles
    ensures s.threads[t].fd in s.tab.fdToName && s.tab.fdToName[s.threads[t].fd] == s.threads[t].name
    ensures Next(s, Enter(t)) == State(Removed(s.tab, s.threads[t].fd, s.threads[t].name), s.threads[t := Idle])
  {
    hide Removed;
  }

  /** A descriptor that nobody inside holds is taken away. */
  lemma RemovedKeepsHeld(s: State, tab: Tables, fd: int)
    requires Held(s) && RecordOf(tab, "").closing == RecordOf(s.tab, "").closing
    requires forall x :: x in tab.openFiles <==> x in s.tab.openFiles && x != fd
    requires forall x | x in tab.openFiles ::
      x in s.tab.fdToName && x in tab.fdToName && tab.fdToName[x] == s.tab.fdToName[x]
    requires forall u | 0 <= u < |s.threads| && s.threads[u].Inside? && Checks(s.threads[u]) :: s.threads[u].fd != fd
    ensures Held(State(tab, s.threads))
  {
    hide RecordOf;
  }

  lemma RemovalKeepsHeld(s: State, t: nat, doubles: bool)
    requires Inv(s, doubles) && Enabled(s, Enter(t))
    requires s.threads[t].op == Close && s.threads[t].fd in s.tab.openFiles
    ensures Held(Next(s, Enter(t))) && Traceable(Next(s, Enter(t)).tab)
  {
    var fd := s.threads[t].fd;
    RemovalIs(s, t);
    RemoveTraceable(s.tab, fd);
    RemovalIsLocal(s.tab, fd);
    CloseFindsNobodyInside(s, t, doubles);
    assert s.threads[t].name != "";
    MoveKeepsHeld(s, t, Idle, s.tab);
    hide Policy, Single, Removed, Next, Enabled, RecordOf, Live, Held;
    RemovedKeepsHeld(State(s.tab, s.threads[t := Idle]), Removed(s.tab, fd, s.threads[t].name), fd);
  }

  /** An entry that removes nothing, or a way out. */
  lemma InOrOut(s: State, step: Step)
    requires Held(s) && Enabled(s, step)
    requires step.Leave? || (step.Enter? && !(s.threads[step.t].op == Close && s.threads[step.t].fd in s.tab.openFiles))
    ensures var q := Next(s, step);
      && q.tab == s.tab.(access := q.tab.access) && RecordOf(q.tab, "").closing == RecordOf(s.tab, "").closing
      && |q.threads| == |s.threads| && q.threads == s.threads[step.t := q.threads[step.t]]
      && Becomes(s.tab, s.threads[step.t], q.threads[step.t]) && !q.threads[step.t].Opening?
  {
    hide InUseValid, ParkedFresh, OneName;
  }

  lemma AskIs(s: State, step: Step)
    requires Held(s) && Traceable(s.tab) && Enabled(s, step) && step.Ask?
    ensures var q := Next(s, step);
      && (q.tab == s.tab || q.tab == LookUpIn(s.tab, step.target).0)
      && |q.threads| == |s.threads| && q.threads == s.threads[step.t := q.threads[step.t]]
      && Becomes(s.tab, s.threads[step.t], q.threads[step.t]) && !q.threads[step.t].Opening?
  {
    hide InUseValid, ParkedFresh, OneName;
  }

  lemma LookUpKeepsNames(tab: Tables, fd: int)
    ensures var u := LookUpIn(tab, fd).0;
      && u.openFiles == tab.openFiles && u.nameToFd == tab.nameToFd
      && (forall n :: RecordOf(u, n) == RecordOf(tab, n))
      && (forall x | x in tab.fdToName :: x in u.fdToName && u.fdToName[x] == tab.fdToName[x])
  {
  }

  lemma ConnectKeepsHeld(s: State)
    requires Held(s)
    ensures Held(State(s.tab, s.threads + [Idle]))
  {
  }

  lemma StepKeepsHeld(s: State, step: Step, doubles: bool)
    requires Inv(s, doubles) && Enabled(s, step) && NoStaleReuse(s, step)
    ensures Held(Next(s, step)) && Traceable(Next(s, step).tab)
  {
    var q := Next(s, step);
    match step
    case Connect =>
      ConnectKeepsHeld(s);
    case OpenTest(t, name) =>
      StraysTraceable(s.tab, 0, name);
      assert RecordOf(q.tab, "") == RecordOf(s.tab, "");
      hide Held, Traceable;
      MoveKeepsHeld(s, t, q.threads[t], q.tab);
    case Register(t, fd) =>
      if fd > 0 {
        RegisterKeepsHeld(s, t, fd);
        AddTraceable(s.tab, s.threads[t].name, fd);
      } else {
        hide Held, Traceable;
        MoveKeepsHeld(s, t, Idle, s.tab);
      }
    case Ask(t, op, fd) =>
      AskIs(s, step);
      StraysTraceable(s.tab, fd, "");
      LookUpKeepsNames(s.tab, fd);
      hide Held, Next, LookUpIn, Becomes;
      MoveKeepsHeld(s, t, q.threads[t], q.tab);
    case Enter(t) =>
      if s.threads[t].op == Close && s.threads[t].fd in s.tab.openFiles {
        RemovalKeepsHeld(s, t, doubles);
      } else {
        InOrOutKeepsHeld(s, step);
      }
    case Leave(t) =>
      InOrOutKeepsHeld(s, step);
  }

  lemma InOrOutKeepsHeld(s: State, step: Step)
    requires Held(s) && Traceable(s.tab) && Enabled(s, step)
    requires step.Leave? || (step.Enter? && !(s.threads[step.t].op == Close && s.threads[step.t].fd in s.tab.openFiles))
    ensures Held(Next(s, step)) && Traceable(Next(s, step).tab)
  {
    var q := Next(s, step);
    InOrOut(s, step);
    RecordsOnly(s.tab, q.tab);
    hide Held, Next, Becomes, Consistent, RecordOf, Enabled;
    MoveKeepsHeld(s, step.t, q.threads[step.t], q.tab);
  }

  // ----- Steps keep files opened once -----

  /** A step of another operation. */
  lemma MoveKeepsOpeningApart(s: State, t: nat, p: Thread, tab: Tables)
    requires OpeningApart(s) && t < |s.threads| && !p.Opening?
    requires forall n | Live(tab, n) :: Live(s.tab, n)
    ensures OpeningApart(State(tab, s.threads[t := p]))
  {
    hide Live;
  }

  lemma OpenTestKeepsSingle(s: State, t: nat, name: string)
    requires Single(s) && Enabled(s, OpenTest(t, name)) && NoDoubleOpen(s, OpenTest(t, name))
    ensures Single(Next(s, OpenTest(t, name)))
  {
    var q := Next(s, OpenTest(t, name));
    StraysConsistent(s.tab, 0, name);
    hide Consistent;
    assert forall u | 0 <= u < |s.threads| && u != t :: q.threads[u] == s.threads[u] && s.threads[u] in s.threads;
    assert forall n :: Live(q.tab, n) <==> Live(s.tab, n);
  }

  lemma RegisterKeepsSingle(s: State, t: nat, fd: int)
    requires Single(s) && Enabled(s, Register(t, fd))
    ensures Single(Next(s, Register(t, fd)))
  {
    if fd > 0 {
      AddConsistent(s.tab, s.threads[t].name, fd);
    }
    hide Consistent, Live;
  }

  lemma StepKeepsSingle(s: State, step: Step)
    requires Inv(s, false) && Enabled(s, step) && NoDoubleOpen(s, step)
    ensures Single(Next(s, step))
  {
    var q := Next(s, step);
    match step
    case Connect =>
      hide Consistent, Policy, Held;
    case OpenTest(t, name) => OpenTestKeepsSingle(s, t, name);
    case Register(t, fd) => RegisterKeepsSingle(s, t, fd);
    case Ask(t, op, fd) =>
      AskIs(s, step);
      StraysConsistent(s.tab, fd, "");
      LookUpKeepsNames(s.tab, fd);
      hide Next, LookUpIn, Becomes, Consistent, OpeningApart, Policy, Held;
      MoveKeepsOpeningApart(s, t, q.threads[t], q.tab);
    case Enter(t) =>
      if s.threads[t].op == Close && s.threads[t].fd in s.tab.openFiles {
        RemovalIs(s, t);
        RemoveConsistent(s.tab, s.threads[t].fd);
        RemovalIsLocal(s.tab, s.threads[t].fd);
        hide Next, Enabled, Removed, Consistent, Traceable, OpeningApart, Policy, Held, Live;
        MoveKeepsOpeningApart(s, t, Idle, q.tab);
      } else {
        InOrOutKeepsSingle(s, step);
      }
    case Leave(t) => InOrOutKeepsSingle(s, step);
  }

  lemma InOrOutKeepsSingle(s: State, step: Step)
    requires Single(s) && Held(s) && Enabled(s, step)
    requires step.Leave? || (step.Enter? && !(s.threads[step.t].op == Close && s.threads[step.t].fd in s.tab.openFiles))
    ensures Single(Next(s, step))
  {
    var q := Next(s, step);
    InOrOut(s, step);
    RecordsOnly(s.tab, q.tab);
    hide Held, Next, Becomes, Consistent, RecordOf, Enabled, OpeningApart;
    MoveKeepsOpeningApart(s, step.t, q.threads[step.t], q.tab);
  }

  lemma StepKeepsInv(s: State, step: Step, doubles: bool)
    requires Inv(s, doubles) && Enabled(s, step) && Clean(s, step, doubles)
    ensures Inv(Next(s, step), doubles)
  {
    StepKeepsPolicy(s, step);
    StepKeepsHeld(s, step, doubles);
    if !doubles {
      StepKeepsSingle(s, step);
    }
    hide Policy, Held, Traceable, Single, Next;
  }

  // ----- The invariant means that files are kept apart -----

  lemma TwoWriters(threads: seq<Thread>, t: nat, u: nat, name: string)
    requires t < |threads| && u < |threads| && t != u && WritesIn(threads[t], name) && WritesIn(threads[u], name)
    ensures Writers(threads, name) >= 2
  {
    CountsAfterMove(threads, t, Idle, name);
    InsideIsCounted(threads[t := Idle], u, name);
  }

  /** Threads that use one file have been counted by one record. */
  lemma RecordsKeepFilesApart(s: State)
    requires Policy(s) && InUseValid(s)
    ensures FilePolicy(s)
  {
    forall t: nat, u: nat | t != u && Uses(s, t) && Uses(s, u)
        && s.tab.fdToName[s.threads[t].fd] == s.tab.fdToName[s.threads[u].fd]
      ensures s.threads[t].op != Write && s.threads[u].op != Write
    {
      var name := s.threads[t].name;
      assert s.threads[u].name == name;
      InsideIsCounted(s.threads, t, name);
      InsideIsCounted(s.threads, u, name);
      if s.threads[t].op == Write && s.threads[u].op == Write {
        TwoWriters(s.threads, t, u, name);
        assert false;
      }
    }
  }

  lemma InvMeansSafe(s: State, doubles: bool)
    requires Inv(s, doubles)
    ensures Safe(s, doubles)
  {
    RecordsKeepFilesApart(s);
    hide Policy, Traceable, Consistent, InUseValid, FilePolicy;
  }

  // ----- Runs -----

  /** Every step of the run is clean. */
  predicate AllClean(s: State, steps: seq<Step>, doubles: bool)
    requires Runs(s, steps)
    decreases steps
  {
    steps == [] || (Clean(s, steps[0], doubles) && AllClean(Next(s, steps[0]), steps[1..], doubles))
  }

  lemma {:induction false} RunKeepsInv(s: State, steps: seq<Step>, doubles: bool)
    requires Inv(s, doubles) && Runs(s, steps) && AllClean(s, steps, doubles)
    ensures Inv(After(s, steps), doubles)
    decreases steps
  {
    hide Inv, Clean;
    if steps != [] {
      StepKeepsInv(s, steps[0], doubles);
      RunKeepsInv(Next(s, steps[0]), steps[1..], doubles);
    }
  }

  lemma StartInv(doubles: bool)
    ensures Inv(Start(), doubles)
  {
  }

  /** Over every run in which no stale descriptor is granted, whatever is opened twice: no file is read and
      written at once, nor written by two, through whatever descriptors. */
  lemma FilesReadAndWrittenApart(steps: seq<Step>)
    requires Runs(Start(), steps) && AllClean(Start(), steps, true)
    ensures FilePolicy(After(Start(), steps))
  {
    StartInv(true);
    RunKeepsInv(Start(), steps, true);
    hide After, Runs, AllClean, Start, FilePolicy;
    InvMeansSafe(After(Start(), steps), true);
  }

  /** Over every run whose FOPENs are clean: the tables stay consistent, a thread inside FREAD or FWRITE has
      its descriptor open on its file, and no FCLOSE that is ready to fire would take that descriptor
      away. */
  lemma DescriptorsInUseStayOpen(steps: seq<Step>, t: nat, closer: nat)
    requires Runs(Start(), steps) && AllClean(Start(), steps, false)
    ensures var s := After(Start(), steps);
      && Consistent(s.tab) && InUseValid(s)
      && (t < |s.threads| && s.threads[t].Inside? && Checks(s.threads[t])
          && closer < |s.threads| && s.threads[closer].Parked? && s.threads[closer].op == Close
          && Enabled(s, Enter(closer)) ==>
            s.threads[t].fd in Next(s, Enter(closer)).tab.openFiles)
  {
    StartInv(false);
    RunKeepsInv(Start(), steps, false);
    var s := After(Start(), steps);
    hide After, Runs, AllClean, Start, Policy, Consistent, Traceable, MayEnter, ParkedFresh, OneName, OpeningApart;
    if t < |s.threads| && s.threads[t].Inside? && Checks(s.threads[t])
      && closer < |s.threads| && s.threads[closer].Parked? && s.threads[closer].op == Close
      && Enabled(s, Enter(closer)) && s.threads[closer].fd in s.tab.openFiles
    {
      CloseFindsNobodyInside(s, closer, false);
      OthersStayOpen(s.tab, s.threads[closer].fd, s.threads[t].fd, s.threads[closer].name);
    }
  }

  lemma OthersStayOpen(tab: Tables, fd: int, other: int, name: string)
    requires fd in tab.openFiles && other in tab.openFiles && other != fd
    ensures other in Removed(tab, fd, name).openFiles
  {
    var k := FirstIndex(tab.openFiles, fd);
    assert tab.openFiles == tab.openFiles[..k] + [fd] + tab.openFiles[k + 1..];
  }

  /** Over every run whose FOPENs are clean: while a file is being written no FOPEN of it is about to
      register a descriptor, and one that comes finds the file open and changes nothing. */
  lemma NoOpeningWhileWritten(steps: seq<Step>, name: string, t: nat)
    requires Runs(Start(), steps) && AllClean(Start(), steps, false)
    requires RecordOf(After(Start(), steps).tab, name).writing > 0
    ensures var s := After(Start(), steps);
      && Live(s.tab, name) && Opening(name) !in s.threads
      && (Enabled(s, OpenTest(t, name)) ==> Next(s, OpenTest(t, name)) == s)
  {
    StartInv(false);
    RunKeepsInv(Start(), steps, false);
    var s := After(Start(), steps);
    hide After, Runs, AllClean, Start, ParkedFresh, OneName, EmptyNameUnused, Traceable;
    WriterExists(s.threads, name);
    var u :| 0 <= u < |s.threads| && WritesIn(s.threads[u], name);
    assert s.threads[u].fd in s.tab.openFiles;
    assert Live(s.tab, name);
    if Enabled(s, OpenTest(t, name)) {
      assert s.threads[t := Idle] == s.threads;
    }
  }

  // ----- What can be reached by clean steps -----

  ghost predicate CanReach(s: State, q: State, doubles: bool) {
    exists steps :: Runs(s, steps) && AllClean(s, steps, doubles) && After(s, steps) == q
  }

  lemma ReachesItself(s: State, doubles: bool)
    ensures CanReach(s, s, doubles)
  {
    assert Runs(s, []) && AllClean(s, [], doubles) && After(s, []) == s;
  }

  lemma {:induction false} OneMoreStep(s: State, steps: seq<Step>, step: Step, doubles: bool)
    requires Runs(s, steps) && AllClean(s, steps, doubles)
    requires Enabled(After(s, steps), step) && Clean(After(s, steps), step, doubles)
    ensures Runs(s, steps + [step]) && AllClean(s, steps + [step], doubles)
    ensures After(s, steps + [step]) == Next(After(s, steps), step)
    decreases steps
  {
    hide Enabled, Next, Clean;
    if steps == [] {
      assert steps + [step] == [step] && [step][1..] == [];
    } else {
      assert (steps + [step])[1..] == steps[1..] + [step];
      OneMoreStep(Next(s, steps[0]), steps[1..], step, doubles);
    }
  }

  lemma Go(s: State, q: State, step: Step, doubles: bool) returns (r: State)
    requires CanReach(s, q, doubles) && Enabled(q, step) && Clean(q, step, doubles)
    ensures r == Next(q, step) && CanReach(s, r, doubles)
  {
    hide Enabled, Next, Clean;
    var steps :| Runs(s, steps) && AllClean(s, steps, doubles) && After(s, steps) == q;
    OneMoreStep(s, steps, step, doubles);
    r := Next(q, step);
  }

  lemma CleanReachStaysSafe(s: State, q: State, doubles: bool)
    requires Inv(s, doubles) && CanReach(s, q, doubles)
    ensures Safe(q, doubles)
  {
    hide Inv, Safe, Clean;
    var steps :| Runs(s, steps) && AllClean(s, steps, doubles) && After(s, steps) == q;
    RunKeepsInv(s, steps, doubles);
    InvMeansSafe(q, doubles);
  }

  // ----- A stale thread, and the way to let it go on -----

  /** A thread parked with a descriptor that is open on another file: `fd` is open on `held`, and the
      thread waits on the record of some other name. */
  ghost predicate Stale(s: State, t: nat, held: string) {
    && t < |s.threads| && s.threads[t].Parked? && Checks(s.threads[t])
    && s.threads[t].name != held
    && s.threads[t].fd > 0 && s.threads[t].fd in s.tab.openFiles
    && s.threads[t].fd in s.tab.fdToName && s.tab.fdToName[s.threads[t].fd] == held
    && held in s.tab.nameToFd && s.tab.nameToFd[held] == s.threads[t].fd
  }

  /** A state on the way: the thread `t` of the first state is still stale. */
  ghost predicate OnTheWay(s: State, q: State, t: nat, held: string, doubles: bool) {
    && CanReach(s, q, doubles) && Policy(q) && Traceable(q.tab) && Stale(q, t, held)
    && t < |s.threads| && q.threads[t] == s.threads[t]
  }

  /** Between two states nobody has come to wait, and of the records only that of `name` has changed. */
  ghost predicate Spares(q: State, r: State, name: string) {
    && |q.threads| <= |r.threads|
    && (forall i | 0 <= i < |r.threads| && r.threads[i].Parked? :: i < |q.threads| && r.threads[i] == q.threads[i])
    && (forall n | n != name :: RecordOf(r.tab, n) == RecordOf(q.tab, n))
  }

  ghost predicate Drained(q: State, name: string) {
    RecordOf(q.tab, name).reading == RecordOf(q.tab, name).writing == 0
  }

  lemma LeaveOne(s: State, q: State, t: nat, held: string, doubles: bool, name: string, u: nat) returns (r: State)
    requires OnTheWay(s, q, t, held, doubles)
    requires u < |q.threads| && q.threads[u].Inside? && q.threads[u].name == name
    ensures OnTheWay(s, r, t, held, doubles) && Spares(q, r, name)
    ensures |r.threads| == |q.threads| && r.tab == q.tab.(access := r.tab.access)
    ensures RecordOf(r.tab, name).closing == RecordOf(q.tab, name).closing
    ensures Readers(r.threads, name) + Writers(r.threads, name) < Readers(q.threads, name) + Writers(q.threads, name)
  {
    hide CanReach, Readers, Writers;
    StepKeepsPolicy(q, Leave(u));
    CountsAfterMove(q.threads, u, Idle, name);
    hide Policy, Traceable;
    r := Go(s, q, Leave(u), doubles);
    RecordsOnly(q.tab, r.tab);
  }

  /** Everybody inside leaves who looked the file up as `name`. */
  lemma {:induction false} Drain(s: State, q: State, t: nat, held: string, doubles: bool, name: string) returns (r: State)
    requires OnTheWay(s, q, t, held, doubles)
    ensures OnTheWay(s, r, t, held, doubles) && Spares(q, r, name) && Drained(r, name)
    ensures |r.threads| == |q.threads| && r.tab == q.tab.(access := r.tab.access)
    ensures RecordOf(r.tab, name).closing == RecordOf(q.tab, name).closing
    decreases Readers(q.threads, name) + Writers(q.threads, name)
  {
    r := q;
    if Writers(q.threads, name) > 0 {
      WriterExists(q.threads, name);
      var u: nat :| u < |q.threads| && WritesIn(q.threads[u], name);
      hide OnTheWay, RecordOf;
      r := LeaveOne(s, q, t, held, doubles, name, u);
      r := Drain(s, r, t, held, doubles, name);
    } else if Readers(q.threads, name) > 0 {
      ReaderExists(q.threads, name);
      var u: nat :| u < |q.threads| && ReadsIn(q.threads[u], name);
      hide OnTheWay, RecordOf;
      r := LeaveOne(s, q, t, held, doubles, name, u);
      r := Drain(s, r, t, held, doubles, name);
    }
  }

  function Above(threads: seq<Thread>, openFiles: seq<int>): (g: int)
    ensures g > 0 && g !in openFiles
    ensures forall fd | fd in openFiles :: fd < g
    ensures forall t | 0 <= t < |threads| && (threads[t].Parked? || threads[t].Inside?) :: threads[t].fd < g
  {
    if threads == [] then
      if openFiles == [] then 1
      else
        var g := Above([], openFiles[1..]);
        assert openFiles == [openFiles[0]] + openFiles[1..];
        if openFiles[0] < g then g else openFiles[0] + 1
    else
      var g := Above(threads[1..], openFiles);
      if threads[0].Idle? || threads[0].Opening? || threads[0].fd < g then g else threads[0].fd + 1
  }

  lemma ConnectOne(s: State, q: State, t: nat, held: string, doubles: bool) returns (r: State)
    requires OnTheWay(s, q, t, held, doubles)
    ensures OnTheWay(s, r, t, held, doubles) && r == State(q.tab, q.threads + [Idle])
  {
    StepKeepsPolicy(q, Connect);
    hide CanReach, Policy, Traceable;
    r := Go(s, q, Connect, doubles);
  }

  /** Somebody is about to register the stale thread's file, or becomes so. */
  lemma LookFor(s: State, q: State, t: nat, held: string, doubles: bool, u: nat) returns (r: State, v: nat)
    requires OnTheWay(s, q, t, held, doubles) && !Live(q.tab, q.threads[t].name) && q.threads[t].name != ""
    requires u < |q.threads| && u != t && q.threads[u].Idle?
    ensures OnTheWay(s, r, t, held, doubles) && !Live(r.tab, q.threads[t].name) && Spares(q, r, q.threads[t].name)
    ensures r.tab.access == q.tab.access && |r.threads| == |q.threads| && (v == u || r.threads[u] == Idle)
    ensures v < |r.threads| && v != t && r.threads[v] == Opening(q.threads[t].name)
  {
    var name := q.threads[t].name;
    if Opening(name) in q.threads {
      v :| 0 <= v < |q.threads| && q.threads[v] == Opening(name);
      r := q;
    } else {
      v := u;
      StepKeepsPolicy(q, OpenTest(u, name));
      StraysTraceable(q.tab, 0, name);
      hide CanReach, Policy, Traceable;
      r := Go(s, q, OpenTest(u, name), doubles);
      assert r.threads == q.threads[u := Opening(name)];
    }
  }

  lemma RegisterAbove(s: State, q: State, t: nat, held: string, doubles: bool, v: nat) returns (r: State)
    requires OnTheWay(s, q, t, held, doubles) && !Live(q.tab, q.threads[t].name)
    requires v < |q.threads| && v != t && q.threads[v] == Opening(q.threads[t].name)
    ensures OnTheWay(s, r, t, held, doubles) && Spares(q, r, q.threads[t].name)
    ensures r.threads == q.threads[v := Idle] && Live(r.tab, q.threads[t].name) && r.tab.access == q.tab.access
  {
    var name, g := q.threads[t].name, Above(q.threads, q.tab.openFiles);
    StepKeepsPolicy(q, Register(v, g));
    AddTraceable(q.tab, name, g);
    hide CanReach, Policy, Traceable;
    r := Go(s, q, Register(v, g), doubles);
    assert r.tab == Added(q.tab, name, g);
  }

  lemma AskToClose(s: State, q: State, t: nat, held: string, doubles: bool, u: nat, fd: int) returns (r: State)
    requires OnTheWay(s, q, t, held, doubles) && u < |q.threads| && u != t && q.threads[u].Idle?
    requires fd in q.tab.openFiles && q.tab.fdToName[fd] == q.threads[t].name
    ensures OnTheWay(s, r, t, held, doubles)
    ensures r == State(LookUpIn(q.tab, fd).0, q.threads[u := Parked(Close, fd, q.threads[t].name)])
  {
    StepKeepsPolicy(q, Ask(u, Close, fd));
    LookUpKeepsNames(q.tab, fd);
    StraysTraceable(q.tab, fd, "");
    hide CanReach, Policy;
    r := Go(s, q, Ask(u, Close, fd), doubles);
    assert r == State(LookUpIn(q.tab, fd).0, q.threads[u := Parked(Close, fd, q.threads[t].name)]);
    hide LookUpIn, Traceable;
  }

  lemma StillOnTheWay(s: State, q: State, r: State, t: nat, held: string, doubles: bool)
    requires OnTheWay(s, q, t, held, doubles)
    requires CanReach(s, r, doubles) && Policy(r) && Traceable(r.tab)
    requires t < |r.threads| && r.threads[t] == q.threads[t] && q.threads[t].fd in r.tab.openFiles
    requires q.threads[t].fd in r.tab.fdToName && r.tab.fdToName[q.threads[t].fd] == held
    requires held in r.tab.nameToFd && r.tab.nameToFd[held] == q.threads[t].fd
    ensures OnTheWay(s, r, t, held, doubles)
  {
    hide CanReach, Policy, Traceable;
  }

  /** The removal of a descriptor that is open on the stale thread's file leaves the stale one alone. */
  lemma RemovalSpares(s: State, q: State, t: nat, held: string, doubles: bool, fd: int)
    requires OnTheWay(s, q, t, held, doubles) && fd in q.tab.openFiles && q.tab.fdToName[fd] == q.threads[t].name
    ensures var u, mine := Removed(q.tab, fd, q.threads[t].name), q.threads[t].fd;
      && Traceable(u) && mine in u.openFiles && mine in u.fdToName && u.fdToName[mine] == held
      && held in u.nameToFd && u.nameToFd[held] == mine
  {
    RemoveTraceable(q.tab, fd);
    RemovalIsLocal(q.tab, fd);
    assert Live(q.tab, held) && fd != q.threads[t].fd;
    var u := Removed(q.tab, fd, q.threads[t].name);
    assert Live(u, held);
    hide CanReach, Policy, Removed, RecordOf;
  }

  lemma CloseFires(q: State, u: nat, fd: int, name: string, doubles: bool)
    requires u < |q.threads| && q.threads[u] == Parked(Close, fd, name) && fd in q.tab.openFiles && Drained(q, name)
    ensures Enabled(q, Enter(u)) && Clean(q, Enter(u), doubles)
    ensures Next(q, Enter(u)) == State(Removed(q.tab, fd, name), q.threads[u := Idle])
  {
    hide Removed;
  }

  lemma FireClose(s: State, q: State, t: nat, held: string, doubles: bool, u: nat, fd: int) returns (r: State)
    requires OnTheWay(s, q, t, held, doubles) && Drained(q, q.threads[t].name)
    requires u < |q.threads| && u != t && q.threads[u] == Parked(Close, fd, q.threads[t].name)
    requires fd in q.tab.openFiles && q.tab.fdToName[fd] == q.threads[t].name
    ensures OnTheWay(s, r, t, held, doubles)
    ensures r == State(Removed(q.tab, fd, q.threads[t].name), q.threads[u := Idle])
  {
    CloseFires(q, u, fd, q.threads[t].name, doubles);
    RemovalSpares(s, q, t, held, doubles, fd);
    assert CanReach(s, q, doubles) && Policy(q) && t < |q.threads|;
    hide OnTheWay, CanReach, Policy, Traceable, Removed, Enabled, Next, RecordOf, Clean, Drained, Stale;
    StepKeepsPolicy(q, Enter(u));
    r := Go(s, q, Enter(u), doubles);
    StillOnTheWay(s, q, r, t, held, doubles);
  }

  /** An FCLOSE of the stale thread's file, by its descriptor, while nobody is inside. */
  lemma CloseIt(s: State, q: State, t: nat, held: string, doubles: bool, u: nat) returns (r: State)
    requires OnTheWay(s, q, t, held, doubles) && Live(q.tab, q.threads[t].name) && Drained(q, q.threads[t].name)
    requires u < |q.threads| && u != t && q.threads[u].Idle?
    ensures OnTheWay(s, r, t, held, doubles) && Spares(q, r, q.threads[t].name)
    ensures RecordOf(r.tab, q.threads[t].name) == FRESH && !Live(r.tab, q.threads[t].name)
  {
    var name := q.threads[t].name;
    var fd := q.tab.nameToFd[name];
    assert fd in q.tab.openFiles && q.tab.fdToName[fd] == name;
    LookUpKeepsNames(q.tab, fd);
    var q1 := AskToClose(s, q, t, held, doubles, u, fd);
    r := FireClose(s, q1, t, held, doubles, u, fd);
    RemovalIsLocal(q1.tab, fd);
    hide CanReach, Policy, Traceable, LookUpIn, Removed, RecordOf, Live;
  }

  lemma SparesTwice(q: State, r: State, z: State, name: string)
    requires Spares(q, r, name) && Spares(r, z, name)
    ensures Spares(q, z, name)
  {
    hide RecordOf;
  }

  /** The stale thread's file is opened, if it is not open, and closed; so its record, which an FCLOSE that
      came too late may have marked as closing, is gone. */
  lemma Retire(s: State, q: State, t: nat, held: string, doubles: bool) returns (r: State)
    requires OnTheWay(s, q, t, held, doubles) && Drained(q, q.threads[t].name) && q.threads[t].name != ""
    ensures OnTheWay(s, r, t, held, doubles) && Spares(q, r, q.threads[t].name)
    ensures RecordOf(r.tab, q.threads[t].name) == FRESH && !Live(r.tab, q.threads[t].name)
  {
    var name, u := q.threads[t].name, |q.threads|;
    var q1 := ConnectOne(s, q, t, held, doubles);
    assert Spares(q, q1, name);
    hide CanReach, Policy, Traceable, Spares, Live;
    if !Live(q1.tab, name) {
      var q2, v := LookFor(s, q1, t, held, doubles, u);
      var q3 := RegisterAbove(s, q2, t, held, doubles, v);
      SparesTwice(q, q1, q2, name);
      SparesTwice(q, q2, q3, name);
      r := CloseIt(s, q3, t, held, doubles, u);
      SparesTwice(q, q3, r, name);
    } else {
      r := CloseIt(s, q1, t, held, doubles, u);
      SparesTwice(q, q1, r, name);
    }
  }

  /** Nothing keeps the stale thread waiting. */
  ghost predicate MayGoOn(q: State, name: string) {
    Drained(q, name) && !RecordOf(q.tab, name).closing && (name != "" ==> !Live(q.tab, name))
  }

  lemma Prepare(s: State, t: nat, held: string, doubles: bool) returns (r: State)
    requires OnTheWay(s, s, t, held, doubles) && !RecordOf(s.tab, "").closing
    ensures OnTheWay(s, r, t, held, doubles) && Spares(s, r, s.threads[t].name) && MayGoOn(r, s.threads[t].name)
  {
    var name := s.threads[t].name;
    r := Drain(s, s, t, held, doubles, name);
    if name != "" {
      var r1 := r;
      r := Retire(s, r, t, held, doubles);
      SparesTwice(s, r1, r, name);
    }
    hide CanReach, Policy, Traceable, Spares, Live;
  }

  /** A stale FCLOSE removes a descriptor that the tables still list for another file. */
  lemma StaleCloseBreaksTables(q: State, t: nat, held: string)
    requires Traceable(q.tab) && Stale(q, t, held) && q.threads[t].op == Close && Enabled(q, Enter(t))
    ensures !Traceable(Next(q, Enter(t)).tab)
  {
    var fd := q.threads[t].fd;
    WithoutKeepsOthers(q.tab.openFiles, fd);
    var tab := Next(q, Enter(t)).tab;
    assert fd !in tab.openFiles;
    assert tab.nameToFd[held] == fd;
  }

  /** A stale FREAD or FWRITE works on a file it is not counted for. */
  lemma StaleAccessIsUncounted(q: State, t: nat, held: string)
    requires Stale(q, t, held) && q.threads[t].op != Close && Enabled(q, Enter(t))
    ensures !InUseValid(Next(q, Enter(t)))
  {
    var r := Next(q, Enter(t));
    assert r.threads[t].Inside? && r.threads[t].fd == q.threads[t].fd;
  }

  lemma StaleThreadBreaksSafety(s: State, t: nat, held: string, doubles: bool) returns (q: State)
    requires OnTheWay(s, s, t, held, doubles) && !RecordOf(s.tab, "").closing
    ensures CanReach(s, q, doubles) && !Safe(q, doubles)
  {
    q := Prepare(s, t, held, doubles);
    assert Enabled(q, Enter(t)) && Clean(q, Enter(t), doubles);
    var r := Next(q, Enter(t));
    if q.threads[t].op == Close {
      StaleCloseBreaksTables(q, t, held);
      assert !Consistent(r.tab) by {
        if Consistent(r.tab) {
          ConsistentIsTraceable(r.tab);
          assert false;
        }
      }
    } else {
      StaleAccessIsUncounted(q, t, held);
    }
    hide CanReach, Policy, Traceable, Consistent, InUseValid, FilePolicy, Enabled, Next, Clean;
    q := Go(s, q, Enter(t), doubles);
  }

  /** Two FOPENs of a file that both found no descriptor both register one. */
  lemma DoubleOpenBreaksTables(s: State, t: nat, u: nat) returns (q: State)
    requires t < |s.threads| && u < |s.threads| && t != u && s.threads[t].Opening? && s.threads[t] == s.threads[u]
    ensures CanReach(s, q, false) && !Consistent(q.tab)
  {
    var name, g := s.threads[t].name, Above(s.threads, s.tab.openFiles);
    ReachesItself(s, false);
    hide CanReach;
    q := Go(s, s, Register(t, g), false);
    var g2 := Above(q.threads, q.tab.openFiles);
    assert q.tab.openFiles[|q.tab.openFiles| - 1] == g;
    q := Go(s, q, Register(u, g2), false);
    assert q.tab.openFiles[|q.tab.openFiles| - 2] == g && q.tab.fdToName[g] == name && q.tab.nameToFd[name] == g2;
  }

  lemma SecondLook(s: State, step: Step) returns (u: nat)
    requires Inv(s, false) && Enabled(s, step) && !NoDoubleOpen(s, step)
    ensures var s1 := Next(s, step);
      && step.OpenTest? && u < |s1.threads| && u != step.t && step.t < |s1.threads|
      && s1.threads[step.t] == s1.threads[u] == Opening(step.name)
  {
    u :| 0 <= u < |s.threads| && s.threads[u] == Opening(step.name);
    assert !Live(s.tab, step.name);
  }

  /** What a stale grant leaves behind, `t` being one of the threads that wait with the descriptor. */
  lemma AfterStaleGrant(s: State, opener: nat, fd: int, t: nat, doubles: bool)
    requires Inv(s, doubles) && Enabled(s, Register(opener, fd)) && fd > 0
    requires t < |s.threads| && s.threads[t].Parked? && Checks(s.threads[t]) && s.threads[t].fd == fd
    requires s.threads[t].name != s.threads[opener].name
    ensures var s1 := Next(s, Register(opener, fd));
      && OnTheWay(s1, s1, t, s.threads[opener].name, doubles) && !RecordOf(s1.tab, "").closing
  {
    var s1 := Next(s, Register(opener, fd));
    StepKeepsPolicy(s, Register(opener, fd));
    AddTraceable(s.tab, s.threads[opener].name, fd);
    ReachesItself(s1, doubles);
    hide CanReach, Policy, Traceable, InUseValid, ParkedFresh, OneName, Single;
  }

  /** The condition is exact. A step leaves the tables in order, every descriptor in use open on its file
      and files read and written apart for good -- whatever happens afterwards, short of an unclean FOPEN
      -- if and only if it is clean: not the registration of a descriptor with which some FREAD, FWRITE or
      FCLOSE still waits for another file, and not, if a file is not to have several descriptors, the look
      of an FOPEN while another one of the file stands between its look and its registration. */
  lemma SafeIffClean(s: State, step: Step, doubles: bool)
    requires Inv(s, doubles) && Enabled(s, step)
    ensures Clean(s, step, doubles) <==> forall q :: CanReach(Next(s, step), q, doubles) ==> Safe(q, doubles)
  {
    var s1 := Next(s, step);
    if Clean(s, step, doubles) {
      StepKeepsInv(s, step, doubles);
      forall q | CanReach(s1, q, doubles)
        ensures Safe(q, doubles)
      {
        CleanReachStaysSafe(s1, q, doubles);
      }
    } else if NoStaleReuse(s, step) {
      var u := SecondLook(s, step);
      var q := DoubleOpenBreaksTables(s1, step.t, u);
      assert CanReach(s1, q, doubles) && !Safe(q, doubles);
    } else {
      var t: nat :| t < |s.threads| && s.threads[t].Parked? && Checks(s.threads[t]) && s.threads[t].fd == step.fd
                    && s.threads[t].name != s.threads[step.t].name;
      AfterStaleGrant(s, step.t, step.fd, t, doubles);
      var q := StaleThreadBreaksSafety(s1, t, s.threads[step.t].name, doubles);
      assert CanReach(s1, q, doubles) && !Safe(q, doubles);
    }
  }

  // ----- Files read and written apart, on their own -----

  /** A new client writes to the file that is open on the stale thread's descriptor. */
  lemma WriterOnHeld(s: State, q: State, t: nat, held: string) returns (r: State, v: nat)
    requires OnTheWay(s, q, t, held, true) && MayGoOn(q, q.threads[t].name) && !RecordOf(q.tab, held).closing
    ensures CanReach(s, r, true) && MayGoOn(r, q.threads[t].name) && Traceable(r.tab)
    ensures v == |q.threads| && |r.threads| == v + 1 && r.threads[t] == q.threads[t]
    ensures r.threads[v] == Inside(Write, q.threads[t].fd, held)
    ensures forall i | 0 <= i < v && r.threads[i].Parked? :: r.threads[i] == q.threads[i]
    ensures r.tab.openFiles == q.tab.openFiles && r.tab.fdToName == q.tab.fdToName && r.tab.nameToFd == q.tab.nameToFd
  {
    var name, fd := q.threads[t].name, q.threads[t].fd;
    v := |q.threads|;
    var q1 := Drain(s, q, t, held, true, held);
    assert MayGoOn(q1, name);
    var q2 := ConnectOne(s, q1, t, held, true);
    hide CanReach, Policy;
    r := Go(s, q2, Ask(v, Write, fd), true);
    assert LookUpIn(q2.tab, fd) == (q2.tab.(access := Touch(q2.tab.access, held, FRESH)), held);
    assert r == State(LookUpIn(q2.tab, fd).0, q2.threads[v := Parked(Write, fd, held)]);
    assert forall n :: RecordOf(r.tab, n) == RecordOf(q2.tab, n);
    var q4 := r;
    r := Go(s, q4, Enter(v), true);
    assert r.threads == q4.threads[v := Inside(Write, fd, held)];
    assert r.tab == q4.tab.(access := r.tab.access) && forall n | n != held :: RecordOf(r.tab, n) == RecordOf(q4.tab, n);
    RecordsOnly(q2.tab, r.tab);
    hide Traceable, Next, Enabled;
  }

  /** A stale FREAD or FWRITE goes on beside that writer. */
  lemma StaleAccessMeetsWriter(s: State, q: State, t: nat, v: nat, held: string) returns (r: State)
    requires CanReach(s, q, true) && Stale(q, t, held) && q.threads[t].op != Close
    requires MayGoOn(q, q.threads[t].name)
    requires v < |q.threads| && t != v && q.threads[v] == Inside(Write, q.threads[t].fd, held)
    ensures CanReach(s, r, true) && !FilePolicy(r)
  {
    hide CanReach;
    r := Go(s, q, Enter(t), true);
    assert Uses(r, t) && Uses(r, v);
  }

  /** Everybody who waits with the descriptor waits for the file. */
  predicate AllWaitFor(threads: seq<Thread>, fd: int, name: string) {
    forall i | 0 <= i < |threads| && threads[i].Parked? && Checks(threads[i]) && threads[i].fd == fd ::
      threads[i].name == name
  }

  /** A stale FCLOSE takes the descriptor away, and it is granted to the file that FCLOSE was for. */
  lemma StaleCloseRegrants(s: State, q: State, t: nat, held: string) returns (r: State)
    requires CanReach(s, q, true) && Stale(q, t, held) && q.threads[t].op == Close && MayGoOn(q, q.threads[t].name)
    requires q.threads[t].name != "" && Traceable(q.tab) && AllWaitFor(q.threads, q.threads[t].fd, q.threads[t].name)
    ensures CanReach(s, r, true) && r.threads == q.threads[t := Idle]
    ensures var name, fd := q.threads[t].name, q.threads[t].fd;
      fd in r.tab.openFiles && fd in r.tab.fdToName && r.tab.fdToName[fd] == name && name !in r.tab.access
  {
    var name, fd := q.threads[t].name, q.threads[t].fd;
    hide CanReach;
    WithoutKeepsOthers(q.tab.openFiles, fd);
    r := Go(s, q, Enter(t), true);
    var q1 := r;
    assert q1 == State(Removed(q.tab, fd, name), q.threads[t := Idle]);
    assert fd !in q1.tab.openFiles && !Live(q1.tab, name) && name !in q1.tab.access;
    hide Removed;
    r := Go(s, q1, OpenTest(t, name), true);
    assert r.threads == q.threads[t := Opening(name)];
    var q2 := r;
    assert q2.tab == q1.tab.(nameToFd := q2.tab.nameToFd);
    r := Go(s, q2, Register(t, fd), true);
    assert r == State(Added(q2.tab, name, fd), q.threads[t := Idle]);
  }

  /** The writer that lost the descriptor meets a second one. */
  lemma StaleCloseMeetsWriter(s: State, q: State, t: nat, v: nat, held: string) returns (r: State)
    requires CanReach(s, q, true) && Stale(q, t, held) && q.threads[t].op == Close && MayGoOn(q, q.threads[t].name)
    requires q.threads[t].name != "" && Traceable(q.tab) && AllWaitFor(q.threads, q.threads[t].fd, q.threads[t].name)
    requires v < |q.threads| && t != v && q.threads[v] == Inside(Write, q.threads[t].fd, held)
    ensures CanReach(s, r, true) && !FilePolicy(r)
  {
    var name, fd := q.threads[t].name, q.threads[t].fd;
    var q3 := StaleCloseRegrants(s, q, t, held);
    hide CanReach, AllWaitFor;
    r := Go(s, q3, Ask(t, Write, fd), true);
    var q4 := r;
    assert q4.threads == q.threads[t := Parked(Write, fd, name)] && RecordOf(q4.tab, name) == FRESH;
    assert q4.tab.openFiles == q3.tab.openFiles && q4.tab.fdToName == q3.tab.fdToName;
    r := Go(s, q4, Enter(t), true);
    assert r.threads == q.threads[t := Inside(Write, fd, name)];
    assert Uses(r, t) && Uses(r, v);
  }

  lemma StaleThreadMeetsWriter(s: State, t: nat, held: string) returns (q: State)
    requires OnTheWay(s, s, t, held, true) && !RecordOf(s.tab, "").closing && !RecordOf(s.tab, held).closing
    requires s.threads[t].op == Close ==>
      s.threads[t].name != "" && AllWaitFor(s.threads, s.threads[t].fd, s.threads[t].name)
    ensures CanReach(s, q, true) && !FilePolicy(q)
  {
    var q1 := Prepare(s, t, held, true);
    var q2, v := WriterOnHeld(s, q1, t, held);
    assert Stale(q2, t, held);
    hide CanReach, Policy, Traceable, MayGoOn, FilePolicy;
    if s.threads[t].op == Close {
      q := StaleCloseMeetsWriter(s, q2, t, v, held);
    } else {
      q := StaleAccessMeetsWriter(s, q2, t, v, held);
    }
  }

  /** When only FCLOSEs wait with the granted descriptor for another file, everybody who waits with it
      waits for that file. */
  lemma OnlyClosersWait(s: State, t: nat, held: string)
    requires Held(s) && t < |s.threads| && s.threads[t].Parked? && s.threads[t].op == Close
    requires held != "" && s.threads[t].name != held
    requires forall i | 0 <= i < |s.threads| && s.threads[i].Parked? && Checks(s.threads[i])
                        && s.threads[i].fd == s.threads[t].fd && s.threads[i].name != held :: s.threads[i].op == Close
    ensures s.threads[t].name != ""
    ensures AllWaitFor(s.threads, s.threads[t].fd, s.threads[t].name)
  {
    hide InUseValid, ParkedFresh;
  }

  /** A grant on its own. One that is not stale leaves files read and written apart for good, whatever is
      opened twice; a stale one does not, unless an FCLOSE of the granted file came too late and has marked
      its record as closing, so that nobody may enter. */
  lemma FilesApartIffNotStale(s: State, opener: nat, fd: int)
    requires Inv(s, true) && Enabled(s, Register(opener, fd))
    ensures NoStaleReuse(s, Register(opener, fd)) ==>
      forall q :: CanReach(Next(s, Register(opener, fd)), q, true) ==> FilePolicy(q)
    ensures (forall q :: CanReach(Next(s, Register(opener, fd)), q, true) ==> FilePolicy(q)) ==>
      NoStaleReuse(s, Register(opener, fd)) || RecordOf(s.tab, s.threads[opener].name).closing
  {
    var step := Register(opener, fd);
    var s1, held := Next(s, step), s.threads[opener].name;
    if NoStaleReuse(s, step) {
      SafeIffClean(s, step, true);
    } else if !RecordOf(s.tab, held).closing {
      var t: nat :| t < |s.threads| && s.threads[t].Parked? && Checks(s.threads[t]) && s.threads[t].fd == fd
                    && s.threads[t].name != held;
      if u: nat :| u < |s.threads| && s.threads[u].Parked? && Checks(s.threads[u]) && s.threads[u].fd == fd
                   && s.threads[u].name != held && s.threads[u].op != Close {
        t := u;
      } else {
        OnlyClosersWait(s, t, held);
      }
      AfterStaleGrant(s, opener, fd, t, true);
      hide Inv, OnTheWay, CanReach, FilePolicy;
      var q := StaleThreadMeetsWriter(s1, t, held);
      assert CanReach(s1, q, true) && !FilePolicy(q);
    }
  }

  // ----- Concrete runs -----

  /** A reader parks, and the file is closed under it. */
  lemma ClosedWhileParked() returns (q: State)
    ensures Reachable(q)
    ensures q == State(Tables([], map[], map["a" := -1], map[]), [Parked(Read, 5, "a"), Idle])
  {
    q := Serving(2);
    hide Reachable;
    q := Walk(q, OpenTest(0, "a"));
    q := Walk(q, Register(0, 5));
    assert q == State(Tables([5], map[5 := "a"], map["a" := 5], map[]), [Idle, Idle]);
    q := Walk(q, Ask(0, Read, 5));
    q := Walk(q, Ask(1, Close, 5));
    var tab := Tables([5], map[5 := "a"], map["a" := 5], map["a" := FRESH]);
    assert q == State(tab, [Parked(Read, 5, "a"), Parked(Close, 5, "a")]);
    q := Walk(q, Enter(1));
    assert Removed(tab, 5, "a") == Tables([], map[], map["a" := -1], map[]);
    assert q.threads == [Parked(Read, 5, "a"), Idle];
  }

  /** A stale grant can happen: the descriptor goes to another file, and the reader goes on, on that
      file; FCLOSE then takes the descriptor away while the reader is inside. */
  lemma StaleReuseHappens() returns (q: State)
    ensures Reachable(q) && q.threads == [Inside(Read, 5, "a"), Idle] && q.tab.openFiles == []
  {
    q := ClosedWhileParked();
    hide Reachable;
    q := Walk(q, OpenTest(1, "b"));
    q := Walk(q, Register(1, 5));
    assert q == State(Tables([5], map[5 := "b"], map["a" := -1, "b" := 5], map[]), [Parked(Read, 5, "a"), Idle]);
    q := Walk(q, Enter(0));
    assert q.threads == [Inside(Read, 5, "a"), Idle];
    assert q.tab == Tables([5], map[5 := "b"], map["a" := -1, "b" := 5], map["a" := Control(false, 1, 0)]);
    q := Walk(q, Ask(1, Close, 5));
    assert q.threads == [Inside(Read, 5, "a"), Parked(Close, 5, "b")];
    assert RecordOf(q.tab, "b") == FRESH && q.tab.openFiles == [5];
    q := Walk(q, Enter(1));
    assert q.threads == [Inside(Read, 5, "a"), Idle];
  }

  /** Two clients open a file together, and one of them is writing to it when the other's FOPEN registers
      a second descriptor. */
  lemma OpenedWhileWritten() returns (q: State)
    ensures Reachable(q) && q.threads == [Inside(Write, 5, "a"), Idle]
    ensures q.tab == Tables([5, 6], map[5 := "a", 6 := "a"], map["a" := 6], map["a" := Control(false, 0, 1)])
    ensures !Consistent(q.tab)
  {
    q := Serving(2);
    hide Reachable;
    q := Walk(q, OpenTest(0, "a"));
    q := Walk(q, OpenTest(1, "a"));
    assert q == State(Tables([], map[], map["a" := 0], map[]), [Opening("a"), Opening("a")]);
    q := Walk(q, Register(0, 5));
    assert q == State(Tables([5], map[5 := "a"], map["a" := 5], map[]), [Idle, Opening("a")]);
    q := Walk(q, Ask(0, Write, 5));
    q := Walk(q, Enter(0));
    assert q.threads == [Inside(Write, 5, "a"), Opening("a")];
    assert q.tab == Tables([5], map[5 := "a"], map["a" := 5], map["a" := Control(false, 0, 1)]);
    q := Walk(q, Register(1, 6));
    assert q.tab.openFiles[0] == 5 && q.tab.fdToName[5] == "a";
    assert q.threads == [Inside(Write, 5, "a"), Idle];
  }

  /** A writer waits, its file is closed under it, and the descriptor goes to another file, which is then
      read and written at once. The tables do not show it. */
  lemma ReadWhileWritten() returns (q: State)
    ensures Reachable(q) && q.threads == [Inside(Write, 5, "a"), Inside(Read, 5, "b")]
    ensures q.tab.openFiles == [5] && q.tab.fdToName == map[5 := "b"]
    ensures Consistent(q.tab) && !FilePolicy(q)
  {
    q := Serving(2);
    hide Reachable;
    q := Walk(q, OpenTest(0, "a"));
    q := Walk(q, Register(0, 5));
    assert q == State(Tables([5], map[5 := "a"], map["a" := 5], map[]), [Idle, Idle]);
    q := Walk(q, Ask(0, Write, 5));
    q := Walk(q, Ask(1, Close, 5));
    var tab := Tables([5], map[5 := "a"], map["a" := 5], map["a" := FRESH]);
    assert q == State(tab, [Parked(Write, 5, "a"), Parked(Close, 5, "a")]);
    q := Walk(q, Enter(1));
    assert Removed(tab, 5, "a") == Tables([], map[], map["a" := -1], map[]);
    assert q == State(Tables([], map[], map["a" := -1], map[]), [Parked(Write, 5, "a"), Idle]);
    q := RegrantedForReading(q);
    q := WriterGoesOn(q);
  }

  lemma WriterGoesOn(s: State) returns (q: State)
    requires Reachable(s) && s.threads == [Parked(Write, 5, "a"), Inside(Read, 5, "b")]
    requires s.tab == Tables([5], map[5 := "b"], map["a" := -1, "b" := 5], map["b" := Control(false, 1, 0)])
    ensures Reachable(q) && q.threads == [Inside(Write, 5, "a"), Inside(Read, 5, "b")]
    ensures q.tab.openFiles == [5] && q.tab.fdToName == map[5 := "b"]
    ensures Consistent(q.tab) && !FilePolicy(q)
  {
    hide Reachable;
    q := Walk(s, Enter(0));
    assert q.threads == [Inside(Write, 5, "a"), Inside(Read, 5, "b")];
    assert Uses(q, 0) && Uses(q, 1);
  }

  lemma RegrantedForReading(s: State) returns (q: State)
    requires Reachable(s) && s == State(Tables([], map[], map["a" := -1], map[]), [Parked(Write, 5, "a"), Idle])
    ensures Reachable(q) && q.threads == [Parked(Write, 5, "a"), Inside(Read, 5, "b")]
    ensures q.tab == Tables([5], map[5 := "b"], map["a" := -1, "b" := 5], map["b" := Control(false, 1, 0)])
  {
    hide Reachable;
    q := Walk(s, OpenTest(1, "b"));
    q := Walk(q, Register(1, 5));
    assert q == State(Tables([5], map[5 := "b"], map["a" := -1, "b" := 5], map[]), [Parked(Write, 5, "a"), Idle]);
    q := Walk(q, Ask(1, Read, 5));
    q := Walk(q, Enter(1));
  }
}
