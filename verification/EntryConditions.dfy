/** Who may enter: the wait predicates told from the record an operation finds, and, over every run, from
    the threads: on one record step by step, and on the tables with atomic entry. */
module EntryConditions {
  import opened FileOperations
  import opened Text
  import CR = ControlRecord
  import AC = AccessControl
  import OS = OperatingSystem

  // ----- One record, tests and increments apart -----

  lemma {:induction false} CountedIff(threads: seq<CR.Thread>, pc: CR.Thread)
    ensures CR.CountAt(threads, pc) == 0 <==> forall t | 0 <= t < |threads| :: threads[t] != pc
  {
    if threads != [] {
      CountedIff(threads[1..], pc);
      assert forall t | 0 < t < |threads| :: threads[t] == threads[1..][t - 1];
      assert forall t | 0 <= t < |threads| - 1 :: threads[1..][t] == threads[t + 1];
    }
  }

  lemma {:induction false} FlagsOfRun(r: CR.Record, steps: seq<CR.Step>)
    requires CR.Runs(r, steps)
    ensures var q := CR.After(r, steps);
      && (q.closing <==> r.closing || exists i :: 0 <= i < |steps| && steps[i].MarkClosing?)
      && (q.live <==> r.live && forall i | 0 <= i < |steps| :: !steps[i].Erase?)
      && |q.threads| == |r.threads|
    decreases steps
  {
    if steps != [] {
      FlagsOfStep(r, steps[0]);
      FlagsOfRun(CR.Next(r, steps[0]), steps[1..]);
      hide CR.Next, CR.Enabled;
      assert forall i | 0 < i < |steps| :: steps[i] == steps[1..][i - 1];
      assert forall i | 0 <= i < |steps| - 1 :: steps[1..][i] == steps[i + 1];
    }
  }

  lemma FlagsOfStep(r: CR.Record, s: CR.Step)
    requires CR.Enabled(r, s)
    ensures var q := CR.Next(r, s);
      && (q.closing <==> r.closing || s.MarkClosing?) && (q.live <==> r.live && !s.Erase?) && |q.threads| == |r.threads|
  {
  }

  lemma TestIff(r: CR.Record, t: nat)
    requires CR.Inv(r) && t < |r.threads| && r.threads[t] == CR.Outside
    ensures CR.Enabled(r, CR.TestRead(t)) <==>
      r.live && !r.closing && forall u | 0 <= u < |r.threads| :: r.threads[u] != CR.Writing
    ensures CR.Enabled(r, CR.TestWrite(t)) <==>
      r.live && !r.closing && forall u | 0 <= u < |r.threads| :: r.threads[u] != CR.Reading
    ensures CR.Enabled(r, CR.TestClose(t)) <==>
      r.live && forall u | 0 <= u < |r.threads| :: r.threads[u] != CR.Reading && r.threads[u] != CR.Writing
  {
    CountedIff(r.threads, CR.Reading);
    CountedIff(r.threads, CR.Writing);
  }

  /** In every run, until an FCLOSE erases the record: a reader passes its test exactly when no thread is
      counted in as a writer and no FCLOSE has marked the record, a writer exactly when none is counted in as
      a reader and it is not marked, an FCLOSE exactly when nobody is counted in. */
  lemma TestPassesIff(threads: nat, steps: seq<CR.Step>, t: nat)
    requires CR.Runs(CR.New(threads), steps) && t < threads
    ensures var r := CR.After(CR.New(threads), steps);
      && |r.threads| == threads
      && var erased, marked := (exists i :: 0 <= i < |steps| && steps[i].Erase?),
                               (exists i :: 0 <= i < |steps| && steps[i].MarkClosing?);
         r.threads[t] == CR.Outside && !erased ==>
           && (CR.Enabled(r, CR.TestRead(t)) <==>
                 !marked && forall u | 0 <= u < threads :: r.threads[u] != CR.Writing)
           && (CR.Enabled(r, CR.TestWrite(t)) <==>
                 !marked && forall u | 0 <= u < threads :: r.threads[u] != CR.Reading)
           && (CR.Enabled(r, CR.TestClose(t)) <==>
                 forall u | 0 <= u < threads :: r.threads[u] != CR.Reading && r.threads[u] != CR.Writing)
  {
    hide CR.Enabled, CR.Runs, CR.After, CR.Inv;
    CR.NewInv(threads);
    CR.RunKeepsInv(CR.New(threads), steps);
    FlagsOfRun(CR.New(threads), steps);
    var r := CR.After(CR.New(threads), steps);
    if r.threads[t] == CR.Outside {
      TestIff(r, t);
    }
  }

  /** The step a thread takes next if it does not give up. */
  function Onward(pc: CR.Thread, t: nat): CR.Step {
    match pc
    case Outside => CR.TestRead(t)
    case ReadTested => CR.StartReading(t)
    case Reading => CR.EndReading(t)
    case WriteTested => CR.TakeLock(t)
    case WriteLocked => CR.StartWriting(t)
    case Writing => CR.EndWriting(t)
    case WriteLeaving => CR.ReleaseLock(t)
    case CloseTested => CR.MarkClosing(t)
    case CloseMarked => CR.Erase(t)
  }

  lemma MoveOn(r: CR.Record, t: nat)
    requires CR.Inv(r) && r.live && t < |r.threads| && r.threads[t] != CR.Outside
    ensures CR.Enabled(r, Onward(r.threads[t], t)) <==>
      r.threads[t] == CR.WriteTested ==> forall u | 0 <= u < |r.threads| :: !CR.HoldsLock(r.threads[u])
    ensures forall u | 0 <= u < |r.threads| && CR.HoldsLock(r.threads[u]) :: CR.Enabled(r, Onward(r.threads[u], u))
    ensures r.threads[t] == CR.ReadTested || r.threads[t] == CR.WriteTested || r.threads[t] == CR.CloseMarked ==>
      CR.Enabled(r, CR.GiveUp(t))
  {
  }

  /** Nobody is stuck: in every run a thread past its test can go on, or is a writer waiting for the lock of a
      thread that can; and where the descriptor check may fail it can give up. */
  lemma NobodyIsStuck(threads: nat, steps: seq<CR.Step>, t: nat)
    requires CR.Runs(CR.New(threads), steps) && t < threads
    ensures var r := CR.After(CR.New(threads), steps);
      && |r.threads| == threads
      && (r.live && r.threads[t] != CR.Outside ==>
           && (CR.Enabled(r, Onward(r.threads[t], t)) <==>
                r.threads[t] == CR.WriteTested ==> forall u | 0 <= u < threads :: !CR.HoldsLock(r.threads[u]))
           && (forall u | 0 <= u < threads && CR.HoldsLock(r.threads[u]) :: CR.Enabled(r, Onward(r.threads[u], u)))
           && (r.threads[t] == CR.ReadTested || r.threads[t] == CR.WriteTested || r.threads[t] == CR.CloseMarked ==>
                CR.Enabled(r, CR.GiveUp(t))))
  {
    hide *;
    CR.NewInv(threads);
    CR.RunKeepsInv(CR.New(threads), steps);
    SameThreads(threads, steps);
    var r := CR.After(CR.New(threads), steps);
    if r.live && r.threads[t] != CR.Outside {
      MoveOn(r, t);
    }
  }

  lemma SameThreads(threads: nat, steps: seq<CR.Step>)
    requires CR.Runs(CR.New(threads), steps)
    ensures |CR.After(CR.New(threads), steps).threads| == threads
  {
    hide CR.Runs, CR.After;
    FlagsOfRun(CR.New(threads), steps);
  }

  // ----- The tables, atomic entry -----

  lemma ReadersIff(threads: seq<AC.Thread>, name: string)
    ensures AC.Readers(threads, name) == 0 <==> forall u | 0 <= u < |threads| :: !AC.ReadsIn(threads[u], name)
    ensures AC.Writers(threads, name) == 0 <==> forall u | 0 <= u < |threads| :: !AC.WritesIn(threads[u], name)
  {
    forall u | 0 <= u < |threads|
      ensures AC.ReadsIn(threads[u], name) ==> AC.Readers(threads, name) >= 1
      ensures AC.WritesIn(threads[u], name) ==> AC.Writers(threads, name) >= 1
    {
      AC.InsideIsCounted(threads, u, name);
    }
    hide AC.ReadsIn, AC.WritesIn;
    if AC.Readers(threads, name) > 0 {
      AC.ReaderExists(threads, name);
    }
    if AC.Writers(threads, name) > 0 {
      AC.WriterExists(threads, name);
    }
  }

  predicate Marked(s: AC.State, name: string) {
    name in s.tab.access && s.tab.access[name].closing
  }

  lemma EntryIff(s: AC.State, t: nat)
    requires AC.Policy(s) && t < |s.threads| && s.threads[t].Parked?
    ensures var p := s.threads[t]; var n := p.name;
      AC.Enabled(s, AC.Enter(t)) <==>
        match p.op
        case Close => forall u | 0 <= u < |s.threads| :: !AC.ReadsIn(s.threads[u], n) && !AC.WritesIn(s.threads[u], n)
        case Write =>
          && !Marked(s, n) && (forall u | 0 <= u < |s.threads| :: !AC.ReadsIn(s.threads[u], n))
          && (p.fd in s.tab.openFiles ==> forall u | 0 <= u < |s.threads| :: !AC.WritesIn(s.threads[u], n))
        case _ => !Marked(s, n) && forall u | 0 <= u < |s.threads| :: !AC.WritesIn(s.threads[u], n)
  {
    ReadersIff(s.threads, s.threads[t].name);
    var c := AC.RecordOf(s.tab, s.threads[t].name);
    assert c.reading == AC.Readers(s.threads, s.threads[t].name) && c.writing == AC.Writers(s.threads, s.threads[t].name);
    hide AC.Policy, AC.Readers, AC.Writers, AC.ReadsIn, AC.WritesIn;
  }

  /** In every run a parked thread may go on exactly when, of the threads inside that looked their file up as
      the name it did: for FSEEK and FREAD none writes, for FWRITE none reads and, if its descriptor is still
      in use, none writes, for FCLOSE there is none; and, but for FCLOSE, the record of the name is not marked
      as closing. So readers do not wait for readers. */
  lemma EntersIff(steps: seq<AC.Step>, t: nat)
    requires AC.Runs(AC.Start(), steps)
    requires var s := AC.After(AC.Start(), steps); t < |s.threads| && s.threads[t].Parked?
    ensures var s := AC.After(AC.Start(), steps); var p := s.threads[t]; var n := p.name;
      AC.Enabled(s, AC.Enter(t)) <==>
        match p.op
        case Close => forall u | 0 <= u < |s.threads| :: !AC.ReadsIn(s.threads[u], n) && !AC.WritesIn(s.threads[u], n)
        case Write =>
          && !Marked(s, n) && (forall u | 0 <= u < |s.threads| :: !AC.ReadsIn(s.threads[u], n))
          && (p.fd in s.tab.openFiles ==> forall u | 0 <= u < |s.threads| :: !AC.WritesIn(s.threads[u], n))
        case _ => !Marked(s, n) && forall u | 0 <= u < |s.threads| :: !AC.WritesIn(s.threads[u], n)
  {
    hide *;
    AC.StartPolicy();
    AC.RunKeepsPolicy(AC.Start(), steps);
    EntryIff(AC.After(AC.Start(), steps), t);
  }

  /** After its wait a thread is inside if its descriptor is still in use; FSEEK does not look again. */
  lemma InsideIff(s: AC.State, t: nat)
    requires AC.Enabled(s, AC.Enter(t))
    ensures var p := s.threads[t];
      AC.Next(s, AC.Enter(t)).threads == s.threads[t :=
        if p.op == AC.Seek || (p.op != AC.Close && p.fd in s.tab.openFiles) then AC.Inside(p.op, p.fd, p.name) else AC.Idle]
  {
    hide Removed;
  }

  /** The FCLOSE of a thread parked under the name, its descriptor in use or not, is what the step is. */
  predicate Closes(s: AC.State, step: AC.Step, name: string, inUse: bool) {
    && step.Enter? && step.t < |s.threads|
    && var p := s.threads[step.t];
       p.Parked? && p.op == AC.Close && p.name == name && (p.fd in s.tab.openFiles <==> inUse)
  }

  /** A record is marked as closing by an FCLOSE that comes too late, and stays so until one that does not
      removes it. */
  lemma MarkedIff(s: AC.State, step: AC.Step, name: string)
    requires AC.Enabled(s, step)
    ensures Marked(AC.Next(s, step), name) <==>
      Closes(s, step, name, false) || (Marked(s, name) && !Closes(s, step, name, true))
  {
    hide AC.MayEnter, Without;
  }

  /** Outside its wait nothing holds a thread up: it may ask for anything, register whatever the system grants,
      and leave. */
  lemma OnlyTheWaitHolds(s: AC.State, t: nat, op: AC.Op, fd: int, name: string)
    requires t < |s.threads|
    ensures s.threads[t].Idle? ==> AC.Enabled(s, AC.Ask(t, op, fd)) && (name != "" ==> AC.Enabled(s, AC.OpenTest(t, name)))
    ensures s.threads[t].Opening? && (fd <= 0 || fd !in s.tab.openFiles) ==> AC.Enabled(s, AC.Register(t, fd))
    ensures s.threads[t].Inside? ==> AC.Enabled(s, AC.Leave(t))
  {
  }

  // ----- Whole operations -----

  /** Whole operations, on tables in any state: which of them wait for ever, going by the record of the name
      the descriptor is registered for, or of the empty name. FWRITE alone waits on a bad descriptor too. */
  lemma WaitsIff(w: World, fd: int, n: nat, data: string)
    ensures var known, name := fd in w.tab.openFiles, if fd in w.tab.fdToName then w.tab.fdToName[fd] else "";
      var c := if name in w.tab.access then w.tab.access[name] else Control(false, 0, 0);
      && (SeekFd(w, fd, n).out.Blocked? <==> known && (c.writing >= 1 || c.closing))
      && (ReadFd(w, fd, n, false).out.Blocked? <==> known && (c.writing >= 1 || c.closing))
      && (WriteFd(w, fd, data).out.Blocked? <==> c.reading >= 1 || c.closing)
      && (CloseFd(w, fd, false).out.Blocked? <==> known && (c.reading >= 1 || c.writing >= 1))
  {
    hide OS.Seek, OS.Read, OS.Write, Removed, OS.CString;
  }

  /** An operation that waits has looked its file up, which may have left stray entries, and done nothing else. */
  lemma WaitingHasOnlyLookedUp(w: World, fd: int, n: nat, data: string)
    ensures var name := if fd in w.tab.fdToName then w.tab.fdToName[fd] else "";
      var w1 := w.(tab := w.tab.(
        fdToName := if fd in w.tab.fdToName then w.tab.fdToName else w.tab.fdToName[fd := ""],
        access := if name in w.tab.access then w.tab.access else w.tab.access[name := Control(false, 0, 0)]));
      && (SeekFd(w, fd, n).out.Blocked? ==> SeekFd(w, fd, n) == Step(w1, Blocked, " ", -1))
      && (ReadFd(w, fd, n, false).out.Blocked? ==> ReadFd(w, fd, n, false) == Step(w1, Blocked, " ", -1))
      && (WriteFd(w, fd, data).out.Blocked? ==> WriteFd(w, fd, data) == Step(w1, Blocked, " ", -1))
      && (CloseFd(w, fd, false).out.Blocked? ==> CloseFd(w, fd, false) == Step(w1, Blocked, " ", -1))
  {
    hide OS.Seek, OS.Read, OS.Write, Removed, OS.CString, MayRead, MayWrite, MayClose, CheckFd;
  }

  /** A check without the operation finds whether the descriptor is in use, and does not wait. */
  lemma CheckOnly(w: World, req: seq<string>)
    ensures var bad := if w.tab.openFiles == [] then -2 else -1;
      && Fread(w, req, true) == Step(w, Ret(
           if |req| < 3 || Atoi(req[2]) <= 0 then -3 else if Atoi(req[1]) in w.tab.openFiles then 1 else bad), " ", -1)
      && Fclose(w, req, true) == Step(w, Ret(
           if |req| < 2 then -3 else if Atoi(req[1]) in w.tab.openFiles then 1 else bad), " ", -1)
  {
    hide Atoi;
  }
}
