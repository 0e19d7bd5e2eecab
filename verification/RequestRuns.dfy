/** Whole runs of one server: any sequence of request lines, good or bad, and restarts. */
module RequestRuns {
  import opened Text
  import opened FileOperations
  import opened TableConsistency
  import OS = OperatingSystem

  /** The step leaves the tables consistent, ends, and opens at most the names in `extra`. */
  ghost predicate Keeps(w: World, s: Step, extra: set<string>)
    requires Good(w)
  {
    && Good(s.w)
    && s.out != Blocked
    && Abs(s.w).at.Keys <= Abs(w).at.Keys + extra
  }

  lemma FseekKeeps(w: World, req: seq<string>)
    requires Good(w)
    ensures Keeps(w, Fseek(w, req), {})
  {
    if |req| >= 3 && Atoi(req[2]) > 0 {
      SeekRefines(w, Atoi(req[1]), Atoi(req[2]));
    }
  }

  lemma FreadKeeps(w: World, req: seq<string>)
    requires Good(w)
    ensures Keeps(w, Fread(w, req, false), {})
  {
    if |req| >= 3 && Atoi(req[2]) > 0 {
      ReadRefines(w, Atoi(req[1]), Atoi(req[2]));
    }
  }

  lemma FwriteKeeps(w: World, req: seq<string>)
    requires Good(w)
    ensures Keeps(w, Fwrite(w, req), {})
  {
    if |req| >= 3 {
      WriteRefines(w, Atoi(req[1]), req[2]);
    }
  }

  lemma FcloseKeeps(w: World, req: seq<string>)
    requires Good(w)
    ensures Keeps(w, Fclose(w, req, false), {})
  {
    if |req| >= 2 {
      CloseRefines(w, Atoi(req[1]));
    }
  }

  lemma FopenKeeps(w: World, req: seq<string>, choice: OS.OpenChoice)
    requires Good(w)
    ensures Keeps(w, Fopen(w, req, choice), if |req| >= 2 then {req[1]} else {})
  {
    if |req| >= 2 {
      OpenIsExclusive(w, req, choice);
      if Live(w.tab, req[1]) {
        var fd :| fd in w.os.fds && w.os.fds[fd].name == req[1];
        assert Fopen(w, req, choice).w == w;
      }
    }
  }

  lemma SyncSeekKeeps(w: World, req: seq<string>, choice: OS.OpenChoice)
    requires Good(w) && |req| >= 3
    ensures Keeps(w, SyncSeek(w, req, choice), {req[1]})
  {
    hide Good, EnsureOpen, Fseek, IntToString;
    EnsureOpenRefines(w, req, choice);
    var s := EnsureOpen(w, req, choice);
    if s.out.Ret? {
      FseekKeeps(s.w, FdRequest("FSEEK", s.w, req));
    }
  }

  lemma SyncReadKeeps(w: World, req: seq<string>, choice: OS.OpenChoice)
    requires Good(w) && |req| >= 3
    ensures Keeps(w, SyncRead(w, req, choice), {req[1]})
  {
    hide Good, EnsureOpen, Fread, IntToString;
    EnsureOpenRefines(w, req, choice);
    var s := EnsureOpen(w, req, choice);
    if s.out.Ret? {
      FreadKeeps(s.w, FdRequest("FREAD", s.w, req));
    }
  }

  lemma SyncWriteKeeps(w: World, req: seq<string>, choice: OS.OpenChoice)
    requires Good(w) && |req| >= 3
    ensures Keeps(w, SyncWrite(w, req, choice), {req[1]})
  {
    hide Good, EnsureOpen, Fwrite, IntToString;
    EnsureOpenRefines(w, req, choice);
    var s := EnsureOpen(w, req, choice);
    if s.out.Ret? {
      FwriteKeeps(s.w, FdRequest("FWRITE", s.w, req));
    }
  }

  lemma SyncCloseKeeps(w: World, req: seq<string>)
    requires Good(w)
    ensures Keeps(w, SyncClose(w, req), {})
  {
    if |req| >= 2 {
      StrayNameKeeps(w, req[1]);
      var w1 := w.(tab := w.tab.(nameToFd := Touch(w.tab.nameToFd, req[1], 0)));
      FcloseKeeps(w1, ["FCLOSE", IntToString(w1.tab.nameToFd[req[1]])]);
    }
  }

  /** Every request, whatever its tokens and whatever the operating system grants, keeps the tables
      consistent and does not wait: with nothing else running, no wait predicate is ever false. */
  lemma HandleKeeps(w: World, req: seq<string>, choice: OS.OpenChoice)
    requires Good(w) && req != []
    ensures Keeps(w, Handle(w, req, choice), if |req| >= 2 then {req[1]} else {})
  {
    match req[0]
    case "FOPEN" => FopenKeeps(w, req, choice);
    case "FSEEK" => FseekKeeps(w, req);
    case "FREAD" => FreadKeeps(w, req);
    case "FWRITE" => FwriteKeeps(w, req);
    case "FCLOSE" => FcloseKeeps(w, req);
    case "SYNCSEEK" => if |req| >= 3 { SyncSeekKeeps(w, req, choice); }
    case "SYNCREAD" => if |req| >= 3 { SyncReadKeeps(w, req, choice); }
    case "SYNCWRITE" => if |req| >= 3 { SyncWriteKeeps(w, req, choice); }
    case "SYNCCLOSE" => SyncCloseKeeps(w, req);
    case _ =>
  }

  predicate Command(word: string) {
    || word == "FOPEN" || word == "FSEEK" || word == "FREAD" || word == "FWRITE" || word == "FCLOSE"
    || word == "SYNCSEEK" || word == "SYNCREAD" || word == "SYNCWRITE" || word == "SYNCCLOSE"
  }

  /** A request with a command that does not exist, or with too few tokens, changes nothing. */
  lemma UnknownCommand(w: World, req: seq<string>, choice: OS.OpenChoice)
    requires req != [] && !Command(req[0])
    ensures Handle(w, req, choice) == Step(w, Ret(-5), " ", -1)
  {
    hide Fopen, Fseek, Fread, Fwrite, Fclose, SyncSeek, SyncRead, SyncWrite, SyncClose;
  }

  lemma TooShort(w: World, req: seq<string>, choice: OS.OpenChoice)
    ensures |req| < 2 ==> Fopen(w, req, choice) == Fclose(w, req, false) == Step(w, Ret(-3), " ", -1)
    ensures |req| < 2 ==> SyncClose(w, req) == Step(w, Ret(-1), " ", -1)
    ensures |req| < 3 ==> Fseek(w, req) == Fread(w, req, false) == Fwrite(w, req) == Step(w, Ret(-3), " ", -1)
    ensures |req| < 3 ==>
      SyncSeek(w, req, choice) == SyncRead(w, req, choice) == SyncWrite(w, req, choice) == Step(w, Ret(-1), " ", -1)
  {
    hide Touch, Atoi;
  }

  /** What a failing request leaves behind: an entry that stands for no file, under the descriptor or the name
      it looked up, unless there is one. */
  lemma StrayEntries(w: World, req: seq<string>, choice: OS.OpenChoice)
    requires Good(w)
    ensures |req| >= 3 && Atoi(req[1]) !in w.tab.openFiles ==>
      var fd, t := Atoi(req[1]), w.tab;
      Fwrite(w, req).w == w.(tab := t.(
        fdToName := if fd in t.fdToName then t.fdToName else t.fdToName[fd := ""],
        access := if "" in t.access then t.access else t.access["" := Control(false, 0, 0)]))
    ensures |req| >= 2 && !Live(w.tab, req[1]) ==>
      var t := w.tab;
      var w1 := w.(tab := t.(nameToFd := if req[1] in t.nameToFd then t.nameToFd else t.nameToFd[req[1] := 0]));
      && SyncClose(w, req) == Step(w1, Ret(0), " ", -1)
      && (OS.Open(w.os, req[1], choice).None? ==> Fopen(w, req, choice) == Step(w1, Threw("ER-F-OP"), " ", -1))
  {
    hide Atoi, OS.Open, OS.Write, Fclose;
  }

  /** And so does building a sync line for a descriptor that is not registered: the line then has no name. */
  lemma BuiltLine(w: World, req: seq<string>)
    requires |req| >= 2
    ensures var fd, t := Atoi(req[1]), w.tab;
      && (fd in t.fdToName ==> BuildSync(w, req) == (w, SyncLine(t.fdToName[fd], req)))
      && (fd !in t.fdToName ==>
            BuildSync(w, req) == (w.(tab := t.(fdToName := t.fdToName[fd := ""])), SyncLine("", req)))
  {
    hide Atoi, SyncLine;
  }

  /** The codes: the number of tokens, the registration and the parameters decide between success and the
      documented errors; nothing else can go wrong on a descriptor. */
  lemma ResultCodes(w: World, req: seq<string>, choice: OS.OpenChoice)
    requires Good(w)
    ensures |req| < 2 ==> Fopen(w, req, choice).out == Ret(-3) && SyncClose(w, req).out == Ret(-1)
    ensures |req| < 3 ==>
      SyncSeek(w, req, choice).out == SyncRead(w, req, choice).out == SyncWrite(w, req, choice).out == Ret(-1)
    ensures req != [] && !Command(req[0]) ==> Handle(w, req, choice).out == Ret(-5)
    ensures |req| < 3 ==>
      Fseek(w, req).out == Fread(w, req, false).out == Fwrite(w, req).out == Ret(-3)
    ensures Fclose(w, req, false).out ==
      Ret(if |req| < 2 then -3 else if Atoi(req[1]) in w.tab.openFiles then 0
          else if w.tab.openFiles == [] then -2 else -1)
    ensures |req| >= 3 ==>
      var fd, n := Atoi(req[1]), Atoi(req[2]);
      var bad := if w.tab.openFiles == [] then -2 else -1;
      var known := fd in w.tab.openFiles;
      && Fseek(w, req).out == Ret(if n <= 0 then -3 else if known then 0 else bad)
      && (n <= 0 || !known ==> Fread(w, req, false).out == Ret(if n <= 0 then -3 else bad))
      && (n > 0 && known ==> Fread(w, req, false).out == Ret(|Abs(w).Bytes(w.tab.fdToName[fd], n)|))
      && Fwrite(w, req).out == Ret(if !known then bad else if req[2] == "" then -4 else |req[2]|)
  {
    TooShort(w, req, choice);
    if req != [] && !Command(req[0]) {
      UnknownCommand(w, req, choice);
    }
    if |req| >= 2 {
      CloseRefines(w, Atoi(req[1]));
    }
    if |req| >= 3 {
      var fd, n := Atoi(req[1]), Atoi(req[2]);
      if fd in w.tab.openFiles {
        LookUpKeeps(w, fd);
        MoveKeeps(w, fd, w.os.disk, 0);
      }
      if n > 0 {
        SeekRefines(w, fd, n);
        ReadRefines(w, fd, n);
      }
      WriteRefines(w, fd, req[2]);
    }
    hide Good, Atoi, SeekFd, ReadFd, WriteFd, CloseFd, OS.Slice, OS.Overlay, Handle, Fopen, SyncSeek, SyncRead, SyncWrite,
         SyncClose, Command;
  }

  // ----- Runs -----

  datatype Event = Request(line: string, choice: OS.OpenChoice) | Restart

  function Next(w: World, e: Event): World {
    match e
    case Request(line, choice) => if Tokens(line) == [] then w else Handle(w, Tokens(line), choice).w
    case Restart => CleanUp(w)
  }

  function Run(w: World, events: seq<Event>): World
    decreases events
  {
    if events == [] then w else Run(Next(w, events[0]), events[1..])
  }

  ghost predicate NamesAreTokens(w: World)
    requires Good(w)
  {
    forall n | n in Abs(w).at :: IsToken(n)
  }

  lemma {:induction false} CloseAllCloses(os: OS.Os, fds: seq<int>)
    ensures CloseAll(os, fds).disk == os.disk
    ensures forall fd :: fd in CloseAll(os, fds).fds <==> fd in os.fds && fd !in fds
    decreases fds
  {
    if fds != [] {
      CloseAllCloses(OS.Close(os, fds[0]), fds[1..]);
    }
  }

  /** After `CleanUp` nothing is open, in the tables or in the operating system, and no content is lost. */
  lemma CleanUpClosesEverything(w: World)
    requires Good(w)
    ensures CleanUp(w).tab == NO_TABLES && Good(CleanUp(w)) && CleanUp(w).os.fds == map[]
    ensures Abs(CleanUp(w)) == Files(w.os.disk, map[])
  {
    CloseAllCloses(w.os, w.tab.openFiles);
    assert forall fd :: fd !in CleanUp(w).os.fds;
    assert CleanUp(w).os.fds.Keys == {};
    AbsIs(CleanUp(w), Files(w.os.disk, map[]));
  }

  /** On tables in any state: the listed descriptors are closed and no others. */
  lemma CleanUpClosesTheListed(w: World)
    ensures CleanUp(w).tab == Tables([], map[], map[], map[]) && CleanUp(w).os.disk == w.os.disk
    ensures forall fd :: fd in CleanUp(w).os.fds <==> fd in w.os.fds && fd !in w.tab.openFiles
  {
    CloseAllCloses(w.os, w.tab.openFiles);
  }

  lemma NextKeeps(w: World, e: Event)
    requires Good(w) && NamesAreTokens(w)
    ensures Good(Next(w, e)) && NamesAreTokens(Next(w, e))
  {
    match e
    case Restart => CleanUpClosesEverything(w);
    case Request(line, choice) =>
      TokensAreWords(line);
      if Tokens(line) != [] {
        HandleKeeps(w, Tokens(line), choice);
      }
  }

  lemma {:induction false} RunKeeps(w: World, events: seq<Event>)
    requires Good(w) && NamesAreTokens(w)
    ensures Good(Run(w, events)) && NamesAreTokens(Run(w, events))
    decreases events
  {
    if events != [] {
      NextKeeps(w, events[0]);
      RunKeeps(Next(w, events[0]), events[1..]);
    }
  }

  /** In every state a server can reach from its start the four tables are consistent, the operating
      system holds exactly the listed descriptors, every registered name is a single token, and the
      next request, whatever it is, does not wait for ever. */
  lemma EveryReachableStateIsGood(disk: map<string, string>, events: seq<Event>,
                                  line: string, choice: OS.OpenChoice)
    ensures var w := Run(World(NO_TABLES, OS.Os(disk, map[])), events);
      && Good(w) && NamesAreTokens(w)
      && (Tokens(line) != [] ==> Handle(w, Tokens(line), choice).out != Blocked)
  {
    var start := World(NO_TABLES, OS.Os(disk, map[]));
    AbsIs(start, Files(disk, map[]));
    RunKeeps(start, events);
    if Tokens(line) != [] {
      HandleKeeps(Run(start, events), Tokens(line), choice);
    }
  }

  // ----- What a history of requests has left open -----

  /** The open files by name, told from the requests alone: each name opened and not closed since, with
      the descriptor its last successful open was granted. */
  type History = map<string, int>

  predicate Grantable(h: History, name: string, choice: OS.OpenChoice) {
    name != "" && choice.Grant? && 0 < choice.fd <= INT_MAX && forall n | n in h :: h[n] != choice.fd
  }

  function Opening(h: History, name: string, choice: OS.OpenChoice): History {
    if name in h || !Grantable(h, name, choice) then h else h[name := choice.fd]
  }

  function Closing(h: History, fd: int): History {
    map n | n in h && h[n] != fd :: h[n]
  }

  function RememberRequest(h: History, req: seq<string>, choice: OS.OpenChoice): History
    requires req != []
  {
    match req[0]
    case "FOPEN" => if |req| < 2 then h else Opening(h, req[1], choice)
    case "FCLOSE" => if |req| < 2 then h else Closing(h, Atoi(req[1]))
    case "SYNCSEEK" => if |req| < 3 then h else Opening(h, req[1], choice)
    case "SYNCREAD" => if |req| < 3 then h else Opening(h, req[1], choice)
    case "SYNCWRITE" => if |req| < 3 then h else Opening(h, req[1], choice)
    case "SYNCCLOSE" => if |req| < 2 then h else h - {req[1]}
    case _ => h
  }

  function Remember(h: History, e: Event): History {
    match e
    case Request(line, choice) => if Tokens(line) == [] then h else RememberRequest(h, Tokens(line), choice)
    case Restart => map[]
  }

  function Remembered(h: History, events: seq<Event>): History
    decreases events
  {
    if events == [] then h else Remembered(Remember(h, events[0]), events[1..])
  }

  /** The tables say what the history says. */
  ghost predicate Tells(t: Tables, h: History) {
    && (forall n :: n in h <==> Live(t, n))
    && (forall n | n in h :: t.nameToFd[n] == h[n])
  }

  /** A descriptor is free in the system exactly when no remembered name has it. */
  lemma GrantableIff(w: World, h: History, name: string, choice: OS.OpenChoice)
    requires Good(w) && Tells(w.tab, h)
    ensures Grantable(h, name, choice) <==> OS.Open(w.os, name, choice).Some?
  {
    assert forall n | n in h :: h[n] in w.tab.openFiles;
    assert forall fd | fd in w.tab.openFiles :: w.tab.fdToName[fd] in h && h[w.tab.fdToName[fd]] == fd;
  }

  lemma StrayNameTells(t: Tables, h: History, name: string)
    requires Tells(t, h)
    ensures Tells(t.(nameToFd := Touch(t.nameToFd, name, 0)), h)
  {
  }

  lemma AddedTells(t: Tables, h: History, name: string, fd: int)
    requires Tells(t, h) && name !in h && fd > 0
    ensures Tells(Added(t, name, fd), h[name := fd])
  {
  }

  lemma OpenTells(w: World, h: History, req: seq<string>, choice: OS.OpenChoice)
    requires Good(w) && Tells(w.tab, h) && |req| >= 2
    ensures Tells(Fopen(w, req, choice).w.tab, Opening(h, req[1], choice))
  {
    GrantableIff(w, h, req[1], choice);
    StrayNameTells(w.tab, h, req[1]);
    assert Grantable(h, req[1], choice) ==> choice.Grant? && choice.fd > 0;
    if req[1] !in h && Grantable(h, req[1], choice) {
      AddedTells(w.tab.(nameToFd := Touch(w.tab.nameToFd, req[1], 0)), h, req[1], choice.fd);
    }
    assert req[1] in h <==> Live(w.tab, req[1]);
    hide Good, Grantable, OS.Open, Tells;
  }

  lemma EnsureOpenTells(w: World, h: History, req: seq<string>, choice: OS.OpenChoice)
    requires Good(w) && Tells(w.tab, h) && |req| >= 2
    ensures Tells(EnsureOpen(w, req, choice).w.tab, Opening(h, req[1], choice))
  {
    StrayNameKeeps(w, req[1]);
    StrayNameTells(w.tab, h, req[1]);
    var w1 := w.(tab := w.tab.(nameToFd := Touch(w.tab.nameToFd, req[1], 0)));
    hide Good, Fopen;
    OpenTells(w1, h, req, choice);
  }

  lemma RemovedTells(t: Tables, h: History, fd: int)
    requires Consistent(t) && Tells(t, h) && fd in t.openFiles
    ensures Tells(Removed(t, fd, t.fdToName[fd]), Closing(h, fd))
  {
    RemoveConsistent(t, fd);
    var name := t.fdToName[fd];
    assert h[name] == fd;
    assert forall n | n in h && n != name :: h[n] != fd;
    hide Removed, Consistent;
  }

  lemma NothingToClose(t: Tables, h: History, fd: int)
    requires Consistent(t) && Tells(t, h) && fd !in t.openFiles
    ensures Closing(h, fd) == h
  {
    assert forall n | n in h :: h[n] in t.openFiles;
  }

  lemma CloseTells(w: World, h: History, fd: int)
    requires Good(w) && Tells(w.tab, h)
    ensures Tells(CloseFd(w, fd, false).w.tab, Closing(h, fd))
  {
    var w1 := LookUp(w, fd).0;
    LookUpKeeps(w, fd);
    assert Tells(w1.tab, h);
    if fd in w.tab.openFiles {
      RemovedTells(w1.tab, h, fd);
    } else {
      NothingToClose(w.tab, h, fd);
    }
    hide Removed, Consistent, Tells, Closing, Quiescent, Linked;
  }

  lemma SameNamesTell(t: Tables, u: Tables, h: History)
    requires Tells(t, h) && u.nameToFd == t.nameToFd
    ensures Tells(u, h)
  {
  }

  lemma LocalTells(w: World, h: History, req: seq<string>)
    requires Good(w) && Tells(w.tab, h)
    ensures Tells(Fseek(w, req).w.tab, h)
    ensures Tells(Fread(w, req, false).w.tab, h)
    ensures Tells(Fwrite(w, req).w.tab, h)
  {
    if |req| >= 3 {
      WriteRefines(w, Atoi(req[1]), req[2]);
      if Atoi(req[2]) > 0 {
        SeekRefines(w, Atoi(req[1]), Atoi(req[2]));
        ReadRefines(w, Atoi(req[1]), Atoi(req[2]));
      }
    }
    hide Good, Tells, Atoi, SeekFd, ReadFd, WriteFd;
    SameNamesTell(w.tab, Fseek(w, req).w.tab, h);
    SameNamesTell(w.tab, Fread(w, req, false).w.tab, h);
    SameNamesTell(w.tab, Fwrite(w, req).w.tab, h);
  }

  lemma SyncTells(w: World, h: History, req: seq<string>, choice: OS.OpenChoice)
    requires Good(w) && Tells(w.tab, h) && |req| >= 3
    ensures Tells(SyncSeek(w, req, choice).w.tab, Opening(h, req[1], choice))
    ensures Tells(SyncRead(w, req, choice).w.tab, Opening(h, req[1], choice))
    ensures Tells(SyncWrite(w, req, choice).w.tab, Opening(h, req[1], choice))
  {
    hide Good, Tells, EnsureOpen, Opening, Fseek, Fread, Fwrite, FdRequest;
    EnsureOpenRefines(w, req, choice);
    EnsureOpenTells(w, h, req, choice);
    var e := EnsureOpen(w, req, choice);
    if e.out.Ret? {
      LocalTells(e.w, Opening(h, req[1], choice), FdRequest("FSEEK", e.w, req));
      LocalTells(e.w, Opening(h, req[1], choice), FdRequest("FREAD", e.w, req));
      LocalTells(e.w, Opening(h, req[1], choice), FdRequest("FWRITE", e.w, req));
    }
  }

  lemma OneDescriptorPerName(w: World, h: History, name: string)
    requires Good(w) && Tells(w.tab, h) && name in h
    ensures Closing(h, h[name]) == h - {name} && Live(w.tab, name) && w.tab.nameToFd[name] == h[name]
  {
    assert forall n | n in h && h[n] == h[name] :: w.tab.fdToName[h[n]] == n == name;
  }

  lemma SyncCloseTells(w: World, h: History, req: seq<string>)
    requires Good(w) && Tells(w.tab, h) && |req| >= 2
    ensures Tells(SyncClose(w, req).w.tab, h - {req[1]})
  {
    StrayNameKeeps(w, req[1]);
    StrayNameTells(w.tab, h, req[1]);
    var w1 := w.(tab := w.tab.(nameToFd := Touch(w.tab.nameToFd, req[1], 0)));
    hide Good, CloseFd, Atoi, IntToString, Closing;
    if req[1] in h {
      OneDescriptorPerName(w1, h, req[1]);
      LiveDescriptor(w1, req[1]);
      CloseTells(w1, h, h[req[1]]);
      hide Tells;
    } else {
      assert h - {req[1]} == h;
    }
  }

  lemma HandleTells(w: World, h: History, req: seq<string>, choice: OS.OpenChoice)
    requires Good(w) && Tells(w.tab, h) && req != []
    ensures Tells(Handle(w, req, choice).w.tab, RememberRequest(h, req, choice))
  {
    hide Good, Tells, Atoi, Opening, Closing, CloseFd, Fseek, Fread, Fwrite, EnsureOpen, FdRequest;
    LocalTells(w, h, req);
    match req[0]
    case "FOPEN" => if |req| >= 2 { OpenTells(w, h, req, choice); }
    case "FCLOSE" => if |req| >= 2 { CloseTells(w, h, Atoi(req[1])); }
    case "SYNCSEEK" => if |req| >= 3 { SyncTells(w, h, req, choice); }
    case "SYNCREAD" => if |req| >= 3 { SyncTells(w, h, req, choice); }
    case "SYNCWRITE" => if |req| >= 3 { SyncTells(w, h, req, choice); }
    case "SYNCCLOSE" => if |req| >= 2 { SyncCloseTells(w, h, req); }
    case _ =>
  }

  lemma NextTells(w: World, h: History, e: Event)
    requires Good(w) && Tells(w.tab, h)
    ensures Tells(Next(w, e).tab, Remember(h, e))
  {
    hide Good, Handle, RememberRequest, Tokens;
    if e.Request? && Tokens(e.line) != [] {
      HandleTells(w, h, Tokens(e.line), e.choice);
    }
  }

  lemma {:induction false} RunTells(w: World, h: History, events: seq<Event>)
    requires Good(w) && NamesAreTokens(w) && Tells(w.tab, h)
    ensures Good(Run(w, events)) && Tells(Run(w, events).tab, Remembered(h, events))
    decreases events
  {
    hide Good, Tells, Next, Remember;
    if events != [] {
      NextKeeps(w, events[0]);
      NextTells(w, h, events[0]);
      RunTells(Next(w, events[0]), Remember(h, events[0]), events[1..]);
    }
  }

  /** FOPEN after any history. A name whose last successful open has not been followed by its close, nor
      by a restart, is reported with the descriptor of that open, and nothing changes; any other is
      opened by the operating system, or the open is refused. */
  lemma OpenIsExclusiveOverRuns(disk: map<string, string>, events: seq<Event>, req: seq<string>, choice: OS.OpenChoice)
    requires |req| >= 2
    ensures var w := Run(World(NO_TABLES, OS.Os(disk, map[])), events); var h := Remembered(map[], events);
      var s, name := Fopen(w, req, choice), req[1];
      && (name in h ==> s == Step(w, Ret(0), " ", h[name]))
      && (name !in h && Grantable(h, name, choice) ==>
            s.out == Ret(choice.fd) && s.inUse == -1 && OS.Open(w.os, name, choice) == Some(s.w.os))
      && (name !in h && !Grantable(h, name, choice) ==>
            s.out == Threw(OPEN_ERROR) && s.inUse == -1 && s.w.os == w.os)
  {
    var start := World(NO_TABLES, OS.Os(disk, map[]));
    AbsIs(start, Files(disk, map[]));
    RunTells(start, map[], events);
    var w, h := Run(start, events), Remembered(map[], events);
    GrantableIff(w, h, req[1], choice);
    OpenIsExclusive(w, req, choice);
    if req[1] in h {
      LiveDescriptor(w, req[1]);
      assert h[req[1]] in w.os.fds && w.os.fds[h[req[1]]].name == req[1];
    }
    hide Good, Fopen, Grantable, Run, Remembered, OS.Open;
  }

  /** Open a file, seek to a position (FSEEK refuses an advance of zero), read. */
  function ReadBack(w: World, name: string, at: nat, count: nat, choice: OS.OpenChoice): Step
    requires choice.Grant?
  {
    var reopened := Fopen(w, ["FOPEN", name], choice).w;
    var sought := if at == 0 then reopened else SeekFd(reopened, choice.fd, at).w;
    ReadFd(sought, choice.fd, count, false)
  }

  lemma ReadBackRefines(w: World, name: string, at: nat, count: nat, choice: OS.OpenChoice)
    requires Good(w) && !Live(w.tab, name) && OS.Open(w.os, name, choice).Some?
    ensures var bytes := OS.Slice(Abs(w).Content(name), at, count); var s := ReadBack(w, name, at, count, choice);
      s.out == Ret(|bytes|) && s.content == if bytes == "" then "END-OF-FILE" else OS.CString(bytes)
  {
    hide Fopen, SeekFd, ReadFd, Good, SameNames;
    OpenIsExclusive(w, ["FOPEN", name], choice);
    var reopened := Fopen(w, ["FOPEN", name], choice).w;
    NewDescriptor(w, name, choice);
    if at == 0 {
      ReadRefines(reopened, choice.fd, count);
    } else {
      SeekRefines(reopened, choice.fd, at);
      ReadRefines(SeekFd(reopened, choice.fd, at).w, choice.fd, count);
    }
  }

  lemma NewDescriptor(w: World, name: string, choice: OS.OpenChoice)
    requires Good(w) && !Live(w.tab, name) && OS.Open(w.os, name, choice).Some?
    ensures var u := Fopen(w, ["FOPEN", name], choice).w.tab;
      choice.fd in u.openFiles && choice.fd in u.fdToName && u.fdToName[choice.fd] == name
  {
  }

  lemma OverlaidSlice(content: string, at: nat, data: string)
    ensures OS.Slice(OS.Overlay(content, at, data), at, |data|) == data || data == ""
  {
    OS.OverlayReads(content, at, data);
  }

  /** What FWRITE puts at the current position is what FREAD finds there after the file has been
      closed, opened again and sought to that position. */
  lemma WrittenDataReadsBack(w: World, fd: int, data: string, choice: OS.OpenChoice)
    requires Good(w) && fd in w.tab.openFiles && data != "" && OS.CString(data) == data
    ensures var closed := CloseFd(WriteFd(w, fd, data).w, fd, false);
      && closed.out == Ret(0)
      && (OS.Open(closed.w.os, w.tab.fdToName[fd], choice).Some? ==>
            var s := ReadBack(closed.w, w.tab.fdToName[fd], w.os.fds[fd].offset, |data|, choice);
            s.out == Ret(|data|) && s.content == data)
  {
    var name, at := w.tab.fdToName[fd], w.os.fds[fd].offset;
    MoveKeeps(w, fd, w.os.disk, at);
    WriteRefines(w, fd, data);
    var written := WriteFd(w, fd, data).w;
    CloseRefines(written, fd);
    var closed := CloseFd(written, fd, false).w;
    assert name !in Abs(closed).at;
    OverlaidSlice(Abs(w).Content(name), at, data);
    assert Abs(closed).Content(name) == OS.Overlay(Abs(w).Content(name), at, data);
    if OS.Open(closed.os, name, choice).Some? {
      ReadBackRefines(closed, name, at, |data|, choice);
    }
  }
}
