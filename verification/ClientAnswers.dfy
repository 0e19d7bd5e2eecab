/** What the client of a replicated server is told, request by request and over whole runs. */
module ClientAnswers {
  import opened Text
  import opened FileOperations
  import opened TableConsistency
  import opened RequestRuns
  import opened ServerResponse
  import opened Replication
  import opened Simulation
  import FileContents
  import LineReader
  import OS = OperatingSystem

  // ----- The origin does what a server without peers does -----

  /** The peers are asked about this request and its answer is left to their vote. */
  predicate PutToVote(c: Cluster, req: seq<string>) {
    c.peers != [] && req != [] && req[0] == "FREAD" && Announced(c.origin, req)
  }

  lemma OthersStayLocal(c: Cluster, req: seq<string>, choice: OS.OpenChoice, fates: seq<Fate>)
    requires |fates| == |c.peers| && req != [] && !Replicated(req[0])
    ensures var s := Handle(c.origin, req, choice);
      ServeRequest(c, req, choice, fates) == Served(Cluster(s.w, c.peers), ReplyText(s), s.out.Blocked?)
  {
    hide Handle, ReplyText;
  }

  lemma AnnouncedServed(c: Cluster, req: seq<string>, s: Step, fates: seq<Fate>)
    requires |fates| == |c.peers| && |req| >= 2 && s.out.Ret? && s.inUse == -1 && BuildSync(s.w, req).0 == s.w
    ensures Announce(c, req, s, fates).c.origin == s.w
    ensures req[0] != "FREAD" ==> Announce(c, req, s, fates).sent == ReplyText(s)
  {
    hide BuildSync, SyncPeers, FileReply, PeerLines;
  }

  lemma LocalOperation(w: World, req: seq<string>, choice: OS.OpenChoice)
    requires Good(w) && NamesAreTokens(w) && req != [] && AllTokens(req) && Replicated(req[0]) && req[0] != "FCLOSE"
    ensures var s := Handle(w, req, choice);
      && s.out.Ret? && s.inUse == -1
      && (Announced(w, req) <==> s.out.code >= 0)
      && (Announced(w, req) ==> BuildSync(s.w, req).0 == s.w)
  {
    SameWithoutChoice(w, req, choice);
    hide Good, NamesAreTokens, AllTokens, Announced, Handle, BuildSync;
    if req[0] == "FSEEK" {
      LocalSeek(w, req);
    } else if req[0] == "FREAD" {
      LocalRead(w, req);
    } else {
      LocalWrite(w, req);
    }
  }

  lemma OperationServed(c: Cluster, req: seq<string>, choice: OS.OpenChoice, fates: seq<Fate>)
    requires Good(c.origin) && NamesAreTokens(c.origin) && req != [] && AllTokens(req) && |fates| == |c.peers|
    requires Replicated(req[0]) && req[0] != "FCLOSE"
    ensures var s, r := Handle(c.origin, req, choice), ServeRequest(c, req, choice, fates);
      r.c.origin == s.w && (!PutToVote(c, req) ==> r.sent == ReplyText(s))
  {
    LocalOperation(c.origin, req, choice);
    var s := Handle(c.origin, req, choice);
    assert Announced(c.origin, req) ==> |req| >= 2;
    hide Good, NamesAreTokens, AllTokens, Announced, Handle, BuildSync, ReplyText, Announce;
    if s.out.code >= 0 {
      AnnouncedServed(c, req, s, fates);
    }
  }

  lemma CloseServed(c: Cluster, req: seq<string>, fates: seq<Fate>)
    requires Good(c.origin) && NamesAreTokens(c.origin) && req != [] && req[0] == "FCLOSE" && |fates| == |c.peers|
    ensures var s, r := Fclose(c.origin, req, false), CloseEverywhere(c, req, fates);
      r.c.origin == s.w && r.sent == ReplyText(s)
  {
    LocalClose(c.origin, req);
    assert Fclose(c.origin, req, true).out.code >= 0 ==> BuildSync(c.origin, req).0 == c.origin;
    hide Good, NamesAreTokens, Announced, Fclose, BuildSync, ReplyText, SyncPeers;
  }

  /** With peers or without, in whatever state they are and whatever becomes of the messages, the origin is
      left as if it had none, and but for a read put to the vote the client is told what it would be then. */
  lemma PeersDoNotShow(c: Cluster, req: seq<string>, choice: OS.OpenChoice, fates: seq<Fate>)
    requires Good(c.origin) && NamesAreTokens(c.origin) && req != [] && AllTokens(req) && |fates| == |c.peers|
    ensures var s, r := Handle(c.origin, req, choice), ServeRequest(c, req, choice, fates);
      r.c.origin == s.w && (!PutToVote(c, req) ==> r.sent == ReplyText(s))
  {
    hide Good, NamesAreTokens, AllTokens, Handle, ReplyText;
    if !Replicated(req[0]) {
      OthersStayLocal(c, req, choice, fates);
    } else if req[0] == "FCLOSE" {
      CloseServed(c, req, fates);
      SameWithoutChoice(c.origin, req, choice);
    } else {
      OperationServed(c, req, choice, fates);
    }
  }

  // ----- Runs -----

  function ServeClients(c: Cluster, events: seq<ClientEvent>): (r: Cluster)
    requires forall i | 0 <= i < |events| :: |events[i].fates| == |c.peers|
    ensures |r.peers| == |c.peers|
    decreases events
  {
    if events == [] then c else ServeClients(ServeLine(c, events[0]), events[1..])
  }

  /** The same lines and grants, at a server that has no peers. */
  function Requests(events: seq<ClientEvent>): seq<Event> {
    if events == [] then [] else [Request(events[0].line, events[0].choice)] + Requests(events[1..])
  }

  lemma LineAtOrigin(c: Cluster, e: ClientEvent)
    requires Good(c.origin) && NamesAreTokens(c.origin) && |e.fates| == |c.peers|
    ensures ServeLine(c, e).origin == Next(c.origin, Request(e.line, e.choice))
  {
    hide Good, NamesAreTokens, Tokens, ServeRequest, Handle, IsToken;
    if Tokens(e.line) != [] {
      TokensAreWords(e.line);
      PeersDoNotShow(c, Tokens(e.line), e.choice, e.fates);
    }
  }

  /** Over any run the origin's state is that of a server without peers. */
  lemma {:induction false} OriginRunsAlone(c: Cluster, events: seq<ClientEvent>)
    requires Good(c.origin) && NamesAreTokens(c.origin)
    requires forall i | 0 <= i < |events| :: |events[i].fates| == |c.peers|
    ensures ServeClients(c, events).origin == Run(c.origin, Requests(events))
    decreases events
  {
    hide Good, NamesAreTokens, ServeLine, Next;
    if events != [] {
      LineAtOrigin(c, events[0]);
      NextKeeps(c.origin, Request(events[0].line, events[0].choice));
      OriginRunsAlone(ServeLine(c, events[0]), events[1..]);
    }
  }

  // ----- FOPEN -----

  lemma OpenReplyText(s: Step, fd: int)
    ensures s == Step(s.w, Ret(0), " ", fd) && fd > 0 ==>
      ReplyText(s) == "ERR " + IntToString(fd) + " " + "This File Has Already Been Opened" + "\n"
    ensures s.out == Ret(fd) && s.content == " " && s.inUse == -1 && fd >= 0 ==>
      ReplyText(s) == "OK " + IntToString(fd) + " " + "Operation Success" + "\n"
    ensures s.out == Threw(OPEN_ERROR) ==>
      ReplyText(s) == "FAIL " + "ER-F-OP" + " " + "Error Opening The File" + "\n"
  {
    InUseLine(fd);
    FailLines("ER-F-OP");
    if fd >= 0 {
      SuccessLine(fd, " ");
    }
    hide IntToString, InUseReply, FileReply, FailReply;
  }

  lemma OpenIsSilent(w: World, req: seq<string>, choice: OS.OpenChoice)
    ensures Fopen(w, req, choice).content == " "
  {
  }

  lemma {:induction false} HistoryIsPositive(h: History, events: seq<Event>)
    requires forall n | n in h :: h[n] > 0
    ensures forall n | n in Remembered(h, events) :: Remembered(h, events)[n] > 0
    decreases events
  {
    if events != [] {
      hide Tokens, Atoi;
      HistoryIsPositive(Remember(h, events[0]), events[1..]);
    }
  }

  /** What the client of an FOPEN is told, whoever the peers are, after any history of the server: the
      descriptor of the name's last successful open if the file has stayed open since; its new descriptor if
      the system grants one; that the file could not be opened if not. */
  lemma OpenAnswer(c: Cluster, disk: map<string, string>, events: seq<Event>, req: seq<string>,
                   choice: OS.OpenChoice, fates: seq<Fate>)
    requires c.origin == Run(Started(disk), events) && |fates| == |c.peers|
    requires |req| >= 2 && req[0] == "FOPEN"
    ensures var h, name := Remembered(map[], events), req[1];
      ServeRequest(c, req, choice, fates).sent ==
        if name in h then "ERR " + IntToString(h[name]) + " " + "This File Has Already Been Opened" + "\n"
        else if Grantable(h, name, choice) then "OK " + IntToString(choice.fd) + " " + "Operation Success" + "\n"
        else "FAIL " + "ER-F-OP" + " " + "Error Opening The File" + "\n"
  {
    var h, name, s := Remembered(map[], events), req[1], Fopen(c.origin, req, choice);
    OthersStayLocal(c, req, choice, fates);
    assert Handle(c.origin, req, choice) == s;
    assert Grantable(h, name, choice) ==> choice.fd > 0;
    hide *;
    OpenIsExclusiveOverRuns(disk, events, req, choice);
    HistoryIsPositive(map[], events);
    OpenIsSilent(c.origin, req, choice);
    if name in h {
      OpenReplyText(s, h[name]);
    } else {
      OpenReplyText(s, if Grantable(h, name, choice) then choice.fd else 0);
    }
  }

  /** The same for an origin whose clients have asked anything, with peers in any state. */
  lemma OpenAnswerInReplicaMode(disk: map<string, string>, peerDisks: seq<map<string, string>>,
                                events: seq<ClientEvent>, req: seq<string>, choice: OS.OpenChoice, fates: seq<Fate>)
    requires forall i | 0 <= i < |events| :: |events[i].fates| == |peerDisks|
    requires |fates| == |peerDisks| && |req| >= 2 && req[0] == "FOPEN"
    ensures var h, name := Remembered(map[], Requests(events)), req[1];
      ServeRequest(ServeClients(StartCluster(disk, peerDisks), events), req, choice, fates).sent ==
        if name in h then "ERR " + IntToString(h[name]) + " " + "This File Has Already Been Opened" + "\n"
        else if Grantable(h, name, choice) then "OK " + IntToString(choice.fd) + " " + "Operation Success" + "\n"
        else "FAIL " + "ER-F-OP" + " " + "Error Opening The File" + "\n"
  {
    AbsIs(Started(disk), Files(disk, map[]));
    hide Good, NamesAreTokens, Run, ServeClients, Requests, ServeRequest, Remembered, Grantable, IntToString;
    OriginRunsAlone(StartCluster(disk, peerDisks), events);
    OpenAnswer(ServeClients(StartCluster(disk, peerDisks), events), disk, Requests(events), req, choice, fates);
  }

  // ----- The other requests -----

  /** The code a request ends with, told from its tokens and the descriptors in use; None where a file has to
      be opened, or read, to know it. */
  function CodeOf(openFiles: seq<int>, req: seq<string>): Option<int>
    requires req != []
  {
    if !Command(req[0]) then Some(-5)
    else if req[0] == "FOPEN" then if |req| < 2 then Some(-3) else None
    else if req[0] == "SYNCCLOSE" then if |req| < 2 then Some(-1) else None
    else if !Replicated(req[0]) then if |req| < 3 then Some(-1) else None
    else if |req| < (if req[0] == "FCLOSE" then 2 else 3) then Some(-3)
    else if (req[0] == "FSEEK" || req[0] == "FREAD") && Atoi(req[2]) <= 0 then Some(-3)
    else if Atoi(req[1]) !in openFiles then Some(if openFiles == [] then -2 else -1)
    else if req[0] == "FREAD" then None
    else Some(if req[0] == "FWRITE" then |req[2]| else 0)
  }

  lemma Silent(w: World, req: seq<string>, choice: OS.OpenChoice)
    requires Good(w)
    ensures Fseek(w, req).content == Fwrite(w, req).content == Fclose(w, req, false).content == " "
    ensures Fseek(w, req).inUse == Fread(w, req, false).inUse == Fwrite(w, req).inUse == Fclose(w, req, false).inUse == -1
    ensures Fread(w, req, false).out.Ret? && Fread(w, req, false).out.code < 0 ==> Fread(w, req, false).content == " "
  {
    hide Good, Atoi, OS.Read, OS.Seek, OS.Write, OS.CString, LookUp, CheckFd, Without, MayRead, MayWrite, MayClose;
    if |req| >= 3 && Atoi(req[2]) > 0 {
      ReadRefines(w, Atoi(req[1]), Atoi(req[2]));
    }
  }

  lemma SeekCode(openFiles: seq<int>, req: seq<string>)
    requires |req| >= 1 && (req[0] == "FSEEK" || req[0] == "FREAD")
    ensures CodeOf(openFiles, req) ==
      if |req| < 3 || Atoi(req[2]) <= 0 then Some(-3)
      else if Atoi(req[1]) !in openFiles then Some(if openFiles == [] then -2 else -1)
      else if req[0] == "FREAD" then None
      else Some(0)
  {
    hide Atoi;
  }

  lemma WriteCode(openFiles: seq<int>, req: seq<string>)
    requires |req| >= 1 && (req[0] == "FWRITE" || req[0] == "FCLOSE")
    ensures CodeOf(openFiles, req) ==
      if |req| < (if req[0] == "FCLOSE" then 2 else 3) then Some(-3)
      else if Atoi(req[1]) !in openFiles then Some(if openFiles == [] then -2 else -1)
      else Some(if req[0] == "FWRITE" then |req[2]| else 0)
  {
    hide Atoi;
  }

  lemma OtherCode(openFiles: seq<int>, req: seq<string>)
    requires |req| >= 1 && Command(req[0]) && !Replicated(req[0])
    ensures CodeOf(openFiles, req) ==
      if req[0] == "FOPEN" then if |req| < 2 then Some(-3) else None
      else if |req| < (if req[0] == "SYNCCLOSE" then 2 else 3) then Some(-1)
      else None
  {
    hide Atoi, Command, Replicated;
  }

  lemma LocalDispatch(w: World, req: seq<string>)
    requires req != []
    ensures req[0] == "FSEEK" ==> Handle(w, req, OS.Refuse) == Fseek(w, req)
    ensures req[0] == "FREAD" ==> Handle(w, req, OS.Refuse) == Fread(w, req, false)
    ensures req[0] == "FWRITE" ==> Handle(w, req, OS.Refuse) == Fwrite(w, req)
    ensures req[0] == "FCLOSE" ==> Handle(w, req, OS.Refuse) == Fclose(w, req, false)
  {
    hide Fopen, Fseek, Fread, Fwrite, Fclose, SyncSeek, SyncRead, SyncWrite, SyncClose;
  }

  lemma OtherDispatch(w: World, req: seq<string>, choice: OS.OpenChoice)
    requires req != [] && Command(req[0]) && !Replicated(req[0])
    ensures req[0] == "FOPEN" ==> Handle(w, req, choice) == Fopen(w, req, choice)
    ensures req[0] == "SYNCCLOSE" ==> Handle(w, req, choice) == SyncClose(w, req)
    ensures req[0] != "FOPEN" && req[0] != "SYNCCLOSE" ==>
      Handle(w, req, choice) in {SyncSeek(w, req, choice), SyncRead(w, req, choice), SyncWrite(w, req, choice)}
  {
    hide Fopen, Fseek, Fread, Fwrite, Fclose, SyncSeek, SyncRead, SyncWrite, SyncClose;
  }

  lemma LocalEndsWith(w: World, req: seq<string>)
    requires Good(w) && req != [] && AllTokens(req) && Replicated(req[0])
    ensures var code := CodeOf(w.tab.openFiles, req); var s := Handle(w, req, OS.Refuse);
      code.Some? ==> s.out == Ret(code.value) && s.content == " " && s.inUse == -1
  {
    assert |req| >= 3 ==> IsToken(req[2]) && req[2] != "";
    assert req[0] == "FSEEK" || req[0] == "FREAD" || req[0] == "FWRITE" || req[0] == "FCLOSE";
    hide *;
    ResultCodes(w, req, OS.Refuse);
    Silent(w, req, OS.Refuse);
    LocalDispatch(w, req);
    if req[0] == "FSEEK" || req[0] == "FREAD" {
      SeekCode(w.tab.openFiles, req);
    } else {
      WriteCode(w.tab.openFiles, req);
    }
  }

  lemma EndsWith(w: World, req: seq<string>, choice: OS.OpenChoice)
    requires Good(w) && req != [] && AllTokens(req)
    ensures var code := CodeOf(w.tab.openFiles, req); var s := Handle(w, req, choice);
      code.Some? ==> s.out == Ret(code.value) && s.content == " " && s.inUse == -1
  {
    assert !Command(req[0]) ==> CodeOf(w.tab.openFiles, req) == Some(-5);
    hide *;
    if !Command(req[0]) {
      UnknownCommand(w, req, choice);
    } else if Replicated(req[0]) {
      SameWithoutChoice(w, req, choice);
      LocalEndsWith(w, req);
    } else {
      OtherDispatch(w, req, choice);
      OtherCode(w.tab.openFiles, req);
      TooShort(w, req, choice);
    }
  }

  lemma CodeText(s: Step, code: int)
    requires s.out == Ret(code) && s.content == " " && s.inUse == -1
    ensures code >= 0 ==> ReplyText(s) == "OK " + IntToString(code) + " " + "Operation Success" + "\n"
    ensures
      var problem :=
        if code == -1 then "No Such File Or Directory"
        else if code == -2 then "No Previously Opened File"
        else if code == -3 then "Param Parsing Error"
        else if code == -4 then "Writing Failed"
        else if code == -5 then "No Valid Command Received"
        else "";
      code < 0 ==> ReplyText(s) == "ERR ENOENT " + problem + "\n"
  {
    if code >= 0 {
      SuccessLine(code, " ");
    } else {
      FailureLine(code, " ");
    }
    hide IntToString, FileReply;
  }

  /** The client of such a request is told OK, the code and a standing text, or ERR and what went wrong,
      whoever the peers are and whatever becomes of the messages. */
  lemma AnswerTold(c: Cluster, req: seq<string>, choice: OS.OpenChoice, fates: seq<Fate>, code: int)
    requires Good(c.origin) && NamesAreTokens(c.origin) && req != [] && AllTokens(req) && |fates| == |c.peers|
    requires CodeOf(c.origin.tab.openFiles, req) == Some(code)
    ensures code >= 0 ==> ServeRequest(c, req, choice, fates).sent == "OK " + IntToString(code) + " " + "Operation Success" + "\n"
    ensures
      var problem :=
        if code == -1 then "No Such File Or Directory"
        else if code == -2 then "No Previously Opened File"
        else if code == -3 then "Param Parsing Error"
        else if code == -4 then "Writing Failed"
        else if code == -5 then "No Valid Command Received"
        else "";
      code < 0 ==> ServeRequest(c, req, choice, fates).sent == "ERR ENOENT " + problem + "\n"
  {
    assert !PutToVote(c, req);
    hide *;
    PeersDoNotShow(c, req, choice, fates);
    EndsWith(c.origin, req, choice);
    CodeText(Handle(c.origin, req, choice), code);
  }

  lemma ReadText(s: Step, k: nat, text: string)
    requires s.out == Ret(k) && s.content == text && s.inUse <= 0
    ensures ReplyText(s) == "OK " + IntToString(k) + " " + (if text == " " then "Operation Success" else text) + "\n"
  {
    SuccessLine(k, text);
    hide IntToString, FileReply;
  }

  /** The client of an FREAD is told, by a server without peers, how many of the bytes it asked for are left
      of the file and, up to the first NUL, which; a single space is lost to the standing text. */
  lemma ReadTold(c: Cluster, req: seq<string>, choice: OS.OpenChoice, fd: int, n: nat, content: string, o: nat, k: nat)
    requires Good(c.origin) && NamesAreTokens(c.origin) && c.peers == [] && AllTokens(req)
    requires |req| >= 3 && req[0] == "FREAD" && fd == Atoi(req[1]) && n == Atoi(req[2]) > 0
    requires fd in c.origin.tab.openFiles && fd in c.origin.os.fds
    requires content == FileContents.Stored(c.origin, fd) && o == c.origin.os.fds[fd].offset
    requires k == if o >= |content| then 0 else if n < |content| - o then n else |content| - o
    ensures var text := if k == 0 then "END-OF-FILE" else OS.CString(content[o..o + k]);
      ServeRequest(c, req, choice, []).sent ==
        "OK " + IntToString(k) + " " + (if text == " " then "Operation Success" else text) + "\n"
  {
    assert Handle(c.origin, req, choice) == Fread(c.origin, req, false);
    assert !PutToVote(c, req);
    hide *;
    PeersDoNotShow(c, req, choice, []);
    FileContents.ReadFinds(c.origin, req, choice, fd, n, content, o, k);
    Silent(c.origin, req, choice);
    ReadText(Handle(c.origin, req, choice), k, if k == 0 then "END-OF-FILE" else OS.CString(content[o..o + k]));
  }

  // ----- What the origin hears of a peer -----

  /** A peer's whole reply if its line, or lines, have at most 256 characters, else the first 256; nothing if it
      does not answer in time; and the mark of a connection error if it is not reached. */
  lemma ReplyHeard(p: World, line: string, choices: seq<OS.OpenChoice>)
    ensures PeerStep(p, line, Unreachable) == (p, "ER-SYNC-CONN")
    ensures PeerStep(p, line, Reached(choices, false)).1 == ""
    ensures var text := Serve(p, LineReader.ReadAll(LineReader.Bytes(line), 255).0, choices).1;
      PeerStep(p, line, Reached(choices, true)).1 == if |text| <= 256 then text else text[..256]
  {
    hide Serve, LineReader.ReadAll;
  }
}
