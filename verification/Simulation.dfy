/** Peers follow the origin: same contents, same positions, other descriptors. */
module Simulation {
  import opened Text
  import opened FileOperations
  import opened TableConsistency
  import opened RequestRuns
  import opened ServerResponse
  import opened MajorityVote
  import opened Replication
  import LineReader
  import OS = OperatingSystem

  // ----- The relation, on name-level stores -----

  /** Equal contents; what the peer has open the origin has open; an open file of the origin stands at
      the peer's position, and at the start if the peer has not opened it yet. */
  ghost predicate Follows(f: Files, g: Files) {
    && (forall n :: f.Content(n) == g.Content(n))
    && g.at.Keys <= f.at.Keys
    && (forall n | n in f.at :: f.at[n] == if n in g.at then g.at[n] else 0)
  }

  lemma FollowsOpen(f: Files, g: Files, n: string)
    requires Follows(f, g) && n !in f.at
    ensures Follows(f.Open(n), g)
  {
  }

  lemma FollowsLateOpen(f: Files, g: Files, n: string)
    requires Follows(f, g) && n in f.at
    ensures Follows(f, Opened(g, n)) && n in Opened(g, n).at
  {
  }

  lemma FollowsMove(f: Files, g: Files, n: string, at: nat)
    requires Follows(f, g) && n in f.at && n in g.at
    ensures Follows(f.(at := f.at[n := at]), g.(at := g.at[n := at]))
  {
    var f1, g1 := f.(at := f.at[n := at]), g.(at := g.at[n := at]);
    assert forall m :: f1.Content(m) == f.Content(m) && g1.Content(m) == g.Content(m);
  }

  /** The same operation, at the same position of the same content, reads the same bytes and keeps the
      relation. */
  lemma FollowsSeekAndRead(f: Files, g: Files, n: string, k: nat)
    requires Follows(f, g) && n in f.at && n in g.at
    ensures Follows(f.Seek(n, k), g.Seek(n, k))
    ensures f.Bytes(n, k) == g.Bytes(n, k) && Follows(f.Read(n, k), g.Read(n, k))
  {
    hide OS.Slice;
    FollowsMove(f, g, n, f.at[n] + k);
    FollowsMove(f, g, n, f.at[n] + |f.Bytes(n, k)|);
  }

  lemma FollowsWrite(f: Files, g: Files, n: string, data: string)
    requires Follows(f, g) && n in f.at && n in g.at
    ensures Follows(f.Write(n, data), g.Write(n, data))
  {
    hide OS.Overlay;
    var f1, g1 := f.Write(n, data), g.Write(n, data);
    assert f1.Content(n) == g1.Content(n);
    assert forall m | m != n :: f1.Content(m) == f.Content(m) && g1.Content(m) == g.Content(m);
  }

  lemma FollowsClose(f: Files, g: Files, n: string)
    requires Follows(f, g)
    ensures Follows(f.Close(n), g.Close(n))
  {
    assert forall m :: f.Close(n).Content(m) == f.Content(m) && g.Close(n).Content(m) == g.Content(m);
  }

  // ----- A SYNC request on a peer -----

  ghost predicate CanOpen(w: World, name: string, choice: OS.OpenChoice) {
    Live(w.tab, name) || OS.Open(w.os, name, choice).Some?
  }

  lemma SyncSeekRefines(w: World, req: seq<string>, choice: OS.OpenChoice)
    requires Good(w) && |req| >= 3 && Atoi(req[2]) > 0 && CanOpen(w, req[1], choice)
    ensures var s := SyncSeek(w, req, choice);
      && s.out == Ret(0) && Good(s.w)
      && Abs(s.w) == Opened(Abs(w), req[1]).Seek(req[1], Atoi(req[2]))
  {
    hide Atoi, IntToString, Good, SeekFd;
    EnsureOpenRefines(w, req, choice);
    var w1 := EnsureOpen(w, req, choice).w;
    LiveDescriptor(w1, req[1]);
    SeekRefines(w1, w1.tab.nameToFd[req[1]], Atoi(req[2]));
  }

  lemma SyncReadRefines(w: World, req: seq<string>, choice: OS.OpenChoice)
    requires Good(w) && |req| >= 3 && Atoi(req[2]) > 0 && CanOpen(w, req[1], choice)
    ensures var s := SyncRead(w, req, choice); var g := Opened(Abs(w), req[1]);
      && Good(s.w) && s.inUse == -1
      && var bytes := g.Bytes(req[1], Atoi(req[2]));
      && s.out == Ret(|bytes|) && s.content == (if bytes == "" then "END-OF-FILE" else OS.CString(bytes))
      && Abs(s.w) == g.Read(req[1], Atoi(req[2]))
  {
    hide Atoi, IntToString, Good, OS.CString, OS.Slice;
    EnsureOpenRefines(w, req, choice);
    var w1 := EnsureOpen(w, req, choice).w;
    LiveDescriptor(w1, req[1]);
    ReadRefines(w1, w1.tab.nameToFd[req[1]], Atoi(req[2]));
  }

  lemma SyncWriteRefines(w: World, req: seq<string>, choice: OS.OpenChoice)
    requires Good(w) && |req| >= 3 && CanOpen(w, req[1], choice) && req[2] != ""
    ensures var s := SyncWrite(w, req, choice);
      && s.out == Ret(|req[2]|) && Good(s.w)
      && Abs(s.w) == Opened(Abs(w), req[1]).Write(req[1], req[2])
  {
    hide Atoi, IntToString, Good, WriteFd;
    EnsureOpenRefines(w, req, choice);
    var w1 := EnsureOpen(w, req, choice).w;
    LiveDescriptor(w1, req[1]);
    WriteRefines(w1, w1.tab.nameToFd[req[1]], req[2]);
  }

  lemma SyncCloseRefines(w: World, req: seq<string>)
    requires Good(w) && |req| >= 2
    ensures var s := SyncClose(w, req);
      s.out == Ret(0) && Good(s.w) && Abs(s.w) == Abs(w).Close(req[1])
  {
    hide Atoi, IntToString, CloseFd;
    StrayNameKeeps(w, req[1]);
    var w1 := w.(tab := w.tab.(nameToFd := Touch(w.tab.nameToFd, req[1], 0)));
    if Live(w1.tab, req[1]) {
      LiveDescriptor(w1, req[1]);
      CloseRefines(w1, w1.tab.nameToFd[req[1]]);
    } else {
      assert Abs(w).Close(req[1]).at == Abs(w).at;
    }
  }

  // ----- The line that carries it -----

  function SyncCommand(head: string): string {
    if head == "FSEEK" then "SYNCSEEK"
    else if head == "FWRITE" then "SYNCWRITE"
    else if head == "FREAD" then "SYNCREAD"
    else "SYNCCLOSE"
  }

  predicate Replicated(head: string) {
    head in ["FSEEK", "FREAD", "FWRITE", "FCLOSE"]
  }

  lemma SyncLineShape(name: string, req: seq<string>)
    requires req != [] && Replicated(req[0])
    ensures SyncLine(name, req) == SyncCommand(req[0]) + " " + name + (" " + if |req| > 2 then req[2] else "")
    ensures IsToken(SyncCommand(req[0]))
  {
    assert SyncHead(req[0]) == SyncCommand(req[0]) + " ";
  }

  /** A sync line reads back, token for token, as the SYNC command, the file name and the third token
      of the request, if it has one; and it is a single non-empty line. */
  lemma SyncLineRoundTrip(name: string, req: seq<string>)
    requires req != [] && Replicated(req[0]) && AllTokens(req) && IsToken(name)
    ensures var line := SyncLine(name, req);
      && Tokens(line) == [SyncCommand(req[0]), name] + (if |req| > 2 then [req[2]] else [])
      && line != "" && '\n' !in line
  {
    hide Tokens;
    SyncLineShape(name, req);
    var third := if |req| > 2 then req[2] else "";
    TokensOfTwoWords(SyncCommand(req[0]), name, " " + third);
    TokensAfterGap(" ", third);
    TokensOfBlank("");
    if |req| > 2 {
      TokensOfWord("", third, "");
      assert "" + third + "" == third;
    }
  }

  /** A peer reached by a line that fits its buffer handles exactly the line's request. */
  lemma PeerHandlesLine(p: World, line: string, fate: Fate)
    requires 0 < |line| <= LineReader.LINE_MAX && '\n' !in line && Tokens(line) != []
    requires fate.Reached? && Handle(p, Tokens(line), Pick(fate.choices)).out != Blocked
    ensures var s := Handle(p, Tokens(line), Pick(fate.choices));
      PeerStep(p, line, fate) == (s.w, if fate.answered then Received(ReplyText(s)) else "")
  {
    hide Tokens, Handle, ReplyText;
    LineReader.ReadAllOfOneLine(line, LineReader.LINE_MAX);
    var l := LineReader.Line(|line|, line, false, []);
    var s := Handle(p, Tokens(line), Pick(fate.choices));
    assert Serve(s.w, [l][1..], Rest(fate.choices)) == (s.w, "");
    assert Serve(p, [l], fate.choices) == (s.w, ReplyText(s) + "");
    assert ReplyText(s) + "" == ReplyText(s);
  }

  // ----- One peer -----

  lemma SyncDispatch(w: World, req: seq<string>, choice: OS.OpenChoice)
    requires req != []
    ensures req[0] == "SYNCSEEK" ==> Handle(w, req, choice) == SyncSeek(w, req, choice)
    ensures req[0] == "SYNCREAD" ==> Handle(w, req, choice) == SyncRead(w, req, choice)
    ensures req[0] == "SYNCWRITE" ==> Handle(w, req, choice) == SyncWrite(w, req, choice)
    ensures req[0] == "SYNCCLOSE" ==> Handle(w, req, choice) == SyncClose(w, req)
  {
    hide SyncSeek, SyncRead, SyncWrite, SyncClose, Fopen, Fseek, Fread, Fwrite, Fclose;
  }

  lemma PeerSeeks(f: Files, p: World, n: string, k: string, line: string, fate: Fate)
    requires Good(p) && Follows(f, Abs(p)) && n in f.at && Atoi(k) > 0
    requires 0 < |line| <= LineReader.LINE_MAX && '\n' !in line && Tokens(line) == ["SYNCSEEK", n, k]
    requires fate.Reached? && CanOpen(p, n, Pick(fate.choices))
    ensures var p1 := PeerStep(p, line, fate).0; Good(p1) && Follows(f.Seek(n, Atoi(k)), Abs(p1))
  {
    hide *;
    SyncDispatch(p, Tokens(line), Pick(fate.choices));
    SyncSeekRefines(p, Tokens(line), Pick(fate.choices));
    PeerHandlesLine(p, line, fate);
    FollowsLateOpen(f, Abs(p), n);
    FollowsSeekAndRead(f, Opened(Abs(p), n), n, Atoi(k));
  }

  /** What FREAD answers when it finds these bytes. */
  function ReadReply(bytes: string): string {
    FileReply(|bytes|, if bytes == "" then "END-OF-FILE" else OS.CString(bytes))
  }

  lemma ReadReplyText(s: Step, bytes: string)
    requires s.out == Ret(|bytes|) && s.inUse == -1
    requires s.content == if bytes == "" then "END-OF-FILE" else OS.CString(bytes)
    ensures ReplyText(s) == ReadReply(bytes)
  {
  }

  lemma PeerReads(f: Files, p: World, n: string, k: string, line: string, fate: Fate)
    requires Good(p) && Follows(f, Abs(p)) && n in f.at && Atoi(k) > 0
    requires 0 < |line| <= LineReader.LINE_MAX && '\n' !in line && Tokens(line) == ["SYNCREAD", n, k]
    requires fate.Reached? && CanOpen(p, n, Pick(fate.choices))
    ensures var (p1, reply) := PeerStep(p, line, fate);
      && Good(p1) && Follows(f.Read(n, Atoi(k)), Abs(p1))
      && reply == if fate.answered then Received(ReadReply(f.Bytes(n, Atoi(k)))) else ""
  {
    hide *;
    SyncDispatch(p, Tokens(line), Pick(fate.choices));
    SyncReadRefines(p, Tokens(line), Pick(fate.choices));
    PeerHandlesLine(p, line, fate);
    FollowsLateOpen(f, Abs(p), n);
    ReadReplyText(SyncRead(p, Tokens(line), Pick(fate.choices)), Opened(Abs(p), n).Bytes(n, Atoi(k)));
    FollowsSeekAndRead(f, Opened(Abs(p), n), n, Atoi(k));
  }

  lemma PeerWrites(f: Files, p: World, n: string, data: string, line: string, fate: Fate)
    requires Good(p) && Follows(f, Abs(p)) && n in f.at && data != ""
    requires 0 < |line| <= LineReader.LINE_MAX && '\n' !in line && Tokens(line) == ["SYNCWRITE", n, data]
    requires fate.Reached? && CanOpen(p, n, Pick(fate.choices))
    ensures var p1 := PeerStep(p, line, fate).0; Good(p1) && Follows(f.Write(n, data), Abs(p1))
  {
    hide *;
    SyncDispatch(p, Tokens(line), Pick(fate.choices));
    SyncWriteRefines(p, Tokens(line), Pick(fate.choices));
    PeerHandlesLine(p, line, fate);
    FollowsLateOpen(f, Abs(p), n);
    FollowsWrite(f, Opened(Abs(p), n), n, data);
  }

  lemma PeerCloses(f: Files, p: World, n: string, req: seq<string>, line: string, fate: Fate)
    requires Good(p) && Follows(f, Abs(p)) && |req| >= 2 && req[0] == "SYNCCLOSE" && req[1] == n
    requires 0 < |line| <= LineReader.LINE_MAX && '\n' !in line && Tokens(line) == req
    requires fate.Reached?
    ensures var p1 := PeerStep(p, line, fate).0; Good(p1) && Follows(f.Close(n), Abs(p1))
  {
    hide *;
    SyncDispatch(p, Tokens(line), Pick(fate.choices));
    SyncCloseRefines(p, req);
    PeerHandlesLine(p, line, fate);
    FollowsClose(f, Abs(p), n);
  }

  // ----- The cluster -----

  ghost predicate InStep(c: Cluster) {
    && Good(c.origin) && NamesAreTokens(c.origin)
    && forall i | 0 <= i < |c.peers| :: Good(c.peers[i]) && Follows(Abs(c.origin), Abs(c.peers[i]))
  }

  /** The tokens, past the descriptor, that an accepted request of these kinds has. */
  predicate WellFormed(req: seq<string>) {
    && req != [] && Replicated(req[0])
    && |req| >= (if req[0] == "FCLOSE" then 2 else 3)
    && (req[0] in ["FSEEK", "FREAD"] ==> Atoi(req[2]) > 0)
  }

  /** The request is one the origin announces to its peers. */
  predicate Announced(w: World, req: seq<string>) {
    WellFormed(req) && Atoi(req[1]) in w.tab.openFiles
  }

  /** An announced request reaches every peer: its line fits the peer's buffer, and a peer that must
      open the file can. */
  ghost predicate Delivered(c: Cluster, req: seq<string>, fates: seq<Fate>) {
    Announced(c.origin, req) && Atoi(req[1]) in c.origin.tab.fdToName ==>
      var name := c.origin.tab.fdToName[Atoi(req[1])];
      && |fates| == |c.peers|
      && |SyncLine(name, req)| <= LineReader.LINE_MAX
      && forall i | 0 <= i < |fates| ::
           && fates[i].Reached?
           && (req[0] == "FCLOSE" || CanOpen(c.peers[i], name, Pick(fates[i].choices)))
  }

  predicate ClientRequest(req: seq<string>) {
    req != [] && AllTokens(req) && req[0] !in ["SYNCSEEK", "SYNCREAD", "SYNCWRITE", "SYNCCLOSE"]
  }

  /** The tables of the origin, around a descriptor in use. */
  lemma OriginDescriptor(w: World, fd: int)
    requires Good(w) && NamesAreTokens(w) && fd in w.tab.openFiles
    ensures fd in w.tab.fdToName && w.tab.fdToName[fd] in Abs(w).at && IsToken(w.tab.fdToName[fd])
  {
  }

  lemma BuildSyncIs(w: World, req: seq<string>)
    requires |req| >= 2 && Atoi(req[1]) in w.tab.fdToName
    ensures BuildSync(w, req) == (w, SyncLine(w.tab.fdToName[Atoi(req[1])], req))
  {
    assert Touch(w.tab.fdToName, Atoi(req[1]), "") == w.tab.fdToName;
  }

  /** What the origin's own part of an announced request does, and that any other request of these
      four kinds answers with an error and leaves the store alone. */
  lemma LocalSeek(w: World, req: seq<string>)
    requires Good(w) && NamesAreTokens(w) && req != [] && req[0] == "FSEEK"
    ensures var s := Handle(w, req, OS.Refuse);
      && Good(s.w) && s.inUse == -1
      && if Announced(w, req)
         then
           var name := w.tab.fdToName[Atoi(req[1])];
           && s.out == Ret(0) && name in Abs(w).at && Abs(s.w) == Abs(w).Seek(name, Atoi(req[2]))
           && BuildSync(s.w, req) == (s.w, SyncLine(name, req))
         else s.out.Ret? && s.out.code < 0 && Abs(s.w) == Abs(w)
  {
    hide Atoi, Good, NamesAreTokens, SeekFd, BuildSync;
    if |req| >= 3 && Atoi(req[2]) > 0 {
      SeekRefines(w, Atoi(req[1]), Atoi(req[2]));
      if Announced(w, req) {
        OriginDescriptor(w, Atoi(req[1]));
        BuildSyncIs(Fseek(w, req).w, req);
      }
    }
  }

  lemma LocalRead(w: World, req: seq<string>)
    requires Good(w) && NamesAreTokens(w) && req != [] && req[0] == "FREAD"
    ensures var s := Handle(w, req, OS.Refuse);
      && Good(s.w) && s.inUse == -1
      && if Announced(w, req)
         then
           var name := w.tab.fdToName[Atoi(req[1])];
           && name in Abs(w).at && Abs(s.w) == Abs(w).Read(name, Atoi(req[2]))
           && var bytes := Abs(w).Bytes(name, Atoi(req[2]));
           && s.out == Ret(|bytes|) && s.content == (if bytes == "" then "END-OF-FILE" else OS.CString(bytes))
           && BuildSync(s.w, req) == (s.w, SyncLine(name, req))
         else s.out.Ret? && s.out.code < 0 && Abs(s.w) == Abs(w)
  {
    hide Atoi, Good, NamesAreTokens, ReadFd, BuildSync;
    if |req| >= 3 && Atoi(req[2]) > 0 {
      ReadRefines(w, Atoi(req[1]), Atoi(req[2]));
      if Announced(w, req) {
        OriginDescriptor(w, Atoi(req[1]));
        BuildSyncIs(Fread(w, req, false).w, req);
      }
    }
  }

  lemma LocalWrite(w: World, req: seq<string>)
    requires Good(w) && NamesAreTokens(w) && req != [] && req[0] == "FWRITE" && AllTokens(req)
    ensures var s := Handle(w, req, OS.Refuse);
      && Good(s.w) && s.inUse == -1
      && if Announced(w, req)
         then
           var name := w.tab.fdToName[Atoi(req[1])];
           && s.out == Ret(|req[2]|) && name in Abs(w).at && Abs(s.w) == Abs(w).Write(name, req[2])
           && BuildSync(s.w, req) == (s.w, SyncLine(name, req))
         else s.out.Ret? && s.out.code < 0 && Abs(s.w) == Abs(w)
  {
    hide Atoi, Good, NamesAreTokens, WriteFd, BuildSync;
    if |req| >= 3 {
      WriteRefines(w, Atoi(req[1]), req[2]);
      if Announced(w, req) {
        OriginDescriptor(w, Atoi(req[1]));
        BuildSyncIs(Fwrite(w, req).w, req);
      }
    }
  }

  lemma LocalClose(w: World, req: seq<string>)
    requires Good(w) && NamesAreTokens(w) && req != [] && req[0] == "FCLOSE"
    ensures var check, s := Fclose(w, req, true), Fclose(w, req, false);
      && Good(s.w) && s.inUse == -1 && check.w == w && check.out.Ret?
      && if Announced(w, req)
         then
           var name := w.tab.fdToName[Atoi(req[1])];
           && check.out == Ret(1) && s.out == Ret(0) && Abs(s.w) == Abs(w).Close(name)
           && BuildSync(w, req) == (w, SyncLine(name, req))
         else check.out.code < 0 && s == check
  {
    hide Atoi, Good, NamesAreTokens, BuildSync;
    if |req| >= 2 {
      CloseRefines(w, Atoi(req[1]));
      if Announced(w, req) {
        OriginDescriptor(w, Atoi(req[1]));
        BuildSyncIs(w, req);
      }
    }
  }

  // ----- A request reaches every replica -----

  /** The request's effect on a store, by name. */
  function Moved(f: Files, name: string, req: seq<string>): Files
    requires WellFormed(req) && name in f.at
  {
    if req[0] == "FSEEK" then f.Seek(name, Atoi(req[2]))
    else if req[0] == "FREAD" then f.Read(name, Atoi(req[2]))
    else if req[0] == "FWRITE" then f.Write(name, req[2])
    else f.Close(name)
  }

  lemma PeerFollows(f: Files, p: World, name: string, req: seq<string>, fate: Fate)
    requires Good(p) && Follows(f, Abs(p)) && name in f.at && IsToken(name)
    requires WellFormed(req) && AllTokens(req)
    requires |SyncLine(name, req)| <= LineReader.LINE_MAX && fate.Reached?
    requires req[0] == "FCLOSE" || CanOpen(p, name, Pick(fate.choices))
    ensures var p1 := PeerStep(p, SyncLine(name, req), fate).0;
      Good(p1) && Follows(Moved(f, name, req), Abs(p1))
  {
    hide Good, Follows, Atoi, Tokens, SyncLine, PeerStep, CanOpen, IsToken;
    SyncLineRoundTrip(name, req);
    var line := SyncLine(name, req);
    match req[0]
    case "FSEEK" => PeerSeeks(f, p, name, req[2], line, fate);
    case "FREAD" => PeerReads(f, p, name, req[2], line, fate);
    case "FWRITE" =>
      assert IsToken(req[2]);
      NonEmptyToken(req[2]);
      PeerWrites(f, p, name, req[2], line, fate);
    case _ => PeerCloses(f, p, name, Tokens(line), line, fate);
  }

  lemma NonEmptyToken(t: string)
    requires IsToken(t)
    ensures t != ""
  {
  }

  ghost predicate AllFollow(f: Files, peers: seq<World>) {
    forall i | 0 <= i < |peers| :: Good(peers[i]) && Follows(f, Abs(peers[i]))
  }

  lemma PeersFollow(f: Files, peers: seq<World>, name: string, req: seq<string>, fates: seq<Fate>)
    requires AllFollow(f, peers) && name in f.at && IsToken(name) && |fates| == |peers|
    requires WellFormed(req) && AllTokens(req) && |SyncLine(name, req)| <= LineReader.LINE_MAX
    requires forall i | 0 <= i < |fates| ::
      fates[i].Reached? && (req[0] == "FCLOSE" || CanOpen(peers[i], name, Pick(fates[i].choices)))
    ensures AllFollow(Moved(f, name, req), SyncPeers(peers, SyncLine(name, req), fates).0)
  {
    hide Good, Follows, Atoi, AllTokens, IsToken, SyncLine, PeerStep, CanOpen, Moved, SyncPeers;
    var after := SyncPeers(peers, SyncLine(name, req), fates).0;
    forall i | 0 <= i < |peers|
      ensures Good(after[i]) && Follows(Moved(f, name, req), Abs(after[i]))
    {
      PeerFollows(f, peers[i], name, req, fates[i]);
    }
  }

  /** The origin's own part, all four kinds together. */
  lemma LocalMoves(w: World, req: seq<string>)
    requires Good(w) && NamesAreTokens(w) && AllTokens(req) && Announced(w, req)
    ensures Atoi(req[1]) in w.tab.fdToName
    ensures var s := Handle(w, req, OS.Refuse); var name := w.tab.fdToName[Atoi(req[1])];
      && Good(s.w) && s.out.Ret? && s.out.code >= 0
      && WellFormed(req) && name in Abs(w).at && IsToken(name) && Abs(s.w) == Moved(Abs(w), name, req)
      && BuildSync(if req[0] == "FCLOSE" then w else s.w, req)
         == (if req[0] == "FCLOSE" then w else s.w, SyncLine(name, req))
  {
    hide Good, NamesAreTokens, Atoi, SyncLine, IsToken, BuildSync, Fseek, Fread, Fwrite, Fclose, OS.Slice;
    OriginDescriptor(w, Atoi(req[1]));
    match req[0]
    case "FSEEK" => LocalSeek(w, req);
    case "FREAD" => LocalRead(w, req);
    case "FWRITE" => LocalWrite(w, req);
    case _ => LocalClose(w, req);
  }

  lemma SameWithoutChoice(w: World, req: seq<string>, choice: OS.OpenChoice)
    requires req != [] && Replicated(req[0])
    ensures Handle(w, req, choice) == Handle(w, req, OS.Refuse)
    ensures req[0] == "FCLOSE" ==> Handle(w, req, choice) == Fclose(w, req, false)
  {
    hide Fseek, Fread, Fwrite, Fclose;
  }

  /** What the cluster is after an announced request, be its peers in step or not: the same move on every
      replica's store. */
  lemma AnnouncedMove(c: Cluster, req: seq<string>, choice: OS.OpenChoice, fates: seq<Fate>)
    requires Good(c.origin) && NamesAreTokens(c.origin) && AllTokens(req) && Announced(c.origin, req)
    requires |fates| == |c.peers|
    ensures Atoi(req[1]) in c.origin.tab.fdToName
    ensures var name := c.origin.tab.fdToName[Atoi(req[1])]; var c1 := ServeRequest(c, req, choice, fates).c;
      && c1 == Cluster(Handle(c.origin, req, OS.Refuse).w, SyncPeers(c.peers, SyncLine(name, req), fates).0)
  {
    hide Good, NamesAreTokens, Atoi, AllTokens, IsToken, SyncLine, SyncPeers, Handle, BuildSync, Fclose,
         ReplyText, Accepts, Ballots, Moved;
    LocalMoves(c.origin, req);
    CloseCheckPasses(c.origin, req);
    SameWithoutChoice(c.origin, req, choice);
    SameWithoutChoice(c.origin, req, OS.Refuse);
  }

  lemma AnnouncedEffect(c: Cluster, req: seq<string>, choice: OS.OpenChoice, fates: seq<Fate>)
    requires InStep(c) && AllTokens(req) && Announced(c.origin, req) && |fates| == |c.peers|
    ensures Atoi(req[1]) in c.origin.tab.fdToName
    ensures var name := c.origin.tab.fdToName[Atoi(req[1])]; var c1 := ServeRequest(c, req, choice, fates).c;
      && c1 == Cluster(Handle(c.origin, req, OS.Refuse).w, SyncPeers(c.peers, SyncLine(name, req), fates).0)
  {
    hide Good, NamesAreTokens, Follows, Atoi, AllTokens, Announced, SyncLine, SyncPeers, Handle, ServeRequest;
    AnnouncedMove(c, req, choice, fates);
  }

  lemma AnnouncedRequest(c: Cluster, req: seq<string>, choice: OS.OpenChoice, fates: seq<Fate>)
    requires InStep(c) && AllTokens(req) && Announced(c.origin, req)
    requires |fates| == |c.peers| && Delivered(c, req, fates)
    ensures var c1 := ServeRequest(c, req, choice, fates).c; InStep(c1) && |c1.peers| == |c.peers|
  {
    hide Good, Follows, Atoi, AllTokens, IsToken, SyncLine, PeerStep, CanOpen, SyncPeers, Handle, ServeRequest,
         Moved;
    AnnouncedEffect(c, req, choice, fates);
    LocalMoves(c.origin, req);
    var name := c.origin.tab.fdToName[Atoi(req[1])];
    PeersFollow(Abs(c.origin), c.peers, name, req, fates);
    MovedKeys(Abs(c.origin), name, req);
  }

  lemma CloseCheckPasses(w: World, req: seq<string>)
    requires Good(w) && NamesAreTokens(w) && Announced(w, req)
    ensures req[0] == "FCLOSE" ==> Fclose(w, req, true) == Done(w, 1)
  {
    hide Good, NamesAreTokens, Atoi;
  }

  lemma MovedKeys(f: Files, name: string, req: seq<string>)
    requires WellFormed(req) && name in f.at
    ensures Moved(f, name, req).at.Keys <= f.at.Keys
  {
    hide Atoi, OS.Slice, OS.Overlay;
  }

  lemma InStepAfter(c: Cluster, w: World, extra: set<string>)
    requires InStep(c) && Good(w) && forall n | n in extra :: IsToken(n)
    requires Abs(w).at.Keys <= Abs(c.origin).at.Keys + extra
    requires AllFollow(Abs(w), c.peers)
    ensures InStep(Cluster(w, c.peers))
  {
  }

  /** FOPEN stays at the origin. */
  lemma OpenStaysLocal(c: Cluster, req: seq<string>, choice: OS.OpenChoice)
    requires InStep(c) && AllTokens(req) && req != []
    ensures InStep(Cluster(Fopen(c.origin, req, choice).w, c.peers))
  {
    if |req| >= 2 {
      var s := Fopen(c.origin, req, choice);
      OpenIsExclusive(c.origin, req, choice);
      hide Fopen, Good, Follows;
      if Live(c.origin.tab, req[1]) {
        assert s.w == c.origin;
      } else if OS.Open(c.origin.os, req[1], choice).Some? {
        forall i | 0 <= i < |c.peers|
          ensures Follows(Abs(s.w), Abs(c.peers[i]))
        {
          FollowsOpen(Abs(c.origin), Abs(c.peers[i]), req[1]);
        }
        InStepAfter(c, s.w, {req[1]});
      } else {
        InStepAfter(c, s.w, {});
      }
    }
  }

  /** A request that is not announced changes no store, unless it is an FOPEN. */
  lemma OtherRequest(c: Cluster, req: seq<string>, choice: OS.OpenChoice, fates: seq<Fate>)
    requires InStep(c) && ClientRequest(req) && !Announced(c.origin, req) && |fates| == |c.peers|
    ensures InStep(ServeRequest(c, req, choice, fates).c)
    ensures ServeRequest(c, req, choice, fates).c.peers == c.peers
  {
    hide Good, Follows, NamesAreTokens, Atoi, Announced, Fopen, Fseek, Fread, Fwrite, Fclose;
    match req[0]
    case "FSEEK" =>
      LocalSeek(c.origin, req);
      SameWithoutChoice(c.origin, req, choice);
      InStepAfter(c, Handle(c.origin, req, choice).w, {});
    case "FREAD" =>
      LocalRead(c.origin, req);
      SameWithoutChoice(c.origin, req, choice);
      InStepAfter(c, Handle(c.origin, req, choice).w, {});
    case "FWRITE" =>
      LocalWrite(c.origin, req);
      SameWithoutChoice(c.origin, req, choice);
      InStepAfter(c, Handle(c.origin, req, choice).w, {});
    case "FCLOSE" =>
      LocalClose(c.origin, req);
    case "FOPEN" =>
      OpenStaysLocal(c, req, choice);
    case _ =>
  }

  /** Whatever a client asks the origin, the peers stay in step. */
  lemma RequestKeepsStep(c: Cluster, req: seq<string>, choice: OS.OpenChoice, fates: seq<Fate>)
    requires InStep(c) && ClientRequest(req) && |fates| == |c.peers| && Delivered(c, req, fates)
    ensures InStep(ServeRequest(c, req, choice, fates).c)
    ensures |ServeRequest(c, req, choice, fates).c.peers| == |c.peers|
  {
    hide InStep, Atoi, SyncLine, Delivered, ServeRequest;
    if Announced(c.origin, req) {
      AnnouncedRequest(c, req, choice, fates);
    } else {
      OtherRequest(c, req, choice, fates);
    }
  }

  // ----- Runs of a cluster -----

  datatype ClientEvent = ClientEvent(line: string, choice: OS.OpenChoice, fates: seq<Fate>)

  /** A line without a word ends the client's connection and changes nothing. */
  function ServeLine(c: Cluster, e: ClientEvent): (r: Cluster)
    requires |e.fates| == |c.peers|
    ensures |r.peers| == |c.peers|
  {
    if Tokens(e.line) == [] then c else ServeRequest(c, Tokens(e.line), e.choice, e.fates).c
  }

  /** Along the run every announced request is delivered, and no client sends a SYNC command. */
  ghost predicate Healthy(c: Cluster, events: seq<ClientEvent>)
    decreases events
  {
    events == [] ||
    (var e := events[0];
     && |e.fates| == |c.peers|
     && (Tokens(e.line) != [] ==> ClientRequest(Tokens(e.line)) && Delivered(c, Tokens(e.line), e.fates))
     && Healthy(ServeLine(c, e), events[1..]))
  }

  ghost function ServeAll(c: Cluster, events: seq<ClientEvent>): Cluster
    requires Healthy(c, events)
    decreases events
  {
    if events == [] then c else ServeAll(ServeLine(c, events[0]), events[1..])
  }

  lemma {:induction false} HealthyRunKeepsStep(c: Cluster, events: seq<ClientEvent>)
    requires InStep(c) && Healthy(c, events)
    ensures InStep(ServeAll(c, events)) && |ServeAll(c, events).peers| == |c.peers|
    decreases events
  {
    hide InStep, Delivered, ServeRequest, Tokens, ClientRequest;
    if events != [] {
      var e := events[0];
      if Tokens(e.line) != [] {
        RequestKeepsStep(c, Tokens(e.line), e.choice, e.fates);
      }
      HealthyRunKeepsStep(ServeLine(c, e), events[1..]);
    }
  }

  function Started(disk: map<string, string>): World {
    World(NO_TABLES, OS.Os(disk, map[]))
  }

  /** A cluster whose servers have just started, each on its own disk. */
  function StartCluster(disk: map<string, string>, peerDisks: seq<map<string, string>>): Cluster {
    Cluster(Started(disk), seq(|peerDisks|, i requires 0 <= i < |peerDisks| => Started(peerDisks[i])))
  }

  /** The offset of the descriptor a server has open on a name, 0 when it has none. */
  function Position(w: World, name: string): nat {
    if name in w.tab.nameToFd && w.tab.nameToFd[name] > 0 && w.tab.nameToFd[name] in w.os.fds
    then w.os.fds[w.tab.nameToFd[name]].offset
    else 0
  }

  ghost predicate Agree(o: World, p: World, name: string) {
    && OS.Content(o.os, name) == OS.Content(p.os, name)
    && (Live(p.tab, name) ==> Live(o.tab, name))
    && Position(o, name) == Position(p, name)
  }

  lemma PositionIs(w: World, name: string)
    requires Good(w)
    ensures Position(w, name) == if name in Abs(w).at then Abs(w).at[name] else 0
  {
  }

  lemma FollowsMeansAgreement(o: World, p: World, name: string)
    requires Good(o) && Good(p) && Follows(Abs(o), Abs(p))
    ensures Agree(o, p, name)
  {
    PositionIs(o, name);
    PositionIs(p, name);
    hide Good, Position;
    assert Abs(o).Content(name) == OS.Content(o.os, name) && Abs(p).Content(name) == OS.Content(p.os, name);
  }

  lemma InStepMeansAgreement(c: Cluster, i: nat, name: string)
    requires InStep(c) && i < |c.peers|
    ensures Agree(c.origin, c.peers[i], name)
  {
    hide Good, Follows, Agree;
    FollowsMeansAgreement(c.origin, c.peers[i], name);
  }

  lemma StartInStep(disk: map<string, string>, peerDisks: seq<map<string, string>>)
    requires forall i, n | 0 <= i < |peerDisks| ::
      OS.Content(OS.Os(peerDisks[i], map[]), n) == OS.Content(OS.Os(disk, map[]), n)
    ensures InStep(StartCluster(disk, peerDisks))
  {
    AbsIs(Started(disk), Files(disk, map[]));
    forall i | 0 <= i < |peerDisks|
      ensures Good(Started(peerDisks[i])) && Follows(Files(disk, map[]), Abs(Started(peerDisks[i])))
    {
      AbsIs(Started(peerDisks[i]), Files(peerDisks[i], map[]));
      assert forall n :: Files(disk, map[]).Content(n) == OS.Content(OS.Os(disk, map[]), n);
      assert forall n :: Files(peerDisks[i], map[]).Content(n) == OS.Content(OS.Os(peerDisks[i], map[]), n);
    }
  }

  /** Replicas started on equal contents agree, after any healthy sequence of client lines, on the
      content of every file and on its position -- whatever descriptors each was granted. What a peer
      has open the origin has open; a file only the origin has open stands at its start. */
  lemma PeersFollowOrigin(disk: map<string, string>, peerDisks: seq<map<string, string>>,
                          events: seq<ClientEvent>, i: nat, name: string)
    requires forall j, n | 0 <= j < |peerDisks| ::
      OS.Content(OS.Os(peerDisks[j], map[]), n) == OS.Content(OS.Os(disk, map[]), n)
    requires Healthy(StartCluster(disk, peerDisks), events) && i < |peerDisks|
    ensures var c := ServeAll(StartCluster(disk, peerDisks), events);
      |c.peers| == |peerDisks| && Agree(c.origin, c.peers[i], name)
  {
    hide InStep, Healthy, ServeAll, Agree;
    StartInStep(disk, peerDisks);
    HealthyRunKeepsStep(StartCluster(disk, peerDisks), events);
    InStepMeansAgreement(ServeAll(StartCluster(disk, peerDisks), events), i, name);
  }

  // ----- What the vote says about a replicated read -----

  function AnsweredCount(fates: seq<Fate>): nat {
    if fates == [] then 0
    else (if fates[0].Reached? && fates[0].answered then 1 else 0) + AnsweredCount(fates[1..])
  }

  function Repeat(s: string, n: nat): (r: seq<string>)
    ensures |r| == n
  {
    if n == 0 then [] else [s] + Repeat(s, n - 1)
  }

  lemma {:induction false} BallotsOfEqualReplies(replies: seq<string>, fates: seq<Fate>, reply: string)
    requires |replies| == |fates|
    requires forall i | 0 <= i < |fates| ::
      fates[i].Reached? && replies[i] == if fates[i].answered then reply else ""
    ensures Ballots(replies) ==
      match Ballot(reply) case None => [] case Some(kept) => Repeat(kept, AnsweredCount(fates))
  {
    hide Tokens, Stoi;
    if replies != [] {
      BallotsOfEqualReplies(replies[1..], fates[1..], reply);
    }
  }

  lemma PeersReadAlike(f: Files, peers: seq<World>, name: string, req: seq<string>, fates: seq<Fate>)
    requires AllFollow(f, peers) && name in f.at && IsToken(name) && |fates| == |peers|
    requires WellFormed(req) && req[0] == "FREAD" && AllTokens(req)
    requires |SyncLine(name, req)| <= LineReader.LINE_MAX
    requires forall i | 0 <= i < |fates| ::
      fates[i].Reached? && CanOpen(peers[i], name, Pick(fates[i].choices))
    ensures var replies := SyncPeers(peers, SyncLine(name, req), fates).1;
      forall i | 0 <= i < |fates| ::
        replies[i] == if fates[i].answered then Received(ReadReply(f.Bytes(name, Atoi(req[2])))) else ""
  {
    hide Good, Follows, Atoi, Tokens, IsToken, SyncLine, PeerStep, CanOpen, SyncPeers, ReadReply, Received;
    SyncLineRoundTrip(name, req);
    var replies := SyncPeers(peers, SyncLine(name, req), fates).1;
    forall i | 0 <= i < |fates|
      ensures replies[i] == if fates[i].answered then Received(ReadReply(f.Bytes(name, Atoi(req[2])))) else ""
    {
      PeerReads(f, peers[i], name, req[2], SyncLine(name, req), fates[i]);
    }
  }

  /** What the origin sends after a read that its peers were asked about. */
  lemma ReadAnswer(c: Cluster, req: seq<string>, choice: OS.OpenChoice, fates: seq<Fate>)
    requires Good(c.origin) && NamesAreTokens(c.origin) && Announced(c.origin, req) && req[0] == "FREAD"
    requires c.peers != [] && |fates| == |c.peers|
    ensures Atoi(req[1]) in c.origin.tab.fdToName && c.origin.tab.fdToName[Atoi(req[1])] in Abs(c.origin).at
    ensures var name := c.origin.tab.fdToName[Atoi(req[1])];
      var bytes := Abs(c.origin).Bytes(name, Atoi(req[2]));
      var replies := SyncPeers(c.peers, SyncLine(name, req), fates).1;
      && |bytes| <= Atoi(req[2])
      && ServeRequest(c, req, choice, fates).sent ==
           if Accepts(|bytes|, replies) then ReadReply(bytes) + PeerLines(Ballots(replies))
           else SyncFailReply("ER-SYNC")
  {
    LocalRead(c.origin, req);
    hide Good, NamesAreTokens, Follows, Atoi, AllTokens, SyncLine, SyncPeers, Handle, BuildSync, FileReply,
         OS.CString, Accepts, Ballots, PeerLines, SyncFailReply;
    SameWithoutChoice(c.origin, req, choice);
  }

  /** The ballots of peers that all read the same bytes. */
  lemma BallotsOfAlikeReads(bytes: string, replies: seq<string>, fates: seq<Fate>)
    requires |bytes| <= INT_MAX && |replies| == |fates|
    requires forall i | 0 <= i < |fates| ::
      fates[i].Reached? && replies[i] == if fates[i].answered then ReadReply(bytes) else ""
    ensures Ballots(replies) ==
      if bytes != "" && Countable(OS.CString(bytes))
      then Repeat(IntToString(|bytes|) + " " + FirstWord(OS.CString(bytes)), AnsweredCount(fates))
      else []
  {
    hide Tokens, Ballot, FileReply, OS.CString, IntToString, FirstWord, Repeat, AnsweredCount, Ballots;
    BallotOfFileReply(|bytes|, if bytes == "" then "END-OF-FILE" else OS.CString(bytes));
    BallotsOfEqualReplies(replies, fates, ReadReply(bytes));
  }

  lemma ClusterReadsAlike(c: Cluster, req: seq<string>, fates: seq<Fate>)
    requires InStep(c) && ClientRequest(req) && Announced(c.origin, req) && req[0] == "FREAD"
    requires |fates| == |c.peers| && Delivered(c, req, fates)
    ensures Atoi(req[1]) in c.origin.tab.fdToName && c.origin.tab.fdToName[Atoi(req[1])] in Abs(c.origin).at
    ensures var name := c.origin.tab.fdToName[Atoi(req[1])];
      var replies := SyncPeers(c.peers, SyncLine(name, req), fates).1;
      forall i | 0 <= i < |fates| ::
        && fates[i].Reached?
        && replies[i] == if fates[i].answered
                         then Received(ReadReply(Abs(c.origin).Bytes(name, Atoi(req[2])))) else ""
  {
    OriginDescriptor(c.origin, Atoi(req[1]));
    hide Good, NamesAreTokens, Follows, Atoi, AllTokens, SyncLine, SyncPeers, ReadReply, IsToken, CanOpen, Received;
    PeersReadAlike(Abs(c.origin), c.peers, c.origin.tab.fdToName[Atoi(req[1])], req, fates);
  }

  /** The vote on them: what is left to decide is whether they count at all, and how many answered. */
  lemma VoteOnAlikeReads(bytes: string, replies: seq<string>, fates: seq<Fate>)
    requires |bytes| <= INT_MAX && |replies| == |fates| && fates != []
    requires forall i | 0 <= i < |fates| ::
      fates[i].Reached? && replies[i] == if fates[i].answered then ReadReply(bytes) else ""
    ensures Accepts(|bytes|, replies) <==>
      bytes != "" && Countable(OS.CString(bytes)) && 2 * (1 + AnsweredCount(fates)) > 1 + |fates|
  {
    BallotsOfAlikeReads(bytes, replies, fates);
    hide Ballots, OS.CString, FirstWord, IntToString, ReadReply, AnsweredCount, Countable;
  }

  /** The verdict on a read in a cluster that is in step and reached: it depends only on how many peers
      answered in time and on whether the content read has a word in it or is one space, which the printer
      replaces by a message. A read at end of file, or of other white space only, is refused however
      healthy the peers are. */
  lemma ReadVerdict(c: Cluster, req: seq<string>, choice: OS.OpenChoice, fates: seq<Fate>)
    requires InStep(c) && ClientRequest(req) && Announced(c.origin, req) && req[0] == "FREAD"
    requires c.peers != [] && |fates| == |c.peers| && Delivered(c, req, fates)
    requires Atoi(req[1]) in c.origin.tab.fdToName
    requires c.origin.tab.fdToName[Atoi(req[1])] in Abs(c.origin).at
    requires |ReadReply(Abs(c.origin).Bytes(c.origin.tab.fdToName[Atoi(req[1])], Atoi(req[2])))| < REPLY_MAX
    ensures var bytes := Abs(c.origin).Bytes(c.origin.tab.fdToName[Atoi(req[1])], Atoi(req[2]));
      ServeRequest(c, req, choice, fates).sent ==
        if bytes != "" && Countable(OS.CString(bytes)) && 2 * (1 + AnsweredCount(fates)) > 1 + |fates|
        then ReadReply(bytes)
             + PeerLines(Repeat(IntToString(|bytes|) + " " + FirstWord(OS.CString(bytes)), AnsweredCount(fates)))
        else SyncFailReply("ER-SYNC")
  {
    var name := c.origin.tab.fdToName[Atoi(req[1])];
    var bytes := Abs(c.origin).Bytes(name, Atoi(req[2]));
    ReadAnswer(c, req, choice, fates);
    ClusterReadsAlike(c, req, fates);
    assert Received(ReadReply(bytes)) == ReadReply(bytes);
    var replies := SyncPeers(c.peers, SyncLine(name, req), fates).1;
    hide InStep, ClientRequest, Announced, Delivered, Received, Atoi, SyncLine, SyncPeers, ReadReply, OS.CString,
         OS.Slice, Accepts, Ballots, PeerLines, SyncFailReply, ServeRequest, Countable, FirstWord, IntToString,
         AnsweredCount, Repeat;
    BallotsOfAlikeReads(bytes, replies, fates);
    VoteOnAlikeReads(bytes, replies, fates);
  }
}
