/** Concrete runs of a replicated server that go wrong, from its start: one origin and one peer, each with
    file "a" on its disk, and a client that has opened it on descriptor 5. */
module ReplicaWitnesses {
  import opened Text
  import opened FileOperations
  import opened TableConsistency
  import opened RequestRuns
  import opened ServerResponse
  import opened MajorityVote
  import opened Replication
  import opened Simulation
  import opened Divergence
  import opened DivergedVote
  import LineReader
  import OS = OperatingSystem

  function Disk(content: string): map<string, string> {
    map["a" := content]
  }

  /** The cluster after the client's first line. */
  function AfterOpen(content: string): Cluster {
    ServeRequest(StartCluster(Disk(content), [Disk(content)]), ["FOPEN", "a"], OS.Grant(5), [Unreachable]).c
  }

  function OriginWorld(content: string): World {
    World(Tables([5], map[5 := "a"], map["a" := 5], map[]), OS.Os(Disk(content), map[5 := OS.Descriptor("a", 0)]))
  }

  lemma FirstOpen(content: string)
    ensures Fopen(Started(Disk(content)), ["FOPEN", "a"], OS.Grant(5)).w == OriginWorld(content)
  {
    assert Disk(content)["a" := content] == Disk(content);
  }

  lemma OpenStays(c: Cluster, req: seq<string>, choice: OS.OpenChoice, fates: seq<Fate>)
    requires req != [] && req[0] == "FOPEN" && |fates| == |c.peers|
    ensures ServeRequest(c, req, choice, fates).c == Cluster(Fopen(c.origin, req, choice).w, c.peers)
  {
    hide Fopen;
  }

  /** A replicated server with file "a", of this content, open on 5 and at its start. */
  ghost predicate OneFileOpen(c: Cluster, content: string) {
    && InStep(c) && c.peers == [Started(Disk(content))]
    && c.origin.tab.openFiles == [5] && 5 in c.origin.tab.fdToName && c.origin.tab.fdToName[5] == "a"
    && Abs(c.origin) == Files(Disk(content), map["a" := 0])
  }

  lemma OriginStore(content: string)
    requires Good(OriginWorld(content))
    ensures Abs(OriginWorld(content)) == Files(Disk(content), map["a" := 0])
  {
    AbsIs(OriginWorld(content), Files(Disk(content), map["a" := 0]));
  }

  lemma StartIs(content: string)
    ensures StartCluster(Disk(content), [Disk(content)]) == Cluster(Started(Disk(content)), [Started(Disk(content))])
    ensures InStep(StartCluster(Disk(content), [Disk(content)])) && AllTokens(["FOPEN", "a"])
  {
    StartInStep(Disk(content), [Disk(content)]);
    assert StartCluster(Disk(content), [Disk(content)]).peers == [Started(Disk(content))];
  }

  /** The client's first request leads there. */
  lemma OpenedIs(content: string)
    ensures OneFileOpen(AfterOpen(content), content)
  {
    StartIs(content);
    FirstOpen(content);
    hide Fopen, ServeRequest, Follows, StartCluster, AllTokens, NamesAreTokens, Good, Started, Disk;
    var start := StartCluster(Disk(content), [Disk(content)]);
    OpenStays(start, ["FOPEN", "a"], OS.Grant(5), [Unreachable]);
    OpenStaysLocal(start, ["FOPEN", "a"], OS.Grant(5));
    OriginStore(content);
  }

  lemma DigitReadsBack(n: nat)
    requires n < 10
    ensures Atoi([('0' as int + n) as char]) == n
  {
    PrintedIntReadsBack(n);
    assert IntToString(n) == [('0' as int + n) as char];
  }

  /** A request on descriptor 5 is announced to the peer. */
  lemma OnDescriptor5(c: Cluster, content: string, req: seq<string>)
    requires OneFileOpen(c, content)
    requires |req| == 3 && req[0] in ["FSEEK", "FREAD", "FWRITE"] && req[1] == "5"
    requires req[0] == "FWRITE" || Atoi(req[2]) > 0
    ensures Announced(c.origin, req) && Atoi(req[1]) == 5
  {
    hide Atoi, InStep, Good;
    DigitReadsBack(5);
    assert 5 in c.origin.tab.openFiles;
  }

  lemma OnFileA(c: Cluster, content: string)
    requires OneFileOpen(c, content)
    ensures InStep(c) && |c.peers| == 1 && 5 in c.origin.tab.fdToName && c.origin.tab.fdToName[5] == "a"
  {
    hide InStep;
  }

  lemma ReadIsDelivered(c: Cluster, content: string, req: seq<string>, fate: Fate)
    requires OneFileOpen(c, content) && req == ["FREAD", "5", "9"] && Atoi(req[1]) == 5
    requires fate == Reached([OS.Grant(7)], true) && CanOpen(c.peers[0], "a", OS.Grant(7))
    ensures Delivered(c, req, [fate]) && ClientRequest(req)
  {
    OnFileA(c, content);
    assert Pick(fate.choices) == OS.Grant(7);
    ReadLine(req);
    hide OneFileOpen, InStep, Atoi, CanOpen, AllTokens, Announced, SyncLine;
  }

  lemma ReadLine(req: seq<string>)
    requires req == ["FREAD", "5", "9"]
    ensures AllTokens(req) && |SyncLine("a", req)| <= LineReader.LINE_MAX && ClientRequest(req)
  {
    hide Atoi;
  }

  lemma UncountableReadIsRefused(c: Cluster, req: seq<string>, fate: Fate, name: string, bytes: string)
    requires InStep(c) && ClientRequest(req) && Announced(c.origin, req) && req[0] == "FREAD"
    requires |c.peers| == 1 && Delivered(c, req, [fate])
    requires Atoi(req[1]) in c.origin.tab.fdToName && name == c.origin.tab.fdToName[Atoi(req[1])]
    requires name in Abs(c.origin).at && bytes == Abs(c.origin).Bytes(name, Atoi(req[2]))
    requires |ReadReply(bytes)| < REPLY_MAX && (bytes == "" || !Countable(OS.CString(bytes)))
    ensures ServeRequest(c, req, OS.Refuse, [fate]).sent == SyncFailReply("ER-SYNC")
  {
    hide *;
    ReadVerdict(c, req, OS.Refuse, [fate]);
  }

  /** What the client reads of a short file. */
  lemma WholeFileRead(c: Cluster, content: string)
    requires OneFileOpen(c, content) && |content| <= 9
    ensures "a" in Abs(c.origin).at && Abs(c.origin).Bytes("a", 9) == content
    ensures CanOpen(c.peers[0], "a", OS.Grant(7))
  {
    hide InStep, Good;
    assert content[0..|content|] == content;
  }

  lemma ShortReply(content: string)
    requires |content| <= 9
    ensures |ReadReply(content)| < REPLY_MAX
  {
    assert IntToString(|content|) == [('0' as int + |content|) as char];
  }

  /** A read of nothing countable is refused although the peer is there and answers. */
  lemma UncountableRefused(c: Cluster, content: string, req: seq<string>, fate: Fate)
    requires OneFileOpen(c, content) && req == ["FREAD", "5", "9"] && fate == Reached([OS.Grant(7)], true)
    requires |content| <= 9 && (content == "" || !Countable(OS.CString(content)))
    ensures ServeRequest(c, req, OS.Refuse, [fate]).sent == SyncFailReply("ER-SYNC")
  {
    hide *;
    ReadsFiveNine(req);
    WholeFileRead(c, content);
    ShortReply(content);
    OnDescriptor5(c, content, req);
    OnFileA(c, content);
    ReadIsDelivered(c, content, req, fate);
    UncountableReadIsRefused(c, req, fate, "a", content);
  }

  /** So is a read at end of file. */
  lemma EndOfFileRefused(c: Cluster, req: seq<string>, fate: Fate)
    requires OneFileOpen(c, "") && req == ["FREAD", "5", "9"] && fate == Reached([OS.Grant(7)], true)
    ensures ServeRequest(c, req, OS.Refuse, [fate]).sent == SyncFailReply("ER-SYNC")
  {
    hide *;
    UncountableRefused(c, "", req, fate);
  }

  /** And one of white space only. */
  lemma BlankReadRefused(c: Cluster, content: string, req: seq<string>, fate: Fate)
    requires OneFileOpen(c, content) && content == "  " && req == ["FREAD", "5", "9"]
    requires fate == Reached([OS.Grant(7)], true)
    ensures ServeRequest(c, req, OS.Refuse, [fate]).sent == SyncFailReply("ER-SYNC")
  {
    BlankIsUncountable(content);
    assert |content| <= 9;
    hide *;
    UncountableRefused(c, content, req, fate);
  }

  lemma BlankIsUncountable(content: string)
    requires content == "  "
    ensures !Countable(OS.CString(content))
  {
    hide Tokens;
    TokensOfBlank(content);
    assert OS.CString(content) == content;
  }

  lemma ReadsFiveNine(req: seq<string>)
    requires req == ["FREAD", "5", "9"]
    ensures Atoi(req[1]) == 5 && Atoi(req[2]) == 9
  {
    hide Atoi;
    DigitReadsBack(9);
    DigitReadsBack(5);
    assert "9" == [('0' as int + 9) as char] && "5" == [('0' as int + 5) as char];
  }

  lemma WriteTokens(req: seq<string>)
    requires |req| == 3 && req[0] == "FWRITE" && req[1] == "5" && IsToken(req[2])
    ensures AllTokens(req) && |SyncLine("a", req)| == 12 + |req[2]|
  {
  }

  /** The client writes `data`. */
  lemma WriteOutcome(c: Cluster, content: string, req: seq<string>, fate: Fate)
    requires OneFileOpen(c, content) && |req| == 3 && req[0] == "FWRITE" && req[1] == "5" && IsToken(req[2])
    ensures var s := ServeRequest(c, req, OS.Refuse, [fate]);
      && s.sent == FileReply(|req[2]|, " ") && |s.c.peers| == 1
      && (Agree(s.c.origin, s.c.peers[0], "a") <==>
            && fate.Reached? && CanOpen(c.peers[0], "a", Pick(fate.choices))
            && 12 + |req[2]| <= LineReader.LINE_MAX)
  {
    OnDescriptor5(c, content, req);
    OnFileA(c, content);
    WriteTokens(req);
    hide *;
    FireAndForget(c, req, OS.Refuse, [fate]);
    WriteFollowsIffLineFits(c, req, OS.Refuse, [fate], 0);
  }

  /** The client is told of success while the only peer is not reached, and the peer disagrees. */
  lemma LostWriteSucceeds(c: Cluster, content: string, req: seq<string>)
    requires OneFileOpen(c, content) && req == ["FWRITE", "5", "hi"]
    ensures var s := ServeRequest(c, req, OS.Refuse, [Unreachable]);
      s.sent == FileReply(2, " ") && |s.c.peers| == 1 && !Agree(s.c.origin, s.c.peers[0], "a")
  {
    assert IsToken(req[2]);
    assert |req| == 3 && req[0] == "FWRITE" && req[1] == "5" && |req[2]| == 2;
    hide *;
    WriteOutcome(c, content, req, Unreachable);
  }

  /** So it is if the peer is reached and cannot open the file. */
  lemma RefusedWriteSucceeds(c: Cluster, content: string, req: seq<string>, fate: Fate)
    requires OneFileOpen(c, content) && req == ["FWRITE", "5", "hi"] && fate == Reached([OS.Refuse], true)
    ensures var s := ServeRequest(c, req, OS.Refuse, [fate]);
      s.sent == FileReply(2, " ") && |s.c.peers| == 1 && !Agree(s.c.origin, s.c.peers[0], "a")
  {
    assert IsToken(req[2]);
    assert |req| == 3 && req[0] == "FWRITE" && req[1] == "5" && |req[2]| == 2;
    OnFileA(c, content);
    PeerRefuses(c, content);
    assert Pick(fate.choices) == OS.Refuse;
    hide *;
    WriteOutcome(c, content, req, fate);
  }

  lemma PeerRefuses(c: Cluster, content: string)
    requires OneFileOpen(c, content)
    ensures !CanOpen(c.peers[0], "a", OS.Refuse)
  {
    hide InStep;
  }

  /** A client line as long as the buffer, 255 characters, makes a sync line of 258: the peer is reached,
      opens the file and answers, and disagrees. */
  lemma LongWriteSucceeds(c: Cluster, content: string, req: seq<string>, fate: Fate)
    requires OneFileOpen(c, content) && fate == Reached([OS.Grant(7)], true)
    requires |req| == 3 && req[0] == "FWRITE" && req[1] == "5" && req[2] == seq(246, _ => 'x')
    ensures var line := req[0] + " " + req[1] + (" " + req[2]); |line| == LineReader.LINE_MAX && Tokens(line) == req
    ensures var s := ServeRequest(c, req, OS.Refuse, [fate]);
      s.sent == FileReply(246, " ") && |s.c.peers| == 1 && !Agree(s.c.origin, s.c.peers[0], "a")
  {
    assert IsToken(req[0]) && IsToken(req[1]) && IsToken(req[2]);
    assert req == [req[0], req[1], req[2]] && |req[2]| == 246;
    assert |req[0] + " " + req[1] + (" " + req[2])| == LineReader.LINE_MAX;
    hide *;
    TokensOfThreeWords(req[0], req[1], req[2]);
    WriteOutcome(c, content, req, fate);
  }

  // ----- A vote for different bytes -----

  /** The same server when the client has sought to 1 and the peer has not heard of it. */
  ghost predicate SoughtAlone(c: Cluster, content: string) {
    && c.peers == [Started(Disk(content))]
    && Good(c.origin) && NamesAreTokens(c.origin) && Abs(c.origin) == Files(Disk(content), map["a" := 1])
    && c.origin.tab.openFiles == [5] && 5 in c.origin.tab.fdToName && c.origin.tab.fdToName[5] == "a"
  }

  lemma OneToken(w: World, content: string)
    requires Good(w) && Abs(w) == Files(Disk(content), map["a" := 1])
    ensures NamesAreTokens(w)
  {
    hide Good;
  }

  lemma SoughtOne(w: World, content: string)
    requires Good(w) && Abs(w) == Files(Disk(content), map["a" := 0])
    requires w.tab.openFiles == [5] && 5 in w.tab.fdToName && w.tab.fdToName[5] == "a"
    ensures SoughtAlone(Cluster(SeekFd(w, 5, 1).w, [Started(Disk(content))]), content)
  {
    var w1 := SeekFd(w, 5, 1).w;
    SeekRefines(w, 5, 1);
    assert 5 in w.tab.openFiles && 5 in w1.tab.fdToName;
    assert Abs(w).Seek("a", 1) == Files(Disk(content), map["a" := 1]) by {
      assert map["a" := 0]["a" := 1] == map["a" := 1];
    }
    hide Good, SeekFd, Disk, Started, NamesAreTokens;
    OneToken(w1, content);
  }

  lemma SeekIsHandled(w: World, req: seq<string>)
    requires |req| == 3 && req[0] == "FSEEK" && Atoi(req[1]) == 5 && Atoi(req[2]) == 1
    ensures Handle(w, req, OS.Refuse).w == SeekFd(w, 5, 1).w
  {
    hide Atoi, SeekFd;
  }

  lemma LostSeek(c: Cluster, req: seq<string>, content: string)
    requires OneFileOpen(c, content) && req == ["FSEEK", "5", "1"] && Atoi(req[1]) == 5 && Atoi(req[2]) == 1
    ensures ServeRequest(c, req, OS.Refuse, [Unreachable]).c == Cluster(SeekFd(c.origin, 5, 1).w, c.peers)
  {
    assert |req| == 3 && req[0] == "FSEEK" && AllTokens(req) && req[1] == "5";
    hide *;
    SeekIsHandled(c.origin, req);
    OnDescriptor5(c, content, req);
    OnFileA(c, content);
    MissedPeers(c.peers, SyncLine("a", req));
    AnnouncedEffect(c, req, OS.Refuse, [Unreachable]);
  }

  lemma MissedPeers(peers: seq<World>, line: string)
    requires |peers| == 1
    ensures SyncPeers(peers, line, [Unreachable]).0 == peers
  {
    assert SyncPeers(peers[1..], line, [Unreachable][1..]).0 == [];
  }

  lemma PeerHoldsX(p: World, content: string)
    requires p == Started(Disk(content)) && content == "xy"
    ensures Good(p) && PeerBytes(p, "a", 1) == "x" && CanOpen(p, "a", OS.Grant(7))
  {
    AbsIs(p, Files(Disk(content), map[]));
    assert content[0..1] == "x";
  }

  lemma CountableX()
    ensures OS.CString("x") == "x" && Countable("x") && FirstWord("x") == "x" && IntToString(1) + " " + "x" == "1 x"
  {
    OneLetterWord();
    hide Tokens;
    assert IntToString(1) == "1";
  }

  lemma PeerReadsX(p: World, content: string, fate: Fate)
    requires p == Started(Disk(content)) && content == "xy" && fate == Reached([OS.Grant(7)], true)
    ensures Good(p) && PeerBytes(p, "a", 1) == "x" && Opinion(p, "a", 1, fate) == Some("1 x")
  {
    PeerHoldsX(p, content);
    CountableX();
    hide Good, PeerBytes, CanOpen, Tokens, Countable, FirstWord, IntToString, OS.CString, Started, Disk;
  }

  lemma OneLetterWord()
    ensures Tokens("x") == ["x"]
  {
    TokensOfWord("", "x", "");
    TokensOfBlank("");
    assert "" + "x" + "" == "x";
  }

  lemma ReadOnItsOwn(c: Cluster, content: string, read: seq<string>)
    requires SoughtAlone(c, content) && content == "xy" && read == ["FREAD", "5", "1"]
    requires Atoi(read[1]) == 5 && Atoi(read[2]) == 1
    ensures Good(c.origin) && NamesAreTokens(c.origin) && c.peers == [Started(Disk(content))]
    ensures AllTokens(read) && Announced(c.origin, read) && |SyncLine("a", read)| <= LineReader.LINE_MAX
    ensures 5 in c.origin.tab.fdToName && c.origin.tab.fdToName[5] == "a"
    ensures "a" in Abs(c.origin).at && Abs(c.origin).Bytes("a", 1) == "y"
  {
    assert content[1..2] == "y";
    hide Atoi, Good, NamesAreTokens;
  }

  lemma VoteOfOne(c: Cluster, read: seq<string>, fate: Fate)
    requires Good(c.origin) && NamesAreTokens(c.origin) && |c.peers| == 1 && Good(c.peers[0])
    requires AllTokens(read) && Announced(c.origin, read) && read[0] == "FREAD" && Atoi(read[1]) == 5 && Atoi(read[2]) == 1
    requires 5 in c.origin.tab.fdToName && c.origin.tab.fdToName[5] == "a"
    requires "a" in Abs(c.origin).at && Abs(c.origin).Bytes("a", 1) == "y"
    requires |SyncLine("a", read)| <= LineReader.LINE_MAX
    requires PeerBytes(c.peers[0], "a", 1) == "x" && |ReadReply("x")| < REPLY_MAX
    requires Opinions(c.peers, "a", 1, [fate]) == ["1 x"]
    ensures ServeRequest(c, read, OS.Refuse, [fate]).sent == ReadReply("y") + PeerLines(["1 x"])
  {
    hide *;
    VerdictComparesNothing(c, read, OS.Refuse, [fate]);
  }

  /** After a lost FSEEK the origin reads "y" and its only peer "x"; the vote passes, and the client is shown
      both. */
  lemma DifferentBytesAccepted(c: Cluster, seek: seq<string>, read: seq<string>, fate: Fate, content: string)
    requires OneFileOpen(c, content) && content == "xy" && seek == ["FSEEK", "5", "1"] && read == ["FREAD", "5", "1"]
    requires fate == Reached([OS.Grant(7)], true)
    ensures var c1 := ServeRequest(c, seek, OS.Refuse, [Unreachable]).c;
      |c1.peers| == 1 && ServeRequest(c1, read, OS.Refuse, [fate]).sent == ReadReply("y") + PeerLines(["1 x"])
  {
    assert |seek| == 3 && seek[1] == "5" && seek[2] == "1" && |read| == 3 && read[1] == "5" && read[2] == "1";
    assert read[0] == "FREAD" && |"x"| == 1;
    var c1 := ServeRequest(c, seek, OS.Refuse, [Unreachable]).c;
    OpenFacts(c, content);
    hide *;
    ReadsFiveOne(seek);
    ReadsFiveOne(read);
    LostSeek(c, seek, content);
    SoughtOne(c.origin, content);
    ReadOnItsOwn(c1, content, read);
    PeerReadsX(c1.peers[0], content, fate);
    OneOpinion(c1.peers, fate);
    ShortReply("x");
    VoteOfOne(c1, read, fate);
  }

  lemma OpenFacts(c: Cluster, content: string)
    requires OneFileOpen(c, content)
    ensures Good(c.origin) && Abs(c.origin) == Files(Disk(content), map["a" := 0])
    ensures c.origin.tab.openFiles == [5] && 5 in c.origin.tab.fdToName && c.origin.tab.fdToName[5] == "a"
    ensures c.peers == [Started(Disk(content))]
  {
    hide Good;
  }

  lemma OneOpinion(peers: seq<World>, fate: Fate)
    requires |peers| == 1 && Good(peers[0]) && Opinion(peers[0], "a", 1, fate) == Some("1 x")
    ensures Opinions(peers, "a", 1, [fate]) == ["1 x"]
  {
    hide Opinion, Good;
    assert Opinions(peers[1..], "a", 1, [fate][1..]) == [];
  }

  lemma ReadsFiveOne(req: seq<string>)
    requires |req| == 3 && req[1] == "5" && req[2] == "1"
    ensures Atoi(req[1]) == 5 && Atoi(req[2]) == 1
  {
    hide Atoi;
    DigitReadsBack(1);
    DigitReadsBack(5);
    assert "1" == [('0' as int + 1) as char] && "5" == [('0' as int + 5) as char];
  }
}
