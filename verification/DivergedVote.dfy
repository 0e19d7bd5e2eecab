/** The vote on a read when the peers need not be in step: replicas are counted, not compared. */
module DivergedVote {
  import opened Text
  import opened FileOperations
  import opened TableConsistency
  import opened RequestRuns
  import opened ServerResponse
  import opened MajorityVote
  import opened Replication
  import opened Simulation
  import opened Divergence
  import LineReader
  import OS = OperatingSystem

  /** What a peer reads: its own content, at its own position, or at the start if it has yet to open the
      file. */
  ghost function PeerBytes(p: World, name: string, n: nat): string
    requires Good(p)
  {
    Opened(Abs(p), name).Bytes(name, n)
  }

  /** What a peer contributes to the vote, and to the answer if it passes. */
  ghost function Opinion(p: World, name: string, n: nat, fate: Fate): Option<string>
    requires Good(p)
  {
    if fate.Reached? && fate.answered && CanOpen(p, name, Pick(fate.choices))
       && PeerBytes(p, name, n) != "" && Countable(OS.CString(PeerBytes(p, name, n)))
    then Some(IntToString(|PeerBytes(p, name, n)|) + " " + FirstWord(OS.CString(PeerBytes(p, name, n))))
    else None
  }

  ghost function Opinions(peers: seq<World>, name: string, n: nat, fates: seq<Fate>): seq<string>
    requires |peers| == |fates| && forall i | 0 <= i < |peers| :: Good(peers[i])
  {
    if peers == [] then []
    else
      (match Opinion(peers[0], name, n, fates[0]) case None => [] case Some(kept) => [kept])
      + Opinions(peers[1..], name, n, fates[1..])
  }

  lemma FollowsItsOwnOpening(g: Files, name: string)
    ensures Follows(Opened(g, name), g) && name in Opened(g, name).at
  {
  }

  lemma RefusedReply(p: World, req: seq<string>, choice: OS.OpenChoice)
    requires Good(p) && |req| >= 3 && req[0] == "SYNCREAD" && !CanOpen(p, req[1], choice)
    ensures Handle(p, req, choice).out == Threw(OPEN_ERROR)
  {
    SyncDispatch(p, req, choice);
    SyncStopsEarly(p, req, choice);
    hide Good, EnsureOpen, SyncRead, CanOpen, Handle;
  }

  lemma SyncReadLine(name: string, req: seq<string>)
    requires WellFormed(req) && req[0] == "FREAD" && AllTokens(req) && IsToken(name)
    ensures var line := SyncLine(name, req);
      Tokens(line) == ["SYNCREAD", name, req[2]] && line != "" && '\n' !in line
  {
    hide Tokens, Atoi, IsToken, AllTokens;
    SyncLineRoundTrip(name, req);
    assert [SyncCommand(req[0]), name] + [req[2]] == ["SYNCREAD", name, req[2]];
  }

  lemma OpenedReply(p: World, name: string, k: string, line: string, fate: Fate)
    requires Good(p) && Atoi(k) > 0 && fate.Reached? && fate.answered && CanOpen(p, name, Pick(fate.choices))
    requires 0 < |line| <= LineReader.LINE_MAX && '\n' !in line && Tokens(line) == ["SYNCREAD", name, k]
    ensures PeerStep(p, line, fate).1 == Received(ReadReply(PeerBytes(p, name, Atoi(k))))
  {
    hide *;
    FollowsItsOwnOpening(Abs(p), name);
    PeerBytesIs(p, name, Atoi(k));
    PeerReads(Opened(Abs(p), name), p, name, k, line, fate);
  }

  lemma OpenedBallot(p: World, name: string, k: string, line: string, fate: Fate)
    requires Good(p) && Atoi(k) > 0 && fate.Reached? && fate.answered && CanOpen(p, name, Pick(fate.choices))
    requires 0 < |line| <= LineReader.LINE_MAX && '\n' !in line && Tokens(line) == ["SYNCREAD", name, k]
    requires |ReadReply(PeerBytes(p, name, Atoi(k)))| < REPLY_MAX
    ensures Ballot(PeerStep(p, line, fate).1) == Opinion(p, name, Atoi(k), fate)
  {
    var bytes := PeerBytes(p, name, Atoi(k));
    assert Received(ReadReply(bytes)) == ReadReply(bytes);
    hide *;
    OpenedReply(p, name, k, line, fate);
    OpinionIs(p, name, Atoi(k), fate);
    BytesInRange(p, name, Atoi(k));
    BallotOfRead(bytes);
  }

  lemma RefusedBallot(p: World, name: string, k: string, line: string, fate: Fate)
    requires Good(p) && Atoi(k) > 0 && fate.Reached? && fate.answered && !CanOpen(p, name, Pick(fate.choices))
    requires 0 < |line| <= LineReader.LINE_MAX && '\n' !in line && Tokens(line) == ["SYNCREAD", name, k]
    ensures Ballot(PeerStep(p, line, fate).1) == Opinion(p, name, Atoi(k), fate)
  {
    hide *;
    OpinionIs(p, name, Atoi(k), fate);
    RefusedReply(p, Tokens(line), Pick(fate.choices));
    PeerHandlesLine(p, line, fate);
    BallotOfRefusal(Handle(p, Tokens(line), Pick(fate.choices)));
  }

  lemma OpinionIs(p: World, name: string, n: nat, fate: Fate)
    requires Good(p) && fate.Reached? && fate.answered
    ensures var bytes := PeerBytes(p, name, n);
      Opinion(p, name, n, fate) ==
        if CanOpen(p, name, Pick(fate.choices)) && bytes != "" && Countable(OS.CString(bytes))
        then Some(IntToString(|bytes|) + " " + FirstWord(OS.CString(bytes))) else None
  {
    hide PeerBytes, CanOpen, Countable, FirstWord, IntToString, OS.CString;
  }

  /** A reply is worth what the peer's own read is worth. */
  lemma BallotIsOpinion(p: World, name: string, req: seq<string>, fate: Fate)
    requires Good(p) && WellFormed(req) && req[0] == "FREAD" && AllTokens(req) && IsToken(name)
    requires |SyncLine(name, req)| <= LineReader.LINE_MAX
    requires |ReadReply(PeerBytes(p, name, Atoi(req[2])))| < REPLY_MAX
    ensures Ballot(PeerStep(p, SyncLine(name, req), fate).1) == Opinion(p, name, Atoi(req[2]), fate)
  {
    hide Good, Atoi, SyncLine, PeerBytes, PeerStep, Ballot, CanOpen, Countable, FirstWord, IntToString, OS.CString,
         ReadReply, Tokens, IsToken, AllTokens;
    if fate.Reached? && fate.answered {
      SyncReadLine(name, req);
      if CanOpen(p, name, Pick(fate.choices)) {
        OpenedBallot(p, name, req[2], SyncLine(name, req), fate);
      } else {
        RefusedBallot(p, name, req[2], SyncLine(name, req), fate);
      }
    } else {
      BallotOfFailure();
      UnansweredIsSilent(p, SyncLine(name, req), fate);
    }
  }

  lemma PeerBytesIs(p: World, name: string, n: nat)
    requires Good(p)
    ensures PeerBytes(p, name, n) == Opened(Abs(p), name).Bytes(name, n)
  {
  }

  lemma BytesInRange(p: World, name: string, n: nat)
    requires Good(p) && n <= INT_MAX
    ensures |PeerBytes(p, name, n)| <= INT_MAX
  {
  }

  lemma UnansweredIsSilent(p: World, line: string, fate: Fate)
    requires !(fate.Reached? && fate.answered)
    ensures PeerStep(p, line, fate).1 in ["", "ER-SYNC-CONN"]
  {
    hide Serve, LineReader.ReadAll;
  }

  lemma BallotOfRefusal(s: Step)
    requires s.out == Threw(OPEN_ERROR)
    ensures Ballot(Received(ReplyText(s))) == None
  {
    BallotOfFailure();
    assert Received(FailReply(OPEN_ERROR)) == FailReply(OPEN_ERROR);
  }

  lemma BallotOfRead(bytes: string)
    requires |bytes| <= INT_MAX
    ensures Ballot(ReadReply(bytes)) ==
      if bytes != "" && Countable(OS.CString(bytes))
      then Some(IntToString(|bytes|) + " " + FirstWord(OS.CString(bytes))) else None
  {
    hide Ballot, FileReply, OS.CString, IntToString, FirstWord, Countable;
    BallotOfFileReply(|bytes|, if bytes == "" then "END-OF-FILE" else OS.CString(bytes));
  }

  lemma {:induction false} BallotsAreOpinions(peers: seq<World>, name: string, req: seq<string>, fates: seq<Fate>)
    requires |peers| == |fates| && forall i | 0 <= i < |peers| :: Good(peers[i])
    requires WellFormed(req) && req[0] == "FREAD" && AllTokens(req) && IsToken(name)
    requires |SyncLine(name, req)| <= LineReader.LINE_MAX
    requires forall i | 0 <= i < |peers| :: |ReadReply(PeerBytes(peers[i], name, Atoi(req[2])))| < REPLY_MAX
    ensures Ballots(SyncPeers(peers, SyncLine(name, req), fates).1) == Opinions(peers, name, Atoi(req[2]), fates)
  {
    hide Good, Atoi, AllTokens, IsToken, SyncLine, ReadReply, PeerBytes, PeerStep, Ballot, Opinion;
    if peers != [] {
      BallotIsOpinion(peers[0], name, req, fates[0]);
      BallotsAreOpinions(peers[1..], name, req, fates[1..]);
      var first, rest := PeerStep(peers[0], SyncLine(name, req), fates[0]).1,
                         SyncPeers(peers[1..], SyncLine(name, req), fates[1..]).1;
      assert SyncPeers(peers, SyncLine(name, req), fates).1 == [first] + rest;
      assert ([first] + rest)[1..] == rest;
    }
  }

  /** The answer to a read whatever the peers hold: the origin's own bytes, if enough replicas could read
      anything countable -- not the same bytes -- of the file; what each of them read is not looked at. */
  lemma VerdictComparesNothing(c: Cluster, req: seq<string>, choice: OS.OpenChoice, fates: seq<Fate>)
    requires Good(c.origin) && NamesAreTokens(c.origin) && forall i | 0 <= i < |c.peers| :: Good(c.peers[i])
    requires AllTokens(req) && Announced(c.origin, req) && req[0] == "FREAD"
    requires c.peers != [] && |fates| == |c.peers| && Atoi(req[1]) in c.origin.tab.fdToName
    requires |SyncLine(c.origin.tab.fdToName[Atoi(req[1])], req)| <= LineReader.LINE_MAX
    requires forall i | 0 <= i < |c.peers| ::
      |ReadReply(PeerBytes(c.peers[i], c.origin.tab.fdToName[Atoi(req[1])], Atoi(req[2])))| < REPLY_MAX
    ensures c.origin.tab.fdToName[Atoi(req[1])] in Abs(c.origin).at
    ensures var name, n := c.origin.tab.fdToName[Atoi(req[1])], Atoi(req[2]);
      var bytes, opinions := Abs(c.origin).Bytes(name, n), Opinions(c.peers, name, n, fates);
      ServeRequest(c, req, choice, fates).sent ==
        if 2 * (1 + |opinions|) > 1 + |fates| then ReadReply(bytes) + PeerLines(opinions) else SyncFailReply("ER-SYNC")
  {
    var name := c.origin.tab.fdToName[Atoi(req[1])];
    ReadAnswer(c, req, choice, fates);
    OriginDescriptor(c.origin, Atoi(req[1]));
    hide Good, NamesAreTokens, Atoi, AllTokens, IsToken, SyncLine, SyncPeers, ReadReply, PeerBytes, Opinions, Ballots,
         PeerLines, SyncFailReply, ServeRequest, OS.Slice;
    BallotsAreOpinions(c.peers, name, req, fates);
  }
}
