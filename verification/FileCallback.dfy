/** One client connection at the origin: the dispatch of `FileCallback` over the file client, the
    messages to the peers, and what is sent back. */
module FileCallback {
  import opened Text
  import opened FileOperations
  import opened MajorityVote
  import opened Replication
  import FC = FileClient
  import SR = ServerResponse
  import LineReader
  import OS = OperatingSystem

  /** State and output after the callback has served what is left of a connection. */
  function WholeConnection(c: Cluster, sent: string, input: seq<LineReader.Event>, turns: seq<Turn>): (Cluster, string) {
    var (c1, text) := ServeLines(c, LineReader.ReadAll(input, LineReader.LINE_MAX).0, turns);
    (c1, sent + text)
  }

  lemma WholeConnectionUnfolds(c: Cluster, sent: string, input: seq<LineReader.Event>, turns: seq<Turn>)
    ensures var l := LineReader.ReadLine(input, LineReader.LINE_MAX);
      && (l.code >= 0 ==> |l.rest| < |input|)
      && WholeConnection(c, sent, input, turns) ==
           if l.code < 0 || Tokens(l.text) == [] then (c, sent)
           else
             var t := TurnFor(turns, |c.peers|);
             var s := ServeRequest(c, Tokens(l.text), t.choice, t.fates);
             if s.waits then (s.c, sent + s.sent)
             else WholeConnection(s.c, sent + s.sent, l.rest, LaterTurns(turns))
  {
    hide Tokens, ServeRequest, LineReader.ReadLine, TurnFor, LaterTurns, ServeLines;
    LineReader.ReadLineConserves(input, LineReader.LINE_MAX);
    var l := LineReader.ReadLine(input, LineReader.LINE_MAX);
    var lines := LineReader.ReadAll(input, LineReader.LINE_MAX).0;
    ServeFirst(c, sent, lines, turns);
    if l.code >= 0 {
      assert lines[0] == l && lines[1..] == LineReader.ReadAll(l.rest, LineReader.LINE_MAX).0;
    }
  }

  lemma ServeFirst(c: Cluster, sent: string, lines: seq<LineReader.Line>, turns: seq<Turn>)
    ensures var (c1, text) := ServeLines(c, lines, turns);
      (c1, sent + text) ==
        if lines == [] || Tokens(lines[0].text) == [] then (c, sent)
        else
          var t := TurnFor(turns, |c.peers|);
          var s := ServeRequest(c, Tokens(lines[0].text), t.choice, t.fates);
          if s.waits then (s.c, sent + s.sent)
          else
            var (c2, more) := ServeLines(s.c, lines[1..], LaterTurns(turns));
            (c2, (sent + s.sent) + more)
  {
    hide Tokens, ServeRequest, TurnFor, LaterTurns;
    if lines == [] || Tokens(lines[0].text) == [] {
      assert sent + "" == sent;
    } else {
      var t := TurnFor(turns, |c.peers|);
      var s := ServeRequest(c, Tokens(lines[0].text), t.choice, t.fates);
      if !s.waits {
        Appended(sent, s.sent, ServeLines(s.c, lines[1..], LaterTurns(turns)).1);
      }
    }
  }

  lemma Appended(a: string, b: string, c: string)
    ensures a + (b + c) == (a + b) + c
  {
  }

  class Connection {
    const files: FC.FileClient
    const res: SR.ServerResponse
    var peers: seq<World>

    constructor (files: FC.FileClient, res: SR.ServerResponse, peers: seq<World>)
      ensures this.files == files && this.res == res && this.peers == peers
    {
      this.files, this.res, this.peers := files, res, peers;
    }

    /** The cluster as it stands. */
    ghost function C(): Cluster
      reads this, files
    {
      Cluster(files.W(), peers)
    }

    /** HandleSync: every peer gets the line; the replies are gathered in order. */
    method HandleSync(line: string, fates: seq<Fate>) returns (replies: seq<string>)
      requires |fates| == |peers|
      modifies this`peers
      ensures (peers, replies) == SyncPeers(old(peers), line, fates)
    {
      replies := [];
      for i := 0 to |peers|
        invariant |peers| == |old(peers)| && |replies| == i
        invariant forall j | 0 <= j < i :: (peers[j], replies[j]) == PeerStep(old(peers)[j], line, fates[j])
        invariant peers[i..] == old(peers)[i..]
      {
        hide PeerStep;
        assert peers[i] == peers[i..][0] == old(peers)[i];
        var (after, reply) := PeerStep(peers[i], line, fates[i]);
        peers := peers[i := after];
        replies := replies + [reply];
      }
      hide PeerStep, SyncPeers;
      assert peers == SyncPeers(old(peers), line, fates).0;
      assert replies == SyncPeers(old(peers), line, fates).1;
    }

    /** The peers' part of a successful FSEEK, FREAD or FWRITE. */
    method SendSync(req: seq<string>, fates: seq<Fate>) returns (replies: seq<string>)
      requires |req| >= 2 && |fates| == |peers|
      modifies this`peers, files
      ensures var (w, line) := BuildSync(old(files.W()), req);
        && files.W() == w && (peers, replies) == SyncPeers(old(peers), line, fates)
    {
      hide BuildSync;
      var line := files.SyncRequestBuilder(req);
      replies := HandleSync(line, fates);
    }

    /** The answer when no peer was asked for an opinion. */
    method Answer(out: Outcome, content: string, inUse: int)
      modifies res
      ensures res.sent == old(res.sent) + ReplyText(Step(old(files.W()), out, content, inUse))
    {
      match out
      case Blocked =>
        assert res.sent + "" == res.sent;
      case Threw(error) =>
        res.Fail(error);
      case Ret(code) =>
        if inUse > 0 {
          res.FileInUse(inUse);
        } else {
          res.File(code, content);
        }
    }

    method CloseRequest(req: seq<string>, fates: seq<Fate>) returns (waits: bool)
      requires |fates| == |peers|
      modifies this`peers, files, res
      ensures var r := CloseEverywhere(old(C()), req, fates);
        C() == r.c && res.sent == old(res.sent) + r.sent && waits == r.waits
    {
      var check := files.FCLOSE(req, true);
      if |peers| > 0 && check.code >= 0 {
        var replies := SendSync(req, fates);
      }
      var out := files.FCLOSE(req, false);
      hide Fclose, SyncPeers, BuildSync;
      Answer(out, " ", -1);
      waits := out.Blocked?;
    }

    /** The peers vote on a read. */
    method AnswerByVote(code: int, content: string, replies: seq<string>)
      modifies res
      ensures res.sent == old(res.sent) +
        if Accepts(code, replies) then SR.FileReply(code, content) + SR.PeerLines(Ballots(replies))
        else SR.SyncFailReply("ER-SYNC")
    {
      hide Accepts, Ballots, SR.FileReply, SR.SyncFailReply;
      var accepted, peersContent := CountVotes(code, replies);
      if accepted {
        res.File(code, content);
        if |peersContent| > 0 {
          res.Peers(peersContent);
        }
      } else {
        res.SyncFail("ER-SYNC");
      }
    }

    /** FSEEK, FREAD and FWRITE: here first, then at the peers if it succeeded; only a read lets the
        peers vote on the answer. */
    method Replicate(req: seq<string>, out: Outcome, content: string, fates: seq<Fate>)
      requires |req| >= 2 && |fates| == |peers| && out.Ret?
      modifies this`peers, files, res
      ensures var r := Announce(old(C()), req, Step(old(files.W()), out, content, -1), fates);
        C() == r.c && res.sent == old(res.sent) + r.sent
    {
      var replies := SendSync(req, fates);
      hide SyncPeers, BuildSync, Accepts, Ballots, SR.FileReply, SR.SyncFailReply, SR.PeerLines;
      if req[0] == "FREAD" {
        AnswerByVote(out.code, content, replies);
      } else {
        res.File(out.code, content);
      }
    }

    /** The local operation of a request. */
    method RunLocally(req: seq<string>, choice: OS.OpenChoice)
      returns (out: Outcome, content: string, inUse: int)
      requires req != []
      modifies files
      ensures Step(files.W(), out, content, inUse) == Handle(old(files.W()), req, choice)
    {
      FcloseCheckChangesNothing(files.W(), req);
      hide Fopen, Fseek, Fread, Fwrite, Fclose, SyncSeek, SyncRead, SyncWrite, SyncClose;
      out, content, inUse := Ret(NO_VALID_COM), " ", -1;
      var command := req[0];
      if command == "FOPEN" {
        out, inUse := files.FOPEN(req, choice);
      } else if command == "FSEEK" {
        out := files.FSEEK(req);
      } else if command == "FREAD" {
        out, content := files.FREAD(req, false);
      } else if command == "FWRITE" {
        out := files.FWRITE(req);
      } else if command == "FCLOSE" {
        out := files.FCLOSE(req, true);
        out := files.FCLOSE(req, false);
      } else if command == "SYNCSEEK" {
        out := files.SYNCSEEK(req, choice);
      } else if command == "SYNCREAD" {
        out, content := files.SYNCREAD(req, choice);
      } else if command == "SYNCWRITE" {
        out := files.SYNCWRITE(req, choice);
      } else if command == "SYNCCLOSE" {
        out := files.SYNCCLOSE(req);
      }
    }

    /** One request of the client, from its tokens to what it is sent. */
    method HandleRequest(req: seq<string>, choice: OS.OpenChoice, fates: seq<Fate>) returns (waits: bool)
      requires req != [] && |fates| == |peers|
      modifies this`peers, files, res
      ensures var r := ServeRequest(old(C()), req, choice, fates);
        C() == r.c && res.sent == old(res.sent) + r.sent && waits == r.waits
    {
      if req[0] == "FCLOSE" {
        waits := CloseRequest(req, fates);
        return;
      }
      var out, content, inUse := RunLocally(req, choice);
      if req[0] in ["FSEEK", "FREAD", "FWRITE"] {
        SyncedRequestsHaveTokens(old(files.W()), req, choice);
      }
      hide Handle, CloseEverywhere, Announce, ReplyText;
      if |peers| > 0 && (req[0] == "FSEEK" || req[0] == "FREAD" || req[0] == "FWRITE") && out.Ret? && out.code >= 0 {
        Replicate(req, out, content, fates);
      } else {
        Answer(out, content, inUse);
      }
      waits := out.Blocked?;
    }

    /** One turn of the main loop: read a line, tokenize it, run it, answer. The loop ends with the input,
        at a line without a word (it has no first token), or in a wait that nobody ends. */
    method ServeLine(stream: LineReader.ByteStream, buf: array<char>, turn: Turn) returns (stop: bool)
      requires buf.Length == LineReader.LINE_MAX + 1 && |turn.fates| == |peers|
      modifies this`peers, files, res, stream, buf
      ensures var l := LineReader.ReadLine(old(stream.pending), LineReader.LINE_MAX);
        && stream.pending == l.rest
        && if l.code < 0 || Tokens(l.text) == []
           then stop && C() == old(C()) && res.sent == old(res.sent)
           else
             var s := ServeRequest(old(C()), Tokens(l.text), turn.choice, turn.fates);
             stop == s.waits && C() == s.c && res.sent == old(res.sent) + s.sent
    {
      hide Tokens, ServeRequest, LineReader.ReadLine;
      ghost var l := LineReader.ReadLine(stream.pending, LineReader.LINE_MAX);
      LineReader.ReadLineConserves(stream.pending, LineReader.LINE_MAX);
      var n := LineReader.ReadLineInto(stream, buf, LineReader.LINE_MAX);
      if n < 0 {
        return true;
      }
      assert buf[..n] == l.text;
      var words := Tokenize(buf[..n]);
      if words == [] {
        return true;
      }
      stop := HandleRequest(words, turn.choice, turn.fates);
    }

    /** The main loop over one connection. */
    method ServeConnection(stream: LineReader.ByteStream, turns: seq<Turn>)
      modifies this`peers, files, res, stream
      ensures (C(), res.sent) == WholeConnection(old(C()), old(res.sent), old(stream.pending), turns)
    {
      var buf := new char[LineReader.LINE_MAX + 1];
      var later := turns;
      var stop := false;
      while !stop
        invariant fresh(buf) && buf.Length == LineReader.LINE_MAX + 1
        invariant WholeConnection(old(C()), old(res.sent), old(stream.pending), turns)
               == if stop then (C(), res.sent) else WholeConnection(C(), res.sent, stream.pending, later)
        decreases !stop, |stream.pending|
      {
        hide Tokens, ServeRequest, LineReader.ReadLine, WholeConnection, TurnFor, LaterTurns;
        WholeConnectionUnfolds(C(), res.sent, stream.pending, later);
        stop := ServeLine(stream, buf, TurnFor(later, |peers|));
        later := LaterTurns(later);
      }
    }
  }

  lemma FcloseCheckChangesNothing(w: World, req: seq<string>)
    ensures Fclose(w, req, true).w == w
  {
  }

  lemma SyncedRequestsHaveTokens(w: World, req: seq<string>, choice: OS.OpenChoice)
    requires req != [] && req[0] in ["FSEEK", "FREAD", "FWRITE"]
    ensures var s := Handle(w, req, choice);
      s.inUse == -1 && (s.out.Ret? && s.out.code >= 0 ==> |req| >= 3)
  {
    hide Atoi, OS.Read, OS.Seek, OS.Write;
  }
}
