/** One origin and its peers: what FileCallback does with a client request in replica mode. */
module Replication {
  import opened Text
  import opened FileOperations
  import opened ServerResponse
  import opened MajorityVote
  import LineReader
  import OS = OperatingSystem

  /** What becomes of one message to a peer: delivered, with the descriptors the peer is granted while
      it serves it, and answered in time or not; or not delivered. */
  datatype Fate = Reached(choices: seq<OS.OpenChoice>, answered: bool) | Unreachable

  datatype Cluster = Cluster(origin: World, peers: seq<World>)

  function Pick(choices: seq<OS.OpenChoice>): OS.OpenChoice {
    if choices == [] then OS.Refuse else choices[0]
  }

  function Rest(choices: seq<OS.OpenChoice>): seq<OS.OpenChoice> {
    if choices == [] then [] else choices[1..]
  }

  /** What a request that involves no peer sends back. */
  function ReplyText(s: Step): string {
    match s.out
    case Ret(code) => if s.inUse > 0 then InUseReply(s.inUse) else FileReply(code, s.content)
    case Threw(error) => FailReply(error)
    case Blocked => ""
  }

  /** A peer's callback on the lines of one connection. A line without a word makes it throw. */
  function Serve(w: World, lines: seq<LineReader.Line>, choices: seq<OS.OpenChoice>): (World, string)
    decreases lines
  {
    if lines == [] || Tokens(lines[0].text) == [] then (w, "")
    else
      var s := Handle(w, Tokens(lines[0].text), Pick(choices));
      if s.out.Blocked? then (s.w, "")
      else
        var (w1, more) := Serve(s.w, lines[1..], Rest(choices));
        (w1, ReplyText(s) + more)
  }

  const REPLY_MAX: nat := 256

  /** `recv` into a buffer of 256 bytes. */
  function Received(text: string): string {
    if |text| <= REPLY_MAX then text else text[..REPLY_MAX]
  }

  function PeerStep(p: World, line: string, fate: Fate): (World, string) {
    match fate
    case Unreachable => (p, "ER-SYNC-CONN")
    case Reached(choices, answered) =>
      var (p1, text) := Serve(p, LineReader.ReadAll(LineReader.Bytes(line), LineReader.LINE_MAX).0, choices);
      (p1, if answered then Received(text) else "")
  }

  /** HandleSync: the line goes to every peer, and the replies are collected in peer order. */
  function SyncPeers(peers: seq<World>, line: string, fates: seq<Fate>): (r: (seq<World>, seq<string>))
    requires |peers| == |fates|
    ensures |r.0| == |r.1| == |peers|
    ensures forall i | 0 <= i < |peers| :: (r.0[i], r.1[i]) == PeerStep(peers[i], line, fates[i])
  {
    if peers == [] then ([], [])
    else
      var (p, reply) := PeerStep(peers[0], line, fates[0]);
      var (ps, replies) := SyncPeers(peers[1..], line, fates[1..]);
      ([p] + ps, [reply] + replies)
  }

  /** The cluster after a request, what the client is sent, and whether the request waits for ever. */
  datatype Served = Served(c: Cluster, sent: string, waits: bool)

  /** The part of a request after a successful local FSEEK, FREAD or FWRITE. */
  function Announce(c: Cluster, req: seq<string>, s: Step, fates: seq<Fate>): Served
    requires |req| >= 2 && s.out.Ret? && |fates| == |c.peers|
  {
    var (w, line) := BuildSync(s.w, req);
    var (peers, replies) := SyncPeers(c.peers, line, fates);
    var reading := req[0] == "FREAD";
    Served(Cluster(w, peers),
           if !reading then FileReply(s.out.code, s.content)
           else if Accepts(s.out.code, replies) then FileReply(s.out.code, s.content) + PeerLines(Ballots(replies))
           else SyncFailReply("ER-SYNC"),
           false)
  }

  /** FCLOSE: check, tell the peers, and only then close. */
  function CloseEverywhere(c: Cluster, req: seq<string>, fates: seq<Fate>): Served
    requires |fates| == |c.peers|
  {
    var check := Fclose(c.origin, req, true);
    if c.peers != [] && check.out.code >= 0 then
      var (w, line) := BuildSync(check.w, req);
      var peers := SyncPeers(c.peers, line, fates).0;
      var s := Fclose(w, req, false);
      Served(Cluster(s.w, peers), ReplyText(s), s.out.Blocked?)
    else
      var s := Fclose(check.w, req, false);
      Served(Cluster(s.w, c.peers), ReplyText(s), s.out.Blocked?)
  }

  /** One client request at the origin. */
  function ServeRequest(c: Cluster, req: seq<string>, choice: OS.OpenChoice, fates: seq<Fate>): (r: Served)
    requires req != [] && |fates| == |c.peers|
    ensures |r.c.peers| == |c.peers|
  {
    if req[0] == "FCLOSE" then CloseEverywhere(c, req, fates)
    else
      var s := Handle(c.origin, req, choice);
      if c.peers != [] && req[0] in ["FSEEK", "FREAD", "FWRITE"] && s.out.Ret? && s.out.code >= 0
      then Announce(c, req, s, fates)
      else Served(Cluster(s.w, c.peers), ReplyText(s), s.out.Blocked?)
  }

  /** What the environment decides about one request of a client. */
  datatype Turn = Turn(choice: OS.OpenChoice, fates: seq<Fate>)

  function TurnFor(turns: seq<Turn>, peers: nat): (t: Turn)
    ensures |t.fates| == peers
  {
    if turns != [] && |turns[0].fates| == peers then turns[0] else Turn(OS.Refuse, seq(peers, _ => Unreachable))
  }

  function LaterTurns(turns: seq<Turn>): seq<Turn> {
    if turns == [] then [] else turns[1..]
  }

  /** The origin's callback on the lines of one connection. */
  function ServeLines(c: Cluster, lines: seq<LineReader.Line>, turns: seq<Turn>): (Cluster, string)
    decreases lines
  {
    if lines == [] || Tokens(lines[0].text) == [] then (c, "")
    else
      var t := TurnFor(turns, |c.peers|);
      var s := ServeRequest(c, Tokens(lines[0].text), t.choice, t.fates);
      if s.waits then (s.c, s.sent)
      else
        var (c1, more) := ServeLines(s.c, lines[1..], LaterTurns(turns));
        (c1, s.sent + more)
  }

  function Choices(turns: seq<Turn>): seq<OS.OpenChoice> {
    if turns == [] then [] else [TurnFor(turns, 0).choice] + Choices(turns[1..])
  }

  lemma AloneIsHandle(w: World, req: seq<string>, choice: OS.OpenChoice)
    requires req != []
    ensures var s := Handle(w, req, choice);
      ServeRequest(Cluster(w, []), req, choice, []) == Served(Cluster(s.w, []), ReplyText(s), s.out.Blocked?)
  {
    assert Fclose(w, req, true).w == w;
    hide Fopen, Fseek, Fread, Fwrite, Fclose, SyncSeek, SyncRead, SyncWrite, SyncClose, ReplyText;
  }

  lemma WaitingSendsNothing(s: Step)
    ensures s.out.Blocked? ==> ReplyText(s) == ""
  {
  }

  /** A server without peers is what peers are to the origin: the same callback. */
  lemma {:induction false} AloneServesLikeAPeer(w: World, lines: seq<LineReader.Line>, turns: seq<Turn>)
    ensures var (w1, text) := Serve(w, lines, Choices(turns));
      ServeLines(Cluster(w, []), lines, turns) == (Cluster(w1, []), text)
    decreases lines
  {
    hide Tokens, Handle, ReplyText, ServeRequest;
    if lines != [] && Tokens(lines[0].text) != [] {
      var t := TurnFor(turns, 0);
      assert t.fates == [];
      AloneIsHandle(w, Tokens(lines[0].text), t.choice);
      WaitingSendsNothing(Handle(w, Tokens(lines[0].text), t.choice));
      assert Pick(Choices(turns)) == t.choice && Rest(Choices(turns)) == Choices(LaterTurns(turns));
      AloneServesLikeAPeer(Handle(w, Tokens(lines[0].text), t.choice).w, lines[1..], LaterTurns(turns));
    }
  }
}
