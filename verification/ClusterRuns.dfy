/** Whole runs of any number of replicated servers, each of them an origin for its own clients: whatever
    is asked, SYNC commands included, and whatever becomes of the messages. */
module ClusterRuns {
  import opened Text
  import opened FileOperations
  import opened TableConsistency
  import opened RequestRuns
  import opened Replication
  import opened Simulation
  import LineReader
  import OS = OperatingSystem

  ghost predicate Sound(w: World) {
    Good(w) && NamesAreTokens(w)
  }

  ghost predicate AllSound(servers: seq<World>) {
    forall i | 0 <= i < |servers| :: Sound(servers[i])
  }

  lemma HandleKeepsSound(w: World, req: seq<string>, choice: OS.OpenChoice)
    requires Sound(w) && req != [] && AllTokens(req)
    ensures Sound(Handle(w, req, choice).w) && !Handle(w, req, choice).out.Blocked?
  {
    HandleKeeps(w, req, choice);
    hide Good, Handle, IsToken;
  }

  lemma {:induction false} ServeKeepsSound(w: World, lines: seq<LineReader.Line>, choices: seq<OS.OpenChoice>)
    requires Sound(w)
    ensures Sound(Serve(w, lines, choices).0)
    decreases lines
  {
    hide Sound, Tokens, Handle;
    if lines != [] && Tokens(lines[0].text) != [] {
      TokensAreWords(lines[0].text);
      HandleKeepsSound(w, Tokens(lines[0].text), Pick(choices));
      ServeKeepsSound(Handle(w, Tokens(lines[0].text), Pick(choices)).w, lines[1..], Rest(choices));
    }
  }

  lemma PeersStaySound(peers: seq<World>, line: string, fates: seq<Fate>)
    requires AllSound(peers) && |peers| == |fates|
    ensures AllSound(SyncPeers(peers, line, fates).0)
  {
    hide Sound, Serve, SyncPeers;
    forall i | 0 <= i < |peers|
      ensures Sound(PeerStep(peers[i], line, fates[i]).0)
    {
      if fates[i].Reached? {
        ServeKeepsSound(peers[i], LineReader.ReadAll(LineReader.Bytes(line), LineReader.LINE_MAX).0, fates[i].choices);
      }
    }
  }

  lemma StrayDescriptorKeepsSound(w: World, fd: int)
    requires Sound(w)
    ensures Sound(w.(tab := w.tab.(fdToName := Touch(w.tab.fdToName, fd, ""))))
  {
    var w1 := w.(tab := w.tab.(fdToName := Touch(w.tab.fdToName, fd, "")));
    assert Good(w1);
    AbsIs(w1, Abs(w));
    hide Good, IsToken;
  }

  lemma BuildSyncKeepsSound(w: World, req: seq<string>)
    requires Sound(w) && |req| >= 2
    ensures Sound(BuildSync(w, req).0)
  {
    hide Sound, Atoi;
    StrayDescriptorKeepsSound(w, Atoi(req[1]));
  }

  lemma FcloseKeepsSound(w: World, req: seq<string>)
    requires Sound(w)
    ensures Sound(Fclose(w, req, false).w) && Fclose(w, req, true).w == w && Fclose(w, req, true).out.Ret?
  {
    FcloseKeeps(w, req);
    hide Good, Atoi;
  }

  lemma CloseKeepsSound(c: Cluster, req: seq<string>, fates: seq<Fate>)
    requires Sound(c.origin) && AllSound(c.peers) && |fates| == |c.peers|
    ensures var c1 := CloseEverywhere(c, req, fates).c; Sound(c1.origin) && AllSound(c1.peers)
  {
    FcloseKeepsSound(c.origin, req);
    CheckedHasTwoTokens(c.origin, req);
    hide Sound, AllSound, Fclose, BuildSync, SyncPeers;
    if |req| >= 2 {
      BuildSyncKeepsSound(c.origin, req);
      FcloseKeepsSound(BuildSync(c.origin, req).0, req);
      PeersStaySound(c.peers, BuildSync(c.origin, req).1, fates);
    }
  }

  lemma CheckedHasTwoTokens(w: World, req: seq<string>)
    ensures Fclose(w, req, true).out.Ret? && Fclose(w, req, true).out.code >= 0 ==> |req| >= 2
  {
  }

  lemma AnnounceCluster(c: Cluster, req: seq<string>, s: Step, fates: seq<Fate>)
    requires |req| >= 2 && s.out.Ret? && |fates| == |c.peers|
    ensures var (w, line) := BuildSync(s.w, req);
      Announce(c, req, s, fates).c == Cluster(w, SyncPeers(c.peers, line, fates).0)
  {
    hide BuildSync, SyncPeers;
  }

  lemma AnnounceKeepsSound(c: Cluster, req: seq<string>, s: Step, fates: seq<Fate>)
    requires Sound(s.w) && AllSound(c.peers) && |req| >= 2 && s.out.Ret? && |fates| == |c.peers|
    ensures var c1 := Announce(c, req, s, fates).c; Sound(c1.origin) && AllSound(c1.peers)
  {
    AnnounceCluster(c, req, s, fates);
    hide *;
    BuildSyncKeepsSound(s.w, req);
    PeersStaySound(c.peers, BuildSync(s.w, req).1, fates);
  }

  lemma RequestKeepsSound(c: Cluster, req: seq<string>, choice: OS.OpenChoice, fates: seq<Fate>)
    requires Sound(c.origin) && AllSound(c.peers) && |fates| == |c.peers| && req != [] && AllTokens(req)
    ensures var c1 := ServeRequest(c, req, choice, fates).c;
      Sound(c1.origin) && AllSound(c1.peers) && |c1.peers| == |c.peers|
  {
    SyncedHaveTwoTokens(c.origin, req, choice);
    hide Sound, AllSound, Handle, CloseEverywhere, Announce, ReplyText, AllTokens;
    CloseKeepsSound(c, req, fates);
    HandleKeepsSound(c.origin, req, choice);
    var s := Handle(c.origin, req, choice);
    if |req| >= 2 && s.out.Ret? {
      AnnounceKeepsSound(c, req, s, fates);
    }
  }

  lemma SyncedHaveTwoTokens(w: World, req: seq<string>, choice: OS.OpenChoice)
    requires req != []
    ensures var out := Handle(w, req, choice).out;
      req[0] in ["FSEEK", "FREAD", "FWRITE"] && out.Ret? && out.code >= 0 ==> |req| >= 2
  {
  }

  // ----- Runs -----

  /** A line arrives at server `at`, whose peers are all the others, in order. */
  datatype Arrival = Arrival(at: nat, event: ClientEvent)

  predicate Fits(n: nat, a: Arrival) {
    a.at < n && |a.event.fates| == n - 1
  }

  /** Server `at` as the origin, and the servers again with the origin put back in its place. */
  function AsOrigin(servers: seq<World>, at: nat): Cluster
    requires at < |servers|
  {
    Cluster(servers[at], servers[..at] + servers[at + 1..])
  }

  function Servers(c: Cluster, at: nat): seq<World>
    requires at <= |c.peers|
  {
    c.peers[..at] + [c.origin] + c.peers[at..]
  }

  function Arrive(servers: seq<World>, a: Arrival): (r: seq<World>)
    requires Fits(|servers|, a)
    ensures |r| == |servers|
  {
    Servers(ServeLine(AsOrigin(servers, a.at), a.event), a.at)
  }

  lemma LineKeepsSound(c: Cluster, e: ClientEvent)
    requires Sound(c.origin) && AllSound(c.peers) && |e.fates| == |c.peers|
    ensures Sound(ServeLine(c, e).origin) && AllSound(ServeLine(c, e).peers)
  {
    hide Sound, AllSound, ServeRequest, Tokens, AllTokens;
    if Tokens(e.line) != [] {
      TokensAreWords(e.line);
      RequestKeepsSound(c, Tokens(e.line), e.choice, e.fates);
    }
  }

  lemma OthersSound(servers: seq<World>, at: nat)
    requires AllSound(servers) && at < |servers|
    ensures Sound(AsOrigin(servers, at).origin) && AllSound(AsOrigin(servers, at).peers)
  {
    hide Sound;
  }

  lemma TogetherSound(c: Cluster, at: nat)
    requires Sound(c.origin) && AllSound(c.peers) && at <= |c.peers|
    ensures AllSound(Servers(c, at))
  {
    hide Sound;
  }

  lemma ArrivalKeepsSound(servers: seq<World>, a: Arrival)
    requires Fits(|servers|, a) && AllSound(servers)
    ensures AllSound(Arrive(servers, a))
  {
    hide Sound, AllSound, ServeLine, Servers;
    OthersSound(servers, a.at);
    LineKeepsSound(AsOrigin(servers, a.at), a.event);
    TogetherSound(ServeLine(AsOrigin(servers, a.at), a.event), a.at);
  }

  function ArriveAll(servers: seq<World>, arrivals: seq<Arrival>): (r: seq<World>)
    requires forall i | 0 <= i < |arrivals| :: Fits(|servers|, arrivals[i])
    ensures |r| == |servers|
    decreases arrivals
  {
    if arrivals == [] then servers else ArriveAll(Arrive(servers, arrivals[0]), arrivals[1..])
  }

  lemma {:induction false} ArrivalsKeepSound(servers: seq<World>, arrivals: seq<Arrival>)
    requires AllSound(servers) && forall i | 0 <= i < |arrivals| :: Fits(|servers|, arrivals[i])
    ensures AllSound(ArriveAll(servers, arrivals))
    decreases arrivals
  {
    hide AllSound, Arrive;
    if arrivals != [] {
      ArrivalKeepsSound(servers, arrivals[0]);
      ArrivalsKeepSound(Arrive(servers, arrivals[0]), arrivals[1..]);
    }
  }

  /** In every state that any number of servers can reach from their start, at every server the tables are
      consistent, the system holds exactly the listed descriptors, nothing is left half done, and every
      registered name is one token: lost and unanswered messages, over-long lines, refused opens, several
      origins and SYNC commands from clients do not change that. */
  lemma EveryServerStaysSound(disks: seq<map<string, string>>, arrivals: seq<Arrival>, i: nat)
    requires i < |disks| && forall k | 0 <= k < |arrivals| :: Fits(|disks|, arrivals[k])
    ensures var w := ArriveAll(seq(|disks|, j requires 0 <= j < |disks| => Started(disks[j])), arrivals)[i];
      Consistent(w.tab) && Linked(w) && Quiescent(w.tab) && NamesAreTokens(w)
  {
    var start := seq(|disks|, j requires 0 <= j < |disks| => Started(disks[j]));
    forall j | 0 <= j < |disks|
      ensures Sound(start[j])
    {
      StartedSound(disks[j]);
    }
    hide ArriveAll, Started, NamesAreTokens, Consistent, Linked, Quiescent;
    ArrivalsKeepSound(start, arrivals);
  }

  lemma StartedSound(disk: map<string, string>)
    ensures Sound(Started(disk))
  {
    AbsIs(Started(disk), Files(disk, map[]));
  }
}
