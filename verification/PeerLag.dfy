/** What becomes of a peer that a message has not reached, as the origin goes on serving clients and all later
    messages arrive: it stays behind in that one file, by an amount that only reads can change. */
module PeerLag {
  import opened Text
  import opened FileOperations
  import opened TableConsistency
  import opened RequestRuns
  import opened Replication
  import opened Simulation
  import opened Divergence
  import opened DivergedVote
  import LineReader
  import OS = OperatingSystem

  /** Two stores with the same open files that differ in one file only: in what it holds, and by `d` in
      where it stands. */
  ghost predicate ApartBy(f: Files, h: Files, name: string, d: int) {
    && h.at.Keys == f.at.Keys && name in f.at
    && (forall n | n != name :: f.Content(n) == h.Content(n))
    && (forall n | n in f.at && n != name :: f.at[n] == h.at[n])
    && f.at[name] == h.at[name] + d
  }

  /** Peer `i` follows a store that is the origin's but for this file, where it is `d` behind. */
  ghost predicate Behind(c: Cluster, i: nat, name: string, d: int) {
    && i < |c.peers| && Good(c.origin) && NamesAreTokens(c.origin) && Good(c.peers[i])
    && exists h :: ApartBy(Abs(c.origin), h, name, d) && Follows(h, Abs(c.peers[i]))
  }

  lemma BehindBy(c: Cluster, i: nat, name: string, d: int, h: Files)
    requires i < |c.peers| && Good(c.origin) && NamesAreTokens(c.origin) && Good(c.peers[i])
    requires ApartBy(Abs(c.origin), h, name, d) && Follows(h, Abs(c.peers[i]))
    ensures Behind(c, i, name, d)
  {
  }

  lemma ApartElsewhere(f: Files, g: Files, h: Files, name: string, d: int, n: string)
    requires ApartBy(f, h, name, d) && Follows(h, g) && n != name
    ensures SameFile(f, g, n)
  {
  }

  lemma BehindMeans(c: Cluster, i: nat, name: string, d: int)
    requires Behind(c, i, name, d)
    ensures Position(c.origin, name) == Position(c.peers[i], name) + d
    ensures forall n | n != name :: Agree(c.origin, c.peers[i], n)
  {
    var f, g := Abs(c.origin), Abs(c.peers[i]);
    var h :| ApartBy(f, h, name, d) && Follows(h, g);
    PositionIs(c.origin, name);
    PositionIs(c.peers[i], name);
    assert f.at[name] == (if name in g.at then g.at[name] else 0) + d;
    hide Good, Position, Agree, SameFile, ApartBy, Follows, NamesAreTokens;
    forall n | n != name
      ensures Agree(c.origin, c.peers[i], n)
    {
      ApartElsewhere(f, g, h, name, d, n);
      AgreementIs(c.origin, c.peers[i], n);
    }
  }

  // ----- One request -----

  /** How much further a read of the file takes the origin than the peer. */
  ghost function LagGrowth(c: Cluster, i: nat, name: string, req: seq<string>): int {
    if i < |c.peers| && Good(c.origin) && Good(c.peers[i]) && Announced(c.origin, req) && req[0] == "FREAD"
       && name in Abs(c.origin).at
       && Atoi(req[1]) in c.origin.tab.fdToName && c.origin.tab.fdToName[Atoi(req[1])] == name
    then |Abs(c.origin).Bytes(name, Atoi(req[2]))| - |PeerBytes(c.peers[i], name, Atoi(req[2]))|
    else 0
  }

  /** The request closes the file. */
  predicate Closes(c: Cluster, name: string, req: seq<string>) {
    Announced(c.origin, req) && req[0] == "FCLOSE"
    && Atoi(req[1]) in c.origin.tab.fdToName && c.origin.tab.fdToName[Atoi(req[1])] == name
  }

  /** What a request leaves in a file. */
  lemma MovedContent(f: Files, n: string, req: seq<string>, m: string)
    requires WellFormed(req) && n in f.at
    ensures Moved(f, n, req).Content(m) ==
      if req[0] == "FWRITE" && m == n then OS.Overlay(f.Content(n), f.at[n], req[2]) else f.Content(m)
  {
    hide Atoi, OS.Slice, OS.Overlay;
  }

  lemma MovedPositions(f: Files, n: string, req: seq<string>)
    requires WellFormed(req) && n in f.at
    ensures Moved(f, n, req).at ==
      if req[0] == "FCLOSE" then f.at - {n} else f.at[n := f.at[n] + AdvanceBy(f, n, req[0], req[2])]
  {
    if req[0] != "FCLOSE" {
      MovedBy(f, n, req);
    }
    hide Atoi, AdvanceBy, OS.Slice, OS.Overlay;
  }

  /** How far apart the same request takes the two stores. */
  function ReadApart(f: Files, h: Files, name: string, n: string, req: seq<string>): int
    requires WellFormed(req) && name in f.at && name in h.at
  {
    if req[0] == "FREAD" && n == name then |f.Bytes(name, Atoi(req[2]))| - |h.Bytes(name, Atoi(req[2]))| else 0
  }

  lemma AdvanceApart(f: Files, h: Files, name: string, d: int, n: string, req: seq<string>)
    requires ApartBy(f, h, name, d) && WellFormed(req) && req[0] != "FCLOSE" && n in f.at
    ensures n in h.at
    ensures AdvanceBy(f, n, req[0], req[2]) == AdvanceBy(h, n, req[0], req[2]) + ReadApart(f, h, name, n, req)
  {
    hide Atoi, OS.Slice;
  }

  lemma ReadOnlyThere(f: Files, h: Files, name: string, n: string, req: seq<string>)
    requires WellFormed(req) && name in f.at && name in h.at
    ensures n != name ==> ReadApart(f, h, name, n, req) == 0
    ensures req[0] == "FCLOSE" ==> ReadApart(f, h, name, n, req) == 0
  {
  }

  lemma MovesApart(f: Files, h: Files, name: string, d: int, n: string, req: seq<string>)
    requires ApartBy(f, h, name, d) && WellFormed(req) && n in f.at && (req[0] == "FCLOSE" ==> n != name)
    ensures n in h.at && ApartBy(Moved(f, n, req), Moved(h, n, req), name, d + ReadApart(f, h, name, n, req))
  {
    assert n in h.at;
    ReadOnlyThere(f, h, name, n, req);
    MovedPositions(f, n, req);
    MovedPositions(h, n, req);
    if req[0] != "FCLOSE" {
      AdvanceApart(f, h, name, d, n, req);
    }
    hide AdvanceBy, Atoi, Moved, ReadApart, OS.Slice, OS.Overlay;
    var f1, h1 := Moved(f, n, req), Moved(h, n, req);
    assert h1.at.Keys == f1.at.Keys && name in f1.at;
    assert f1.at[name] == h1.at[name] + d + ReadApart(f, h, name, n, req);
    forall m | m != name
      ensures f1.Content(m) == h1.Content(m)
    {
      MovedContent(f, n, req, m);
      MovedContent(h, n, req, m);
    }
  }

  lemma OpensApart(f: Files, h: Files, name: string, d: int, n: string)
    requires ApartBy(f, h, name, d) && n !in f.at
    ensures ApartBy(f.Open(n), h.Open(n), name, d)
  {
    forall m | m != name
      ensures f.Open(n).Content(m) == h.Open(n).Content(m)
    {
      assert f.Open(n).Content(m) == f.Content(m) && h.Open(n).Content(m) == h.Content(m);
    }
  }

  /** A request that is not announced: at most the origin opens a file. */
  lemma OtherEffect(c: Cluster, req: seq<string>, choice: OS.OpenChoice, fates: seq<Fate>)
    requires Good(c.origin) && NamesAreTokens(c.origin) && ClientRequest(req) && !Announced(c.origin, req)
    requires |fates| == |c.peers|
    ensures var c1, f := ServeRequest(c, req, choice, fates).c, Abs(c.origin);
      && c1.peers == c.peers && Good(c1.origin) && NamesAreTokens(c1.origin)
      && (Abs(c1.origin) == f || (|req| >= 2 && req[1] !in f.at && Abs(c1.origin) == f.Open(req[1])))
  {
    RequestKeepsNames(c.origin, req, choice);
    hide Good, NamesAreTokens, Atoi, Announced, Fopen, Fseek, Fread, Fwrite, Fclose, AllTokens;
    match req[0]
    case "FSEEK" =>
      LocalSeek(c.origin, req);
      SameWithoutChoice(c.origin, req, choice);
    case "FREAD" =>
      LocalRead(c.origin, req);
      SameWithoutChoice(c.origin, req, choice);
    case "FWRITE" =>
      LocalWrite(c.origin, req);
      SameWithoutChoice(c.origin, req, choice);
    case "FCLOSE" =>
      LocalClose(c.origin, req);
    case "FOPEN" =>
      if |req| >= 2 {
        OpenIsExclusive(c.origin, req, choice);
        NotLive(c.origin, req[1]);
        if Live(c.origin.tab, req[1]) {
          assert Fopen(c.origin, req, choice).w == c.origin;
        }
      } else {
        NoNameNoOpen(c.origin, req, choice);
      }
    case _ =>
  }

  lemma NoNameNoOpen(w: World, req: seq<string>, choice: OS.OpenChoice)
    requires |req| < 2
    ensures Fopen(w, req, choice).w == w
  {
  }

  lemma RequestKeepsNames(w: World, req: seq<string>, choice: OS.OpenChoice)
    requires Good(w) && NamesAreTokens(w) && req != [] && AllTokens(req)
    ensures Good(Handle(w, req, choice).w) && NamesAreTokens(Handle(w, req, choice).w)
  {
    HandleKeeps(w, req, choice);
    hide Good, Handle, IsToken;
  }

  /** Every delivered request but an FCLOSE of the file keeps the peer behind in it, by as much as before; a
      read adds what the origin read more than the peer. */
  lemma RequestKeepsLag(c: Cluster, req: seq<string>, choice: OS.OpenChoice, fates: seq<Fate>,
                        i: nat, name: string, d: int)
    requires Behind(c, i, name, d) && ClientRequest(req) && |fates| == |c.peers| && Delivered(c, req, fates)
    requires !Closes(c, name, req)
    ensures Behind(ServeRequest(c, req, choice, fates).c, i, name, d + LagGrowth(c, i, name, req))
  {
    var f, g := Abs(c.origin), Abs(c.peers[i]);
    var h :| ApartBy(f, h, name, d) && Follows(h, g);
    if Announced(c.origin, req) {
      AnnouncedKeepsLag(c, req, choice, fates, i, name, d, h);
    } else {
      OtherEffect(c, req, choice, fates);
      var c1 := ServeRequest(c, req, choice, fates).c;
      hide Good, NamesAreTokens, ServeRequest, Announced, ClientRequest, Delivered;
      if Abs(c1.origin) != f {
        OpensApart(f, h, name, d, req[1]);
        FollowsOpen(h, g, req[1]);
        hide ApartBy, Follows;
        assert ApartBy(Abs(c1.origin), h.Open(req[1]), name, d) && Follows(h.Open(req[1]), g);
      }
    }
  }

  lemma DeliveredTo(c: Cluster, req: seq<string>, fates: seq<Fate>, i: nat, name: string)
    requires Delivered(c, req, fates) && Announced(c.origin, req) && Atoi(req[1]) in c.origin.tab.fdToName
    requires i < |fates| && name == c.origin.tab.fdToName[Atoi(req[1])]
    ensures |SyncLine(name, req)| <= LineReader.LINE_MAX && fates[i].Reached? && i < |c.peers|
    ensures req[0] == "FCLOSE" || CanOpen(c.peers[i], name, Pick(fates[i].choices))
    ensures WellFormed(req)
  {
    hide Atoi, SyncLine, CanOpen;
  }

  lemma GrowthIs(c: Cluster, i: nat, name: string, req: seq<string>, n: string, h: Files)
    requires i < |c.peers| && Good(c.origin) && Good(c.peers[i]) && Announced(c.origin, req) && WellFormed(req)
    requires Atoi(req[1]) in c.origin.tab.fdToName && c.origin.tab.fdToName[Atoi(req[1])] == n
    requires name in Abs(c.origin).at && name in h.at && Follows(h, Abs(c.peers[i]))
    ensures LagGrowth(c, i, name, req) == ReadApart(Abs(c.origin), h, name, n, req)
  {
    if req[0] == "FREAD" && n == name {
      SameBytes(h, c.peers[i], name, Atoi(req[2]));
    }
    hide Good, Atoi, Announced, PeerBytes, Follows, OS.Slice;
  }

  lemma ApartHas(f: Files, h: Files, name: string, d: int, n: string)
    requires ApartBy(f, h, name, d)
    ensures name in f.at && name in h.at && (n in f.at <==> n in h.at)
  {
  }

  lemma NotClosing(c: Cluster, name: string, req: seq<string>)
    requires !Closes(c, name, req) && Announced(c.origin, req) && Atoi(req[1]) in c.origin.tab.fdToName
    ensures req[0] == "FCLOSE" ==> c.origin.tab.fdToName[Atoi(req[1])] != name
  {
    hide Atoi;
  }

  lemma AnnouncedKeepsLag(c: Cluster, req: seq<string>, choice: OS.OpenChoice, fates: seq<Fate>,
                          i: nat, name: string, d: int, h: Files)
    requires i < |c.peers| && Good(c.origin) && NamesAreTokens(c.origin) && Good(c.peers[i])
    requires AllTokens(req) && |fates| == |c.peers| && Delivered(c, req, fates)
    requires Announced(c.origin, req) && !Closes(c, name, req)
    requires ApartBy(Abs(c.origin), h, name, d) && Follows(h, Abs(c.peers[i]))
    ensures Behind(ServeRequest(c, req, choice, fates).c, i, name, d + LagGrowth(c, i, name, req))
  {
    var f, p, c1 := Abs(c.origin), c.peers[i], ServeRequest(c, req, choice, fates).c;
    hide Good, NamesAreTokens, Atoi, AllTokens, SyncLine, Handle, ServeRequest, CanOpen, Moved, ApartBy, LagGrowth, Closes,
         Follows, IsToken, BuildSync, PeerStep, Delivered, Announced, ReadApart, Behind, SyncPeers;
    LocalMoves(c.origin, req);
    AnnouncedMove(c, req, choice, fates);
    RequestKeepsNames(c.origin, req, OS.Refuse);
    var n := c.origin.tab.fdToName[Atoi(req[1])];
    ApartHas(f, h, name, d, n);
    DeliveredTo(c, req, fates, i, n);
    NotClosing(c, name, req);
    GrowthIs(c, i, name, req, n, h);
    MovesApart(f, h, name, d, n, req);
    PeerFollows(h, p, n, req, fates[i]);
    BehindBy(c1, i, name, d + LagGrowth(c, i, name, req), Moved(h, n, req));
  }

  /** The peer reads what the store it follows holds. */
  lemma SameBytes(h: Files, p: World, name: string, n: nat)
    requires Good(p) && Follows(h, Abs(p)) && name in h.at
    ensures PeerBytes(p, name, n) == h.Bytes(name, n)
  {
    FollowsLateOpen(h, Abs(p), name);
    FollowsSeekAndRead(h, Opened(Abs(p), name), name, n);
  }

  // ----- Runs -----

  /** No client closes the file. */
  ghost predicate NeverCloses(c: Cluster, events: seq<ClientEvent>, name: string)
    requires Healthy(c, events)
    decreases events
  {
    events == [] ||
    (!Closes(c, name, Tokens(events[0].line)) && NeverCloses(ServeLine(c, events[0]), events[1..], name))
  }

  /** The lag, told along the run: what it was, and for each read of the file what the origin read more than
      the peer. */
  ghost function LagAlong(c: Cluster, events: seq<ClientEvent>, i: nat, name: string, d: int): int
    requires Healthy(c, events)
    decreases events
  {
    if events == [] then d
    else LagAlong(ServeLine(c, events[0]), events[1..], i, name,
                  d + if Tokens(events[0].line) == [] then 0 else LagGrowth(c, i, name, Tokens(events[0].line)))
  }

  lemma {:induction false} RunKeepsLag(c: Cluster, events: seq<ClientEvent>, i: nat, name: string, d: int)
    requires Behind(c, i, name, d) && Healthy(c, events) && NeverCloses(c, events, name)
    ensures Behind(ServeAll(c, events), i, name, LagAlong(c, events, i, name, d))
    decreases events
  {
    hide Behind, Closes, LagGrowth, Delivered, ServeRequest, Tokens, ClientRequest;
    if events != [] {
      var e := events[0];
      var d1 := d + if Tokens(e.line) == [] then 0 else LagGrowth(c, i, name, Tokens(e.line));
      if Tokens(e.line) != [] {
        RequestKeepsLag(c, Tokens(e.line), e.choice, e.fates, i, name, d);
      }
      RunKeepsLag(ServeLine(c, e), events[1..], i, name, d1);
    }
  }

  lemma MovedIsApart(f: Files, name: string, req: seq<string>)
    requires WellFormed(req) && req[0] != "FCLOSE" && name in f.at
    ensures ApartBy(Moved(f, name, req), f, name, AdvanceBy(f, name, req[0], req[2]))
  {
    MovedPositions(f, name, req);
    hide AdvanceBy, Atoi, Moved, OS.Overlay;
    forall m | m != name
      ensures Moved(f, name, req).Content(m) == f.Content(m)
    {
      MovedContent(f, name, req, m);
    }
  }

  lemma MissedMessageLeavesBehind(c: Cluster, req: seq<string>, choice: OS.OpenChoice, fates: seq<Fate>, i: nat)
    requires InStep(c) && AllTokens(req) && Announced(c.origin, req) && req[0] != "FCLOSE"
    requires |fates| == |c.peers| && i < |fates| && fates[i] == Unreachable
    ensures Atoi(req[1]) in c.origin.tab.fdToName && c.origin.tab.fdToName[Atoi(req[1])] in Abs(c.origin).at
    ensures var name := c.origin.tab.fdToName[Atoi(req[1])];
      Behind(ServeRequest(c, req, choice, fates).c, i, name, AdvanceBy(Abs(c.origin), name, req[0], req[2]))
  {
    PeerInStep(c, i);
    hide InStep, Good, NamesAreTokens, Follows, Atoi, AllTokens, IsToken, SyncLine, Handle, ServeRequest, Moved, AdvanceBy,
         BuildSync, Announced, Behind, ApartBy, SyncPeers;
    LocalMoves(c.origin, req);
    AnnouncedEffect(c, req, choice, fates);
    RequestKeepsNames(c.origin, req, OS.Refuse);
    var f, name := Abs(c.origin), c.origin.tab.fdToName[Atoi(req[1])];
    MovedIsApart(f, name, req);
    BehindBy(ServeRequest(c, req, choice, fates).c, i, name, AdvanceBy(f, name, req[0], req[2]), f);
  }

  /** A peer that one message did not reach stays behind in that file for as long as the file is not closed,
      and agrees about all others, along every later run whose messages arrive: by exactly what it missed,
      corrected by what later reads of the file took the origin further than the peer. */
  lemma MissedAdvanceIsNeverMadeUp(c: Cluster, req: seq<string>, choice: OS.OpenChoice, fates: seq<Fate>, i: nat,
                                   events: seq<ClientEvent>)
    requires InStep(c) && AllTokens(req) && Announced(c.origin, req) && req[0] != "FCLOSE"
    requires |fates| == |c.peers| && i < |fates| && fates[i] == Unreachable
    requires Atoi(req[1]) in c.origin.tab.fdToName && c.origin.tab.fdToName[Atoi(req[1])] in Abs(c.origin).at
    requires Healthy(ServeRequest(c, req, choice, fates).c, events)
    requires NeverCloses(ServeRequest(c, req, choice, fates).c, events, c.origin.tab.fdToName[Atoi(req[1])])
    ensures var name, c1 := c.origin.tab.fdToName[Atoi(req[1])], ServeRequest(c, req, choice, fates).c;
      var c2 := ServeAll(c1, events);
      && i < |c2.peers|
      && Position(c2.origin, name) == Position(c2.peers[i], name)
           + LagAlong(c1, events, i, name, AdvanceBy(Abs(c.origin), name, req[0], req[2]))
      && (forall n | n != name :: Agree(c2.origin, c2.peers[i], n))
  {
    LocalMoves(c.origin, req);
    hide *;
    MissedMessageLeavesBehind(c, req, choice, fates, i);
    var name, c1 := c.origin.tab.fdToName[Atoi(req[1])], ServeRequest(c, req, choice, fates).c;
    var d := AdvanceBy(Abs(c.origin), name, req[0], req[2]);
    RunKeepsLag(c1, events, i, name, d);
    BehindHasPeer(ServeAll(c1, events), i, name, LagAlong(c1, events, i, name, d));
    BehindMeans(ServeAll(c1, events), i, name, LagAlong(c1, events, i, name, d));
  }

  lemma BehindHasPeer(c: Cluster, i: nat, name: string, d: int)
    requires Behind(c, i, name, d)
    ensures i < |c.peers|
  {
  }

  /** A later write lands that far off: here at the origin's position, there at the peer's. */
  lemma LaterWriteLandsOff(c: Cluster, req: seq<string>, choice: OS.OpenChoice, fates: seq<Fate>,
                           i: nat, name: string, d: int)
    requires Behind(c, i, name, d) && AllTokens(req) && |fates| == |c.peers| && Delivered(c, req, fates)
    requires Announced(c.origin, req) && req[0] == "FWRITE"
    requires Atoi(req[1]) in c.origin.tab.fdToName && c.origin.tab.fdToName[Atoi(req[1])] == name
    ensures var o, p := c.origin, c.peers[i]; var c1 := ServeRequest(c, req, choice, fates).c;
      && Position(o, name) == Position(p, name) + d
      && OS.Content(c1.origin.os, name) == OS.Overlay(OS.Content(o.os, name), Position(o, name), req[2])
      && OS.Content(c1.peers[i].os, name) == OS.Overlay(OS.Content(p.os, name), Position(p, name), req[2])
  {
    var o, p := c.origin, c.peers[i];
    var h :| ApartBy(Abs(o), h, name, d) && Follows(h, Abs(p));
    BehindMeans(c, i, name, d);
    hide Good, NamesAreTokens, Atoi, AllTokens, SyncLine, Handle, ServeRequest, CanOpen, IsToken, BuildSync, PeerStep,
         OS.Overlay, Position, ApartBy, Follows, Delivered, Announced, Moved, SyncPeers, Behind;
    LocalMoves(o, req);
    AnnouncedMove(c, req, choice, fates);
    ApartHas(Abs(o), h, name, d, name);
    DeliveredTo(c, req, fates, i, name);
    PeerFollows(h, p, name, req, fates[i]);
    MovedContent(Abs(o), name, req, name);
    MovedContent(h, name, req, name);
    WhereItStands(o, Abs(o), name);
    WhereItStands(p, h, name);
    var o1, p1 := Handle(o, req, OS.Refuse).w, PeerStep(p, SyncLine(name, req), fates[i]).0;
    SameContent(o1, Moved(Abs(o), name, req), name);
    SameContent(p1, Moved(h, name, req), name);
  }

  lemma WhereItStands(w: World, f: Files, name: string)
    requires Good(w) && name in f.at && (f == Abs(w) || Follows(f, Abs(w)))
    ensures f.at[name] == Position(w, name) && f.Content(name) == OS.Content(w.os, name)
  {
    PositionIs(w, name);
    hide Good, Position;
    assert Abs(w).Content(name) == OS.Content(w.os, name);
  }

  lemma SameContent(w: World, f: Files, name: string)
    requires Good(w) && (f == Abs(w) || Follows(f, Abs(w)))
    ensures OS.Content(w.os, name) == f.Content(name)
  {
    hide Good;
    assert Abs(w).Content(name) == OS.Content(w.os, name);
  }
}
