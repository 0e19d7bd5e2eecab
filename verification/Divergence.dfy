/** What the hypotheses of module `Simulation` are for: how peers fall out of step. */
module Divergence {
  import opened Text
  import opened FileOperations
  import opened TableConsistency
  import opened RequestRuns
  import opened ServerResponse
  import opened Replication
  import opened Simulation
  import LineReader
  import OS = OperatingSystem

  /** All but reads are fire and forget: the client gets the same answer, the success of the local
      operation, whatever happens to the messages. */
  lemma FireAndForget(c: Cluster, req: seq<string>, choice: OS.OpenChoice, fates: seq<Fate>)
    requires InStep(c) && AllTokens(req) && Announced(c.origin, req) && req[0] != "FREAD"
    requires |fates| == |c.peers|
    ensures ServeRequest(c, req, choice, fates).sent
         == FileReply(if req[0] == "FWRITE" then |req[2]| else 0, " ")
  {
    hide Good, NamesAreTokens, Follows, Atoi, AllTokens, SyncLine, SyncPeers, Handle, BuildSync, FileReply, Fclose;
    if req[0] == "FSEEK" {
      LocalSeek(c.origin, req);
    } else if req[0] == "FWRITE" {
      LocalWrite(c.origin, req);
    } else {
      LocalClose(c.origin, req);
      CloseIsSilent(c.origin, req);
    }
    SameWithoutChoice(c.origin, req, choice);
    SeekAndWriteAreSilent(c.origin, req, choice);
  }

  lemma SeekAndWriteAreSilent(w: World, req: seq<string>, choice: OS.OpenChoice)
    requires req != []
    ensures req[0] in ["FSEEK", "FWRITE"] ==> Handle(w, req, choice).content == " "
  {
    hide Atoi, OS.Seek, OS.Write;
  }

  lemma CloseIsSilent(w: World, req: seq<string>)
    ensures Fclose(w, req, false).content == " "
  {
    hide Atoi;
  }

  // ----- Lines that do not fit -----

  function Spaces(s: string): nat {
    if s == "" then 0 else (if IsSpace(s[0]) then 1 else 0) + Spaces(s[1..])
  }

  lemma {:induction false} SpacesConcat(a: string, b: string)
    ensures Spaces(a + b) == Spaces(a) + Spaces(b)
  {
    if a == "" {
      assert a + b == b;
    } else {
      assert (a + b)[1..] == a[1..] + b;
      SpacesConcat(a[1..], b);
    }
  }

  lemma {:induction false} SolidHasNoSpaces(s: string)
    requires Solid(s)
    ensures Spaces(s) == 0
  {
    if s != "" {
      SolidHasNoSpaces(s[1..]);
    }
  }

  lemma {:induction false} SpacesBoundTokens(s: string)
    ensures |Tokens(s)| <= Spaces(s) + 1
    decreases |s|
  {
    hide Tokens;
    if Tokens(s) != [] {
      var lead, word, rest := FirstWordOf(s);
      SpacesConcat(lead + word, rest);
      if rest != "" {
        SpacesBoundTokens(rest[1..]);
        assert rest == [rest[0]] + rest[1..];
        TokensAfterGap([rest[0]], rest[1..]);
      } else {
        TokensOfBlank(rest);
      }
    }
  }

  /** No content has changed, and no file stands further than before. */
  ghost predicate Lags(w: World, w1: World) {
    && Good(w1)
    && forall n :: OS.Content(w1.os, n) == OS.Content(w.os, n) && Position(w1, n) <= Position(w, n)
  }

  /** So it is if the store has lost positions, or gained some at the start of a file. */
  lemma StoreLags(w: World, w1: World)
    requires Good(w) && Good(w1)
    requires forall n :: Abs(w1).Content(n) == Abs(w).Content(n)
    requires forall n | n in Abs(w1).at :: Abs(w1).at[n] == if n in Abs(w).at then Abs(w).at[n] else 0
    ensures Lags(w, w1)
  {
    hide Good, Position;
    forall n
      ensures OS.Content(w1.os, n) == OS.Content(w.os, n) && Position(w1, n) <= Position(w, n)
    {
      PositionIs(w, n);
      PositionIs(w1, n);
      assert Abs(w).Content(n) == OS.Content(w.os, n) && Abs(w1).Content(n) == OS.Content(w1.os, n);
    }
  }

  lemma OpenLags(w: World, req: seq<string>, choice: OS.OpenChoice)
    requires Good(w) && |req| >= 2
    ensures Lags(w, Fopen(w, req, choice).w)
  {
    hide Good, Fopen;
    OpenIsExclusive(w, req, choice);
    if Live(w.tab, req[1]) {
      assert Fopen(w, req, choice).w == w;
    }
    assert forall n :: Abs(w).Open(req[1]).Content(n) == Abs(w).Content(n);
    NotLive(w, req[1]);
    StoreLags(w, Fopen(w, req, choice).w);
  }

  lemma NotLive(w: World, name: string)
    requires Good(w)
    ensures name in Abs(w).at <==> Live(w.tab, name)
  {
  }

  lemma CloseLags(w: World, fd: int)
    requires Good(w)
    ensures Lags(w, CloseFd(w, fd, false).w)
  {
    hide Good, CloseFd;
    CloseRefines(w, fd);
    assert forall m, n :: Abs(w).Close(m).Content(n) == Abs(w).Content(n);
    StoreLags(w, CloseFd(w, fd, false).w);
  }

  lemma SyncCloseLags(w: World, req: seq<string>)
    requires Good(w) && |req| >= 2
    ensures Lags(w, SyncClose(w, req).w)
  {
    hide Good, SyncClose;
    SyncCloseRefines(w, req);
    assert forall n :: Abs(w).Close(req[1]).Content(n) == Abs(w).Content(n);
    StoreLags(w, SyncClose(w, req).w);
  }

  /** A request of at most two tokens moves no file forward, and one of one token does nothing. */
  lemma ShortRequestLags(w: World, req: seq<string>, choice: OS.OpenChoice)
    requires Good(w) && 1 <= |req| <= 2
    ensures Lags(w, Handle(w, req, choice).w)
    ensures |req| == 1 ==> Handle(w, req, choice).w == w && !Handle(w, req, choice).out.Blocked?
  {
    hide Good, Atoi, Position, CloseFd, SeekFd, ReadFd, WriteFd, EnsureOpen, FdRequest;
    if |req| == 2 {
      OpenLags(w, req, choice);
      CloseLags(w, Atoi(req[1]));
      SyncCloseLags(w, req);
      hide Fopen, SyncClose;
    }
  }

  lemma ReadLongLine(text: string, max: nat)
    requires 0 < max < |text| && '\n' !in text
    ensures LineReader.ReadAll(LineReader.Bytes(text), max).0
         == [LineReader.Line(max, text[..max], false, LineReader.Bytes(text[max..]))]
            + LineReader.ReadAll(LineReader.Bytes(text[max..]), max).0
  {
    var s := LineReader.Bytes(text);
    assert forall i | 0 <= i < |s| :: text[i] in text && LineReader.Plain(s[i]);
    assert LineReader.RunLength(s, max) == max;
    assert s[max..] == LineReader.Bytes(text[max..]);
    assert LineReader.TextOf(s[..max]) == text[..max];
  }

  function Piece(text: string): (n: nat)
    ensures n <= |text|
  {
    if |text| < LineReader.LINE_MAX then |text| else LineReader.LINE_MAX
  }

  /** A peer reads a line piece by piece, each as long as its buffer. */
  lemma ReadPieces(text: string)
    requires text != "" && '\n' !in text
    ensures var lines := LineReader.ReadAll(LineReader.Bytes(text), LineReader.LINE_MAX).0;
      && lines != [] && lines[0].text == text[..Piece(text)]
      && lines[1..] == LineReader.ReadAll(LineReader.Bytes(text[Piece(text)..]), LineReader.LINE_MAX).0
  {
    if |text| > LineReader.LINE_MAX {
      ReadLongLine(text, LineReader.LINE_MAX);
    } else {
      LineReader.ReadAllOfOneLine(text, LineReader.LINE_MAX);
      EmptyInput();
    }
  }

  lemma EmptyInput()
    ensures LineReader.ReadAll(LineReader.Bytes(""), LineReader.LINE_MAX).0 == []
  {
    assert LineReader.Bytes("") == [];
  }

  ghost function ServedText(w: World, text: string, choices: seq<OS.OpenChoice>): World {
    Serve(w, LineReader.ReadAll(LineReader.Bytes(text), LineReader.LINE_MAX).0, choices).0
  }

  lemma ServeFirstPiece(w: World, text: string, choices: seq<OS.OpenChoice>)
    requires text != "" && '\n' !in text
    ensures var req := Tokens(text[..Piece(text)]);
      ServedText(w, text, choices) ==
        if req == [] then w
        else
          var s := Handle(w, req, Pick(choices));
          if s.out.Blocked? then s.w else ServedText(s.w, text[Piece(text)..], Rest(choices))
  {
    hide Tokens, Handle, LineReader.ReadAll, LineReader.Bytes;
    ReadPieces(text);
  }

  lemma ServeNothing(w: World, choices: seq<OS.OpenChoice>)
    ensures ServedText(w, "", choices) == w
  {
    EmptyInput();
  }

  /** What is left of a line after its first space moves no file forward, however it is cut. */
  lemma {:induction false} RemainderLags(w: World, text: string, choices: seq<OS.OpenChoice>)
    requires Good(w) && Spaces(text) <= 1 && '\n' !in text
    ensures Lags(w, ServedText(w, text, choices))
    decreases |text|
  {
    hide Tokens, Handle, Good, Position, ServedText;
    if text == "" {
      ServeNothing(w, choices);
    } else {
      var first, rest := text[..Piece(text)], text[Piece(text)..];
      assert text == first + rest;
      SpacesConcat(first, rest);
      SpacesBoundTokens(first);
      ServeFirstPiece(w, text, choices);
      if Tokens(first) != [] {
        ShortRequestLags(w, Tokens(first), Pick(choices));
        RemainderLags(Handle(w, Tokens(first), Pick(choices)).w, rest, Rest(choices));
      }
    }
  }

  /** At most one word, with white space around it. */
  ghost predicate OneWord(text: string) {
    exists i, j :: 0 <= i <= j <= |text| && Blank(text[..i]) && Solid(text[i..j]) && Blank(text[j..])
  }

  lemma OneWordIs(lead: string, word: string, trail: string)
    requires Blank(lead) && Solid(word) && Blank(trail)
    ensures OneWord(lead + word + trail)
  {
    var text := lead + word + trail;
    var i, j := |lead|, |lead| + |word|;
    assert text[..i] == lead && text[i..j] == word && text[j..] == trail;
  }

  lemma OneWordTokens(text: string)
    requires OneWord(text)
    ensures |Tokens(text)| <= 1
  {
    hide Tokens;
    var i, j :| 0 <= i <= j <= |text| && Blank(text[..i]) && Solid(text[i..j]) && Blank(text[j..]);
    TokensOfBlank(text[j..]);
    if i == j {
      assert forall k | 0 <= k < |text| :: text[k] == if k < i then text[..i][k] else text[j..][k - j];
      TokensOfBlank(text);
    } else {
      assert text == text[..i] + text[i..j] + text[j..];
      TokensOfWord(text[..i], text[i..j], text[j..]);
    }
  }

  /** The three parts of a text, cut too. */
  lemma CutParts(lead: string, word: string, trail: string, k: nat)
    requires Blank(lead) && Solid(word) && Blank(trail) && k <= |lead + word + trail|
    ensures OneWord((lead + word + trail)[..k]) && OneWord((lead + word + trail)[k..])
  {
    hide OneWord;
    var text := lead + word + trail;
    if k <= |lead| {
      assert text[..k] == lead[..k] + "" + "" && text[k..] == lead[k..] + word + trail;
      OneWordIs(lead[..k], "", "");
      OneWordIs(lead[k..], word, trail);
    } else if k <= |lead| + |word| {
      var m := k - |lead|;
      assert text[..k] == lead + word[..m] + "" && text[k..] == "" + word[m..] + trail;
      OneWordIs(lead, word[..m], "");
      OneWordIs("", word[m..], trail);
    } else {
      var m := k - |lead| - |word|;
      assert text[..k] == lead + word + trail[..m] && text[k..] == "" + "" + trail[m..];
      OneWordIs(lead, word, trail[..m]);
      OneWordIs("", "", trail[m..]);
    }
  }

  lemma OneWordCut(text: string, k: nat)
    requires OneWord(text) && k <= |text|
    ensures OneWord(text[..k]) && OneWord(text[k..])
  {
    var i, j :| 0 <= i <= j <= |text| && Blank(text[..i]) && Solid(text[i..j]) && Blank(text[j..]);
    assert text == text[..i] + text[i..j] + text[j..];
    CutParts(text[..i], text[i..j], text[j..], k);
  }

  /** A text with one word in it changes nothing, however it is cut. */
  lemma {:induction false} OneWordChangesNothing(w: World, text: string, choices: seq<OS.OpenChoice>)
    requires Good(w) && OneWord(text) && '\n' !in text
    ensures ServedText(w, text, choices) == w
    decreases |text|
  {
    hide Tokens, Handle, Good, ServedText, OneWord;
    if text == "" {
      ServeNothing(w, choices);
    } else {
      OneWordCut(text, Piece(text));
      OneWordTokens(text[..Piece(text)]);
      ServeFirstPiece(w, text, choices);
      if Tokens(text[..Piece(text)]) != [] {
        ShortRequestLags(w, Tokens(text[..Piece(text)]), Pick(choices));
        OneWordChangesNothing(w, text[Piece(text)..], Rest(choices));
      }
    }
  }

  // ----- What is left of a sync line -----

  /** The part of the third token that is still in the first piece of the line. */
  function Kept(name: string, req: seq<string>): (kept: string)
    requires WellFormed(req) && req[0] != "FCLOSE"
    ensures kept <= req[2]
  {
    var used := |SyncCommand(req[0])| + |name| + 2;
    req[2][..OS.Min(if used < LineReader.LINE_MAX then LineReader.LINE_MAX - used else 0, |req[2]|)]
  }

  lemma TokensOfThreeWords(first: string, second: string, third: string)
    requires IsToken(first) && IsToken(second) && IsToken(third)
    ensures Tokens(first + " " + second + (" " + third)) == [first, second, third]
  {
    hide Tokens, IsToken;
    TokensOfTwoWords(first, second, " " + third);
    TokensOfWord(" ", third, "");
    TokensOfBlank("");
    assert " " + third + "" == " " + third;
  }

  lemma FirstPieceTokens(name: string, req: seq<string>)
    requires WellFormed(req) && req[0] != "FCLOSE" && IsToken(name) && IsToken(req[2])
    ensures var line, kept := SyncLine(name, req), Kept(name, req);
      && (if kept != ""
          then Tokens(line[..Piece(line)]) == [SyncCommand(req[0]), name, kept] && line[Piece(line)..] == req[2][|kept|..]
          else 1 <= |Tokens(line[..Piece(line)])| <= 2)
      && (|kept| == |req[2]| <==> |line| <= LineReader.LINE_MAX)
  {
    SyncLineShape(name, req);
    NonEmptyToken(req[2]);
    hide Tokens, Atoi, IsToken, SyncCommand, SyncLine;
    if Kept(name, req) != "" {
      PieceWithThird(SyncLine(name, req), SyncCommand(req[0]), name, req[2], |Kept(name, req)|);
    } else {
      PieceWithoutThird(SyncLine(name, req), SyncCommand(req[0]), name, req[2]);
    }
  }

  lemma PieceWithThird(line: string, command: string, name: string, third: string, n: nat)
    requires IsToken(command) && IsToken(name) && IsToken(third) && line == command + " " + name + (" " + third)
    requires 0 < n == OS.Min(LineReader.LINE_MAX - (|command| + |name| + 2), |third|)
    ensures Tokens(line[..Piece(line)]) == [command, name, third[..n]] && line[Piece(line)..] == third[n..]
  {
    hide Tokens, IsToken;
    assert line[..Piece(line)] == command + " " + name + (" " + third[..n]);
    PrefixIsToken(third, n);
    TokensOfThreeWords(command, name, third[..n]);
  }

  lemma PieceWithoutThird(line: string, command: string, name: string, third: string)
    requires IsToken(command) && IsToken(name) && line == command + " " + name + (" " + third)
    requires |command| + 1 < LineReader.LINE_MAX <= |command| + |name| + 2 && third != ""
    ensures 1 <= |Tokens(line[..Piece(line)])| <= 2
  {
    hide Tokens, IsToken;
    NonEmptyToken(name);
    var room := LineReader.LINE_MAX - |command| - 1;
    var part, gap := name[..OS.Min(|name|, room)], if |name| < room then " " else "";
    assert line[..Piece(line)] == command + " " + part + gap;
    PrefixIsToken(name, |part|);
    TokensOfTwoWords(command, part, gap);
    TokensOfBlank(gap);
  }

  lemma PrefixIsToken(t: string, n: nat)
    requires IsToken(t) && 0 < n <= |t|
    ensures IsToken(t[..n])
  {
  }

  lemma RestIsOneWord(t: string, n: nat)
    requires IsToken(t) && n <= |t|
    ensures OneWord(t[n..]) && '\n' !in t[n..]
  {
    OneWordIs("", t[n..], "");
    assert "" + t[n..] + "" == t[n..];
  }

  lemma SuffixSpaces(s: string, k: nat)
    requires k <= |s|
    ensures Spaces(s[k..]) <= Spaces(s)
  {
    SpacesConcat(s[..k], s[k..]);
    assert s == s[..k] + s[k..];
  }

  lemma SpacesOfTwoWords(name: string, third: string)
    requires Solid(name) && Solid(third)
    ensures Spaces(name + (" " + third)) == 1
  {
    SpacesConcat(name, " " + third);
    SpacesConcat(" ", third);
    SolidHasNoSpaces(name);
    SolidHasNoSpaces(third);
  }

  lemma RemainderSpaces(name: string, req: seq<string>)
    requires WellFormed(req) && req[0] != "FCLOSE" && Solid(name) && Solid(req[2])
    requires |SyncLine(name, req)| > LineReader.LINE_MAX
    ensures Spaces(SyncLine(name, req)[LineReader.LINE_MAX..]) <= 1
  {
    hide Spaces, Atoi, Solid;
    var line, tail := SyncLine(name, req), name + (" " + req[2]);
    SyncLineShape(name, req);
    SpacesOfTwoWords(name, req[2]);
    var cut := LineReader.LINE_MAX - |SyncCommand(req[0])| - 1;
    hide SyncLine;
    assert line == SyncCommand(req[0]) + " " + tail;
    assert line[LineReader.LINE_MAX..] == tail[cut..];
    SuffixSpaces(tail, cut);
  }

  /** What a peer's store becomes when it serves a request cut to this part of its third token. */
  function CutMove(g: Files, name: string, head: string, kept: string): Files
    requires name in g.at
  {
    if head == "FWRITE" then g.Write(name, kept)
    else if Atoi(kept) <= 0 then g
    else if head == "FSEEK" then g.Seek(name, Atoi(kept))
    else g.Read(name, Atoi(kept))
  }

  /** A SYNC request that cannot open its file, or has no positive number, gets no further than that. */
  lemma SyncStopsEarly(p: World, req: seq<string>, choice: OS.OpenChoice)
    requires Good(p) && |req| >= 3
    ensures var e := EnsureOpen(p, req, choice);
      if CanOpen(p, req[1], choice) then
        && Good(e.w) && Abs(e.w) == Opened(Abs(p), req[1])
        && (Atoi(req[2]) <= 0 ==> SyncSeek(p, req, choice) == SyncRead(p, req, choice) == Done(e.w, PARAM_PARS))
      else
        && e.out.Threw? && Good(e.w) && Abs(e.w) == Abs(p)
        && SyncSeek(p, req, choice) == SyncRead(p, req, choice) == SyncWrite(p, req, choice) == e
  {
    EnsureOpenRefines(p, req, choice);
    hide EnsureOpen, Atoi, IntToString, Good, SeekFd, ReadFd, WriteFd;
  }

  /** The step is over, and leaves this store. */
  ghost predicate Leaves(s: Step, f: Files) {
    Good(s.w) && !s.out.Blocked? && Abs(s.w) == f
  }

  lemma CutSeekRefines(p: World, req: seq<string>, choice: OS.OpenChoice)
    requires Good(p) && |req| >= 3 && CanOpen(p, req[1], choice)
    ensures Leaves(SyncSeek(p, req, choice), CutMove(Opened(Abs(p), req[1]), req[1], "FSEEK", req[2]))
  {
    SyncStopsEarly(p, req, choice);
    hide Good, Atoi, EnsureOpen, CanOpen, SyncSeek, SyncRead, SyncWrite;
    if Atoi(req[2]) > 0 {
      SyncSeekRefines(p, req, choice);
    }
  }

  lemma CutReadRefines(p: World, req: seq<string>, choice: OS.OpenChoice)
    requires Good(p) && |req| >= 3 && CanOpen(p, req[1], choice)
    ensures Leaves(SyncRead(p, req, choice), CutMove(Opened(Abs(p), req[1]), req[1], "FREAD", req[2]))
  {
    SyncStopsEarly(p, req, choice);
    hide Good, Atoi, EnsureOpen, CanOpen, SyncSeek, SyncRead, SyncWrite, OS.Slice, OS.CString;
    if Atoi(req[2]) > 0 {
      SyncReadRefines(p, req, choice);
    }
  }

  lemma CutWriteRefines(p: World, req: seq<string>, choice: OS.OpenChoice)
    requires Good(p) && |req| >= 3 && CanOpen(p, req[1], choice) && req[2] != ""
    ensures Leaves(SyncWrite(p, req, choice), CutMove(Opened(Abs(p), req[1]), req[1], "FWRITE", req[2]))
  {
    SyncWriteRefines(p, req, choice);
    hide Good, CanOpen, SyncWrite, OS.Overlay;
  }

  lemma RefusedRequestStops(p: World, req: seq<string>, choice: OS.OpenChoice)
    requires Good(p) && |req| >= 3 && !CanOpen(p, req[1], choice)
    ensures Leaves(SyncSeek(p, req, choice), Abs(p))
    ensures Leaves(SyncRead(p, req, choice), Abs(p))
    ensures Leaves(SyncWrite(p, req, choice), Abs(p))
  {
    SyncStopsEarly(p, req, choice);
    hide Good, Atoi, EnsureOpen, CanOpen, SyncSeek, SyncRead, SyncWrite;
  }

  lemma CutRequestRefines(p: World, name: string, head: string, kept: string, choice: OS.OpenChoice)
    requires Good(p) && head in ["FSEEK", "FREAD", "FWRITE"] && kept != ""
    ensures Leaves(Handle(p, [SyncCommand(head), name, kept], choice),
                   if CanOpen(p, name, choice) then CutMove(Opened(Abs(p), name), name, head, kept) else Abs(p))
  {
    hide Good, Leaves, CanOpen, CutMove, Opened, Handle, SyncSeek, SyncRead, SyncWrite;
    var req := [SyncCommand(head), name, kept];
    SyncDispatch(p, req, choice);
    if !CanOpen(p, name, choice) {
      RefusedRequestStops(p, req, choice);
    } else if head == "FSEEK" {
      CutSeekRefines(p, req, choice);
    } else if head == "FREAD" {
      CutReadRefines(p, req, choice);
    } else {
      CutWriteRefines(p, req, choice);
    }
  }

  /** What becomes of a sync line of an FSEEK, FREAD or FWRITE at a peer it reaches, however long it is.
      The peer serves what its buffer holds of it; the rest does nothing, or, if no part of the third
      token is in the buffer, at most moves files back. */
  lemma CutLineEffect(p: World, name: string, req: seq<string>, fate: Fate)
    requires Good(p) && WellFormed(req) && req[0] != "FCLOSE" && AllTokens(req) && IsToken(name) && fate.Reached?
    ensures var p1, kept := PeerStep(p, SyncLine(name, req), fate).0, Kept(name, req);
      && Good(p1)
      && if kept == "" then Lags(p, p1)
         else Abs(p1) == if CanOpen(p, name, Pick(fate.choices))
                         then CutMove(Opened(Abs(p), name), name, req[0], kept) else Abs(p)
  {
    hide *;
    CutHeads(req);
    PeerServesText(p, SyncLine(name, req), fate);
    if Kept(name, req) == "" {
      CutTooEarlyLags(p, name, req, fate.choices);
      LagsIsGood(p, ServedText(p, SyncLine(name, req), fate.choices));
    } else {
      KeptPartServed(p, name, req, fate.choices);
    }
  }

  lemma NowOpen(f: Files, name: string)
    ensures name in Opened(f, name).at
  {
  }

  lemma LagsIsGood(w: World, w1: World)
    requires Lags(w, w1)
    ensures Good(w1)
  {
  }

  lemma KeptPartServed(p: World, name: string, req: seq<string>, choices: seq<OS.OpenChoice>)
    requires Good(p) && WellFormed(req) && req[0] != "FCLOSE" && AllTokens(req) && IsToken(name) && Kept(name, req) != ""
    ensures var p1 := ServedText(p, SyncLine(name, req), choices);
      && Good(p1)
      && Abs(p1) == if CanOpen(p, name, Pick(choices))
                    then CutMove(Opened(Abs(p), name), name, req[0], Kept(name, req)) else Abs(p)
  {
    hide *;
    CutHeads(req);
    NowOpen(Abs(p), name);
    var line, kept, choice := SyncLine(name, req), Kept(name, req), Pick(choices);
    FirstPieceTokens(name, req);
    SyncLineRoundTrip(name, req);
    ServeFirstPiece(p, line, choices);
    var s := Handle(p, Tokens(line[..Piece(line)]), choice);
    CutRequestRefines(p, name, req[0], kept, choice);
    LeavesIs(s, if CanOpen(p, name, choice) then CutMove(Opened(Abs(p), name), name, req[0], kept) else Abs(p));
    RestIsOneWord(req[2], |kept|);
    OneWordChangesNothing(s.w, line[Piece(line)..], Rest(choices));
  }

  lemma CutTooEarlyLags(p: World, name: string, req: seq<string>, choices: seq<OS.OpenChoice>)
    requires Good(p) && WellFormed(req) && req[0] != "FCLOSE" && AllTokens(req) && IsToken(name) && Kept(name, req) == ""
    ensures Lags(p, ServedText(p, SyncLine(name, req), choices))
  {
    hide *;
    CutHeads(req);
    var line := SyncLine(name, req);
    FirstPieceTokens(name, req);
    SyncLineRoundTrip(name, req);
    ServeFirstPiece(p, line, choices);
    var s := Handle(p, Tokens(line[..Piece(line)]), Pick(choices));
    ShortRequestLags(p, Tokens(line[..Piece(line)]), Pick(choices));
    LagsIsGood(p, s.w);
    CutRestLags(s.w, name, req, Rest(choices));
    LagsTwice(p, s.w, ServedText(s.w, line[Piece(line)..], Rest(choices)));
  }

  lemma LeavesIs(s: Step, f: Files)
    requires Leaves(s, f)
    ensures Good(s.w) && !s.out.Blocked? && Abs(s.w) == f
  {
  }

  lemma PeerServesText(p: World, line: string, fate: Fate)
    requires fate.Reached?
    ensures PeerStep(p, line, fate).0 == ServedText(p, line, fate.choices)
  {
  }

  lemma CutHeads(req: seq<string>)
    requires WellFormed(req) && req[0] != "FCLOSE" && AllTokens(req)
    ensures |req| >= 3 && Replicated(req[0]) && req[0] in ["FSEEK", "FREAD", "FWRITE"] && IsToken(req[2])
  {
  }

  lemma LagsTwice(w: World, w1: World, w2: World)
    requires Lags(w, w1) && Lags(w1, w2)
    ensures Lags(w, w2)
  {
    hide Good, Position;
  }

  lemma CutRestLags(w: World, name: string, req: seq<string>, choices: seq<OS.OpenChoice>)
    requires Good(w) && WellFormed(req) && req[0] != "FCLOSE" && AllTokens(req) && IsToken(name)
    requires Kept(name, req) == ""
    ensures var line := SyncLine(name, req); Lags(w, ServedText(w, line[Piece(line)..], choices))
  {
    var line := SyncLine(name, req);
    SyncLineRoundTrip(name, req);
    FirstPieceTokens(name, req);
    CutHeads(req);
    NonEmptyToken(req[2]);
    assert Solid(name) && Solid(req[2]);
    RemainderSpaces(name, req);
    hide *;
    RemainderLags(w, line[Piece(line)..], choices);
  }

  // ----- Exactly when a peer still agrees about the file -----

  /** How far a request with this third token advances its file. */
  function AdvanceBy(f: Files, name: string, head: string, third: string): nat
    requires name in f.at
  {
    if head == "FWRITE" then |third|
    else if Atoi(third) <= 0 then 0
    else if head == "FSEEK" then Atoi(third)
    else |f.Bytes(name, Atoi(third))|
  }

  /** What of that arrives at a peer. */
  ghost function ArrivingAdvance(f: Files, p: World, name: string, req: seq<string>, fate: Fate): nat
    requires WellFormed(req) && req[0] != "FCLOSE" && name in f.at
  {
    if fate.Reached? && CanOpen(p, name, Pick(fate.choices)) then AdvanceBy(f, name, req[0], Kept(name, req)) else 0
  }

  lemma MovedBy(f: Files, name: string, req: seq<string>)
    requires WellFormed(req) && req[0] != "FCLOSE" && name in f.at
    ensures var f1 := Moved(f, name, req);
      && f1.at == f.at[name := f.at[name] + AdvanceBy(f, name, req[0], req[2])]
      && (req[0] != "FWRITE" ==> f1.disk == f.disk)
  {
    hide Atoi, OS.Slice, OS.Overlay;
  }

  lemma CutMovedBy(f: Files, g: Files, name: string, head: string, kept: string)
    requires Follows(f, g) && name in f.at && head in ["FSEEK", "FREAD", "FWRITE"]
    ensures var g1 := CutMove(Opened(g, name), name, head, kept);
      && g1.at == Opened(g, name).at[name := f.at[name] + AdvanceBy(f, name, head, kept)]
      && g1.Content(name) == if head == "FWRITE" then OS.Overlay(f.Content(name), f.at[name], kept) else f.Content(name)
  {
    var h := Opened(g, name);
    FollowsLateOpen(f, g, name);
    assert h.at[name] == f.at[name] && h.Content(name) == f.Content(name);
    hide Follows, Opened;
    SameMove(f, h, name, head, kept);
  }

  lemma SameMove(f: Files, h: Files, name: string, head: string, kept: string)
    requires name in f.at && name in h.at && h.at[name] == f.at[name] && h.Content(name) == f.Content(name)
    requires head in ["FSEEK", "FREAD", "FWRITE"]
    ensures var g1 := CutMove(h, name, head, kept);
      && g1.at == h.at[name := f.at[name] + AdvanceBy(f, name, head, kept)]
      && g1.Content(name) == if head == "FWRITE" then OS.Overlay(f.Content(name), f.at[name], kept) else f.Content(name)
  {
    hide Atoi, OS.Slice, OS.Overlay;
    assert h.at == h.at[name := h.at[name]];
    assert f.Bytes(name, 0) == h.Bytes(name, 0);
  }

  ghost predicate SameFile(f: Files, g: Files, name: string) {
    && f.Content(name) == g.Content(name)
    && (name in g.at ==> name in f.at)
    && (if name in f.at then f.at[name] else 0) == (if name in g.at then g.at[name] else 0)
  }

  /** Agreement, read off the stores. */
  lemma AgreementIs(o: World, p: World, name: string)
    requires Good(o) && Good(p)
    ensures Agree(o, p, name) <==> SameFile(Abs(o), Abs(p), name)
  {
    PositionIs(o, name);
    PositionIs(p, name);
    NotLive(o, name);
    NotLive(p, name);
    hide Good, Position;
    assert Abs(o).Content(name) == OS.Content(o.os, name) && Abs(p).Content(name) == OS.Content(p.os, name);
  }

  lemma CutStoresAgree(f: Files, g: Files, name: string, req: seq<string>, kept: string)
    requires Follows(f, g) && name in f.at && WellFormed(req) && req[0] != "FCLOSE"
    requires req[0] == "FWRITE" ==> kept <= req[2]
    ensures SameFile(Moved(f, name, req), CutMove(Opened(g, name), name, req[0], kept), name)
       <==> AdvanceBy(f, name, req[0], req[2]) == AdvanceBy(f, name, req[0], kept)
  {
    MovedBy(f, name, req);
    CutMovedBy(f, g, name, req[0], kept);
    FollowsLateOpen(f, g, name);
    AdvanceOfWrite(f, name, kept);
    AdvanceOfWrite(f, name, req[2]);
    assert req[0] == "FWRITE" && |kept| == |req[2]| ==> kept == req[2];
    hide Follows, AdvanceBy, CutMove, Atoi, OS.Slice, OS.Overlay, Opened;
  }

  lemma AdvanceOfWrite(f: Files, name: string, third: string)
    requires name in f.at
    ensures AdvanceBy(f, name, "FWRITE", third) == |third|
  {
  }

  /** A store that nothing arrived at. */
  lemma UntouchedStoreAgrees(f: Files, g: Files, name: string, req: seq<string>)
    requires Follows(f, g) && name in f.at && WellFormed(req) && req[0] != "FCLOSE" && req[2] != ""
    ensures SameFile(Moved(f, name, req), g, name) <==> AdvanceBy(f, name, req[0], req[2]) == 0
  {
    MovedBy(f, name, req);
    AdvanceOfWrite(f, name, req[2]);
    hide AdvanceBy, Atoi;
  }

  /** A peer all of whose files stand at most where they stood. */
  lemma LaggingPeerDisagrees(f: Files, p: World, p1: World, name: string, req: seq<string>)
    requires Good(p) && Lags(p, p1) && Follows(f, Abs(p)) && name in f.at && WellFormed(req) && req[0] != "FCLOSE"
    requires AdvanceBy(f, name, req[0], req[2]) > 0
    ensures !SameFile(Moved(f, name, req), Abs(p1), name)
  {
    MovedBy(f, name, req);
    PositionIs(p, name);
    PositionIs(p1, name);
    hide AdvanceBy, Good, Position;
  }

  /** A read at end of file whose number does not arrive. */
  lemma LaggingPeerAgreesIff(f: Files, p: World, p1: World, name: string, req: seq<string>)
    requires Good(p) && Lags(p, p1) && Follows(f, Abs(p)) && name in f.at && WellFormed(req) && req[0] != "FCLOSE"
    requires AdvanceBy(f, name, req[0], req[2]) == 0 && req[2] != ""
    ensures SameFile(Moved(f, name, req), Abs(p1), name) <==> Position(p1, name) == Position(p, name)
  {
    MovedBy(f, name, req);
    AdvanceOfWrite(f, name, req[2]);
    PositionIs(p, name);
    PositionIs(p1, name);
    LagsIsGood(p, p1);
    assert Abs(p).Content(name) == OS.Content(p.os, name) && Abs(p1).Content(name) == OS.Content(p1.os, name);
    assert Moved(f, name, req).Content(name) == f.Content(name);
    hide AdvanceBy, Good, Position, Moved;
  }

  /** Exactly when a peer agrees with the origin about the file after an FSEEK, FREAD or FWRITE: when what
      arrives there advances the file as far as it was advanced here. Nothing arrives at a peer that is
      not reached or cannot open the file; of a line too long for the peer's buffer what the buffer
      holds arrives. A read at end of file whose line is so long that its number does not arrive advances
      nothing here; then the peer agrees when the rest of the line, which may read as another command, has
      not moved the file there. */
  lemma AgreesIffAdvanceArrives(c: Cluster, req: seq<string>, choice: OS.OpenChoice, fates: seq<Fate>, i: nat)
    requires InStep(c) && AllTokens(req) && Announced(c.origin, req) && req[0] != "FCLOSE"
    requires |fates| == |c.peers| && i < |fates|
    ensures Atoi(req[1]) in c.origin.tab.fdToName && c.origin.tab.fdToName[Atoi(req[1])] in Abs(c.origin).at
    ensures var name := c.origin.tab.fdToName[Atoi(req[1])]; var f := Abs(c.origin);
      var c1 := ServeRequest(c, req, choice, fates).c; var advance := AdvanceBy(f, name, req[0], req[2]);
      && |c1.peers| == |c.peers|
      && (Agree(c1.origin, c1.peers[i], name) <==>
            if advance > 0 || !fates[i].Reached? || Kept(name, req) != ""
            then advance == ArrivingAdvance(f, c.peers[i], name, req, fates[i])
            else Position(c1.peers[i], name) == Position(c.peers[i], name))
  {
    LocalMoves(c.origin, req);
    AnnouncedEffect(c, req, choice, fates);
    PeerInStep(c, i);
    CutHeads(req);
    var name, p := c.origin.tab.fdToName[Atoi(req[1])], c.peers[i];
    hide InStep, Announced, NamesAreTokens, AllTokens, Atoi, Good, Follows, Kept, Agree, PeerStep, SyncLine, IsToken,
         AdvanceBy, ArrivingAdvance, Handle, ServeRequest, Moved, BuildSync;
    PeerAgreesIff(c.origin, Handle(c.origin, req, OS.Refuse).w, p, name, req, fates[i]);
  }

  lemma PeerInStep(c: Cluster, i: nat)
    requires InStep(c) && i < |c.peers|
    ensures Good(c.origin) && NamesAreTokens(c.origin) && Good(c.peers[i]) && Follows(Abs(c.origin), Abs(c.peers[i]))
  {
  }

  lemma PeerAgreesIff(o: World, o1: World, p: World, name: string, req: seq<string>, fate: Fate)
    requires Good(o) && Good(o1) && Good(p) && Follows(Abs(o), Abs(p))
    requires WellFormed(req) && req[0] != "FCLOSE" && AllTokens(req) && IsToken(name) && name in Abs(o).at
    requires Abs(o1) == Moved(Abs(o), name, req)
    ensures var advance := AdvanceBy(Abs(o), name, req[0], req[2]);
      var p1 := PeerStep(p, SyncLine(name, req), fate).0;
      Agree(o1, p1, name) <==>
        if advance > 0 || !fate.Reached? || Kept(name, req) != ""
        then advance == ArrivingAdvance(Abs(o), p, name, req, fate)
        else Position(p1, name) == Position(p, name)
  {
    var f, g, p1 := Abs(o), Abs(p), PeerStep(p, SyncLine(name, req), fate).0;
    CutHeads(req);
    NonEmptyToken(req[2]);
    UntouchedStoreAgrees(f, g, name, req);
    if fate.Reached? {
      CutLineEffect(p, name, req, fate);
      CutStoresAgree(f, g, name, req, Kept(name, req));
      if Kept(name, req) == "" {
        NothingAdvancesNothing(f, name, req[0]);
        if AdvanceBy(f, name, req[0], req[2]) > 0 {
          LaggingPeerDisagrees(f, p, p1, name, req);
        } else {
          LaggingPeerAgreesIff(f, p, p1, name, req);
        }
      }
    }
    hide Position, Good, Follows, Atoi, Kept, Agree, SyncLine, AdvanceBy, SameFile, Moved, CutMove, CanOpen, Lags;
    AgreementIs(o1, p1, name);
  }

  lemma NothingAdvancesNothing(f: Files, name: string, head: string)
    requires name in f.at
    ensures AdvanceBy(f, name, head, "") == 0
  {
    assert SkipSpaces("") == "";
  }

  /** A write always advances the file: its line must reach the peer whole, and the peer must be able to
      open the file. */
  lemma WriteFollowsIffLineFits(c: Cluster, req: seq<string>, choice: OS.OpenChoice, fates: seq<Fate>, i: nat)
    requires InStep(c) && AllTokens(req) && Announced(c.origin, req) && req[0] == "FWRITE"
    requires |fates| == |c.peers| && i < |fates| && Atoi(req[1]) in c.origin.tab.fdToName
    ensures var name := c.origin.tab.fdToName[Atoi(req[1])]; var c1 := ServeRequest(c, req, choice, fates).c;
      && |c1.peers| == |c.peers|
      && (Agree(c1.origin, c1.peers[i], name) <==>
            && fates[i].Reached? && CanOpen(c.peers[i], name, Pick(fates[i].choices))
            && |SyncLine(name, req)| <= LineReader.LINE_MAX)
  {
    var name, f := c.origin.tab.fdToName[Atoi(req[1])], Abs(c.origin);
    AgreesIffAdvanceArrives(c, req, choice, fates, i);
    CutHeads(req);
    NonEmptyToken(req[2]);
    LocalMoves(c.origin, req);
    FirstPieceTokens(name, req);
    AdvanceOfWrite(f, name, req[2]);
    AdvanceOfWrite(f, name, Kept(name, req));
    hide InStep, Announced, Atoi, AllTokens, IsToken, Kept, Agree, SyncLine, AdvanceBy, ServeRequest, CanOpen,
         Good, NamesAreTokens, Handle, Moved, BuildSync;
  }

  /** So does a seek; of its line enough must arrive to read as the same number. */
  lemma SeekFollowsIffNumberArrives(c: Cluster, req: seq<string>, choice: OS.OpenChoice, fates: seq<Fate>, i: nat)
    requires InStep(c) && AllTokens(req) && Announced(c.origin, req) && req[0] == "FSEEK"
    requires |fates| == |c.peers| && i < |fates| && Atoi(req[1]) in c.origin.tab.fdToName
    ensures var name := c.origin.tab.fdToName[Atoi(req[1])]; var c1 := ServeRequest(c, req, choice, fates).c;
      && |c1.peers| == |c.peers|
      && (Agree(c1.origin, c1.peers[i], name) <==>
            && fates[i].Reached? && CanOpen(c.peers[i], name, Pick(fates[i].choices))
            && Atoi(Kept(name, req)) == Atoi(req[2]))
  {
    AgreesIffAdvanceArrives(c, req, choice, fates, i);
    hide InStep, Atoi, AllTokens, Kept, Agree, SyncLine, ServeRequest, CanOpen;
  }

  /** A line that spells a SYNCCLOSE of this name in its first piece, and then at most one more word. */
  ghost predicate ClosesOnly(line: string, name: string) {
    var tokens := Tokens(line[..Piece(line)]);
    && |tokens| >= 2 && tokens[0] == "SYNCCLOSE" && tokens[1] == name
    && OneWord(line[Piece(line)..])
  }

  lemma CloseLineOfShortName(line: string, name: string, third: string)
    requires IsToken(name) && Solid(third) && |name| <= 244
    requires line == "SYNCCLOSE" + " " + name + (" " + third)
    ensures ClosesOnly(line, name)
  {
    hide Tokens, IsToken;
    var part, rest := third[..OS.Min(|third|, 244 - |name|)], third[OS.Min(|third|, 244 - |name|)..];
    assert line[..Piece(line)] == "SYNCCLOSE" + " " + name + (" " + part);
    assert IsToken("SYNCCLOSE") by { ClosingWord(); }
    TokensOfTwoWords("SYNCCLOSE", name, " " + part);
    assert line[Piece(line)..] == rest;
    OneWordIs("", rest, "");
    assert "" + rest + "" == rest;
  }

  lemma ClosingWord()
    ensures IsToken("SYNCCLOSE")
  {
  }

  lemma CloseLineOfLongName(line: string, name: string, third: string)
    requires IsToken(name) && Solid(third) && |name| >= 245 && (|name| == 245 || third == "")
    requires line == "SYNCCLOSE" + " " + name + (" " + third)
    ensures ClosesOnly(line, name[..245])
  {
    hide Tokens, IsToken;
    var lead, word, trail := if third == "" then "" else " ", if third == "" then name[245..] else third,
                             if third == "" then " " else "";
    assert Solid(word) by { SolidTail(name, 245); }
    assert line[..Piece(line)] == "SYNCCLOSE" + " " + name[..245] + "";
    assert IsToken("SYNCCLOSE") by { ClosingWord(); }
    PrefixIsToken(name, 245);
    TokensOfTwoWords("SYNCCLOSE", name[..245], "");
    assert line[Piece(line)..] == lead + word + trail;
    OneWordIs(lead, word, trail);
  }

  lemma SolidTail(name: string, n: nat)
    requires IsToken(name) && n <= |name|
    ensures Solid(name[n..])
  {
  }

  lemma CloseLineTokens(name: string, req: seq<string>)
    requires WellFormed(req) && req[0] == "FCLOSE" && AllTokens(req) && IsToken(name)
    requires |name| <= 245 || |req| == 2
    ensures ClosesOnly(SyncLine(name, req), name[..OS.Min(|name|, 245)])
  {
    SyncLineShape(name, req);
    SolidTokens(name, req);
    var third := if |req| > 2 then req[2] else "";
    assert |name| <= 245 ==> name[..|name|] == name;
    hide Tokens, IsToken, ClosesOnly, SyncLine;
    if |name| <= 244 {
      CloseLineOfShortName(SyncLine(name, req), name, third);
    } else {
      CloseLineOfLongName(SyncLine(name, req), name, third);
    }
  }

  lemma SolidTokens(name: string, req: seq<string>)
    requires AllTokens(req) && IsToken(name)
    ensures Solid(name) && (|req| > 2 ==> Solid(req[2]))
  {
  }

  /** A SYNCCLOSE line closes the file its first piece names. */
  lemma CloseLineEffect(p: World, name: string, req: seq<string>, fate: Fate)
    requires Good(p) && WellFormed(req) && req[0] == "FCLOSE" && AllTokens(req) && IsToken(name) && fate.Reached?
    requires |name| <= 245 || |req| == 2
    ensures var p1 := PeerStep(p, SyncLine(name, req), fate).0;
      Good(p1) && Abs(p1) == Abs(p).Close(name[..OS.Min(|name|, 245)])
  {
    var line := SyncLine(name, req);
    CloseLineTokens(name, req);
    SyncLineRoundTrip(name, req);
    PeerServesText(p, line, fate);
    ServeFirstPiece(p, line, fate.choices);
    assert '\n' !in line[Piece(line)..];
    assert ClosesOnly(line, name[..OS.Min(|name|, 245)]);
    hide Tokens, Handle, SyncClose, Good, OneWord, PeerStep, ServedText, SyncLine, Piece, IsToken, AllTokens;
    var tokens := Tokens(line[..Piece(line)]);
    SyncDispatch(p, tokens, Pick(fate.choices));
    SyncCloseRefines(p, tokens);
    OneWordChangesNothing(SyncClose(p, tokens).w, line[Piece(line)..], Rest(fate.choices));
  }

  lemma ClosedPeerAgreesIff(o: World, o1: World, p: World, name: string, req: seq<string>, fate: Fate)
    requires Good(o) && Good(o1) && Good(p) && Follows(Abs(o), Abs(p)) && Abs(o1) == Abs(o).Close(name)
    requires WellFormed(req) && req[0] == "FCLOSE" && AllTokens(req) && IsToken(name)
    requires !fate.Reached? || |name| <= 245 || |req| == 2
    ensures Agree(o1, PeerStep(p, SyncLine(name, req), fate).0, name)
       <==> !Live(p.tab, name) || (fate.Reached? && |name| <= 245)
  {
    var p1, short := PeerStep(p, SyncLine(name, req), fate).0, name[..OS.Min(|name|, 245)];
    assert |name| <= 245 ==> short == name;
    NotLive(p, name);
    FollowsIs(Abs(o), Abs(p), name);
    ClosedContent(Abs(o), name, name);
    ClosedContent(Abs(p), short, name);
    if fate.Reached? {
      CloseLineEffect(p, name, req, fate);
    } else {
      assert p1 == p;
    }
    hide Good, Follows, Agree, PeerStep, SyncLine, IsToken, AllTokens, Live, Atoi;
    AgreementIs(o1, p1, name);
  }

  lemma FollowsIs(f: Files, g: Files, name: string)
    requires Follows(f, g)
    ensures f.Content(name) == g.Content(name)
  {
  }

  /** A longer name followed by a superfluous token, of which the rest of the line may read as another
      command. */
  lemma CutCloseLags(p: World, name: string, req: seq<string>, fate: Fate)
    requires Good(p) && WellFormed(req) && req[0] == "FCLOSE" && AllTokens(req) && IsToken(name) && fate.Reached?
    requires |name| > 245
    ensures Lags(p, PeerStep(p, SyncLine(name, req), fate).0)
  {
    var line := SyncLine(name, req);
    CutCloseTokens(name, req);
    SyncLineRoundTrip(name, req);
    PeerServesText(p, line, fate);
    ServeFirstPiece(p, line, fate.choices);
    assert '\n' !in line[Piece(line)..];
    hide *;
    var tokens, rest := Tokens(line[..Piece(line)]), line[Piece(line)..];
    SyncDispatch(p, tokens, Pick(fate.choices));
    ShortRequestLags(p, tokens, Pick(fate.choices));
    var s := Handle(p, tokens, Pick(fate.choices));
    LagsIsGood(p, s.w);
    RemainderLags(s.w, rest, Rest(fate.choices));
    LagsTwice(p, s.w, ServedText(s.w, rest, Rest(fate.choices)));
  }

  lemma CutCloseLine(line: string, name: string, third: string)
    requires IsToken(name) && Solid(third) && |name| > 245
    requires line == "SYNCCLOSE" + " " + name + (" " + third)
    ensures Tokens(line[..Piece(line)]) == ["SYNCCLOSE", name[..245]] && Spaces(line[Piece(line)..]) <= 1
  {
    hide Tokens, IsToken, Spaces;
    var tail := name + (" " + third);
    assert line == "SYNCCLOSE" + " " + tail && Piece(line) == 255;
    assert line[255..] == tail[245..];
    assert line[..255] == "SYNCCLOSE" + " " + name[..245] + "";
    assert IsToken("SYNCCLOSE") by { ClosingWord(); }
    PrefixIsToken(name, 245);
    TokensOfTwoWords("SYNCCLOSE", name[..245], "");
    TokensOfBlank("");
    SolidTail(name, 0);
    SpacesOfTwoWords(name, third);
    SuffixSpaces(tail, 245);
  }

  lemma CutCloseTokens(name: string, req: seq<string>)
    requires WellFormed(req) && req[0] == "FCLOSE" && AllTokens(req) && IsToken(name) && |name| > 245
    ensures var line := SyncLine(name, req); var tokens := Tokens(line[..Piece(line)]);
      |tokens| == 2 && tokens[0] == "SYNCCLOSE" && Spaces(line[Piece(line)..]) <= 1
  {
    SyncLineShape(name, req);
    SolidTokens(name, req);
    hide Tokens, IsToken, Spaces, SyncLine, Solid;
    CutCloseLine(SyncLine(name, req), name, if |req| > 2 then req[2] else "");
  }

  lemma LaggingPeerClosed(o: World, o1: World, p: World, p1: World, name: string)
    requires Good(o) && Good(o1) && Good(p) && Follows(Abs(o), Abs(p)) && Abs(o1) == Abs(o).Close(name)
    requires Lags(p, p1)
    ensures Agree(o1, p1, name) <==> !Live(p1.tab, name)
  {
    LagsIsGood(p, p1);
    FollowsIs(Abs(o), Abs(p), name);
    ClosedContent(Abs(o), name, name);
    NotLive(p1, name);
    AgreementIs(o1, p1, name);
    assert Abs(p).Content(name) == OS.Content(p.os, name) && Abs(p1).Content(name) == OS.Content(p1.os, name);
    hide Good, Follows, Agree, Live, Position;
  }

  /** After an FCLOSE a peer agrees when its copy is closed too. Of the name it reads 245 characters, and
      a longer one names another file; then, if a superfluous token follows, the rest of the line may read
      as another command and close the file after all. */
  lemma CloseFollowsIff(c: Cluster, req: seq<string>, choice: OS.OpenChoice, fates: seq<Fate>, i: nat)
    requires InStep(c) && AllTokens(req) && Announced(c.origin, req) && req[0] == "FCLOSE"
    requires |fates| == |c.peers| && i < |fates|
    ensures Atoi(req[1]) in c.origin.tab.fdToName
    ensures var name := c.origin.tab.fdToName[Atoi(req[1])]; var c1 := ServeRequest(c, req, choice, fates).c;
      && |c1.peers| == |c.peers|
      && (Agree(c1.origin, c1.peers[i], name) <==>
            if !fates[i].Reached? || |name| <= 245 || |req| == 2
            then !Live(c.peers[i].tab, name) || (fates[i].Reached? && |name| <= 245)
            else !Live(c1.peers[i].tab, name))
  {
    LocalMoves(c.origin, req);
    AnnouncedEffect(c, req, choice, fates);
    PeerInStep(c, i);
    var name := c.origin.tab.fdToName[Atoi(req[1])];
    hide InStep, Announced, NamesAreTokens, AllTokens, Atoi, Good, Follows, Agree, PeerStep, SyncLine, IsToken, Handle,
         ServeRequest, BuildSync, Live;
    var o1 := Handle(c.origin, req, OS.Refuse).w;
    if !fates[i].Reached? || |name| <= 245 || |req| == 2 {
      ClosedPeerAgreesIff(c.origin, o1, c.peers[i], name, req, fates[i]);
    } else {
      CutCloseLags(c.peers[i], name, req, fates[i]);
      LaggingPeerClosed(c.origin, o1, c.peers[i], PeerStep(c.peers[i], SyncLine(name, req), fates[i]).0, name);
    }
  }

  lemma ClosedContent(f: Files, n: string, m: string)
    ensures f.Close(n).Content(m) == f.Content(m)
  {
  }

  /** A peer that one message did not reach is left exactly the request's advance behind. */
  lemma MissedMessageDiverges(c: Cluster, req: seq<string>, choice: OS.OpenChoice, fates: seq<Fate>, i: nat)
    requires InStep(c) && AllTokens(req) && Announced(c.origin, req)
    requires |fates| == |c.peers| && i < |fates| && fates[i] == Unreachable
    ensures Atoi(req[1]) in c.origin.tab.fdToName && c.origin.tab.fdToName[Atoi(req[1])] in Abs(c.origin).at
    ensures var name := c.origin.tab.fdToName[Atoi(req[1])]; var f := Abs(c.origin);
      var c1 := ServeRequest(c, req, choice, fates).c;
      && |c1.peers| == |c.peers| && c1.peers[i] == c.peers[i]
      && if req[0] == "FCLOSE" then
           Agree(c1.origin, c1.peers[i], name) <==> !Live(c.peers[i].tab, name)
         else
           var advance := AdvanceBy(f, name, req[0], req[2]);
           && Position(c1.origin, name) == Position(c1.peers[i], name) + advance
           && (Agree(c1.origin, c1.peers[i], name) <==> advance == 0)
  {
    LocalMoves(c.origin, req);
    AnnouncedEffect(c, req, choice, fates);
    var name := c.origin.tab.fdToName[Atoi(req[1])];
    InStepMeansAgreement(c, i, name);
    PositionIs(c.origin, name);
    PositionIs(Handle(c.origin, req, OS.Refuse).w, name);
    if req[0] == "FCLOSE" {
      CloseFollowsIff(c, req, choice, fates, i);
    } else {
      AgreesIffAdvanceArrives(c, req, choice, fates, i);
      MovedBy(Abs(c.origin), name, req);
    }
    hide InStep, Announced, NamesAreTokens, AllTokens, Atoi, Good, SyncLine, IsToken, Handle,
         ServeRequest, BuildSync, AdvanceBy, Moved, Live, Position;
  }
}
