/** A connection as text: which requests are served, in what order, and where it ends. */
module Connections {
  import opened Text
  import opened FileOperations
  import opened Replication
  import LineReader
  import OS = OperatingSystem

  /** The callback on all the bytes a client sends. */
  function ServedText(c: Cluster, text: string, turns: seq<Turn>): (Cluster, string) {
    ServeLines(c, LineReader.ReadAll(LineReader.Bytes(text), LineReader.LINE_MAX).0, turns)
  }

  /** A line that leaves room in the buffer and has a word in it is one request, and the rest of the text is
      served after it, unless the request waits for ever. */
  lemma ShortLineServed(c: Cluster, line: string, more: string, turns: seq<Turn>)
    requires |line| < 255 && '\n' !in line && Tokens(line) != []
    ensures var t := TurnFor(turns, |c.peers|); var s := ServeRequest(c, Tokens(line), t.choice, t.fates);
      ServedText(c, line + "\n" + more, turns) ==
        if s.waits then (s.c, s.sent)
        else
          var (c1, text) := ServedText(s.c, more, LaterTurns(turns));
          (c1, s.sent + text)
  {
    hide Tokens, ServeRequest, LineReader.ReadAll, TurnFor, LaterTurns;
    LineReader.ShortLine(line, more, LineReader.LINE_MAX);
    var l := LineReader.Line(|line|, line, true, LineReader.Bytes(more));
    FirstOf(l, LineReader.ReadAll(LineReader.Bytes(more), LineReader.LINE_MAX).0);
  }

  lemma FirstOf(l: LineReader.Line, rest: seq<LineReader.Line>)
    ensures ([l] + rest)[0] == l && ([l] + rest)[1..] == rest
  {
  }

  /** A line without a word ends the connection, and what follows it is never served. */
  lemma BlankLineEnds(c: Cluster, line: string, more: string, turns: seq<Turn>)
    requires |line| < 255 && '\n' !in line && Tokens(line) == []
    ensures ServedText(c, line + "\n" + more, turns) == (c, "")
  {
    hide Tokens, ServeRequest, LineReader.ReadAll;
    LineReader.ShortLine(line, more, LineReader.LINE_MAX);
  }

  lemma OneLineServed(c: Cluster, lines: seq<LineReader.Line>, turns: seq<Turn>)
    requires lines != [] && Tokens(lines[0].text) != []
    requires |lines| > 1 ==> Tokens(lines[1].text) == []
    ensures var t := TurnFor(turns, |c.peers|); var s := ServeRequest(c, Tokens(lines[0].text), t.choice, t.fates);
      ServeLines(c, lines, turns) == (s.c, s.sent)
  {
    hide Tokens, ServeRequest, TurnFor, LaterTurns;
    var t := TurnFor(turns, |c.peers|);
    var s := ServeRequest(c, Tokens(lines[0].text), t.choice, t.fates);
    assert s.sent + "" == s.sent;
  }

  /** A line that fills the buffer is one request too, and the last one: its newline, left behind, reads as
      a line without a word, and what follows is never served. */
  lemma FullLineEnds(c: Cluster, line: string, more: string, turns: seq<Turn>)
    requires |line| == 255 && '\n' !in line && Tokens(line) != []
    ensures var t := TurnFor(turns, |c.peers|); var s := ServeRequest(c, Tokens(line), t.choice, t.fates);
      ServedText(c, line + "\n" + more, turns) == (s.c, s.sent)
  {
    TokensOfBlank("");
    hide Tokens, ServeRequest, LineReader.ReadAll, TurnFor, LaterTurns, ServeLines;
    LineReader.FullLine(line, more, LineReader.LINE_MAX);
    OneLineServed(c, LineReader.ReadAll(LineReader.Bytes(line + "\n" + more), LineReader.LINE_MAX).0, turns);
  }

  /** The last line needs no newline. */
  lemma LastLineServed(c: Cluster, line: string, turns: seq<Turn>)
    requires 0 < |line| <= 255 && '\n' !in line && Tokens(line) != []
    ensures var t := TurnFor(turns, |c.peers|); var s := ServeRequest(c, Tokens(line), t.choice, t.fates);
      ServedText(c, line, turns) == (s.c, s.sent)
  {
    hide Tokens, ServeRequest, LineReader.ReadAll, TurnFor, LaterTurns, ServeLines;
    LineReader.ReadAllOfOneLine(line, LineReader.LINE_MAX);
    OneLineServed(c, LineReader.ReadAll(LineReader.Bytes(line), LineReader.LINE_MAX).0, turns);
  }

  // ----- A whole conversation -----

  function Script(lines: seq<string>): string {
    if lines == [] then "" else lines[0] + "\n" + Script(lines[1..])
  }

  /** The requests one after the other. */
  function ServeScript(c: Cluster, lines: seq<string>, turns: seq<Turn>): (Cluster, string)
    requires forall i | 0 <= i < |lines| :: Tokens(lines[i]) != []
    decreases lines
  {
    if lines == [] then (c, "")
    else
      var t := TurnFor(turns, |c.peers|);
      var s := ServeRequest(c, Tokens(lines[0]), t.choice, t.fates);
      if s.waits then (s.c, s.sent)
      else
        var (c1, text) := ServeScript(s.c, lines[1..], LaterTurns(turns));
        (c1, s.sent + text)
  }

  /** A client that sends request lines shorter than the buffer is served each of them, in order, and gets
      the answers in that order. */
  lemma {:induction false} ConversationServed(c: Cluster, lines: seq<string>, turns: seq<Turn>)
    requires forall i | 0 <= i < |lines| :: |lines[i]| < 255 && '\n' !in lines[i] && Tokens(lines[i]) != []
    ensures ServedText(c, Script(lines), turns) == ServeScript(c, lines, turns)
    decreases lines
  {
    if lines == [] {
      assert LineReader.Bytes("") == [];
    } else {
      hide Tokens, ServeRequest, ServedText, TurnFor, LaterTurns;
      ShortLineServed(c, lines[0], Script(lines[1..]), turns);
      var t := TurnFor(turns, |c.peers|);
      ConversationServed(ServeRequest(c, Tokens(lines[0]), t.choice, t.fates).c, lines[1..], LaterTurns(turns));
    }
  }
}
