/** `Lib::readline` on a byte stream: one `read` system call per character. */
module LineReader {
  /** What successive `read(fd, &c, 1)` calls meet before end of file. */
  datatype Event = Byte(c: char) | Failure

  const READ_FAILED := -1
  const NO_MORE_DATA := -2
  /** `ALEN - 1`, the bound the server passes. */
  const LINE_MAX: nat := 255

  function Bytes(text: string): (s: seq<Event>)
    ensures |s| == |text| && forall i | 0 <= i < |s| :: s[i] == Byte(text[i])
  {
    seq(|text|, i requires 0 <= i < |text| => Byte(text[i]))
  }

  predicate Plain(e: Event) {
    e.Byte? && e.c != '\n'
  }

  /** Length of the longest run of ordinary characters at the front, at most `max`. */
  function RunLength(s: seq<Event>, max: nat): (n: nat)
    ensures n <= |s| && n <= max
    ensures forall i | 0 <= i < n :: Plain(s[i])
    ensures n < max && n < |s| ==> !Plain(s[n])
  {
    if max == 0 || s == [] || !Plain(s[0]) then 0 else 1 + RunLength(s[1..], max - 1)
  }

  function TextOf(s: seq<Event>): (t: string)
    requires forall i | 0 <= i < |s| :: s[i].Byte?
    ensures |t| == |s| && forall i | 0 <= i < |s| :: t[i] == s[i].c
  {
    seq(|s|, i requires 0 <= i < |s| => s[i].c)
  }

  /** One call: the returned number, the characters stored before it returned, whether a newline
      ended the line, and what is left in the stream. */
  datatype Line = Line(code: int, text: string, newline: bool, rest: seq<Event>)

  function ReadLine(s: seq<Event>, max: nat): Line {
    var n := RunLength(s, max);
    var text := TextOf(s[..n]);
    if n == max then Line(n, text, false, s[n..])
    else if s == [] then Line(NO_MORE_DATA, "", false, [])
    else if n == |s| then Line(n, text, false, [])
    else if s[n].Failure? then Line(READ_FAILED, text, false, s[n + 1..])
    else Line(n, text, true, s[n + 1..])
  }

  class ByteStream {
    var pending: seq<Event>

    constructor (events: seq<Event>)
      ensures pending == events
    {
      pending := events;
    }

    /** `read(fd, &c, 1)`: 1, or 0 at end of file, or -1. */
    method Read(c0: char) returns (what: int, c: char)
      modifies this
      ensures old(pending) == [] ==> what == 0 && c == c0 && pending == []
      ensures old(pending) != [] ==> pending == old(pending)[1..]
      ensures old(pending) != [] && old(pending)[0].Failure? ==> what == -1 && c == c0
      ensures old(pending) != [] && old(pending)[0].Byte? ==> what == 1 && c == old(pending)[0].c
    {
      c := c0;
      if pending == [] {
        return 0, c;
      }
      var e := pending[0];
      pending := pending[1..];
      match e
      case Byte(b) => what, c := 1, b;
      case Failure => what := -1;
    }
  }

  /** The loop of `readline(int, char *, size_t)`. A non-negative result leaves the line and its
      NUL in the buffer; an error leaves the characters stored so far and no terminator. */
  method ReadLineInto(stream: ByteStream, buf: array<char>, max: nat) returns (code: int)
    requires max < buf.Length
    modifies stream, buf
    ensures var line := ReadLine(old(stream.pending), max);
      && code == line.code
      && stream.pending == line.rest
      && |line.text| < buf.Length
      && buf[..] == line.text
                    + (if code >= 0 then ['\0'] else old(buf[|line.text|..|line.text| + 1]))
                    + old(buf[|line.text| + 1..])
  {
    ghost var s := stream.pending;
    ghost var before := buf[..];
    ghost var n := RunLength(s, max);
    var begin := true;
    var i := 0;
    var tmp := '\0';
    while i < max
      invariant 0 <= i <= n
      invariant begin <==> i == 0
      invariant stream.pending == s[i..]
      invariant forall k | 0 <= k < i :: buf[k] == s[k].c
      invariant buf[i..] == before[i..]
    {
      var what;
      what, tmp := stream.Read(tmp);
      assert what == 1 && tmp != '\n' <==> i < n;
      if what == -1 {
        return READ_FAILED;
      }
      if begin {
        if what == 0 {
          return NO_MORE_DATA;
        }
        begin := false;
      }
      if what == 0 || tmp == '\n' {
        buf[i] := '\0';
        assert buf[i + 1..] == before[i + 1..];
        return i;
      }
      buf[i] := tmp;
      assert buf[i + 1..] == before[i + 1..];
      i := i + 1;
    }
    buf[i] := '\0';
    assert buf[i + 1..] == before[i + 1..];
    return i;
  }

  /** A caller that reads until a negative code: the lines it saw, and the call that ended it. */
  function ReadAll(s: seq<Event>, max: nat): (r: (seq<Line>, Line))
    requires max > 0
    decreases |s|
  {
    var line := ReadLine(s, max);
    if line.code < 0 then ([], line)
    else
      var more := ReadAll(line.rest, max);
      ([line] + more.0, more.1)
  }

  /** The stream that the lines spell out, a newline put back after each newline-ended one. */
  function Rendered(lines: seq<Line>): string {
    if lines == [] then ""
    else lines[0].text + (if lines[0].newline then "\n" else "") + Rendered(lines[1..])
  }

  /** The characters before the first failing `read`. */
  function UntilFailure(s: seq<Event>): string {
    if s == [] || s[0].Failure? then "" else [s[0].c] + UntilFailure(s[1..])
  }

  lemma {:induction false} UntilFailureSplits(s: seq<Event>, n: nat)
    requires n <= |s| && forall i | 0 <= i < n :: s[i].Byte?
    ensures UntilFailure(s) == TextOf(s[..n]) + UntilFailure(s[n..])
  {
    if n == 0 {
      assert s[0..] == s;
    } else {
      UntilFailureSplits(s[1..], n - 1);
      assert s[1..][n - 1..] == s[n..];
      assert TextOf(s[..n]) == [s[0].c] + TextOf(s[1..][..n - 1]);
    }
  }

  lemma ReadLineConserves(s: seq<Event>, max: nat)
    requires max > 0
    ensures var line := ReadLine(s, max);
      && UntilFailure(s) == line.text + (if line.newline then "\n" else "")
                            + (if line.code < 0 then "" else UntilFailure(line.rest))
      && (line.code >= 0 ==> line.code == |line.text| <= max && |line.rest| < |s|)
      && (line.code >= 0 && !line.newline && |line.text| < max ==> line.rest == [])
  {
    var n := RunLength(s, max);
    UntilFailureSplits(s, n);
    if n < max && n < |s| && s[n].Byte? {
      assert s[n..][1..] == s[n + 1..];
    }
  }

  lemma ReadLineFails(s: seq<Event>, max: nat)
    requires max > 0
    ensures var line := ReadLine(s, max);
      && (line.code == READ_FAILED ==> Failure in s)
      && (line.code == NO_MORE_DATA ==> Failure !in s && line.text == "")
      && (line.code >= 0 ==> (Failure in s <==> Failure in line.rest))
      && line.code >= NO_MORE_DATA
  {
    var line := ReadLine(s, max);
    var k := |s| - |line.rest|;
    assert line.rest == s[k..] && s == s[..k] + s[k..];
    if line.code >= 0 {
      assert forall i | 0 <= i < k :: s[i].Byte?;
      assert Failure !in s[..k];
    }
  }

  lemma {:induction false} ReadAllEnds(s: seq<Event>, max: nat)
    requires max > 0
    ensures var last := ReadAll(s, max).1;
      && last.code == (if Failure in s then READ_FAILED else NO_MORE_DATA)
      && (last.code == NO_MORE_DATA ==> last.text == "")
    decreases |s|
  {
    ReadLineFails(s, max);
    if ReadLine(s, max).code >= 0 {
      ReadLineConserves(s, max);
      ReadAllEnds(ReadLine(s, max).rest, max);
    }
  }

  lemma RenderedCons(line: Line, lines: seq<Line>, tail: string)
    ensures Rendered([line] + lines) + tail
         == line.text + (if line.newline then "\n" else "") + (Rendered(lines) + tail)
  {
    assert ([line] + lines)[1..] == lines;
  }

  /** Repeated calls neither lose nor invent a byte: the lines, put back together, are the stream up
      to its first failing `read` -- except that the line under way when a read fails is dropped. */
  lemma {:induction false} ReadAllConserves(s: seq<Event>, max: nat)
    requires max > 0
    ensures var (lines, last) := ReadAll(s, max);
      && UntilFailure(s) == Rendered(lines) + last.text
      && (last.text != "" ==> Failure in s)
    decreases |s|
  {
    ReadLineConserves(s, max);
    ReadAllEnds(s, max);
    var line := ReadLine(s, max);
    if line.code >= 0 {
      ReadAllConserves(line.rest, max);
      RenderedCons(line, ReadAll(line.rest, max).0, ReadAll(line.rest, max).1.text);
    }
  }

  /** Every line fits the bound, and only a newline, a full buffer or end of file ends one. */
  lemma {:induction false} ReadAllLines(s: seq<Event>, max: nat)
    requires max > 0
    ensures var lines := ReadAll(s, max).0;
      && |lines| <= |s|
      && forall i | 0 <= i < |lines| ::
            && '\n' !in lines[i].text
            && lines[i].code == |lines[i].text| <= max
            && (lines[i].newline || |lines[i].text| == max || i == |lines| - 1)
    decreases |s|
  {
    ReadLineConserves(s, max);
    var line := ReadLine(s, max);
    if line.code >= 0 {
      ReadAllLines(line.rest, max);
      var more := ReadAll(line.rest, max).0;
      assert ReadAll(s, max).0 == [line] + more;
      if line.rest == [] {
        assert more == [];
      }
    }
  }

  /** A line without a newline that fits the buffer, followed by end of file, is read as one line. */
  lemma ReadAllOfOneLine(text: string, max: nat)
    requires 0 < |text| <= max && '\n' !in text
    ensures ReadAll(Bytes(text), max)
         == ([Line(|text|, text, false, [])], Line(NO_MORE_DATA, "", false, []))
  {
    var s := Bytes(text);
    assert forall i | 0 <= i < |s| :: text[i] in text && Plain(s[i]);
    assert RunLength(s, max) == |s|;
    assert s[..|s|] == s && TextOf(s) == text && s[|s|..] == [];
    assert ReadLine(s, max) == Line(|text|, text, false, []);
    assert ReadLine([], max) == Line(NO_MORE_DATA, "", false, []);
    assert ReadAll([], max) == ([], Line(NO_MORE_DATA, "", false, []));
    assert [ReadLine(s, max)] + [] == [ReadLine(s, max)];
  }

  /** What one call takes from the stream: the characters of the line, and the newline if that ended it,
      which it does only while there is room in the buffer; after a full buffer a newline stays behind.
      -2 means that there was nothing to read, -1 that a read failed before the line was complete. */
  lemma ReadLineTakes(s: seq<Event>, max: nat)
    requires max > 0
    ensures var line := ReadLine(s, max);
      && '\n' !in line.text && |line.text| <= max && line.code >= -2
      && (line.code >= 0 ==>
            line.code == |line.text| && s == Bytes(line.text) + (if line.newline then [Byte('\n')] else []) + line.rest)
      && (line.newline ==> line.code >= 0 && |line.text| < max)
      && (line.code >= 0 && !line.newline && |line.text| < max ==> s != [] && line.rest == [])
      && (line.code == -2 <==> s == [])
      && (line.code == -1 ==> |line.text| < max && s == Bytes(line.text) + [Failure] + line.rest)
  {
    StreamOf(s, RunLength(s, max));
    hide RunLength, TextOf, Bytes;
  }

  lemma StreamOf(s: seq<Event>, n: nat)
    requires n <= |s| && forall i | 0 <= i < n :: s[i].Byte? && s[i].c != '\n'
    ensures '\n' !in TextOf(s[..n]) && s == Bytes(TextOf(s[..n])) + s[n..]
    ensures n < |s| ==> s == Bytes(TextOf(s[..n])) + [s[n]] + s[n + 1..]
    ensures n == |s| ==> s == Bytes(TextOf(s[..n])) + [] + []
  {
    assert s[..n] == Bytes(TextOf(s[..n]));
    hide TextOf, Bytes;
    assert s == s[..n] + s[n..];
    assert n < |s| ==> s[n..] == [s[n]] + s[n + 1..];
  }

  lemma RunOfText(text: string, rest: seq<Event>, max: nat)
    requires |text| <= max && '\n' !in text && (|text| < max ==> rest == [] || !Plain(rest[0]))
    ensures RunLength(Bytes(text) + rest, max) == |text|
    ensures (Bytes(text) + rest)[..|text|] == Bytes(text) && (Bytes(text) + rest)[|text|..] == rest
    ensures TextOf(Bytes(text)) == text
  {
    var s := Bytes(text) + rest;
    assert forall i | 0 <= i < |text| :: text[i] in text && s[i] == Byte(text[i]);
    assert |text| < |s| ==> s[|text|] == rest[0];
  }

  lemma FirstLine(text: string, rest: seq<Event>, max: nat)
    requires |text| <= max && '\n' !in text && max > 0 && (|text| < max ==> rest != [] && rest[0] == Byte('\n'))
    ensures ReadLine(Bytes(text) + rest, max) ==
      if |text| == max then Line(max, text, false, rest) else Line(|text|, text, true, rest[1..])
  {
    var s := Bytes(text) + rest;
    RunOfText(text, rest, max);
    assert |text| < max ==> s[|text|] == rest[0] && s[|text| + 1..] == rest[1..];
    hide RunLength, TextOf, Bytes;
  }

  lemma ReadAllUnfolds(s: seq<Event>, l: Line, max: nat)
    requires max > 0 && ReadLine(s, max) == l && l.code >= 0
    ensures ReadAll(s, max).0 == [l] + ReadAll(l.rest, max).0
  {
    hide ReadLine;
  }

  lemma BytesConcat(a: string, b: string)
    ensures Bytes(a + b) == Bytes(a) + Bytes(b)
  {
    hide Bytes;
  }

  lemma BytesOfLine(text: string, more: string)
    ensures Bytes(text + "\n" + more) == Bytes(text) + Bytes("\n" + more)
    ensures Bytes("\n" + more)[0] == Byte('\n') && Bytes("\n" + more)[1..] == Bytes(more)
    ensures Bytes("") == [] && [] + Bytes("\n" + more) == Bytes("\n" + more)
  {
    hide Bytes;
    BytesConcat(text, "\n" + more);
    assert text + "\n" + more == text + ("\n" + more);
  }

  /** A line that leaves room in the buffer is read with its newline. */
  lemma ShortLine(text: string, more: string, max: nat)
    requires |text| < max && '\n' !in text
    ensures ReadAll(Bytes(text + "\n" + more), max).0
         == [Line(|text|, text, true, Bytes(more))] + ReadAll(Bytes(more), max).0
  {
    hide *;
    BytesOfLine(text, more);
    FirstLine(text, Bytes("\n" + more), max);
    ReadAllUnfolds(Bytes(text + "\n" + more), Line(|text|, text, true, Bytes(more)), max);
  }

  /** A line that fills the buffer is read without its newline, which then reads as an empty line. */
  lemma FullLine(text: string, more: string, max: nat)
    requires |text| == max > 0 && '\n' !in text
    ensures ReadAll(Bytes(text + "\n" + more), max).0
         == [Line(max, text, false, Bytes("\n" + more)), Line(0, "", true, Bytes(more))] + ReadAll(Bytes(more), max).0
  {
    hide *;
    BytesOfLine(text, more);
    FirstLine(text, Bytes("\n" + more), max);
    ReadAllUnfolds(Bytes(text + "\n" + more), Line(max, text, false, Bytes("\n" + more)), max);
    FirstLine("", Bytes("\n" + more), max);
    ReadAllUnfolds(Bytes("\n" + more), Line(0, "", true, Bytes(more)), max);
    TwoLines(Line(max, text, false, Bytes("\n" + more)), Line(0, "", true, Bytes(more)), ReadAll(Bytes(more), max).0);
  }

  lemma TwoLines(a: Line, b: Line, lines: seq<Line>)
    ensures [a] + ([b] + lines) == [a, b] + lines
  {
  }
}
