/** What FSEEK, FREAD and FWRITE do to bytes and offsets, byte by byte. */
module FileContents {
  import opened Text
  import opened FileOperations
  import opened TableConsistency
  import OS = OperatingSystem

  /** What the disk holds of the file a descriptor is open on. */
  function Stored(w: World, fd: int): string
    requires fd in w.os.fds
  {
    if w.os.fds[fd].name in w.os.disk then w.os.disk[w.os.fds[fd].name] else ""
  }

  lemma InUse(w: World, fd: int)
    requires Good(w) && fd in w.tab.openFiles
    ensures fd in w.os.fds && fd in w.tab.fdToName && w.os.fds[fd].name == w.tab.fdToName[fd]
    ensures w.tab.fdToName[fd] in Abs(w).at
    ensures Abs(w).at[w.tab.fdToName[fd]] == w.os.fds[fd].offset && Abs(w).Content(w.tab.fdToName[fd]) == Stored(w, fd)
    ensures CheckFd(w.tab, fd) == 0
  {
    MoveKeeps(w, fd, w.os.disk, 0);
  }

  lemma FreadIs(w: World, req: seq<string>, choice: OS.OpenChoice)
    requires |req| >= 3 && req[0] == "FREAD" && Atoi(req[2]) > 0
    ensures Handle(w, req, choice) == ReadFd(w, Atoi(req[1]), Atoi(req[2]), false)
  {
    hide Atoi, ReadFd;
  }

  lemma FseekIs(w: World, req: seq<string>, choice: OS.OpenChoice)
    requires |req| >= 3 && req[0] == "FSEEK" && Atoi(req[2]) > 0
    ensures Handle(w, req, choice) == SeekFd(w, Atoi(req[1]), Atoi(req[2]))
  {
    hide Atoi, SeekFd;
  }

  /** How many bytes there are to read. */
  function Found(c: string, o: nat, n: nat): (k: nat)
    ensures k <= n && (k > 0 ==> o + k <= |c|)
  {
    if o >= |c| then 0 else if n < |c| - o then n else |c| - o
  }

  /** An FREAD of at most `n` bytes finds what is left of the file from its offset on, up to `n` bytes, and
      moves past it; the client is told how many bytes, and shown them as a C string. */
  lemma ReadFinds(w: World, req: seq<string>, choice: OS.OpenChoice, fd: int, n: nat, c: string, o: nat, k: nat)
    requires Good(w) && |req| >= 3 && req[0] == "FREAD" && fd == Atoi(req[1]) && n == Atoi(req[2]) > 0
    requires fd in w.tab.openFiles && fd in w.os.fds && c == Stored(w, fd) && o == w.os.fds[fd].offset
    requires k == if o >= |c| then 0 else if n < |c| - o then n else |c| - o
    ensures var s := Handle(w, req, choice);
      && s.out == Ret(k)
      && s.content == (if k == 0 then "END-OF-FILE" else OS.CString(c[o..o + k]))
      && s.w.os == OS.Os(w.os.disk, w.os.fds[fd := OS.Descriptor(w.os.fds[fd].name, o + k)])
  {
    hide *;
    FoundIs(c, o, n, k);
    FreadIs(w, req, choice);
    ReadsWhatIsLeft(w, fd, n, w.os.fds[fd], c, k);
  }

  lemma FoundIs(c: string, o: nat, n: nat, k: nat)
    requires k == if o >= |c| then 0 else if n < |c| - o then n else |c| - o
    ensures k == Found(c, o, n)
  {
  }

  /** Every descriptor in use is one of the system's. */
  lemma InUseIsOpen(w: World, fd: int)
    requires Good(w) && fd in w.tab.openFiles
    ensures fd in w.os.fds
  {
  }

  lemma OsReadIs(os: OS.Os, fd: int, n: nat, d: OS.Descriptor, c: string, k: nat)
    requires fd in os.fds && d == os.fds[fd] && c == (if d.name in os.disk then os.disk[d.name] else "")
    requires k == Found(c, d.offset, n)
    ensures OS.Read(os, fd, n) == (OS.Os(os.disk, os.fds[fd := OS.Descriptor(d.name, d.offset + k)]), k,
                                   if k == 0 then "" else c[d.offset..d.offset + k])
  {
    assert OS.Content(os, d.name) == c;
    assert OS.Slice(c, d.offset, n) == if k == 0 then "" else c[d.offset..d.offset + k];
    hide OS.Slice, Found;
  }

  lemma ReadsWhatIsLeft(w: World, fd: int, n: nat, d: OS.Descriptor, c: string, k: nat)
    requires Good(w) && fd in w.tab.openFiles && fd in w.os.fds
    requires d == w.os.fds[fd] && c == Stored(w, fd) && k == Found(c, d.offset, n)
    ensures var s := ReadFd(w, fd, n, false);
      && s.out == Ret(k)
      && s.content == (if k == 0 then "END-OF-FILE" else OS.CString(c[d.offset..d.offset + k]))
      && s.w.os == OS.Os(w.os.disk, w.os.fds[fd := OS.Descriptor(d.name, d.offset + k)])
  {
    OsReadIs(w.os, fd, n, d, c, k);
    hide *;
    InUse(w, fd);
    MayGoOn(w, fd);
    ReadFdIs(w, fd, n);
  }

  lemma MayGoOn(w: World, fd: int)
    requires Good(w)
    ensures var (w1, name) := LookUp(w, fd);
      && w1.os == w.os && name in w1.tab.access && MayRead(w1.tab.access[name]) && MayWrite(w1.tab.access[name])
  {
    LookUpKeeps(w, fd);
  }

  lemma ReadFdIs(w: World, fd: int, n: nat)
    requires CheckFd(w.tab, fd) == 0
    requires LookUp(w, fd).0.os == w.os && MayRead(LookUp(w, fd).0.tab.access[LookUp(w, fd).1])
    ensures var s, (os, k, bytes) := ReadFd(w, fd, n, false), OS.Read(w.os, fd, n);
      s.out == Ret(k) && s.w.os == os && s.content == if k == 0 then "END-OF-FILE" else OS.CString(bytes)
  {
    hide OS.Read, OS.CString, LookUp, MayRead;
  }

  lemma WriteFdIs(w: World, fd: int, data: string)
    requires CheckFd(w.tab, fd) == 0
    requires LookUp(w, fd).0.os == w.os && MayWrite(LookUp(w, fd).0.tab.access[LookUp(w, fd).1])
    ensures var s, (os, k) := WriteFd(w, fd, data), OS.Write(w.os, fd, data);
      s.out == Ret(if k <= 0 then WRT_FAILED else k) && s.w.os == os
  {
    hide OS.Write, LookUp, MayWrite;
  }

  lemma OsWriteIs(os: OS.Os, fd: int, data: string)
    requires fd in os.fds
    ensures var d := os.fds[fd]; var c := if d.name in os.disk then os.disk[d.name] else "";
      OS.Write(os, fd, data) == (OS.Os(os.disk[d.name := OS.Overlay(c, d.offset, data)],
                                       os.fds[fd := OS.Descriptor(d.name, d.offset + |data|)]), |data|)
  {
    hide OS.Overlay;
  }

  /** An FSEEK moves the offset forward, past the end if need be, and touches nothing else. */
  lemma SeekMoves(w: World, req: seq<string>, choice: OS.OpenChoice)
    requires Good(w) && |req| >= 3 && req[0] == "FSEEK"
    requires Atoi(req[1]) in w.tab.openFiles && Atoi(req[2]) > 0
    ensures Atoi(req[1]) in w.os.fds
    ensures var fd, s := Atoi(req[1]), Handle(w, req, choice);
      && s.out == Ret(0)
      && s.w.os == OS.Os(w.os.disk, w.os.fds[fd := OS.Descriptor(w.os.fds[fd].name, w.os.fds[fd].offset + Atoi(req[2]))])
  {
    InUse(w, Atoi(req[1]));
    LookUpKeeps(w, Atoi(req[1]));
    FseekIs(w, req, choice);
    hide Good, Atoi, Handle, LookUp;
  }

  /** An FWRITE puts the content at the offset and moves past it: every byte before and after stays, a gap
      reads as NULs, the file grows if it must, and no other file or descriptor changes. */
  lemma WriteLands(w: World, req: seq<string>, choice: OS.OpenChoice)
    requires Good(w) && |req| >= 3 && req[0] == "FWRITE" && req[2] != "" && Atoi(req[1]) in w.tab.openFiles
    ensures Atoi(req[1]) in w.os.fds
    ensures var fd, data, s := Atoi(req[1]), req[2], Handle(w, req, choice);
      var d, c := w.os.fds[fd], Stored(w, fd);
      && s.out == Ret(|data|)
      && s.w.os.fds == w.os.fds[fd := OS.Descriptor(d.name, d.offset + |data|)]
      && d.name in s.w.os.disk && s.w.os.disk == w.os.disk[d.name := s.w.os.disk[d.name]]
      && var r := s.w.os.disk[d.name];
         && |r| == (if |c| > d.offset + |data| then |c| else d.offset + |data|)
         && forall i | 0 <= i < |r| ::
              r[i] == if d.offset <= i < d.offset + |data| then data[i - d.offset] else if i < |c| then c[i] else '\0'
  {
    var fd := Atoi(req[1]);
    InUse(w, fd);
    MayGoOn(w, fd);
    WriteFdIs(w, fd, req[2]);
    OsWriteIs(w.os, fd, req[2]);
    OS.OverlayReads(Stored(w, fd), w.os.fds[fd].offset, req[2]);
    assert Handle(w, req, choice) == WriteFd(w, fd, req[2]);
    hide Good, Atoi, OS.Overlay, OS.Write, Handle, LookUp, WriteFd, MayWrite;
  }

  // ----- Reading a file to its end -----

  lemma ReadKeepsDescriptor(w: World, fd: int, n: nat)
    requires Good(w) && fd in w.tab.openFiles && fd in w.os.fds
    ensures var w1 := ReadFd(w, fd, n, false).w;
      && Good(w1) && fd in w1.tab.openFiles && fd in w1.os.fds && Stored(w1, fd) == Stored(w, fd)
      && w1.os.fds[fd].offset == w.os.fds[fd].offset + Found(Stored(w, fd), w.os.fds[fd].offset, n)
  {
    ReadRefines(w, fd, n);
    ReadsWhatIsLeft(w, fd, n, w.os.fds[fd], Stored(w, fd), Found(Stored(w, fd), w.os.fds[fd].offset, n));
    hide Good, ReadFd, OS.CString, Found;
  }

  /** What a client gets that reads `n` bytes at a time until it is told of the end of the file. */
  ghost function ReadToEnd(w: World, fd: int, n: nat): string
    requires Good(w) && fd in w.tab.openFiles && fd in w.os.fds && n > 0
    decreases |Stored(w, fd)| - w.os.fds[fd].offset
  {
    var s := ReadFd(w, fd, n, false);
    ReadsWhatIsLeft(w, fd, n, w.os.fds[fd], Stored(w, fd), Found(Stored(w, fd), w.os.fds[fd].offset, n));
    ReadKeepsDescriptor(w, fd, n);
    if s.out == Ret(0) then "" else s.content + ReadToEnd(s.w, fd, n)
  }

  lemma ReadToEndUnfolds(w: World, fd: int, n: nat, c: string, o: nat, k: nat)
    requires Good(w) && fd in w.tab.openFiles && fd in w.os.fds && n > 0
    requires c == Stored(w, fd) && o == w.os.fds[fd].offset && k == Found(c, o, n)
    ensures var w1 := ReadFd(w, fd, n, false).w;
      && Good(w1) && fd in w1.tab.openFiles && fd in w1.os.fds && Stored(w1, fd) == c && w1.os.fds[fd].offset == o + k
      && ReadToEnd(w, fd, n) == if k == 0 then "" else OS.CString(c[o..o + k]) + ReadToEnd(w1, fd, n)
  {
    hide *;
    ReadsWhatIsLeft(w, fd, n, w.os.fds[fd], c, k);
    ReadKeepsDescriptor(w, fd, n);
    ReadToEndIs(w, fd, n);
  }

  lemma ReadToEndIs(w: World, fd: int, n: nat)
    requires Good(w) && fd in w.tab.openFiles && fd in w.os.fds && n > 0
    requires var w1 := ReadFd(w, fd, n, false).w; Good(w1) && fd in w1.tab.openFiles && fd in w1.os.fds
    ensures var s := ReadFd(w, fd, n, false);
      ReadToEnd(w, fd, n) == if s.out == Ret(0) then "" else s.content + ReadToEnd(s.w, fd, n)
  {
    hide Good, ReadFd, Stored, Found;
  }

  lemma {:induction false} TextIsItsOwnCString(s: string)
    requires '\0' !in s
    ensures OS.CString(s) == s
  {
    if s != "" {
      TextIsItsOwnCString(s[1..]);
    }
  }

  /** That is the rest of the file, to the last byte, whatever the size of the reads. */
  lemma {:induction false} ReadToEndIsTheRest(w: World, fd: int, n: nat)
    requires Good(w) && fd in w.tab.openFiles && fd in w.os.fds && n > 0 && '\0' !in Stored(w, fd)
    ensures ReadToEnd(w, fd, n) ==
      if w.os.fds[fd].offset <= |Stored(w, fd)| then Stored(w, fd)[w.os.fds[fd].offset..] else ""
    decreases |Stored(w, fd)| - w.os.fds[fd].offset
  {
    var c, o := Stored(w, fd), w.os.fds[fd].offset;
    var k := Found(c, o, n);
    ReadToEndUnfolds(w, fd, n, c, o, k);
    assert k == 0 <==> o >= |c|;
    hide *;
    if k > 0 {
      PieceAndRest(c, o, k);
      ReadToEndIsTheRest(ReadFd(w, fd, n, false).w, fd, n);
    }
  }

  lemma PieceAndRest(c: string, o: nat, k: nat)
    requires '\0' !in c && o + k <= |c|
    ensures OS.CString(c[o..o + k]) == c[o..o + k] && c[o..o + k] + c[o + k..] == c[o..]
  {
    hide OS.CString;
    TextIsItsOwnCString(c[o..o + k]);
  }
}
