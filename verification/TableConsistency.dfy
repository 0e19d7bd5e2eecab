/** The invariant of the four tables, and the name-level file store they implement. */
module TableConsistency {
  import opened Text
  import opened FileOperations
  import OS = OperatingSystem

  /** No descriptor is listed twice; descriptors in use and positive entries of `NameToFd`
      correspond one to one, and `FdToName` is that correspondence read backwards; every stray key of
      `FdToName` has the empty name. */
  ghost predicate Consistent(t: Tables) {
    && (forall i, j | 0 <= i < j < |t.openFiles| :: t.openFiles[i] != t.openFiles[j])
    && (forall fd | fd in t.openFiles ::
          fd > 0 && fd in t.fdToName && t.fdToName[fd] in t.nameToFd && t.nameToFd[t.fdToName[fd]] == fd)
    && (forall n | n in t.nameToFd && t.nameToFd[n] > 0 ::
          t.nameToFd[n] in t.openFiles && t.fdToName[t.nameToFd[n]] == n)
    && (forall fd | fd in t.fdToName && fd !in t.openFiles :: t.fdToName[fd] == "")
  }

  /** No operation is under way. */
  ghost predicate Quiescent(t: Tables) {
    forall n | n in t.access :: t.access[n] == FRESH
  }

  /** The operating system holds exactly the listed descriptors, each on the file it is listed for. */
  ghost predicate Linked(w: World) {
    && (forall fd :: fd in w.os.fds <==> fd in w.tab.openFiles)
    && (forall fd | fd in w.os.fds ::
          fd in w.tab.fdToName && w.os.fds[fd].name == w.tab.fdToName[fd] && fd <= INT_MAX)
  }

  ghost predicate Good(w: World) {
    Consistent(w.tab) && Quiescent(w.tab) && Linked(w)
  }

  ghost predicate Live(t: Tables, name: string) {
    name in t.nameToFd && t.nameToFd[name] > 0
  }

  // ----- The name-level store -----

  /** File contents by name, and a position for each open name. */
  datatype Files = Files(disk: map<string, string>, at: map<string, nat>) {
    function Content(name: string): string {
      if name in disk then disk[name] else ""
    }

    function Open(name: string): Files {
      Files(disk[name := Content(name)], at[name := 0])
    }

    function Seek(name: string, delta: nat): Files
      requires name in at
    {
      this.(at := at[name := at[name] + delta])
    }

    function Bytes(name: string, count: nat): string
      requires name in at
    {
      OS.Slice(Content(name), at[name], count)
    }

    function Read(name: string, count: nat): Files
      requires name in at
    {
      this.(at := at[name := at[name] + |Bytes(name, count)|])
    }

    function Write(name: string, data: string): Files
      requires name in at
    {
      Files(disk[name := OS.Overlay(Content(name), at[name], data)], at[name := at[name] + |data|])
    }

    function Close(name: string): Files {
      this.(at := at - {name})
    }
  }

  /** What a state means by name, its descriptors forgotten: the open names are the live ones, each at
      the offset of its descriptor. */
  ghost predicate Represents(w: World, f: Files)
    requires Good(w)
  {
    && f.disk == w.os.disk
    && (forall n :: n in f.at <==> Live(w.tab, n))
    && (forall n | Live(w.tab, n) :: f.at[n] == w.os.fds[w.tab.nameToFd[n]].offset)
  }

  ghost function Abs(w: World): (f: Files)
    requires Good(w)
    ensures Represents(w, f)
  {
    assert Represents(w, Files(w.os.disk,
      map n | n in w.tab.nameToFd && w.tab.nameToFd[n] > 0 :: w.os.fds[w.tab.nameToFd[n]].offset));
    var f :| Represents(w, f);
    f
  }

  lemma AbsIs(w: World, f: Files)
    requires Good(w) && Represents(w, f)
    ensures Abs(w) == f
  {
    assert Abs(w).at == f.at;
  }

  /** The tables map descriptors and names as before. */
  ghost predicate SameNames(t: Tables, u: Tables) {
    u.openFiles == t.openFiles && u.nameToFd == t.nameToFd
    && forall fd | fd in t.openFiles && fd in t.fdToName :: fd in u.fdToName && u.fdToName[fd] == t.fdToName[fd]
  }

  lemma LookUpKeeps(w: World, fd: int)
    requires Good(w)
    ensures var (w1, name) := LookUp(w, fd);
      && Good(w1) && w1.os == w.os && SameNames(w.tab, w1.tab) && Abs(w1) == Abs(w)
      && w1.tab.access[name] == FRESH
      && (fd in w.tab.openFiles ==> fd in w.tab.fdToName && name == w.tab.fdToName[fd])
  {
    AbsIs(LookUp(w, fd).0, Abs(w));
  }

  /** Only the position of one descriptor, and the disk, change. */
  lemma MoveKeeps(w: World, fd: int, disk: map<string, string>, at: nat)
    requires Good(w) && fd in w.tab.openFiles
    ensures var w2 := w.(os := OS.Os(disk, w.os.fds[fd := w.os.fds[fd].(offset := at)]));
      && Good(w2) && Abs(w2) == Files(disk, Abs(w).at[w.tab.fdToName[fd] := at])
    ensures w.tab.fdToName[fd] in Abs(w).at
    ensures Abs(w).at[w.tab.fdToName[fd]] == w.os.fds[fd].offset
    ensures w.os.fds[fd].name == w.tab.fdToName[fd]
  {
    var w2 := w.(os := OS.Os(disk, w.os.fds[fd := w.os.fds[fd].(offset := at)]));
    assert Good(w2);
    AbsIs(w2, Files(disk, Abs(w).at[w.tab.fdToName[fd] := at]));
  }

  lemma OsSeekRefines(w: World, fd: int, delta: nat)
    requires Good(w) && fd in w.tab.openFiles
    ensures var (os, at) := OS.Seek(w.os, fd, delta); var name := w.tab.fdToName[fd];
      && Good(w.(os := os)) && name in Abs(w).at && Abs(w.(os := os)) == Abs(w).Seek(name, delta)
      && at == w.os.fds[fd].offset + delta
  {
    MoveKeeps(w, fd, w.os.disk, w.os.fds[fd].offset + delta);
  }

  lemma OsReadRefines(w: World, fd: int, count: nat)
    requires Good(w) && fd in w.tab.openFiles
    ensures var (os, n, bytes) := OS.Read(w.os, fd, count); var name := w.tab.fdToName[fd];
      && Good(w.(os := os)) && name in Abs(w).at && Abs(w.(os := os)) == Abs(w).Read(name, count)
      && n == |bytes| && bytes == Abs(w).Bytes(name, count)
  {
    hide OS.Slice;
    var name, at := w.tab.fdToName[fd], w.os.fds[fd].offset;
    var bytes := OS.Slice(OS.Content(w.os, name), at, count);
    MoveKeeps(w, fd, w.os.disk, at + |bytes|);
    assert OS.Read(w.os, fd, count) ==
      (OS.Os(w.os.disk, w.os.fds[fd := w.os.fds[fd].(offset := at + |bytes|)]), |bytes|, bytes);
    hide Good, OS.Read;
  }

  lemma OsWriteRefines(w: World, fd: int, data: string)
    requires Good(w) && fd in w.tab.openFiles
    ensures var (os, n) := OS.Write(w.os, fd, data); var name := w.tab.fdToName[fd];
      && Good(w.(os := os)) && name in Abs(w).at && Abs(w.(os := os)) == Abs(w).Write(name, data)
      && n == |data|
  {
    var name, at := w.tab.fdToName[fd], w.os.fds[fd].offset;
    var disk := w.os.disk[name := OS.Overlay(OS.Content(w.os, name), at, data)];
    MoveKeeps(w, fd, disk, at + |data|);
    hide Good, OS.Overlay;
    assert OS.Write(w.os, fd, data).0 == OS.Os(disk, w.os.fds[fd := w.os.fds[fd].(offset := at + |data|)]);
    assert Abs(w).Write(name, data) == Files(disk, Abs(w).at[name := at + |data|]);
  }

  /** A descriptor in use moves by moving its file's position; nothing else changes. */
  lemma SeekRefines(w: World, fd: int, delta: nat)
    requires Good(w) && delta > 0
    ensures var s := SeekFd(w, fd, delta);
      && Good(s.w) && SameNames(w.tab, s.w.tab) && s.inUse == -1
      && if fd in w.tab.openFiles
         then s.out == Ret(0) && Abs(s.w) == Abs(w).Seek(w.tab.fdToName[fd], delta)
         else s.out == Ret(CheckFd(w.tab, fd)) && Abs(s.w) == Abs(w)
  {
    LookUpKeeps(w, fd);
    if fd in w.tab.openFiles {
      OsSeekRefines(LookUp(w, fd).0, fd, delta);
    }
  }

  /** A read returns what the store holds at the file's position, as a C string, or the end marker. */
  lemma ReadRefines(w: World, fd: int, count: nat)
    requires Good(w)
    ensures var s := ReadFd(w, fd, count, false);
      && Good(s.w) && SameNames(w.tab, s.w.tab) && s.inUse == -1
      && if fd in w.tab.openFiles
         then
           var bytes := Abs(w).Bytes(w.tab.fdToName[fd], count);
           && s.out == Ret(|bytes|) && Abs(s.w) == Abs(w).Read(w.tab.fdToName[fd], count)
           && s.content == if bytes == "" then "END-OF-FILE" else OS.CString(bytes)
         else s.out == Ret(CheckFd(w.tab, fd)) && s.content == " " && Abs(s.w) == Abs(w)
  {
    LookUpKeeps(w, fd);
    if fd in w.tab.openFiles {
      OsReadRefines(LookUp(w, fd).0, fd, count);
    }
  }

  /** A write overlays the file's content at its position; on a bad descriptor it leaves only strays. */
  lemma WriteRefines(w: World, fd: int, data: string)
    requires Good(w)
    ensures var s := WriteFd(w, fd, data);
      && Good(s.w) && SameNames(w.tab, s.w.tab) && s.inUse == -1
      && if fd in w.tab.openFiles
         then
           && s.out == Ret(if data == "" then WRT_FAILED else |data|)
           && Abs(s.w) == Abs(w).Write(w.tab.fdToName[fd], data)
         else s.out == Ret(CheckFd(w.tab, fd)) && Abs(s.w) == Abs(w)
  {
    LookUpKeeps(w, fd);
    if fd in w.tab.openFiles {
      OsWriteRefines(LookUp(w, fd).0, fd, data);
    }
  }

  lemma WithoutKeepsOthers(openFiles: seq<int>, fd: int)
    requires fd in openFiles
    requires forall i, j | 0 <= i < j < |openFiles| :: openFiles[i] != openFiles[j]
    ensures var r := Without(openFiles, fd);
      && fd !in r
      && (forall x :: x in r <==> x in openFiles && x != fd)
      && (forall i, j | 0 <= i < j < |r| :: r[i] != r[j])
  {
    var k := FirstIndex(openFiles, fd);
    assert openFiles == openFiles[..k] + [fd] + openFiles[k + 1..];
  }

  /** The list of open files keeps its order when its first entry for a descriptor goes. */
  lemma WithoutKeepsOrder(a: seq<int>, fd: int, b: seq<int>)
    requires fd !in a
    ensures Without(a + [fd] + b, fd) == a + b
  {
    var all := a + [fd] + b;
    var k := FirstIndex(all, fd);
    assert all[|a|] == fd;
    assert forall i | 0 <= i < |a| :: all[i] == a[i];
  }

  lemma RemoveConsistent(t: Tables, fd: int)
    requires Consistent(t) && fd in t.openFiles
    ensures var name := t.fdToName[fd]; var u := Removed(t, fd, name);
      && Consistent(u) && !Live(u, name)
      && (forall x :: x in u.openFiles <==> x in t.openFiles && x != fd)
      && (forall x | x in u.openFiles :: u.fdToName[x] == t.fdToName[x])
      && (forall n | n != name :: Live(u, n) <==> Live(t, n))
      && (forall n | n != name && Live(t, n) :: u.nameToFd[n] == t.nameToFd[n] != fd)
  {
    WithoutKeepsOthers(t.openFiles, fd);
    var name := t.fdToName[fd];
    var u := Removed(t, fd, name);
    assert forall x | x in u.fdToName :: u.fdToName[x] == t.fdToName[x];
    assert u.nameToFd == t.nameToFd[name := -1];
  }

  lemma CloseRefines(w: World, fd: int)
    requires Good(w)
    ensures var s := CloseFd(w, fd, false);
      if fd in w.tab.openFiles
      then
        && Good(s.w) && s.out == Ret(0) && Abs(s.w) == Abs(w).Close(w.tab.fdToName[fd])
        && w.tab.fdToName[fd] !in s.w.tab.access
      else s.w == w && s.out == Ret(CheckFd(w.tab, fd))
  {
    LookUpKeeps(w, fd);
    if fd in w.tab.openFiles {
      var w1 := LookUp(w, fd).0;
      RemoveConsistent(w1.tab, fd);
      var s := CloseFd(w, fd, false);
      AbsIs(s.w, Abs(w).Close(w.tab.fdToName[fd]));
    }
  }

  /** FOPEN's three assignments. */
  function Added(t: Tables, name: string, fd: int): Tables {
    t.(openFiles := t.openFiles + [fd], fdToName := t.fdToName[fd := name], nameToFd := t.nameToFd[name := fd])
  }

  lemma AddConsistent(t: Tables, name: string, fd: int)
    requires Consistent(t) && !Live(t, name) && fd > 0 && fd !in t.openFiles
    ensures var u := Added(t, name, fd);
      && Consistent(u)
      && (forall x :: x in u.openFiles <==> x in t.openFiles || x == fd)
      && (forall n :: Live(u, n) <==> Live(t, n) || n == name)
  {
    var u := Added(t, name, fd);
    assert forall x :: x in u.openFiles <==> x in t.openFiles || x == fd;
  }

  lemma AddKeeps(w: World, name: string, fd: int)
    requires Good(w) && !Live(w.tab, name) && name != "" && 0 < fd <= INT_MAX && fd !in w.os.fds
    ensures var w2 := World(Added(w.tab, name, fd),
        OS.Os(w.os.disk[name := OS.Content(w.os, name)], w.os.fds[fd := OS.Descriptor(name, 0)]));
      Good(w2) && Abs(w2) == Abs(w).Open(name)
  {
    var w2 := World(Added(w.tab, name, fd),
        OS.Os(w.os.disk[name := OS.Content(w.os, name)], w.os.fds[fd := OS.Descriptor(name, 0)]));
    AddConsistent(w.tab, name, fd);
    assert Linked(w2) && Quiescent(w2.tab);
    AbsIs(w2, Abs(w).Open(name));
  }

  /** The lookup by name inserts a stray entry. */
  lemma StrayNameKeeps(w: World, name: string)
    requires Good(w)
    ensures var w1 := w.(tab := w.tab.(nameToFd := Touch(w.tab.nameToFd, name, 0)));
      && Good(w1) && Abs(w1) == Abs(w) && (forall n :: Live(w1.tab, n) <==> Live(w.tab, n))
  {
    var w1 := w.(tab := w.tab.(nameToFd := Touch(w.tab.nameToFd, name, 0)));
    AbsIs(w1, Abs(w));
  }

  lemma OpenRefines(w: World, req: seq<string>, choice: OS.OpenChoice)
    requires Good(w) && |req| >= 2 && !Live(w.tab, req[1])
    ensures var s := Fopen(w, req, choice);
      && Good(s.w) && s.inUse == -1
      && match OS.Open(w.os, req[1], choice)
         case None => s.out == Threw(OPEN_ERROR) && s.w.os == w.os && Abs(s.w) == Abs(w)
         case Some(os) =>
           && s.out == Ret(choice.fd) && s.w.os == os && Abs(s.w) == Abs(w).Open(req[1])
           && Live(s.w.tab, req[1]) && s.w.tab.nameToFd[req[1]] == choice.fd
  {
    StrayNameKeeps(w, req[1]);
    var w1 := w.(tab := w.tab.(nameToFd := Touch(w.tab.nameToFd, req[1], 0)));
    if OS.Open(w.os, req[1], choice).Some? {
      AddKeeps(w1, req[1], choice.fd);
    }
  }

  /** FOPEN asks the operating system exactly when no descriptor is open on the name; otherwise it
      reports the one that is, and changes nothing. A refusal leaves a stray entry only. */
  lemma OpenIsExclusive(w: World, req: seq<string>, choice: OS.OpenChoice)
    requires Good(w) && |req| >= 2
    ensures var s := Fopen(w, req, choice); var name := req[1];
      && Good(s.w)
      && (Live(w.tab, name) <==> exists fd :: fd in w.os.fds && w.os.fds[fd].name == name)
      && (forall fd | fd in w.os.fds && w.os.fds[fd].name == name ::
            s == Step(w, Ret(0), " ", fd))
      && (!Live(w.tab, name) ==>
            match OS.Open(w.os, name, choice)
            case None => s.out == Threw(OPEN_ERROR) && s.inUse == -1 && s.w.os == w.os && Abs(s.w) == Abs(w)
            case Some(os) =>
              && s.out == Ret(choice.fd) && s.inUse == -1 && s.w.os == os
              && Abs(s.w) == Abs(w).Open(name))
  {
    var name := req[1];
    if Live(w.tab, name) {
      var fd := w.tab.nameToFd[name];
      assert fd in w.os.fds && w.os.fds[fd].name == name;
      assert forall other | other in w.os.fds && w.os.fds[other].name == name :: other == fd;
    } else {
      OpenRefines(w, req, choice);
    }
  }

  // ----- Requests -----

  /** The store after a SYNC request has found its file. */
  function Opened(f: Files, name: string): Files {
    if name in f.at then f else f.Open(name)
  }

  /** Every live name passes through `to_string` and `atoi` to its own descriptor. */
  lemma LiveDescriptor(w: World, name: string)
    requires Good(w) && Live(w.tab, name)
    ensures var fd := w.tab.nameToFd[name];
      fd in w.tab.openFiles && w.tab.fdToName[fd] == name && Atoi(IntToString(fd)) == fd
  {
    PrintedIntReadsBack(w.tab.nameToFd[name]);
  }

  lemma EnsureOpenRefines(w: World, req: seq<string>, choice: OS.OpenChoice)
    requires Good(w) && |req| >= 2
    ensures var s := EnsureOpen(w, req, choice);
      && Good(s.w)
      && if Live(w.tab, req[1]) || OS.Open(w.os, req[1], choice).Some?
         then s.out.Ret? && Live(s.w.tab, req[1]) && Abs(s.w) == Opened(Abs(w), req[1])
         else s.out == Threw(OPEN_ERROR) && Abs(s.w) == Abs(w)
  {
    StrayNameKeeps(w, req[1]);
    var w1 := w.(tab := w.tab.(nameToFd := Touch(w.tab.nameToFd, req[1], 0)));
    if !Live(w.tab, req[1]) {
      OpenRefines(w1, req, choice);
    }
  }
}
