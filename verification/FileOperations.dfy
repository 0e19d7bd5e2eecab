/** What each operation of the file client does to the four global tables and to the operating
    system, as functions from one state to the next. The methods of module `FileClient` are proved to
    compute them. */
module FileOperations {
  import opened Text
  import OS = OperatingSystem

  const NO_SUCH_FILE := -1
  const NO_PRE_OEPN := -2
  const PARAM_PARS := -3
  const WRT_FAILED := -4
  const NO_VALID_COM := -5
  const OPEN_ERROR := "ER-F-OP"

  /** `AccessCtl`: the counters and the closing flag of one file's control record. */
  datatype Control = Control(closing: bool, reading: int, writing: int)

  const FRESH := Control(false, 0, 0)

  datatype Tables = Tables(
    openFiles: seq<int>,
    fdToName: map<int, string>,
    nameToFd: map<string, int>,
    access: map<string, Control>)

  datatype World = World(tab: Tables, os: OS.Os)

  const NO_TABLES := Tables([], map[], map[], map[])

  /** How an operation ends: with its return code, with an exception, or not at all because its wait
      predicate is false and nothing else runs. */
  datatype Outcome = Ret(code: int) | Threw(error: string) | Blocked

  /** New state, outcome, what was read, and the descriptor a second FOPEN reports. */
  datatype Step = Step(w: World, out: Outcome, content: string, inUse: int)

  function Done(w: World, code: int): Step {
    Step(w, Ret(code), " ", -1)
  }

  /** `map::operator[]` inserts a default value for a missing key. */
  function Touch<K, V>(m: map<K, V>, k: K, d: V): (r: map<K, V>)
    ensures k in r && r[k] == if k in m then m[k] else d
    ensures r.Keys == m.Keys + {k}
    ensures forall x | x in m :: r[x] == m[x]
  {
    if k in m then m else m[k := d]
  }

  function CheckFd(tab: Tables, fd: int): int {
    if |tab.openFiles| == 0 then NO_PRE_OEPN
    else if fd !in tab.openFiles then NO_SUCH_FILE
    else 0
  }

  /** `FdToName[fd]` followed by `FILE_ACCESS[FileName]`. */
  function LookUpIn(tab: Tables, fd: int): (Tables, string) {
    var fdToName := Touch(tab.fdToName, fd, "");
    var name := fdToName[fd];
    (tab.(fdToName := fdToName, access := Touch(tab.access, name, FRESH)), name)
  }

  function LookUp(w: World, fd: int): (r: (World, string))
    ensures r.1 == if fd in w.tab.fdToName then w.tab.fdToName[fd] else ""
    ensures r.1 in r.0.tab.access
  {
    var (tab, name) := LookUpIn(w.tab, fd);
    (w.(tab := tab), name)
  }

  function Fopen(w: World, req: seq<string>, choice: OS.OpenChoice): Step {
    if |req| < 2 then Done(w, PARAM_PARS)
    else
      var name := req[1];
      var w1 := w.(tab := w.tab.(nameToFd := Touch(w.tab.nameToFd, name, 0)));
      var known := w1.tab.nameToFd[name];
      if known > 0 then Done(w1, 0).(inUse := known)
      else
        match OS.Open(w.os, name, choice)
        case None => Step(w1, Threw(OPEN_ERROR), " ", -1)
        case Some(os) =>
          var fd := choice.fd;
          var tab := w1.tab.(
            openFiles := w1.tab.openFiles + [fd],
            fdToName := w1.tab.fdToName[fd := name],
            nameToFd := w1.tab.nameToFd[name := fd]);
          Done(World(tab, os), fd)
  }

  predicate MayRead(c: Control) {
    c.writing < 1 && !c.closing
  }

  predicate MayWrite(c: Control) {
    c.reading < 1 && !c.closing
  }

  predicate MayClose(c: Control) {
    c.reading < 1 && c.writing < 1
  }

  function SeekFd(w: World, fd: int, delta: nat): Step {
    if CheckFd(w.tab, fd) < 0 then Done(w, CheckFd(w.tab, fd))
    else
      var (w1, name) := LookUp(w, fd);
      if !MayRead(w1.tab.access[name]) then Step(w1, Blocked, " ", -1)
      else
        var (os, at) := OS.Seek(w1.os, fd, delta);
        Done(w1.(os := os), if at <= 0 then -1 else 0)
  }

  function Fseek(w: World, req: seq<string>): Step {
    if |req| < 3 || Atoi(req[2]) <= 0 then Done(w, PARAM_PARS)
    else SeekFd(w, Atoi(req[1]), Atoi(req[2]))
  }

  function ReadFd(w: World, fd: int, count: nat, checkOnly: bool): Step {
    if CheckFd(w.tab, fd) < 0 then Done(w, CheckFd(w.tab, fd))
    else if checkOnly then Done(w, 1)
    else
      var (w1, name) := LookUp(w, fd);
      if !MayRead(w1.tab.access[name]) then Step(w1, Blocked, " ", -1)
      else
        var (os, n, bytes) := OS.Read(w1.os, fd, count);
        Step(w1.(os := os), Ret(n), if n == 0 then "END-OF-FILE" else OS.CString(bytes), -1)
  }

  function Fread(w: World, req: seq<string>, checkOnly: bool): Step {
    if |req| < 3 || Atoi(req[2]) <= 0 then Done(w, PARAM_PARS)
    else ReadFd(w, Atoi(req[1]), Atoi(req[2]), checkOnly)
  }

  function WriteFd(w: World, fd: int, data: string): Step {
    var (w1, name) := LookUp(w, fd);
    if !MayWrite(w1.tab.access[name]) then Step(w1, Blocked, " ", -1)
    else if CheckFd(w.tab, fd) < 0 then Done(w1, CheckFd(w.tab, fd))
    else
      var (os, n) := OS.Write(w1.os, fd, data);
      Done(w1.(os := os), if n <= 0 then WRT_FAILED else n)
  }

  function Fwrite(w: World, req: seq<string>): Step {
    if |req| < 3 then Done(w, PARAM_PARS) else WriteFd(w, Atoi(req[1]), req[2])
  }

  /** Index of the first `fd` in the list, the length of the list when it is not there. */
  function FirstIndex(openFiles: seq<int>, fd: int): (k: nat)
    ensures k <= |openFiles| && fd !in openFiles[..k]
    ensures k < |openFiles| ==> openFiles[k] == fd
  {
    if openFiles == [] || openFiles[0] == fd then 0 else 1 + FirstIndex(openFiles[1..], fd)
  }

  function Without(openFiles: seq<int>, fd: int): seq<int>
    requires fd in openFiles
  {
    var k := FirstIndex(openFiles, fd);
    openFiles[..k] + openFiles[k + 1..]
  }

  /** The removal at the end of FCLOSE, `name` being what the descriptor was looked up as. */
  function Removed(tab: Tables, fd: int, name: string): Tables
    requires fd in tab.openFiles
  {
    var nameToFd := Touch(tab.nameToFd, name, 0);
    Tables(
      Without(tab.openFiles, fd),
      tab.fdToName - {fd},
      if nameToFd[name] == fd then nameToFd[name := -1] else nameToFd,
      tab.access - {name})
  }

  function CloseFd(w: World, fd: int, checkOnly: bool): Step {
    if CheckFd(w.tab, fd) < 0 then Done(w, CheckFd(w.tab, fd))
    else if checkOnly then Done(w, 1)
    else
      var (w1, name) := LookUp(w, fd);
      if !MayClose(w1.tab.access[name]) then Step(w1, Blocked, " ", -1)
      else Done(World(Removed(w1.tab, fd, name), OS.Close(w1.os, fd)), 0)
  }

  function Fclose(w: World, req: seq<string>, checkOnly: bool): Step {
    if |req| < 2 then Done(w, PARAM_PARS) else CloseFd(w, Atoi(req[1]), checkOnly)
  }

  /** How every SYNC request finds its file: by name, opening it when it has no live descriptor. */
  function EnsureOpen(w: World, req: seq<string>, choice: OS.OpenChoice): (s: Step)
    requires |req| >= 2
    ensures req[1] in s.w.tab.nameToFd
    ensures s.out == Threw(OPEN_ERROR) || s.out.Ret?
  {
    var w1 := w.(tab := w.tab.(nameToFd := Touch(w.tab.nameToFd, req[1], 0)));
    if w1.tab.nameToFd[req[1]] < 1 then Fopen(w1, req, choice).(inUse := -1) else Done(w1, 0)
  }

  /** The request rebuilt with the file's descriptor. */
  function FdRequest(head: string, w: World, req: seq<string>): seq<string>
    requires |req| >= 3 && req[1] in w.tab.nameToFd
  {
    [head, IntToString(w.tab.nameToFd[req[1]]), req[2]]
  }

  function SyncSeek(w: World, req: seq<string>, choice: OS.OpenChoice): Step {
    if |req| < 3 then Done(w, -1)
    else
      var s := EnsureOpen(w, req, choice);
      if s.out.Threw? then s else Fseek(s.w, FdRequest("FSEEK", s.w, req))
  }

  function SyncRead(w: World, req: seq<string>, choice: OS.OpenChoice): Step {
    if |req| < 3 then Done(w, -1)
    else
      var s := EnsureOpen(w, req, choice);
      if s.out.Threw? then s else Fread(s.w, FdRequest("FREAD", s.w, req), false)
  }

  function SyncWrite(w: World, req: seq<string>, choice: OS.OpenChoice): Step {
    if |req| < 3 then Done(w, -1)
    else
      var s := EnsureOpen(w, req, choice);
      if s.out.Threw? then s else Fwrite(s.w, FdRequest("FWRITE", s.w, req))
  }

  function SyncClose(w: World, req: seq<string>): Step {
    if |req| < 2 then Done(w, -1)
    else
      var w1 := w.(tab := w.tab.(nameToFd := Touch(w.tab.nameToFd, req[1], 0)));
      var fd := w1.tab.nameToFd[req[1]];
      if fd < 1 then Done(w1, 0) else Fclose(w1, ["FCLOSE", IntToString(fd)], false)
  }

  /** `SyncRequestBuilder`: the line that asks a peer, by file name, for what was done here. */
  function SyncHead(head: string): string {
    if head == "FSEEK" then "SYNCSEEK "
    else if head == "FWRITE" then "SYNCWRITE "
    else if head == "FREAD" then "SYNCREAD "
    else if head == "FCLOSE" then "SYNCCLOSE "
    else ""
  }

  function SyncLine(name: string, req: seq<string>): string
    requires req != []
  {
    SyncHead(req[0]) + (name + " ") + (if |req| > 2 then req[2] else "")
  }

  function BuildSync(w: World, req: seq<string>): (World, string)
    requires |req| >= 2
  {
    var fd := Atoi(req[1]);
    var fdToName := Touch(w.tab.fdToName, fd, "");
    (w.(tab := w.tab.(fdToName := fdToName)), SyncLine(fdToName[fd], req))
  }

  function CloseAll(os: OS.Os, fds: seq<int>): OS.Os
    decreases fds
  {
    if fds == [] then os else CloseAll(OS.Close(os, fds[0]), fds[1..])
  }

  function CleanUp(w: World): World {
    World(NO_TABLES, CloseAll(w.os, w.tab.openFiles))
  }

  /** One request, as `FileCallback` dispatches it before any message leaves for the peers. A request
      without tokens makes the callback throw before it does anything. */
  function Handle(w: World, req: seq<string>, choice: OS.OpenChoice): Step
    requires req != []
  {
    match req[0]
    case "FOPEN" => Fopen(w, req, choice)
    case "FSEEK" => Fseek(w, req)
    case "FREAD" => Fread(w, req, false)
    case "FWRITE" => Fwrite(w, req)
    case "FCLOSE" => Fclose(w, req, false)
    case "SYNCSEEK" => SyncSeek(w, req, choice)
    case "SYNCREAD" => SyncRead(w, req, choice)
    case "SYNCWRITE" => SyncWrite(w, req, choice)
    case "SYNCCLOSE" => SyncClose(w, req)
    case _ => Done(w, NO_VALID_COM)
  }
}
