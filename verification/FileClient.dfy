/** The file client: the global tables updated in place, operation by operation. Every method is
    proved to do to the tables, and to answer, exactly what its function in `FileOperations` says.
    A wait whose predicate is false ends the method with `Blocked`. */
module FileClient {
  import opened Text
  import opened FileOperations
  import OS = OperatingSystem

  class FileClient {
    var openedFiles: seq<int>
    var fdToName: map<int, string>
    var nameToFd: map<string, int>
    var fileAccess: map<string, Control>
    var os: OS.Os

    ghost function W(): World
      reads this
    {
      World(Tables(openedFiles, fdToName, nameToFd, fileAccess), os)
    }

    constructor (os: OS.Os)
      ensures W() == World(NO_TABLES, os)
    {
      openedFiles, fdToName, nameToFd, fileAccess := [], map[], map[], map[];
      this.os := os;
    }

    method EndWritingAndNotify(name: string)
      requires name in fileAccess
      modifies this`fileAccess
      ensures fileAccess == old(fileAccess)[name := old(fileAccess[name]).(writing := old(fileAccess[name].writing) - 1)]
    {
      fileAccess := fileAccess[name := fileAccess[name].(writing := fileAccess[name].writing - 1)];
    }

    method EndReadingAndNotify(name: string)
      requires name in fileAccess
      modifies this`fileAccess
      ensures fileAccess == old(fileAccess)[name := old(fileAccess[name]).(reading := old(fileAccess[name].reading) - 1)]
    {
      fileAccess := fileAccess[name := fileAccess[name].(reading := fileAccess[name].reading - 1)];
    }

    method CleanUp()
      modifies this
      ensures W() == FileOperations.CleanUp(old(W()))
    {
      for i := 0 to |openedFiles|
        invariant W() == old(W()).(os := os)
        invariant CloseAll(os, openedFiles[i..]) == CloseAll(old(os), openedFiles)
      {
        assert openedFiles[i..][1..] == openedFiles[i + 1..];
        os := OS.Close(os, openedFiles[i]);
      }
      openedFiles, fdToName, nameToFd, fileAccess := [], map[], map[], map[];
    }

    method FDChcker(fd: int) returns (code: int)
      ensures code == CheckFd(W().tab, fd)
    {
      if |openedFiles| == 0 {
        return NO_PRE_OEPN;
      }
      var found := false;
      for i := 0 to |openedFiles|
        invariant found <==> fd in openedFiles[..i]
      {
        if fd == openedFiles[i] {
          found := true;
        }
      }
      assert openedFiles[..|openedFiles|] == openedFiles;
      if !found {
        return NO_SUCH_FILE;
      }
      return 0;
    }

    /** `FdToName[fd]`, then `FILE_ACCESS[FileName]`; both may insert. */
    method LookUpControl(fd: int) returns (name: string)
      modifies this`fdToName, this`fileAccess
      ensures (W(), name) == LookUp(old(W()), fd)
    {
      fdToName := Touch(fdToName, fd, "");
      name := fdToName[fd];
      fileAccess := Touch(fileAccess, name, FRESH);
    }

    method FOPEN(req: seq<string>, choice: OS.OpenChoice) returns (out: Outcome, inUse: int)
      modifies this
      ensures Step(W(), out, " ", inUse) == Fopen(old(W()), req, choice)
    {
      inUse := -1;
      if |req| < 2 {
        return Ret(PARAM_PARS), inUse;
      }
      var name := req[1];
      nameToFd := Touch(nameToFd, name, 0);
      var fdRef := nameToFd[name];
      if fdRef > 0 {
        inUse := fdRef;
        return Ret(0), inUse;
      }
      match OS.Open(os, name, choice) {
        case None =>
          return Threw(OPEN_ERROR), inUse;
        case Some(granted) =>
          os := granted;
      }
      var fd := choice.fd;
      openedFiles := openedFiles + [fd];
      fdToName := fdToName[fd := name];
      nameToFd := nameToFd[name := fd];
      return Ret(fd), inUse;
    }

    /** FSEEK from the first check of the descriptor on. */
    method SeekOn(fd: int, params: nat) returns (out: Outcome)
      modifies this
      ensures Step(W(), out, " ", -1) == SeekFd(old(W()), fd, params)
    {
      var filterFlag := FDChcker(fd);
      if filterFlag < 0 {
        return Ret(filterFlag);
      }
      var name := LookUpControl(fd);
      var control := fileAccess[name];
      if !MayRead(control) {
        return Blocked;
      }
      ghost var before := fileAccess;
      var res := 0;
      fileAccess := fileAccess[name := control.(reading := control.reading + 1)];
      var (sought, at) := OS.Seek(os, fd, params);
      os := sought;
      if at <= 0 {
        res := -1;
      }
      EndReadingAndNotify(name);
      assert fileAccess == before;
      return Ret(res);
    }

    method FSEEK(req: seq<string>) returns (out: Outcome)
      modifies this
      ensures Step(W(), out, " ", -1) == Fseek(old(W()), req)
    {
      if |req| < 3 {
        return Ret(PARAM_PARS);
      }
      var fd, params := Atoi(req[1]), Atoi(req[2]);
      if params <= 0 {
        return Ret(PARAM_PARS);
      }
      out := SeekOn(fd, params);
    }

    /** FREAD from the first check of the descriptor on. */
    method ReadOn(fd: int, params: nat, checkOnly: bool) returns (out: Outcome, content: string)
      modifies this
      ensures Step(W(), out, content, -1) == ReadFd(old(W()), fd, params, checkOnly)
    {
      content := " ";
      var filterFlag := FDChcker(fd);
      if filterFlag < 0 {
        return Ret(filterFlag), content;
      }
      if checkOnly {
        return Ret(1), content;
      }
      var name := LookUpControl(fd);
      var control := fileAccess[name];
      if !MayRead(control) {
        return Blocked, content;
      }
      filterFlag := FDChcker(fd);
      if filterFlag < 0 {
        return Ret(filterFlag), content;
      }
      ghost var before := fileAccess;
      fileAccess := fileAccess[name := control.(reading := control.reading + 1)];
      var (readOs, n, buff) := OS.Read(os, fd, params);
      os := readOs;
      var res := n;
      if res < 0 {
        res := -1;
      }
      EndReadingAndNotify(name);
      assert fileAccess == before;
      if res == 0 {
        content := "END-OF-FILE";
        return Ret(res), content;
      }
      content := OS.CString(buff);
      return Ret(res), content;
    }

    method FREAD(req: seq<string>, checkOnly: bool) returns (out: Outcome, content: string)
      modifies this
      ensures Step(W(), out, content, -1) == Fread(old(W()), req, checkOnly)
    {
      content := " ";
      if |req| < 3 {
        return Ret(PARAM_PARS), content;
      }
      var fd, params := Atoi(req[1]), Atoi(req[2]);
      if params <= 0 {
        return Ret(PARAM_PARS), content;
      }
      out, content := ReadOn(fd, params, checkOnly);
    }

    method FWRITE(req: seq<string>) returns (out: Outcome)
      modifies this
      ensures Step(W(), out, " ", -1) == Fwrite(old(W()), req)
    {
      if |req| < 3 {
        return Ret(PARAM_PARS);
      }
      var fd := Atoi(req[1]);
      var name := LookUpControl(fd);
      var control := fileAccess[name];
      if !MayWrite(control) {
        return Blocked;
      }
      var filterFlag := FDChcker(fd);
      if filterFlag < 0 {
        return Ret(filterFlag);
      }
      ghost var before := fileAccess;
      fileAccess := fileAccess[name := control.(writing := control.writing + 1)];
      var (written, res) := OS.Write(os, fd, req[2]);
      os := written;
      EndWritingAndNotify(name);
      assert fileAccess == before;
      if res <= 0 {
        return Ret(WRT_FAILED);
      }
      return Ret(res);
    }

    method IndexOfFd(fd: int) returns (index: nat)
      ensures index == FirstIndex(openedFiles, fd)
    {
      index := 0;
      while index < |openedFiles| && openedFiles[index] != fd
        invariant index <= |openedFiles|
        invariant index + FirstIndex(openedFiles[index..], fd) == FirstIndex(openedFiles, fd)
      {
        assert openedFiles[index..][1..] == openedFiles[index + 1..];
        index := index + 1;
      }
    }

    method RemoveReferences(fd: int, name: string)
      requires fd in openedFiles
      modifies this`openedFiles, this`nameToFd, this`fdToName, this`fileAccess
      ensures W().tab == Removed(old(W().tab), fd, name)
    {
      var index := IndexOfFd(fd);
      openedFiles := openedFiles[..index] + openedFiles[index + 1..];
      nameToFd := Touch(nameToFd, name, 0);
      if nameToFd[name] == fd {
        nameToFd := nameToFd[name := -1];
      }
      fdToName := fdToName - {fd};
      fileAccess := fileAccess - {name};
    }

    /** FCLOSE from the first check of the descriptor on. */
    method CloseOn(fd: int, checkOnly: bool) returns (out: Outcome)
      modifies this
      ensures Step(W(), out, " ", -1) == CloseFd(old(W()), fd, checkOnly)
    {
      var filterFlag := FDChcker(fd);
      if filterFlag < 0 {
        return Ret(filterFlag);
      }
      if checkOnly {
        return Ret(1);
      }
      var name := LookUpControl(fd);
      var control := fileAccess[name];
      if !MayClose(control) {
        return Blocked;
      }
      ghost var before := fileAccess;
      fileAccess := fileAccess[name := control.(closing := true)];
      filterFlag := FDChcker(fd);
      if filterFlag < 0 {
        return Ret(filterFlag);
      }
      assert fileAccess - {name} == before - {name};
      RemoveReferences(fd, name);
      os := OS.Close(os, fd);
      return Ret(0);
    }

    method FCLOSE(req: seq<string>, checkOnly: bool) returns (out: Outcome)
      modifies this
      ensures Step(W(), out, " ", -1) == Fclose(old(W()), req, checkOnly)
    {
      if |req| < 2 {
        return Ret(PARAM_PARS);
      }
      out := CloseOn(Atoi(req[1]), checkOnly);
    }

    /** The lookup by name that starts every SYNC request. */
    method FindOrOpen(req: seq<string>, choice: OS.OpenChoice) returns (out: Outcome)
      requires |req| >= 2
      modifies this
      ensures Step(W(), out, " ", -1) == EnsureOpen(old(W()), req, choice)
    {
      nameToFd := Touch(nameToFd, req[1], 0);
      if nameToFd[req[1]] < 1 {
        var temp;
        out, temp := FOPEN(req, choice);
      } else {
        out := Ret(0);
      }
    }

    method SYNCSEEK(req: seq<string>, choice: OS.OpenChoice) returns (out: Outcome)
      modifies this
      ensures Step(W(), out, " ", -1) == SyncSeek(old(W()), req, choice)
    {
      if |req| < 3 {
        return Ret(-1);
      }
      out := FindOrOpen(req, choice);
      if !out.Threw? {
        out := FSEEK(["FSEEK", IntToString(nameToFd[req[1]]), req[2]]);
      }
    }

    method SYNCREAD(req: seq<string>, choice: OS.OpenChoice) returns (out: Outcome, content: string)
      modifies this
      ensures Step(W(), out, content, -1) == SyncRead(old(W()), req, choice)
    {
      content := " ";
      if |req| < 3 {
        return Ret(-1), content;
      }
      out := FindOrOpen(req, choice);
      if !out.Threw? {
        out, content := FREAD(["FREAD", IntToString(nameToFd[req[1]]), req[2]], false);
      }
    }

    method SYNCWRITE(req: seq<string>, choice: OS.OpenChoice) returns (out: Outcome)
      modifies this
      ensures Step(W(), out, " ", -1) == SyncWrite(old(W()), req, choice)
    {
      if |req| < 3 {
        return Ret(-1);
      }
      out := FindOrOpen(req, choice);
      if !out.Threw? {
        out := FWRITE(["FWRITE", IntToString(nameToFd[req[1]]), req[2]]);
      }
    }

    method SYNCCLOSE(req: seq<string>) returns (out: Outcome)
      modifies this
      ensures Step(W(), out, " ", -1) == SyncClose(old(W()), req)
    {
      if |req| < 2 {
        return Ret(-1);
      }
      nameToFd := Touch(nameToFd, req[1], 0);
      var fd := nameToFd[req[1]];
      if fd < 1 {
        return Ret(0);
      }
      out := FCLOSE(["FCLOSE", IntToString(fd)], false);
    }

    method SyncRequestBuilder(req: seq<string>) returns (line: string)
      requires |req| >= 2
      modifies this`fdToName
      ensures (W(), line) == BuildSync(old(W()), req)
    {
      line := "";
      var head := req[0];
      if head == "FSEEK" {
        line := line + "SYNCSEEK ";
      }
      if head == "FWRITE" {
        line := line + "SYNCWRITE ";
      }
      if head == "FREAD" {
        line := line + "SYNCREAD ";
      }
      if head == "FCLOSE" {
        line := line + "SYNCCLOSE ";
      }
      assert line == SyncHead(head);
      var fd := Atoi(req[1]);
      fdToName := Touch(fdToName, fd, "");
      line := line + (fdToName[fd] + " ");
      if |req| > 2 {
        line := line + req[2];
      } else {
        assert line + "" == line;
      }
    }
  }
}
