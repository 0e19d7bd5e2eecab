/** The part of the operating system the file server leans on: regular files and descriptors.
    Writes are whole, and a descriptor is a positive `int` that is not in use. */
module OperatingSystem {
  import opened Text

  datatype Descriptor = Descriptor(name: string, offset: nat)
  datatype Os = Os(disk: map<string, string>, fds: map<int, Descriptor>)

  /** What the environment decides when a file is opened. */
  datatype OpenChoice = Refuse | Grant(fd: int)

  /** A file that does not exist yet reads as empty. */
  function Content(os: Os, name: string): string {
    if name in os.disk then os.disk[name] else ""
  }

  /** `open(name, O_RDWR | O_CREAT)`. An unusable grant counts as a refusal. */
  function Open(os: Os, name: string, choice: OpenChoice): Option<Os> {
    if name != "" && choice.Grant? && 0 < choice.fd <= INT_MAX && choice.fd !in os.fds then
      Some(Os(os.disk[name := Content(os, name)], os.fds[choice.fd := Descriptor(name, 0)]))
    else None
  }

  function Close(os: Os, fd: int): Os {
    os.(fds := os.fds - {fd})
  }

  /** `lseek(fd, delta, SEEK_CUR)`: the new offset, or -1. */
  function Seek(os: Os, fd: int, delta: int): (Os, int) {
    if fd !in os.fds || os.fds[fd].offset + delta < 0 then (os, -1)
    else
      var d := os.fds[fd];
      (os.(fds := os.fds[fd := d.(offset := d.offset + delta)]), d.offset + delta)
  }

  function Min(a: int, b: int): int {
    if a < b then a else b
  }

  /** The bytes a read of at most `count` gets at an offset of a file. */
  function Slice(content: string, offset: nat, count: nat): string {
    content[Min(offset, |content|)..Min(offset + count, |content|)]
  }

  /** `read(fd, buf, count)`: the number of bytes, or -1, and the bytes. */
  function Read(os: Os, fd: int, count: nat): (Os, int, string) {
    if fd !in os.fds then (os, -1, "")
    else
      var d := os.fds[fd];
      var bytes := Slice(Content(os, d.name), d.offset, count);
      (os.(fds := os.fds[fd := d.(offset := d.offset + |bytes|)]), |bytes|, bytes)
  }

  /** File content after `data` is written at `at`; a hole left by seeking past the end reads as NULs. */
  function Overlay(content: string, at: nat, data: string): string {
    if data == "" then content
    else
      var padded := content + seq(at + |data|, _ => '\0');
      padded[..at] + data + (if at + |data| < |content| then content[at + |data|..] else "")
  }

  lemma OverlayReads(content: string, at: nat, data: string)
    ensures var r := Overlay(content, at, data);
      && |r| == (if data == "" || |content| > at + |data| then |content| else at + |data|)
      && forall i | 0 <= i < |r| ::
           r[i] == if at <= i < at + |data| then data[i - at]
                   else if i < |content| then content[i] else '\0'
  {
  }

  /** `write(fd, data)`. */
  function Write(os: Os, fd: int, data: string): (Os, int) {
    if fd !in os.fds then (os, -1)
    else
      var d := os.fds[fd];
      (Os(os.disk[d.name := Overlay(Content(os, d.name), d.offset, data)],
          os.fds[fd := d.(offset := d.offset + |data|)]),
       |data|)
  }

  /** What `std::string(buffer)` keeps of the bytes in a buffer. */
  function CString(bytes: string): (s: string)
    ensures |s| <= |bytes| && s == bytes[..|s|]
    ensures '\0' !in s
    ensures |s| == |bytes| || bytes[|s|] == '\0'
  {
    if bytes == "" || bytes[0] == '\0' then "" else [bytes[0]] + CString(bytes[1..])
  }
}
