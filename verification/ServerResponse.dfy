/** The reply printer: status, code, message, newline. */
module ServerResponse {
  import opened Text
  import opened FileOperations

  /** The `ERROR_CODES` table; a code it lacks has an empty text. */
  function ErrorText(code: string): string {
    match code
    case "ERPIP" => "Error Creating The Pipe"
    case "ER-F-OP" => "Error Opening The File"
    case "ERSHL" => "Shell Command Dose Not Exists"
    case "ER-SYNC" => "Majority Vote Did Not Achieved"
    case "ER-SYNC-SOK" => "Connection Socket Error"
    case "ER-SYNC-CONN" => "Connection To Peers Failed"
    case _ => ""
  }

  /** The text after the status of a failed request. */
  function FailureText(code: int): string {
    if code == NO_SUCH_FILE then "No Such File Or Directory"
    else if code == NO_PRE_OEPN then "No Previously Opened File"
    else if code == PARAM_PARS then "Param Parsing Error"
    else if code == WRT_FAILED then "Writing Failed"
    else if code == NO_VALID_COM then "No Valid Command Received"
    else ""
  }

  /** The three-part reply line. */
  function Reply(status: string, code: string, message: string): string {
    status + " " + code + " " + message + "\n"
  }

  function FileMessage(code: int, message: string): string {
    if message != " " then message
    else if code >= 0 then "Operation Success"
    else FailureText(code)
  }

  function FileReply(code: int, message: string): string {
    if code >= 0 then Reply("OK", IntToString(code), FileMessage(code, message))
    else Reply("ERR", "ENOENT", FileMessage(code, message))
  }

  function InUseReply(fd: int): string {
    Reply("ERR", IntToString(fd), "This File Has Already Been Opened")
  }

  function FailReply(code: string): string {
    Reply("FAIL", code, ErrorText(code))
  }

  function SyncFailReply(code: string): string {
    Reply("SYNC", "FAIL", ErrorText(code))
  }

  function PeerLines(contents: seq<string>): string {
    if contents == [] then "" else ("PE " + contents[0] + "\n") + PeerLines(contents[1..])
  }

  lemma {:induction false} PeerLinesAppend(contents: seq<string>, last: string)
    ensures PeerLines(contents + [last]) == PeerLines(contents) + ("PE " + last + "\n")
  {
    if contents == [] {
      assert [last][1..] == [];
    } else {
      assert (contents + [last])[1..] == contents[1..] + [last];
      PeerLinesAppend(contents[1..], last);
    }
  }

  /** A client connection, as the bytes sent on it. */
  class ServerResponse {
    var sent: string

    constructor ()
      ensures sent == ""
    {
      sent := "";
    }

    method SendPayload(content: string)
      modifies this
      ensures sent == old(sent) + (content + "\n")
    {
      sent := sent + (content + "\n");
    }

    /** The default message of `file`, appended to what is printed so far. */
    method AppendNote(payload: string, code: int) returns (r: string)
      ensures r == payload + FileMessage(code, " ")
    {
      r := payload;
      if code >= 0 {
        r := r + "Operation Success";
      }
      if code < 0 && code == NO_SUCH_FILE {
        r := r + "No Such File Or Directory";
      }
      if code < 0 && code == NO_PRE_OEPN {
        r := r + "No Previously Opened File";
      }
      if code < 0 && code == PARAM_PARS {
        r := r + "Param Parsing Error";
      }
      if code < 0 && code == WRT_FAILED {
        r := r + "Writing Failed";
      }
      if code < 0 && code == NO_VALID_COM {
        r := r + "No Valid Command Received";
      }
      assert payload + "" == payload;
    }

    method File(code: int, message: string)
      modifies this
      ensures sent == old(sent) + FileReply(code, message)
    {
      var success := code >= 0;
      var payload := "";
      if success {
        payload := payload + "OK ";
        payload := payload + (IntToString(code) + " ");
      } else {
        payload := payload + "ERR ";
        payload := payload + "ENOENT ";
      }
      ghost var word := if success then IntToString(code) else "ENOENT";
      assert payload == (if success then "OK" else "ERR") + " " + word + " ";
      if message != " " {
        payload := payload + message;
      } else {
        payload := AppendNote(payload, code);
      }
      SendPayload(payload);
    }

    method FileInUse(fd: int)
      modifies this
      ensures sent == old(sent) + InUseReply(fd)
    {
      var payload := "ERR ";
      payload := payload + (IntToString(fd) + " ");
      assert payload == "ERR" + " " + IntToString(fd) + " ";
      payload := payload + "This File Has Already Been Opened";
      SendPayload(payload);
    }

    method Fail(code: string)
      modifies this
      ensures sent == old(sent) + FailReply(code)
    {
      var payload := "FAIL " + code + " ";
      assert payload == "FAIL" + " " + code + " ";
      payload := payload + ErrorText(code);
      SendPayload(payload);
    }

    method SyncFail(code: string)
      modifies this
      ensures sent == old(sent) + SyncFailReply(code)
    {
      var payload := "SYNC FAIL ";
      assert payload == "SYNC" + " " + "FAIL" + " ";
      payload := payload + ErrorText(code);
      SendPayload(payload);
    }

    method Peers(contents: seq<string>)
      modifies this
      ensures sent == old(sent) + PeerLines(contents)
    {
      if |contents| < 1 {
        return;
      }
      for i := 0 to |contents|
        invariant sent == old(sent) + PeerLines(contents[..i])
      {
        PeerLinesAppend(contents[..i], contents[i]);
        assert contents[..i + 1] == contents[..i] + [contents[i]];
        SendPayload("PE " + contents[i]);
      }
      assert contents[..|contents|] == contents;
    }
  }

  // ----- The lines a client sees -----

  /** A success is told with OK, its number and the message, or a standing one if that is one space. */
  lemma SuccessLine(code: int, message: string)
    requires code >= 0
    ensures FileReply(code, message) ==
      "OK " + IntToString(code) + " " + (if message == " " then "Operation Success" else message) + "\n"
  {
    hide IntToString;
    assert "OK" + " " == "OK ";
  }

  lemma ErrorHead()
    ensures "ERR" + " " + "ENOENT" + " " == "ERR ENOENT "
  {
  }

  /** A failure is told with ERR and ENOENT, whatever its code; that shows in the text. */
  lemma FailureLine(code: int, message: string)
    requires code < 0
    ensures FileReply(code, message) == "ERR ENOENT " + (
      if message != " " then message
      else if code == -1 then "No Such File Or Directory"
      else if code == -2 then "No Previously Opened File"
      else if code == -3 then "Param Parsing Error"
      else if code == -4 then "Writing Failed"
      else if code == -5 then "No Valid Command Received"
      else "") + "\n"
  {
    ErrorHead();
    var text := FileMessage(code, message);
    assert FileReply(code, message) == "ERR" + " " + "ENOENT" + " " + text + "\n";
    hide FileReply, Reply;
  }

  lemma InUseLine(fd: int)
    ensures InUseReply(fd) == "ERR " + IntToString(fd) + " " + "This File Has Already Been Opened" + "\n"
  {
    hide IntToString;
    assert "ERR" + " " == "ERR ";
  }

  lemma FailHeads(code: string)
    ensures "FAIL" + " " + code + " " == "FAIL " + code + " "
    ensures "SYNC" + " " + "FAIL" + " " == "SYNC FAIL "
  {
    assert "FAIL" + " " == "FAIL ";
  }

  /** The failures that are told by name: of an open, of the vote and the others in the table; any other name
      has no text. */
  lemma FailLines(code: string)
    ensures var text :=
        if code == "ERPIP" then "Error Creating The Pipe"
        else if code == "ER-F-OP" then "Error Opening The File"
        else if code == "ERSHL" then "Shell Command Dose Not Exists"
        else if code == "ER-SYNC" then "Majority Vote Did Not Achieved"
        else if code == "ER-SYNC-SOK" then "Connection Socket Error"
        else if code == "ER-SYNC-CONN" then "Connection To Peers Failed"
        else "";
      FailReply(code) == "FAIL " + code + " " + text + "\n" && SyncFailReply(code) == "SYNC FAIL " + text + "\n"
  {
    FailHeads(code);
    var text := ErrorText(code);
    assert FailReply(code) == "FAIL" + " " + code + " " + text + "\n";
    assert SyncFailReply(code) == "SYNC" + " " + "FAIL" + " " + text + "\n";
    hide FailReply, SyncFailReply, Reply;
  }

  lemma PeerLine(content: string, contents: seq<string>)
    ensures PeerLines([]) == "" && PeerLines([content] + contents) == "PE " + content + "\n" + PeerLines(contents)
  {
    assert ([content] + contents)[1..] == contents;
  }
}
