/** What a program that splits the server's replies into words finds: clients, and the vote. */
module PrintedReplies {
  import opened Text
  import opened FileOperations
  import opened ServerResponse
  import opened MajorityVote

  lemma StatusTokens()
    ensures IsToken("OK") && IsToken("ERR") && IsToken("FAIL") && IsToken("ENOENT")
  {
  }

  /** The first word tells success from failure, the second is the number of a success. */
  lemma StatusWord(code: int, message: string)
    ensures var words := Tokens(FileReply(code, message));
      && |words| >= 2
      && (words[0] == "OK" <==> code >= 0) && (words[0] == "ERR" <==> code < 0)
      && words[1] == (if code >= 0 then IntToString(code) else "ENOENT")
      && (message != " " ==> words[2..] == Tokens(message))
  {
    var m := FileMessage(code, message);
    assert message != " " ==> m == message;
    StatusTokens();
    hide Tokens, IntToString, FileMessage, IsToken;
    if code >= 0 {
      ReplyTokens("OK", IntToString(code), m);
    } else {
      ReplyTokens("ERR", "ENOENT", m);
    }
  }

  /** The vote looks at the number and at the word after it; the status may be any word that does not begin
      with the mark of a connection error. */
  lemma VoteIgnoresStatus(status: string, n: int, message: string)
    requires IsToken(status) && !("ER-" <= status)
    requires INT_MIN <= n <= INT_MAX
    ensures Ballot(Reply(status, IntToString(n), message)) ==
      if n > 0 && Tokens(message) != [] then Some(IntToString(n) + " " + Tokens(message)[0]) else None
  {
    NoConnectionError(status, IntToString(n), message);
    PrintedIntReadsBack(n);
    hide Tokens, Stoi, IntToString, Reply, IsToken;
    ReplyTokens(status, IntToString(n), message);
  }

  /** What begins with that mark gives no vote, whatever follows. */
  lemma MarkedGivesNoVote(reply: string)
    ensures Ballot("ER-" + reply) == None && Ballot("") == None
  {
    hide Tokens, Stoi;
    assert "ER-" <= "ER-" + reply;
  }

  lemma NoConnectionError(status: string, code: string, message: string)
    requires IsToken(status) && !("ER-" <= status)
    ensures Reply(status, code, message) != "" && !("ER-" <= Reply(status, code, message))
  {
    var r := Reply(status, code, message);
    assert r[..|status|] == status && r[|status|] == ' ';
  }

  /** More than half of the replicas that take part, or all of them if there is none. */
  lemma AcceptsIsAMajority(code: int, replies: seq<string>)
    ensures var here := if code >= 0 then 1 else 0;
      var votes, total := here + |Ballots(replies)|, here + |replies|;
      Accepts(code, replies) <==> votes == total || votes > total / 2
  {
  }
}
