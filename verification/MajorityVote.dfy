/** The vote the origin of a read takes over its peers' replies. */
module MajorityVote {
  import opened Text
  import opened FileOperations
  import opened ServerResponse

  /** What one reply contributes: nothing, or one vote and the text kept for the client. */
  function Ballot(reply: string): Option<string> {
    if reply == "" || "ER-" <= reply then None
    else
      var words := Tokens(reply);
      if |words| < 3 then None
      else
        match Stoi(words[1])
        case None => None
        case Some(n) => if n > 0 then Some(words[1] + " " + words[2]) else None
  }

  /** The counted replies, in order. */
  function Ballots(replies: seq<string>): (kept: seq<string>)
    ensures |kept| <= |replies|
  {
    if replies == [] then []
    else (match Ballot(replies[0]) case None => [] case Some(kept) => [kept]) + Ballots(replies[1..])
  }

  lemma {:induction false} BallotsAppend(replies: seq<string>, more: seq<string>)
    ensures Ballots(replies + more) == Ballots(replies) + Ballots(more)
  {
    if replies == [] {
      assert replies + more == more;
    } else {
      assert (replies + more)[1..] == replies[1..] + more;
      BallotsAppend(replies[1..], more);
    }
  }

  /** The strict majority: more than half of the replicas that take part, this one included when
      its own operation succeeded. With nobody taking part the vote passes. */
  predicate Accepts(opResult: int, replies: seq<string>) {
    var here := if opResult >= 0 then 1 else 0;
    here + |replies| == 0 || 2 * (here + |Ballots(replies)|) > here + |replies|
  }

  /** The callback HandleSync returns for reads. */
  method CountVotes(opResult: int, replies: seq<string>) returns (accepted: bool, peerContent: seq<string>)
    ensures accepted <==> Accepts(opResult, replies)
    ensures peerContent == Ballots(replies)
  {
    var vote := if opResult >= 0 then 1 else 0;
    ghost var here := vote;
    var total := if opResult >= 0 then |replies| + 1 else |replies|;
    peerContent := [];
    for i := 0 to |replies|
      invariant peerContent == Ballots(replies[..i])
      invariant vote == here + |peerContent|
    {
      var res := replies[i];
      assert replies[..i + 1] == replies[..i] + [res];
      BallotsAppend(replies[..i], [res]);
      assert Ballots([res]) == match Ballot(res) case None => [] case Some(kept) => [kept];
      if res == "" || "ER-" <= res {
        continue;
      }
      var tokenized := Tokenize(res);
      if |tokenized| < 3 {
        continue;
      }
      match Stoi(tokenized[1]) {
        case None =>
          continue;
        case Some(bytesRead) =>
          if bytesRead > 0 {
            vote := vote + 1;
            peerContent := peerContent + [tokenized[1] + " " + tokenized[2]];
          }
      }
    }
    assert replies[..|replies|] == replies;
    accepted := vote == total || vote > total / 2;
  }

  // ----- The count depends on the replies, not on their order -----

  lemma {:induction false} BallotsOfPermutation(a: seq<string>, b: seq<string>)
    requires multiset(a) == multiset(b)
    ensures multiset(Ballots(a)) == multiset(Ballots(b))
    decreases |a|
  {
    if a == [] {
      assert |b| == |multiset(b)| == 0;
    } else {
      assert a[0] in multiset(b);
      var i :| 0 <= i < |b| && b[i] == a[0];
      var rest := b[..i] + b[i + 1..];
      assert b == b[..i] + ([b[i]] + b[i + 1..]);
      assert a == [a[0]] + a[1..];
      calc {
        multiset(rest);
        multiset(b[..i]) + multiset(b[i + 1..]);
        multiset(b) - multiset{b[i]};
        multiset(a) - multiset{a[0]};
        multiset(a[1..]);
      }
      BallotsOfPermutation(a[1..], rest);
      BallotsAppend(b[..i], [b[i]] + b[i + 1..]);
      BallotsAppend([b[i]], b[i + 1..]);
      BallotsAppend(b[..i], b[i + 1..]);
      BallotsAppend([a[0]], a[1..]);
    }
  }

  /** Replies arriving in another order give the same verdict and the same collected reads. */
  lemma VerdictIgnoresOrder(opResult: int, a: seq<string>, b: seq<string>)
    requires multiset(a) == multiset(b)
    ensures Accepts(opResult, a) <==> Accepts(opResult, b)
    ensures multiset(Ballots(a)) == multiset(Ballots(b))
  {
    BallotsOfPermutation(a, b);
    assert |a| == |multiset(a)| == |multiset(b)| == |b|;
    assert |Ballots(a)| == |multiset(Ballots(a))| == |multiset(Ballots(b))| == |Ballots(b)|;
  }

  // ----- Two accepted reads share a replica -----

  /** The replicas that voted for a read at `origin`, `peers[i]` having sent `replies[i]`. */
  function Voters(origin: int, peers: seq<int>, replies: seq<string>): (v: set<int>)
    requires |peers| == |replies|
  {
    if peers == [] then {origin}
    else Voters(origin, peers[1..], replies[1..]) + (if Ballot(replies[0]).Some? then {peers[0]} else {})
  }

  predicate Distinct(s: seq<int>) {
    forall i, j | 0 <= i < j < |s| :: s[i] != s[j]
  }

  lemma DistinctTail(origin: int, peers: seq<int>)
    requires peers != [] && Distinct([origin] + peers)
    ensures Distinct([origin] + peers[1..])
    ensures peers[0] != origin && peers[0] !in peers[1..]
  {
    var all, less := [origin] + peers, [origin] + peers[1..];
    assert all[0] == origin && forall i | 0 <= i < |peers| :: all[i + 1] == peers[i];
    forall i, j | 0 <= i < j < |less|
      ensures less[i] != less[j]
    {
      assert less[i] == all[if i == 0 then 0 else i + 1] && less[j] == all[j + 1];
    }
    assert forall j | 0 <= j < |peers[1..]| :: peers[1..][j] == all[j + 2] != all[1];
  }

  lemma {:induction false} VoterCount(origin: int, peers: seq<int>, replies: seq<string>)
    requires |peers| == |replies| && Distinct([origin] + peers)
    ensures |Voters(origin, peers, replies)| == 1 + |Ballots(replies)|
    ensures Voters(origin, peers, replies) <= {origin} + set p | p in peers
  {
    hide Distinct, Ballot;
    if peers != [] {
      DistinctTail(origin, peers);
      VoterCount(origin, peers[1..], replies[1..]);
      assert peers == [peers[0]] + peers[1..];
    }
  }

  lemma {:induction false} DistinctCount(s: seq<int>)
    requires Distinct(s)
    ensures |set x | x in s| == |s|
  {
    if s != [] {
      assert forall i, j | 0 <= i < j < |s[1..]| :: s[1..][i] == s[i + 1] && s[1..][j] == s[j + 1];
      DistinctCount(s[1..]);
      assert (set x | x in s) == (set x | x in s[1..]) + {s[0]};
    }
  }

  lemma OverlapOfMajorities(all: set<int>, a: set<int>, b: set<int>)
    requires a <= all && b <= all && 2 * |a| > |all| && 2 * |b| > |all|
    ensures a * b != {}
  {
    assert all == (a + b) + (all - (a + b));
    assert |a + b| + |a * b| == |a| + |b|;
  }

  /** Any two accepted reads, at any two origins of one replica group, were voted for by a common
      replica. */
  lemma AcceptedReadsIntersect(o1: int, peers1: seq<int>, replies1: seq<string>, r1: int,
                               o2: int, peers2: seq<int>, replies2: seq<string>, r2: int)
    requires |peers1| == |replies1| && |peers2| == |replies2|
    requires Distinct([o1] + peers1) && Distinct([o2] + peers2)
    requires (set p | p in [o1] + peers1) == (set p | p in [o2] + peers2)
    requires r1 >= 0 && r2 >= 0 && Accepts(r1, replies1) && Accepts(r2, replies2)
    ensures Voters(o1, peers1, replies1) * Voters(o2, peers2, replies2) != {}
  {
    VoterCount(o1, peers1, replies1);
    VoterCount(o2, peers2, replies2);
    DistinctCount([o1] + peers1);
    DistinctCount([o2] + peers2);
    OverlapOfMajorities((set p | p in [o1] + peers1), Voters(o1, peers1, replies1), Voters(o2, peers2, replies2));
  }

  // ----- What the printer prints, the vote reads -----

  lemma ReplyTokens(status: string, code: string, message: string)
    requires IsToken(status) && IsToken(code)
    ensures Tokens(Reply(status, code, message)) == [status, code] + Tokens(message)
  {
    hide Tokens;
    var rest := " " + (message + "\n");
    TokensOfTwoWords(status, code, rest);
    assert Reply(status, code, message) == status + " " + code + rest;
    TokensAfterGap(" ", message + "\n");
    TokensBeforeGap(message, "\n");
  }

  lemma NotAnErrorMark(status: string, code: string, message: string)
    requires status in {"OK", "ERR", "FAIL"}
    ensures Reply(status, code, message) != "" && !("ER-" <= Reply(status, code, message))
  {
    var r := Reply(status, code, message);
    assert r[0] == status[0] && r[1] == status[1];
    if status == "ERR" {
      assert r[2] == 'R';
    }
  }

  lemma OperationSuccessTokens()
    ensures Tokens("Operation Success") == ["Operation", "Success"]
  {
    hide Tokens;
    TokensOfTwoWords("Operation", "Success", "");
    TokensOfBlank("");
    assert "Operation" + " " + "Success" + "" == "Operation Success";
  }

  /** The message a successful read prints has a word. */
  predicate Countable(content: string) {
    content == " " || Tokens(content) != []
  }

  /** The first word the client is shown for it. */
  function FirstWord(content: string): string
    requires Countable(content)
  {
    if content == " " then "Operation" else Tokens(content)[0]
  }

  lemma BallotOfSuccess(code: int, content: string)
    requires 0 <= code <= INT_MAX
    ensures Ballot(FileReply(code, content)) ==
      if code > 0 && Countable(content) then Some(IntToString(code) + " " + FirstWord(content)) else None
  {
    hide Tokens, Stoi, IntToString;
    var m := FileMessage(code, content);
    ReplyTokens("OK", IntToString(code), m);
    NotAnErrorMark("OK", IntToString(code), m);
    PrintedIntReadsBack(code);
    OperationSuccessTokens();
    assert Tokens(m) == [] <==> !Countable(content);
  }

  /** A reply whose second word is not a number gives no vote. */
  lemma BallotOfWords(status: string, code: string, message: string)
    requires status in {"OK", "ERR", "FAIL"} && IsToken(code) && Stoi(code) == None
    ensures Ballot(Reply(status, code, message)) == None
  {
    assert IsToken("OK") && IsToken("ERR") && IsToken("FAIL");
    ReplyTokens(status, code, message);
  }

  /** A printed read result is one vote exactly when it is a positive byte count with a message that
      has a word in it or is one space; the count the vote parses is the one printed. Errors and end of file give none. */
  lemma BallotOfFileReply(code: int, content: string)
    requires INT_MIN <= code <= INT_MAX
    ensures Ballot(FileReply(code, content)) ==
      if code > 0 && Countable(content) then Some(IntToString(code) + " " + FirstWord(content)) else None
  {
    if code >= 0 {
      BallotOfSuccess(code, content);
    } else {
      StoiRejectsLetters("ENOENT");
      BallotOfWords("ERR", "ENOENT", FileMessage(code, content));
    }
  }

  /** A peer that could not open the file gives no vote, and neither does one that was not reached. */
  lemma BallotOfFailure()
    ensures Ballot(FailReply(OPEN_ERROR)) == None
    ensures Ballot("") == Ballot("ER-SYNC-SOC") == Ballot("ER-SYNC-CONN") == None
  {
    StoiRejectsLetters("ER-F-OP");
    BallotOfWords("FAIL", OPEN_ERROR, ErrorText(OPEN_ERROR));
  }
}
