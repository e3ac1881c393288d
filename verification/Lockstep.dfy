/** The two sides of a conversation stay in step, whatever the table, the clock, the typed
    passwords and other clients do in between. */
module Lockstep {
  import opened Text
  import opened Crypto
  import opened AuthMessage
  import opened Session
  import opened Commands
  import opened UserTable
  import opened Conversation

  // ----- The packets of the authentication as the client reads them

  lemma FixedPackets()
    ensures OK == "OK\n" && REFUSAL == "ERROR\n" && INVALID == "ERROR\nTicket Invalid"
    ensures FirstLine(OK) == "OK"
    ensures FirstLine(REFUSAL) == "ERROR" && AfterFirstLine(REFUSAL) == ""
    ensures FirstLine(INVALID) == "ERROR" && AfterFirstLine(INVALID) == "Ticket Invalid"
  {
    hide FirstLine, AfterFirstLine;
    ReplyParts("OK", "");
    ReplyParts("ERROR", "");
    ReplyParts("ERROR", "Ticket Invalid");
    assert OK == "OK" + "\n" + "" && REFUSAL == "ERROR" + "\n" + "";
    assert INVALID == "ERROR" + "\n" + "Ticket Invalid";
  }

  lemma GrantedPacket(packet: string)
    requires Granted([packet])
    ensures FirstLine(packet) == "OK"
    ensures packet != OK ==> IsTicket(AfterFirstLine(packet))
  {
    if packet == OK {
      FixedPackets();
    } else {
      var t := packet[|OK|..];
      ReplyParts("OK", t);
      assert packet == "OK" + "\n" + t;
    }
  }

  lemma CheckedFile(f: File, url: string)
    ensures Usable(Checked(f)) <==> Usable(f)
    ensures Lookup(Checked(f), url) == Lookup(f, url)
  {
  }

  // ----- Each step keeps the sides in step

  lemma AskKeeps(digest: string -> Digest, c: Conn, typed: string)
    requires InStep(c) && c.client.ToAuthenticate?
    ensures InStep(ClientAsk(digest, c, typed))
  {
    hide AuthText, Lookup, Checked, Single, Plain, Sha256;
    HashShape(digest, typed);
    CheckedFile(c.file, c.url);
    var c' := ClientAsk(digest, c, typed);
    assert c'.up == [c'.up[0]];
    assert Asked(c', c.client.retry, c'.client.ticket, c'.up[0]);
  }

  /** A ticket can be found bad only if the client offered one, or smuggled one in. */
  lemma BadTicketOffered(digest: string -> Digest, c: Conn, retry: bool, ticket: string, table: Table, now: int,
                         fails: bool)
    requires c.up != [] && Asked(c, retry, ticket, c.up[0])
    requires Judge(digest, table, c.up[0], now, fails).TicketBad?
    ensures ticket != "" || (Risky(c.user) && !Usable(c.file))
  {
    hide AuthText, Lookup, AuthMessage.Parse, Plain, Salted;
    if Usable(c.file) && ticket == "" {
      var hash :| Plain(hash) && c.up[0] == AuthText(c.user, Password(hash));
      PlainIsSafe(hash);
      PasswordWins(c.user, hash);
      assert false;
    }
  }

  lemma IssuedIsTicket(digest: string -> Digest, table: Table, message: string, now: int, fails: bool)
    requires Judge(digest, table, message, now, fails).PasswordGood?
    ensures var j := Judge(digest, table, message, now, fails); IsTicket(j.ticket) && j.user in table
  {
    hide AuthMessage.Parse, Salted, Sha256, Plain;
    var u := table[Judge(digest, table, message, now, fails).user];
    HashShape(digest, "Tintirek::" + VERSION + "::" + Numbers.DecimalInt(now) + "::" + u.passwordHash + "::" + "EndOfTicket");
  }

  lemma JudgeKeeps(digest: string -> Digest, c: Conn, table: Table, now: int, fails: bool)
    requires InStep(c) && c.server.Listening? && c.up != []
    ensures InStep(ServerJudge(digest, c, table, now, fails))
  {
    hide AuthText, Lookup, Single, Asked, Risky, Judge, IsTicket, Usable;
    var j := Judge(digest, table, c.up[0], now, fails);
    if j.TicketBad? {
      BadTicketOffered(digest, c, c.client.retry, c.client.ticket, table, now, fails);
    }
    if j.PasswordGood? {
      IssuedIsTicket(digest, table, c.up[0], now, fails);
    }
    assert Granted([OK]);
  }

  lemma StoreKeeps(c: Conn, stored: bool, at: nat)
    requires InStep(c) && c.server.Storing?
    ensures InStep(ServerStore(c, stored, at))
  {
    hide Lookup, Single, Asked, Risky, Usable;
    var packet := OK + c.server.ticket;
    assert packet[|OK|..] == c.server.ticket;
  }

  lemma HearKeeps(c: Conn)
    requires InStep(c) && c.client.AwaitVerdict? && c.down != []
    ensures InStep(ClientHear(c))
  {
    hide Lookup, Single, Asked, Risky, FirstLine, AfterFirstLine, Granted, StoreTicket, Usable;
    FixedPackets();
    if c.server.Serving? {
      GrantedOne(c.down);
      GrantedPacket(c.down[0]);
    }
  }

  lemma GrantedOne(down: seq<string>)
    requires Granted(down)
    ensures down == [down[0]]
  {
  }

  lemma CommandKeeps(c: Conn)
    requires InStep(c) && c.client.ToCommand?
    ensures InStep(ClientCommand(c))
  {
    hide Lookup, Single, Asked, Risky, Usable;
    assert c.up + [c.client.command] == [c.client.command];
  }

  lemma ServeKeeps(c: Conn, info: string, reset: bool, at: nat)
    requires InStep(c) && c.server.Serving? && c.up != []
    ensures Single(c.up[0]) && InStep(ServerServe(c, info, reset, at))
  {
    CloseIsUnknown();
    hide Lookup, Asked, Risky, Answer, Classify, Usable;
    var command := c.up[0];
    assert c.down + [Answer(command, info)] == [Answer(command, info)];
  }

  lemma ReplyKeeps(c: Conn)
    requires InStep(c) && c.client.AwaitReply? && c.down != []
    ensures InStep(ClientReply(c))
  {
    hide Lookup, Single, Asked, Risky, FirstLine, Answer, Deleted, Usable, Acceptable;
    if c.server == Closed(Accepted) {
      var info :| c.down == [Answer(c.client.command, info)];
      AnswerIsOk(c.client.command, info);
    }
  }

  /** The answer says OK exactly when the command is carried out. */
  lemma AnswerIsOk(command: string, info: string)
    requires Single(command)
    ensures FirstLine(Answer(command, info)) == "OK" <==> Acceptable(command)
  {
    hide FirstLine, AfterFirstLine, Classify;
    ReplyParts("ERROR", "Command not found");
    assert NOT_FOUND == "ERROR" + "\n" + "Command not found";
    var k := Classify(command);
    if !k.Unknown? {
      AnswerText(command, info);
    }
  }

  /** An answer that says OK: what is behind its first line. */
  lemma AnswerText(command: string, info: string)
    requires Single(command) && !Classify(command).Unknown?
    ensures FirstLine(Answer(command, info)) == "OK"
    ensures AfterFirstLine(Answer(command, info)) == ReplyText(Classify(command), info)
  {
    hide FirstLine, AfterFirstLine, Classify, Reply, ReplyText;
    ReplyIsOk(Classify(command), info);
  }

  // ----- Progress

  /** Both sides are done, and agree on whether the authentication succeeded. */
  predicate Finished(c: Conn) {
    Quiet(c) && c.client.Over? && c.server.Closed? && (c.client.authenticated <==> c.server.verdict == Accepted)
  }

  predicate GaveUp(c: Conn) {
    c.client.Over? && !c.client.authenticated && !c.client.ok
  }

  /** Somebody can move. */
  predicate CanMove(c: Conn) {
    || c.client.ToAuthenticate? || c.client.ToCommand?
    || (c.client.AwaitVerdict? && c.down != [])
    || (c.client.AwaitReply? && c.down != [])
    || (c.server.Listening? && c.up != [])
    || c.server.Storing?
    || (c.server.Serving? && c.up != [])
  }

  /** A conversation that neither goes on nor is done got there in one of two ways: the
      ticket update failed, or a risky user name met a client without a session file. */
  lemma StuckOnlyIf(c: Conn)
    requires InStep(c)
    ensures CanMove(c) || Finished(c)
      || (c.client.AwaitVerdict? && c.server == Closed(Faulted) && Quiet(c))
      || (GaveUp(c) && Quiet(c) && LeftListening(c))
  {
    hide Lookup, Single, Asked, Risky, Usable, Answer;
    assert Granted(c.down) ==> c.down != [];
  }

  /** A user name without `;` is never risky. */
  lemma CleanNameNotRisky(user: string)
    requires Free(user, ';')
    ensures !Risky(user)
  {
    MessageRoundTrip(user, Nothing);
    assert Free("", ';');
  }

  function ClientRank(k: Client): nat {
    match k
    case ToAuthenticate(retry, _) => if retry then 4 else 6
    case AwaitVerdict(retry, _, _) => if retry then 3 else 5
    case ToCommand(_) => 2
    case AwaitReply(_) => 1
    case Over(_, _, _) => 0
  }

  function ServerRank(k: Server): nat {
    match k
    case Listening(retry) => if retry then 3 else 4
    case Storing(_, _) => 2
    case Serving(_) => 1
    case Closed(_) => 0
  }

  /** Ten at the start of a conversation, and less after every step. */
  function Rank(c: Conn): nat {
    ClientRank(c.client) + ServerRank(c.server)
  }
}
