/** Runs of one client that succeed: an enrolled user logging in, with a stored ticket that is
    good, with one that has gone stale, and without one; and a logout whose reset fails. */
module Login {
  import opened Text
  import opened Crypto
  import opened AuthMessage
  import opened Session
  import opened Commands
  import opened UserTable
  import Statement
  import opened Conversation
  import opened Lockstep
  import opened World
  import opened Stores
  import opened Agreement

  lemma {:induction false} NothingRecorded(table: Table)
    ensures AppliedAll(table, []) == table
    ensures forall e: Event :: AppliedAll(table, [e]) == Applied(table, e)
  {
  }

  /** A password that is good goes on record as such. */
  lemma JudgedGood(digest: string -> Digest, c: Conn, table: Table, now: int)
    requires c.server.Listening? && c.up != [] && ServerJudge(digest, c, table, now, false).server.Storing?
    ensures var offered := AuthMessage.Parse(c.up[0]);
      Recorded(digest, c, Judges(now, false), table) == [Tried(offered.username, offered.secret, now, true)]
  {
    hide AuthMessage.Parse, Salted, NewTicket;
  }

  /** The row is what the enrolment tool wrote for this password, apart from its ticket. */
  predicate Enrolled(digest: string -> Digest, table: Table, user: string, password: string) {
    && user != "" && Free(user, ';') && user in table && RoundsFit(table[user].iteration)
    && table[user].passwordHash
       == Salted(digest, Sha256(digest, password), table[user].salt, table[user].iteration)
  }

  /** The client is about to offer a credential and the server waits for it. */
  predicate AboutToAsk(c: Conn, user: string, url: string, retry: bool, command: string) {
    && c.user == user && c.url == url && Quiet(c)
    && c.client == ToAuthenticate(retry, command) && c.server == Listening(retry)
  }

  /** The client is let in as the user. */
  predicate LetIn(c: Conn, user: string, url: string, command: string) {
    c.user == user && c.url == url && c.client == ToCommand(command) && c.server == Serving(user)
  }

  // ----- With the password

  /** The turns of client `i` that offer a password with success. */
  function PasswordTurns(i: nat, password: string, now: int): seq<Turn> {
    [Turn(i, Asks(password)), Turn(i, Judges(now, false)), Turn(i, Stores(now, false)), Turn(i, Hears)]
  }

  lemma PasswordSteps(digest: string -> Digest, c: Conn, user: string, url: string, retry: bool, command: string,
                      password: string, table: Table, now: int, at: nat)
    returns (c2: Conn, c3: Conn, c4: Conn)
    requires AboutToAsk(c, user, url, retry, command) && Enrolled(digest, table, user, password)
    requires Orderly(c.file) && Keyed(url) && (retry || Lookup(c.file, url) == "")
    ensures var ticket := NewTicket(digest, now, table[user].passwordHash);
      && c2 == ClientAsk(digest, c, password)
      && c2.server.Listening? && c2.up != [] && c2.client.AwaitVerdict?
      && AuthMessage.Parse(c2.up[0]) == Credential(user, Sha256(digest, password), false)
      && c3 == ServerJudge(digest, c2, table, now, false) && c3.server == Storing(user, ticket)
      && c4 == ServerStore(c3, true, at) && c4.client.AwaitVerdict? && c4.down != []
      && LetIn(ClientHear(c4), user, url, command) && Lookup(ClientHear(c4).file, url) == ticket
      && IsTicket(ticket)
  {
    hide Orderly, Keyed, Lookup, RoundsFit, Salted, Sha256, AuthText, Judge, NewTicket, Checked, StoreTicket, FirstLine,
         AfterFirstLine, IsTicket, Usable;
    OrderlyUsable(c.file);
    CheckedFile(c.file, url);
    CheckedOrderly(c.file);
    EnrolledJudged(digest, user, password, table, now);
    PasswordParsed(digest, user, password);
    var ticket := NewTicket(digest, now, table[user].passwordHash);
    c2 := ClientAsk(digest, c, password);
    assert c2.up == [AuthText(user, Password(Sha256(digest, password)))];
    c3 := ServerJudge(digest, c2, table, now, false);
    c4 := ServerStore(c3, true, at);
    TicketPacket(ticket);
    StoredIsFound(c3.file, url, Lookup(c.file, url), ticket);
  }

  lemma PasswordParsed(digest: string -> Digest, user: string, password: string)
    requires Free(user, ';')
    ensures AuthMessage.Parse(AuthText(user, Password(Sha256(digest, password))))
         == Credential(user, Sha256(digest, password), false)
  {
    hide AuthText, AuthMessage.Parse, Plain, Sha256;
    HashShape(digest, password);
    PlainIsSafe(Sha256(digest, password));
    MessageRoundTrip(user, Password(Sha256(digest, password)));
  }

  lemma {:induction false} PasswordRound(digest: string -> Digest, w: World, i: nat, user: string, url: string,
                                         retry: bool, command: string, password: string, now: int)
    returns (v: World)
    requires i < |w.conns| && AboutToAsk(w.conns[i], user, url, retry, command)
    requires Enrolled(digest, w.table, user, password)
    requires Orderly(w.conns[i].file) && Keyed(url) && (retry || Lookup(w.conns[i].file, url) == "")
    ensures var ticket := NewTicket(digest, now, w.table[user].passwordHash);
      && Leads(digest, w, PasswordTurns(i, password, now), v) && i < |v.conns|
      && LetIn(v.conns[i], user, url, command) && Lookup(v.conns[i].file, url) == ticket && IsTicket(ticket)
      && v.table == SetTicket(w.table, user, ticket, now + 86400)
      && v.log == w.log + [Tried(user, Sha256(digest, password), now, true), Issued(user, ticket, now)]
  {
    hide Orderly, Keyed, Lookup, RoundsFit, Salted, Sha256, ClientAsk, ServerJudge, ServerStore, ClientHear, Judge,
         Single,
         Finished, Abandoned, SetTicket, IsTicket, LetIn, NewTicket;
    var c2, c3, c4 := PasswordSteps(digest, w.conns[i], user, url, retry, command, password, w.table, now, |w.log| + 1);
    NothingRecorded(w.table);
    var w2 := Next(digest, w, i, Asks(password));
    JudgedGood(digest, c2, w.table, now);
    var w3 := Next(digest, w2, i, Judges(now, false));
    assert w3.log == w.log + [Tried(user, Sha256(digest, password), now, true)] && w3.table == w.table;
    assert w3.conns[i] == c3;
    var w4 := Next(digest, w3, i, Stores(now, false));
    assert w4.conns[i] == c4;
    v := Next(digest, w4, i, Hears);
    var turns := PasswordTurns(i, password, now);
    assert Leads(digest, v, [], v);
    assert Leads(digest, w4, [turns[3]], v);
    assert Leads(digest, w3, [turns[2], turns[3]], v);
    assert Leads(digest, w2, [turns[1], turns[2], turns[3]], v);
  }

  // ----- With the stored ticket

  /** Whether the row still takes the ticket. */
  predicate Accepts(table: Table, user: string, ticket: string, now: int)
    requires user in table
  {
    table[user].ticket.AsString() == ticket && now < table[user].ticketEnd.AsInt64()
  }

  function TicketTurns(i: nat, typed: string, now: int): seq<Turn> {
    [Turn(i, Asks(typed)), Turn(i, Judges(now, false)), Turn(i, Hears)]
  }

  lemma TicketJudged(digest: string -> Digest, table: Table, user: string, ticket: string, now: int)
    requires user != "" && Free(user, ';') && user in table && ticket != "" && Free(ticket, ';')
    ensures AuthMessage.Parse(AuthText(user, Ticket(ticket))) == Credential(user, ticket, true)
    ensures Judge(digest, table, AuthText(user, Ticket(ticket)), now, false)
         == if Accepts(table, user, ticket, now) then TicketGood(user) else TicketBad(user)
  {
    hide AuthText, AuthMessage.Parse, Salted;
    MessageRoundTrip(user, Ticket(ticket));
  }

  lemma TicketSteps(digest: string -> Digest, c: Conn, user: string, url: string, command: string, typed: string,
                    table: Table, now: int)
    returns (c2: Conn, c3: Conn)
    requires AboutToAsk(c, user, url, false, command) && Usable(c.file)
    requires user != "" && Free(user, ';') && user in table && Lookup(c.file, url) != "" && Free(Lookup(c.file, url), ';')
    ensures c2 == ClientAsk(digest, c, typed)
    ensures c2.server.Listening? && c2.up == [AuthText(user, Ticket(Lookup(c.file, url)))] && c2.client.AwaitVerdict?
    ensures c3 == ServerJudge(digest, c2, table, now, false) && c3.client.AwaitVerdict? && c3.down != []
    ensures var c4 := ClientHear(c3);
      && c4.file == Checked(c.file)
      && if Accepts(table, user, Lookup(c.file, url), now) then LetIn(c4, user, url, command)
         else AboutToAsk(c4, user, url, true, command)
  {
    hide Lookup, AuthText, Judge, Checked, StoreTicket, FirstLine, AfterFirstLine, Usable, Accepts;
    TicketJudged(digest, table, user, Lookup(c.file, url), now);
    FixedPackets();
    c2 := ClientAsk(digest, c, typed);
    assert c2.up == [AuthText(user, Ticket(Lookup(c.file, url)))];
    c3 := ServerJudge(digest, c2, table, now, false);
  }

  /** The server's decision on the ticket, and the client's answer to it: it is let in, or it
      will offer a password on the same connection. Row and file stay as they are. */
  lemma {:induction false} TicketRound(digest: string -> Digest, w: World, i: nat, user: string, url: string,
                                       command: string, typed: string, now: int)
    returns (v: World)
    requires i < |w.conns| && AboutToAsk(w.conns[i], user, url, false, command) && Usable(w.conns[i].file)
    requires user != "" && Free(user, ';') && user in w.table
    requires Lookup(w.conns[i].file, url) != "" && Free(Lookup(w.conns[i].file, url), ';')
    ensures Leads(digest, w, TicketTurns(i, typed, now), v) && i < |v.conns| && v.table == w.table
    ensures var good := Accepts(w.table, user, Lookup(w.conns[i].file, url), now);
      && v.log == w.log + [Judged(user, Lookup(w.conns[i].file, url), now, good)]
      && (if good then LetIn(v.conns[i], user, url, command) else AboutToAsk(v.conns[i], user, url, true, command))
    ensures v.conns[i].file == Checked(w.conns[i].file)
  {
    hide Lookup, AuthText, AuthMessage.Parse, ClientAsk, ServerJudge, ClientHear, Judge, Single, Finished, Abandoned,
         LetIn,
         AboutToAsk, Accepts, Checked, Usable;
    StartsToAsk(w.conns[i], user, url, command);
    var c2, c3 := TicketSteps(digest, w.conns[i], user, url, command, typed, w.table, now);
    NothingRecorded(w.table);
    var w2 := Next(digest, w, i, Asks(typed));
    TicketJudged(digest, w.table, user, Lookup(w.conns[i].file, url), now);
    var w3 := Next(digest, w2, i, Judges(now, false));
    assert w3.conns[i] == c3;
    v := Next(digest, w3, i, Hears);
    var turns := TicketTurns(i, typed, now);
    assert Leads(digest, v, [], v);
    assert Leads(digest, w3, [turns[2]], v);
    assert Leads(digest, w2, [turns[1], turns[2]], v);
  }

  lemma StartsToAsk(c: Conn, user: string, url: string, command: string)
    requires AboutToAsk(c, user, url, false, command)
    ensures c.client.ToAuthenticate?
  {
  }

  // ----- The whole login

  /** A stored ticket is offered first; unless it is good the password follows. */
  function LoginTurns(i: nat, user: string, url: string, command: string, password: string, stored: string, good: bool,
                      now: int, later: int): seq<Turn> {
    [Turn(i, Begins(user, url, command))]
    + (if stored == "" then [] else TicketTurns(i, password, now))
    + (if good then [] else PasswordTurns(i, password, later))
  }

  lemma {:induction false} BeginRound(digest: string -> Digest, w: World, i: nat, user: string, url: string,
                                      command: string)
    returns (v: World)
    requires i < |w.conns| && (Finished(w.conns[i]) || Abandoned(w.conns[i])) && Single(command)
    ensures Leads(digest, w, [Turn(i, Begins(user, url, command))], v) && i < |v.conns|
    ensures v.table == w.table && v.log == w.log
    ensures AboutToAsk(v.conns[i], user, url, false, command) && v.conns[i].file == w.conns[i].file
  {
    hide Single, Finished, Abandoned;
    NothingRecorded(w.table);
    v := Next(digest, w, i, Begins(user, url, command));
    assert Leads(digest, v, [], v);
  }

  /** From every state of the whole system, a client whose last conversation is over, whatever
      its file holds for the url, logs an enrolled user in: with its ticket while the row takes
      it; otherwise with the password, in the retry if a stale ticket was offered first. In the
      end file and row hold the same ticket, which is a new one for a day after a password. */
  lemma {:induction false} EnrolledLoginSucceeds(digest: string -> Digest, w: World, i: nat, user: string, url: string,
                                                 command: string, password: string, now: int, later: int)
    requires i < |w.conns| && (Finished(w.conns[i]) || Abandoned(w.conns[i])) && Single(command)
    requires Orderly(w.conns[i].file) && Keyed(url) && Free(Lookup(w.conns[i].file, url), ';')
    requires Enrolled(digest, w.table, user, password)
    ensures var stored := Lookup(w.conns[i].file, url);
      var good := stored != "" && Accepts(w.table, user, stored, now);
      var ticket := if good then stored else NewTicket(digest, later, w.table[user].passwordHash);
      exists v :: Leads(digest, w, LoginTurns(i, user, url, command, password, stored, good, now, later), v)
        && i < |v.conns| && LetIn(v.conns[i], user, url, command)
        && Lookup(v.conns[i].file, url) == ticket
        && v.table == (if good then w.table else SetTicket(w.table, user, ticket, later + 86400))
        && user in v.table && v.table[user].ticket == Statement.Text(ticket)
  {
    hide Leads, Orderly, Keyed, Lookup, RoundsFit, Salted, Sha256, Single, Finished, Abandoned, LetIn, AboutToAsk,
         NewTicket, Accepts,
         Checked, IsTicket, Usable;
    var stored := Lookup(w.conns[i].file, url);
    var good := stored != "" && Accepts(w.table, user, stored, now);
    var begin := [Turn(i, Begins(user, url, command))];
    var w1 := BeginRound(digest, w, i, user, url, command);
    OrderlyUsable(w1.conns[i].file);
    if stored == "" {
      var v := PasswordRound(digest, w1, i, user, url, false, command, password, later);
      LeadsConcat(digest, w, begin, w1, PasswordTurns(i, password, later), v);
      assert begin + [] + PasswordTurns(i, password, later) == begin + PasswordTurns(i, password, later);
    } else {
      var w2 := TicketRound(digest, w1, i, user, url, command, password, now);
      var round := TicketTurns(i, password, now);
      LeadsConcat(digest, w, begin, w1, round, w2);
      CheckedFile(w1.conns[i].file, url);
      if good {
        assert begin + round + [] == begin + round;
        AcceptedIsText(w.table, user, stored, now);
      } else {
        CheckedOrderly(w1.conns[i].file);
        var v := PasswordRound(digest, w2, i, user, url, true, command, password, later);
        LeadsConcat(digest, w, begin + round, w2, PasswordTurns(i, password, later), v);
      }
    }
  }

  lemma AcceptedIsText(table: Table, user: string, ticket: string, now: int)
    requires user in table && ticket != "" && Accepts(table, user, ticket, now)
    ensures table[user].ticket == Statement.Text(ticket)
  {
  }

  // ----- A logout whose reset fails

  /** The server ignores a failing reset and answers OK. Then the client has dropped its ticket,
      while the row still holds it and whoever kept it is let in until its end. */
  lemma {:induction false} LogoutLeavesTicket(digest: string -> Digest, w: World, i: nat, info: string, now: int)
    requires i < |w.conns| && InStep(w.conns[i]) && w.conns[i].client == ToCommand("Logout")
    requires Orderly(w.conns[i].file) && Keyed(w.conns[i].url)
    ensures var c := w.conns[i];
      var turns := [Turn(i, Commands), Turn(i, Serves(info, true)), Turn(i, Reads)];
      exists v :: Leads(digest, w, turns, v) && i < |v.conns| && v.table == w.table && v.log == w.log
        && LoggedOut(v.conns[i]) && v.conns[i].cleared == c.cleared && Lookup(v.conns[i].file, c.url) == ""
    ensures var c := w.conns[i]; var t := Lookup(c.file, c.url);
      c.user != "" && Free(c.user, ';') && t != "" && Free(t, ';') && c.user in w.table && Accepts(w.table, c.user, t, now) ==>
        Judge(digest, w.table, AuthText(c.user, Ticket(t)), now, false) == TicketGood(c.user)
  {
    hide InStep, Orderly, Keyed, Lookup, Judge, Accepts, Deleted, FirstLine, Finished, Abandoned, Single, Classify,
         Answer, AuthText,
         AuthMessage.Parse, Free;
    var c := w.conns[i];
    var t := Lookup(c.file, c.url);
    if c.user != "" && Free(c.user, ';') && t != "" && Free(t, ';') && c.user in w.table {
      TicketJudged(digest, w.table, c.user, t, now);
    }
    LogoutSteps(c, info);
    NothingRecorded(w.table);
    DeletedIsGone(c.file, c.url);
    var w2 := Next(digest, w, i, Commands);
    assert w2.log == w.log && w2.table == w.table;
    var w3 := Next(digest, w2, i, Serves(info, true));
    assert w3.log == w.log && w3.table == w.table;
    var v := Next(digest, w3, i, Reads);
    assert Leads(digest, v, [], v);
    assert Leads(digest, w3, [Turn(i, Reads)], v);
    assert Leads(digest, w2, [Turn(i, Serves(info, true)), Turn(i, Reads)], v);
  }

  lemma LogoutSteps(c: Conn, info: string)
    requires InStep(c) && c.client == ToCommand("Logout")
    ensures c.server.Serving? && c.up == [] && c.down == []
    ensures var asked := ClientCommand(c);
      && asked.up == ["Logout"] && asked.server.Serving? && Single("Logout")
      && var served := ServerServe(asked, info, false, 0);
      && served.down == ["OK\n"] && FirstLine(served.down[0]) == "OK"
  {
    hide Lookup, Asked, Risky, Usable, FirstLine;
    LogoutIsLogout();
    FixedPackets();
    hide Classify;
  }
}
