/** What a client's file and its user's row say after a login and after a logout, wherever in a
    run of many clients that happens. */
module Agreement {
  import opened Text
  import opened Crypto
  import opened AuthMessage
  import opened Session
  import opened Commands
  import opened Statement
  import opened UserTable
  import opened Conversation
  import opened Lockstep
  import opened World
  import opened Tickets
  import opened Stores

  // ----- The history is about rows of the table

  /** Every event is about a user of the table. */
  ghost predicate Known(table: Table, log: seq<Event>) {
    forall k :: 0 <= k < |log| ==> log[k].user in table
  }

  lemma NextKnows(digest: string -> Digest, w: World, j: nat, m: Move)
    requires Known(w.table, w.log) && j < |w.conns| && Enabled(w.conns[j], m)
    ensures Known(Next(digest, w, j, m).table, Next(digest, w, j, m).log)
    ensures Next(digest, w, j, m).table.Keys == w.table.Keys
  {
    hide Moved, AuthMessage.Parse, Salted, NewTicket, Classify, Single, Finished, AppliedAll;
    KeysStay(w.table, Recorded(digest, w.conns[j], m, w.table));
    assert forall e :: e in Recorded(digest, w.conns[j], m, w.table) ==> e.user in w.table;
  }

  lemma {:induction false} RunKnows(digest: string -> Digest, w: World, turns: seq<Turn>, v: World)
    requires Leads(digest, w, turns, v) && Known(w.table, w.log)
    ensures Known(v.table, v.log) && v.table.Keys == w.table.Keys
    decreases |turns|
  {
    hide Known, Enabled, Next;
    if turns != [] {
      NextKnows(digest, w, turns[0].i, turns[0].m);
      RunKnows(digest, Next(digest, w, turns[0].i, turns[0].m), turns[1..], v);
    }
  }

  /** The client has been told that it is authenticated. */
  predicate Authenticated(c: Conn) {
    c.client.ToCommand? || c.client.AwaitReply? || (c.client.Over? && c.client.authenticated)
  }

  predicate LoggedOut(c: Conn) {
    c.client == Over(true, true, "Logout")
  }

  lemma InitialGood(w: World, i: nat)
    requires Initial(w) && i < |w.conns| && Orderly(w.conns[i].file) && Keyed(w.conns[i].url)
    ensures Good(w.conns[i], w.log) && Known(w.table, w.log)
  {
    hide Orderly, Lookup;
  }

  /** A row after the last event that wrote it. */
  lemma {:induction false} AtTheEnd(start: Table, table: Table, log: seq<Event>, k: int)
    requires table == AppliedAll(start, log) && Known(table, log) && table.Keys == start.Keys
    ensures 0 <= k < |log| ==> log[k].user in table
    ensures 0 <= k < |log| && LastBefore(log, k, |log|, log[k].user) ==>
      ColumnsOf(table, log[k].user) == Written(log[k])
  {
    hide AppliedAll, Writes, Written, LastBefore, ColumnsOf;
    if 0 <= k < |log| && LastBefore(log, k, |log|, log[k].user) {
      assert log[..|log|] == log;
      LastWriteRules(start, log, k, |log|, log[k].user);
    }
  }

  // ----- The user the server works for is the client's

  /** Neither the user name nor a stored ticket holds the separator of the message. */
  ghost predicate Unambiguous(c: Conn) {
    Free(c.user, ';') && forall u :: Free(Lookup(c.file, u), ';')
  }

  /** The server reads the client's own user name from such a client's message. */
  lemma JudgedIsUser(c: Conn)
    requires InStep(c) && Unambiguous(c) && c.server.Listening? && c.up != []
    ensures AuthMessage.Parse(c.up[0]).username == c.user
  {
    hide AuthText, Lookup, AuthMessage.Parse, Plain, Single, Risky, IsTicket, Usable;
    var AwaitVerdict(retry, ticket, _) := c.client;
    assert Asked(c, retry, ticket, c.up[0]);
    if c.up[0] == AuthText(c.user, Nothing) {
      assert Free("", ';');
      MessageRoundTrip(c.user, Nothing);
    } else if c.up[0] == AuthText(c.user, Ticket(ticket)) {
      MessageRoundTrip(c.user, Ticket(ticket));
    } else {
      var hash :| Plain(hash) && c.up[0] == AuthText(c.user, Password(hash));
      PlainIsSafe(hash);
      MessageRoundTrip(c.user, Password(hash));
    }
  }

  ghost predicate Named(c: Conn, log: seq<Event>) {
    && Unambiguous(c)
    && (c.server.Storing? || c.server.Serving? ==> c.server.user == c.user)
    && (c.issued >= 0 ==> c.issued < |log| && log[c.issued].user == c.user && c.user != "")
    && (c.cleared >= 0 ==> c.cleared < |log| && log[c.cleared].user == c.user)
  }

  predicate CleanName(m: Move) {
    m.Begins? ==> Free(m.user, ';')
  }

  ghost predicate CleanNames(turns: seq<Turn>, i: nat) {
    forall t :: t in turns && t.i == i ==> CleanName(t.m)
  }

  /** No ticket with a separator gets into the file. */
  lemma HearingIsUnambiguous(c: Conn, log: seq<Event>)
    requires Good(c, log) && Unambiguous(c) && c.client.AwaitVerdict? && c.down != []
    ensures Unambiguous(ClientHear(c))
  {
    hide InStep, Orderly, Keyed, Lookup, Plain, FirstLine, AfterFirstLine, StoreTicket, Usable;
    Partner(c);
    OrderlyUsable(c.file);
    FixedPackets();
    if c.issued >= 0 && c.server.Serving? {
      var t := log[c.issued].ticket;
      TicketPacket(t);
      PlainIsSafe(t);
      StoredIsFound(c.file, c.url, c.client.ticket, t);
    }
  }

  lemma ReadingIsUnambiguous(c: Conn, log: seq<Event>)
    requires Good(c, log) && Unambiguous(c) && c.client.AwaitReply? && c.down != []
    ensures Unambiguous(ClientReply(c))
  {
    hide InStep, Orderly, Keyed, Lookup, FirstLine, Deleted;
    DeletedIsGone(c.file, c.url);
    assert Free("", ';');
  }

  lemma AskingIsUnambiguous(digest: string -> Digest, c: Conn, typed: string)
    requires Unambiguous(c) && c.client.ToAuthenticate?
    ensures Unambiguous(ClientAsk(digest, c, typed))
  {
    hide Lookup, Checked, Offered, AuthText;
    forall u ensures Lookup(Checked(c.file), u) == Lookup(c.file, u) {
      CheckedFile(c.file, u);
    }
  }

  lemma BeginningIsUnambiguous(c: Conn, user: string, url: string, command: string)
    requires Unambiguous(c) && Free(user, ';')
    ensures Unambiguous(Begin(c, user, url, command))
  {
    hide Lookup;
  }

  lemma NamedMoves(digest: string -> Digest, c: Conn, m: Move, table: Table, log: seq<Event>)
    requires Good(c, log) && Named(c, log) && Backed(c, table)
    requires Enabled(c, m) && CleanName(m)
    ensures Named(Moved(digest, c, m, table, |log|), log + Recorded(digest, c, m, table))
  {
    hide InStep, Orderly, Keyed, Lookup, Unambiguous, Classify, Single, Finished, AuthMessage.Parse, Salted,
         NewTicket, Offered, AuthText,
         FirstLine, AfterFirstLine, StoreTicket, Deleted, Answer, IsTicket, Agrees, Checked;
    assert log + [] == log;
    match m {
      case Begins(user, url, command) => BeginningIsUnambiguous(c, user, url, command);
      case Asks(typed) => AskingIsUnambiguous(digest, c, typed);
      case Hears => HearingIsUnambiguous(c, log);
      case Commands => SameFile(c, ClientCommand(c));
      case Reads => ReadingIsUnambiguous(c, log);
      case Judges(now, fails) =>
        JudgedIsUser(c);
        SameFile(c, ServerJudge(digest, c, table, now, fails));
      case Stores(_, fails) => SameFile(c, ServerStore(c, c.server.user in table && !fails, |log|));
      case Serves(info, fails) => SameFile(c, ServerServe(c, info, c.server.user in table && !fails, |log|));
    }
  }

  lemma SameFile(c: Conn, c': Conn)
    requires Unambiguous(c) && c'.user == c.user && c'.file == c.file
    ensures Unambiguous(c')
  {
    hide Lookup;
  }

  // ----- Whether an answered logout has been carried out

  /** Whether the engine did what client `i` asked for last: what the client's latest served
      command did not fail. */
  predicate LastServed(turns: seq<Turn>, i: nat, before: bool := true)
    decreases |turns|
  {
    if turns == [] then before else LastServed(turns[1..], i, ServedIn(turns[0], i, before))
  }

  predicate ServedIn(t: Turn, i: nat, before: bool) {
    if t.i == i && t.m.Serves? then !t.m.fails else before
  }

  /** The row's reset is on record exactly when the engine did `served`. */
  predicate ResetKnown(c: Conn, served: bool) {
    && (c.cleared >= 0 || LoggedOut(c) ==> c.server == Closed(Accepted))
    && ((c.client == AwaitReply("Logout") && c.server == Closed(Accepted)) || LoggedOut(c) ==> (c.cleared >= 0 <==> served))
  }

  lemma ServedCommand(c: Conn)
    requires InStep(c) && c.server.Serving? && c.up != []
    ensures c.client.AwaitReply? ==> c.up[0] == c.client.command
  {
    hide Lookup, Asked, Risky, Answer, Single, Usable;
  }

  lemma ResetMoves(digest: string -> Digest, c: Conn, m: Move, table: Table, at: nat, served: bool)
    requires InStep(c) && Backed(c, table) && ResetKnown(c, served) && Enabled(c, m)
    ensures ResetKnown(Moved(digest, c, m, table, at), if m.Serves? then !m.fails else served)
  {
    hide InStep, Lookup, Classify, Single, Finished, AuthMessage.Parse, Salted, NewTicket, Offered, AuthText, FirstLine,
         AfterFirstLine, StoreTicket, Deleted, Answer, Checked;
    Partner(c);
    LogoutIsLogout();
    if m.Serves? {
      ServedCommand(c);
    }
    RepliedBy(c);
  }

  /** A command goes to a server that serves; a reply comes from one that is done. */
  lemma RepliedBy(c: Conn)
    requires InStep(c)
    ensures c.client.ToCommand? ==> c.server.Serving?
    ensures c.client.AwaitReply? && c.down != [] ==> c.server == Closed(Accepted)
  {
    hide Lookup, Asked, Risky, Answer, Single, Usable;
  }

  // ----- Over whole runs

  lemma {:induction false} RunKeepsNamed(digest: string -> Digest, w: World, turns: seq<Turn>, v: World, i: nat)
    requires Leads(digest, w, turns, v) && AllBacked(w)
    requires i < |w.conns| && Good(w.conns[i], w.log) && Named(w.conns[i], w.log)
    requires KeyedUrls(turns, i) && CleanNames(turns, i)
    ensures i < |v.conns| && Named(v.conns[i], v.log)
    decreases |turns|
  {
    hide Good, Named, AllBacked, Enabled, Next, KeyedUrl, CleanName;
    if turns != [] {
      var t := turns[0];
      var w' := Next(digest, w, t.i, t.m);
      assert t in turns && forall u :: u in turns[1..] ==> u in turns;
      NextKeepsGood(digest, w, i, t.i, t.m);
      NextKeepsBacked(digest, w, t.i, t.m);
      NextKeepsNamed(digest, w, i, t.i, t.m);
      RunKeepsNamed(digest, w', turns[1..], v, i);
    }
  }

  lemma NextKeepsNamed(digest: string -> Digest, w: World, i: nat, j: nat, m: Move)
    requires i < |w.conns| && AllBacked(w) && Good(w.conns[i], w.log) && Named(w.conns[i], w.log)
    requires j < |w.conns| && Enabled(w.conns[j], m) && (i == j ==> CleanName(m))
    ensures var v := Next(digest, w, j, m); i < |v.conns| && Named(v.conns[i], v.log)
  {
    hide Good, Unambiguous, Enabled, Moved, Recorded, AppliedAll, Backed;
    if i == j {
      NamedMoves(digest, w.conns[j], m, w.table, w.log);
    }
  }

  lemma {:induction false} RunKeepsReset(digest: string -> Digest, w: World, turns: seq<Turn>, v: World, i: nat,
                                         served: bool)
    requires Leads(digest, w, turns, v) && i < |w.conns| && AllBacked(w) && AllInStep(w) && ResetKnown(w.conns[i], served)
    ensures i < |v.conns| && ResetKnown(v.conns[i], LastServed(turns, i, served))
    decreases |turns|
  {
    hide AllBacked, AllInStep, ResetKnown, Enabled, Next, ServedIn;
    if turns != [] {
      var t := turns[0];
      NextKeepsStep(digest, w, t.i, t.m);
      NextKeepsBacked(digest, w, t.i, t.m);
      NextKeepsReset(digest, w, i, t, served);
      RunKeepsReset(digest, Next(digest, w, t.i, t.m), turns[1..], v, i, ServedIn(t, i, served));
    }
  }

  lemma NextKeepsReset(digest: string -> Digest, w: World, i: nat, t: Turn, served: bool)
    requires i < |w.conns| && AllBacked(w) && AllInStep(w) && ResetKnown(w.conns[i], served)
    requires t.i < |w.conns| && Enabled(w.conns[t.i], t.m)
    ensures var v := Next(digest, w, t.i, t.m); i < |v.conns| && ResetKnown(v.conns[i], ServedIn(t, i, served))
  {
    hide InStep, ResetKnown, Enabled, Moved, Recorded, AppliedAll, Backed;
    if i == t.i {
      ResetMoves(digest, w.conns[i], t.m, w.table, |w.log|, served);
    }
  }

  /** Client `i` starts with an orderly file and only uses urls that can be keys in it. */
  ghost predicate Careful(w: World, turns: seq<Turn>, i: nat) {
    && i < |w.conns| && Orderly(w.conns[i].file) && Keyed(w.conns[i].url)
    && KeyedUrls(turns, i)
  }

  /** Neither its user names nor the tickets in its file hold a `;`. */
  ghost predicate Clear(w: World, turns: seq<Turn>, i: nat)
    requires i < |w.conns|
  {
    Unambiguous(w.conns[i]) && CleanNames(turns, i)
  }

  lemma {:induction false} CarefulIsGood(digest: string -> Digest, w: World, turns: seq<Turn>, v: World, i: nat)
    requires Initial(w) && Leads(digest, w, turns, v) && Careful(w, turns, i)
    ensures i < |v.conns| && Good(v.conns[i], v.log)
  {
    hide Leads, Orderly, Keyed, KeyedUrls, Good;
    InitialGood(w, i);
    RunKeepsGood(digest, w, turns, v, i);
  }

  lemma InitialRest(w: World, i: nat)
    requires Initial(w) && i < |w.conns|
    ensures AllBacked(w) && AllInStep(w) && ResetKnown(w.conns[i], true)
    ensures Unambiguous(w.conns[i]) ==> Named(w.conns[i], w.log)
  {
    hide Lookup;
    InitialInStep(w);
  }

  /** Whenever the client reads that it is let in: with a ticket in the packet, the server has
      put on record that it issued this very ticket, and the file then answers it; without one,
      nothing was issued. */
  lemma {:induction false} VerdictStored(digest: string -> Digest, w: World, turns: seq<Turn>, v: World, i: nat)
    requires Initial(w) && Leads(digest, w, turns, v) && Careful(w, turns, i)
    ensures i < |v.conns|
    ensures var c := v.conns[i];
      c.client.AwaitVerdict? && c.down != [] && FirstLine(c.down[0]) == "OK" ==>
        if c.down[0] == OK then c.issued == -1
        else
          && 0 <= c.issued < |v.log| && v.log[c.issued].Issued?
          && v.log[c.issued].ticket == AfterFirstLine(c.down[0]) == Lookup(ClientHear(c).file, c.url)
  {
    CarefulIsGood(digest, w, turns, v, i);
    hide Leads, Initial, InStep, Orderly, Keyed, Lookup, IsTicket, FirstLine, AfterFirstLine, ClientHear;
    var c := v.conns[i];
    if c.client.AwaitVerdict? && c.down != [] && FirstLine(c.down[0]) == "OK" {
      Partner(c);
      VerdictFile(c, v.log);
      if c.issued >= 0 {
        TicketPacket(v.log[c.issued].ticket);
      }
    }
  }

  /** What a run leaves to know about one client. */
  lemma {:induction false} RunFacts(digest: string -> Digest, w: World, turns: seq<Turn>, v: World, i: nat)
    requires Initial(w) && Leads(digest, w, turns, v) && Careful(w, turns, i)
    ensures i < |w.conns| && i < |v.conns| && Good(v.conns[i], v.log)
    ensures Clear(w, turns, i) ==> Named(v.conns[i], v.log)
    ensures ResetKnown(v.conns[i], LastServed(turns, i))
    ensures v.table == AppliedAll(w.table, v.log) && Known(v.table, v.log) && v.table.Keys == w.table.Keys
  {
    hide Leads, Initial, Orderly, Keyed, KeyedUrls, Good, Named, Unambiguous, CleanNames, AllBacked, AllInStep,
         ResetKnown, AppliedAll,
         Truthful, Known, LastServed;
    CarefulIsGood(digest, w, turns, v, i);
    InitialGood(w, i);
    InitialRest(w, i);
    RunKnows(digest, w, turns, v);
    StartTruthful(w);
    RunKeepsHistory(digest, w, turns, v, w.table);
    if Clear(w, turns, i) {
      RunKeepsNamed(digest, w, turns, v, i);
    }
    RunKeepsReset(digest, w, turns, v, i, true);
  }

  /** After a password login the session file answers, for the client's url, the very ticket
      the server wrote, whichever way it was stored; and the row of the user it was issued to
      still holds it, with its end, unless somebody logged in or out as that user since. After
      an answered logout the file answers nothing; the reset is on record exactly when the engine
      did not fail it, and then the row holds no ticket, unless somebody logged in as that user
      since. When no name and no ticket is ambiguous, that user is the client's own. */
  lemma {:induction false} SessionAgrees(digest: string -> Digest, w: World, turns: seq<Turn>, v: World, i: nat)
    requires Initial(w) && Leads(digest, w, turns, v) && Careful(w, turns, i)
    ensures i < |v.conns| && Orderly(v.conns[i].file)
    ensures var c := v.conns[i]; Authenticated(c) && !LoggedOut(c) && c.issued >= 0 ==>
      && c.issued < |v.log| && v.log[c.issued].Issued?
      && var e := v.log[c.issued];
      && (Clear(w, turns, i) ==> e.user == c.user && c.user != "")
      && e.user in v.table && Lookup(c.file, c.url) == e.ticket
      && (LastBefore(v.log, c.issued, |v.log|, e.user) ==>
            ColumnsOf(v.table, e.user) == Columns(Text(e.ticket), Integer(e.at + 86400)))
    ensures var c := v.conns[i]; LoggedOut(c) ==> Lookup(c.file, c.url) == ""
    ensures var c := v.conns[i]; LoggedOut(c) ==> (c.cleared >= 0 <==> LastServed(turns, i))
    ensures var c := v.conns[i]; LoggedOut(c) && c.cleared >= 0 ==>
      && c.cleared < |v.log| && v.log[c.cleared].Cleared?
      && var e := v.log[c.cleared];
      && (Clear(w, turns, i) ==> e.user == c.user)
      && e.user in v.table
      && (LastBefore(v.log, c.cleared, |v.log|, e.user) ==> ColumnsOf(v.table, e.user) == Columns(Null, Null))
  {
    hide Leads, Initial, InStep, Orderly, Keyed, Lookup, Unambiguous, AppliedAll, IsTicket, LastBefore, ColumnsOf,
         LastServed, Clear,
         Careful, Known;
    RunFacts(digest, w, turns, v, i);
    var c := v.conns[i];
    AtTheEnd(w.table, v.table, v.log, c.issued);
    AtTheEnd(w.table, v.table, v.log, c.cleared);
  }

  /** Client and server hold the same ticket: for a client that was let in with a password, as
      long as nobody has logged in or out as its user since, its user's row holds exactly what
      its file answers; for one whose logout was carried out, the row holds none and the file
      answers nothing. */
  lemma {:induction false} FileIsRow(digest: string -> Digest, w: World, turns: seq<Turn>, v: World, i: nat)
    requires Initial(w) && Leads(digest, w, turns, v) && Careful(w, turns, i) && Clear(w, turns, i)
    ensures i < |v.conns|
    ensures var c := v.conns[i]; Authenticated(c) && !LoggedOut(c) && c.issued >= 0 && Latest(v.log, c.issued, c.user) ==>
      && v.log[c.issued].Issued? && c.user in v.table && IsTicket(Lookup(c.file, c.url))
      && ColumnsOf(v.table, c.user) == Columns(Text(Lookup(c.file, c.url)), Integer(v.log[c.issued].at + DAY))
    ensures var c := v.conns[i]; LoggedOut(c) && LastServed(turns, i) && Latest(v.log, c.cleared, c.user) ==>
      && c.user in v.table && Lookup(c.file, c.url) == ""
      && ColumnsOf(v.table, c.user) == Columns(Null, Null)
  {
    hide Leads, Initial, Careful, Clear, Good, Lookup, LastBefore, ColumnsOf, LastServed, Orderly, IsTicket;
    SessionAgrees(digest, w, turns, v, i);
    CarefulIsGood(digest, w, turns, v, i);
    GoodTicket(v.conns[i], v.log);
  }

  /** Event `k` is the last one to write the user's ticket columns. */
  ghost predicate Latest(log: seq<Event>, k: int, user: string) {
    0 <= k < |log| && LastBefore(log, k, |log|, user)
  }

  lemma GoodTicket(c: Conn, log: seq<Event>)
    requires Good(c, log)
    ensures c.issued >= 0 ==> c.issued < |log| && log[c.issued].Issued? && IsTicket(log[c.issued].ticket)
    ensures Usable(c.file)
  {
    hide InStep, Lookup, Keyed, Agrees, IsTicket;
    OrderlyUsable(c.file);
  }

  /** So such a client's next conversation gets past the server without a password, until a
      day after the ticket was issued. */
  lemma {:induction false} NextLoginAccepted(digest: string -> Digest, w: World, turns: seq<Turn>, v: World, i: nat,
                      command: string, typed: string, now: int)
    requires Initial(w) && Leads(digest, w, turns, v) && Careful(w, turns, i) && Clear(w, turns, i) && i < |v.conns|
    requires var c := v.conns[i];
      && Authenticated(c) && !LoggedOut(c) && c.issued >= 0 && Latest(v.log, c.issued, c.user)
      && v.log[c.issued].Issued? && now < v.log[c.issued].at + DAY
    ensures var c := v.conns[i];
      var asked := ClientAsk(digest, Begin(c, c.user, c.url, command), typed);
      && asked.up != []
      && ServerJudge(digest, asked, v.table, now, false)
         == asked.(server := Serving(c.user), up := [], down := [OK])
  {
    hide Leads, Initial, Careful, Good, Lookup, LastBefore, IsTicket, Judge, AuthText, Checked, InStep, Orderly, Keyed;
    FileIsRow(digest, w, turns, v, i);
    SessionAgrees(digest, w, turns, v, i);
    CarefulIsGood(digest, w, turns, v, i);
    GoodTicket(v.conns[i], v.log);
    StillUnambiguous(digest, w, turns, v, i);
    var c := v.conns[i];
    StoredTicketWorks(digest, Begin(c, c.user, c.url, command), v.table, now, typed);
  }

  lemma {:induction false} StillUnambiguous(digest: string -> Digest, w: World, turns: seq<Turn>, v: World, i: nat)
    requires Initial(w) && Leads(digest, w, turns, v) && Careful(w, turns, i) && Clear(w, turns, i)
    ensures i < |v.conns| && Named(v.conns[i], v.log)
  {
    hide Leads, Unambiguous, Orderly, Keyed, KeyedUrls, CleanNames, Good, AllBacked, AllInStep, ResetKnown, Named;
    InitialGood(w, i);
    InitialRest(w, i);
    RunKeepsNamed(digest, w, turns, v, i);
  }
}
