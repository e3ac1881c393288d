/** The session file of one client, move by move: what a conversation does to it, and how that
    stands to the server's history. */
module Stores {
  import opened Text
  import opened Crypto
  import opened AuthMessage
  import opened Session
  import opened Commands
  import opened Statement
  import opened UserTable
  import opened Conversation
  import opened Lockstep
  import opened World

  // ----- The session file of a client

  /** A file that can be used, whose lines are ended, which holds no empty ticket. */
  ghost predicate Orderly(f: File) {
    WellFormed(f) && forall u :: u in Map(f) ==> Map(f)[u] != ""
  }

  /** A url that can be a key in it. */
  predicate Keyed(url: string) {
    Free(url, '=') && Free(url, '\n')
  }

  lemma LookupInMap(f: File, url: string)
    ensures Lookup(f, url) == if url in Map(f) then Map(f)[url] else ""
  {
    LookupIsView(Entries(f), url);
  }

  lemma CheckedOrderly(f: File)
    requires Orderly(f)
    ensures Orderly(Checked(f))
  {
  }

  /** Whichever way the new ticket is stored, it is what the file then answers for the url;
      every other url answers as before. */
  lemma StoredIsFound(f: File, url: string, ticket: string, newTicket: string)
    requires Orderly(f) && Keyed(url) && ticket == Lookup(f, url) && IsTicket(newTicket)
    ensures Orderly(StoreTicket(f, url, ticket, newTicket))
    ensures Lookup(StoreTicket(f, url, ticket, newTicket), url) == newTicket
    ensures forall u :: u != url ==> Lookup(StoreTicket(f, url, ticket, newTicket), u) == Lookup(f, u)
  {
    hide Lookup, Saved, Changed, WellFormed, Plain;
    NoNewline(newTicket);
    var op := if ticket != newTicket && ticket != "" then Change(newTicket, url) else Save(newTicket, url);
    var g := StoreTicket(f, url, ticket, newTicket);
    assert g == Do(op, f) && Clean(op);
    DoRefines(op, f);
    LookupInMap(f, url);
    LookupInMap(g, url);
    forall u | u != url ensures Lookup(g, u) == Lookup(f, u) {
      LookupInMap(f, u);
      LookupInMap(g, u);
    }
  }

  lemma NoNewline(t: string)
    requires IsTicket(t)
    ensures Free(t, '\n') && t != ""
  {
    PlainIsSafe(t);
  }

  lemma DeletedIsGone(f: File, url: string)
    requires Orderly(f) && Keyed(url)
    ensures Orderly(Deleted(f, url)) && Lookup(Deleted(f, url), url) == ""
    ensures forall u :: u != url ==> Lookup(Deleted(f, url), u) == Lookup(f, u)
  {
    hide Lookup, Deleted, WellFormed;
    var g := Do(Delete(url), f);
    assert g == Deleted(f, url);
    DoRefines(Delete(url), f);
    LookupInMap(g, url);
    forall u | u != url ensures Lookup(g, u) == Lookup(f, u) {
      LookupInMap(f, u);
      LookupInMap(g, u);
    }
  }

  // ----- One conversation

  ghost predicate TicketOnRecord(c: Conn, log: seq<Event>) {
    0 <= c.issued < |log| && log[c.issued].Issued? && IsTicket(log[c.issued].ticket)
  }

  /** Once the client has been told OK, its file answers the ticket issued to it; until the
      logout it asked for has succeeded, and then nothing. */
  ghost predicate FileAgrees(c: Conn, log: seq<Event>)
    requires c.issued >= 0 ==> TicketOnRecord(c, log)
  {
    if c.client == Over(true, true, "Logout") then Lookup(c.file, c.url) == ""
    else c.issued >= 0 ==> Lookup(c.file, c.url) == log[c.issued].ticket
  }

  ghost predicate ClearedOnRecord(c: Conn, log: seq<Event>) {
    c.cleared >= 0 ==> c.issued < c.cleared < |log| && log[c.cleared].Cleared?
                       && (c.issued >= 0 ==> log[c.cleared].user == log[c.issued].user)
  }

  /** How a conversation stands to the history. */
  ghost predicate Agrees(c: Conn, log: seq<Event>)
    requires c.issued >= 0 ==> TicketOnRecord(c, log)
  {
    && (c.cleared >= 0 ==> c.server == Closed(Accepted)) && ClearedOnRecord(c, log)
    && (c.server.Serving? && c.issued >= 0 ==> log[c.issued].user == c.server.user)
    && match c.client
       case ToAuthenticate(_, _) => c.issued == -1 && c.cleared == -1
       case AwaitVerdict(_, _, _) =>
         if c.server.Serving? then c.down == [if c.issued >= 0 then OK + log[c.issued].ticket else OK]
         else c.issued == -1
       case Over(authenticated, _, _) => if authenticated then FileAgrees(c, log) else c.issued == -1
       case _ => FileAgrees(c, log)
  }

  /** Everything about one conversation of a client with an orderly file. */
  ghost predicate Good(c: Conn, log: seq<Event>) {
    && InStep(c) && Orderly(c.file) && Keyed(c.url)
    && (c.issued >= 0 ==> TicketOnRecord(c, log)) && -1 <= c.issued && -1 <= c.cleared
    && Agrees(c, log)
  }

  lemma OrderlyUsable(f: File)
    requires Orderly(f)
    ensures Usable(f)
  {
  }

  /** Other conversations only add to the history. */
  lemma GoodGrows(c: Conn, log: seq<Event>, more: seq<Event>)
    requires Good(c, log)
    ensures Good(c, log + more)
  {
    hide InStep, Orderly, Lookup, IsTicket;
  }

  /** Where the other side can be. */
  lemma Partner(c: Conn)
    requires InStep(c)
    ensures c.client.ToAuthenticate? ==> c.server.Listening?
    ensures c.client.ToCommand? || c.client.AwaitReply? ==> c.server.Serving? || c.server == Closed(Accepted)
    ensures c.server.Listening? && c.up != [] ==> c.client.AwaitVerdict? && c.down == []
    ensures c.server.Storing? ==> c.client.AwaitVerdict? && c.down == [] && IsTicket(c.server.ticket)
    ensures c.server.Serving? && c.up != [] ==> c.client.AwaitReply? || (c.client.Over? && c.client.authenticated)
    ensures c.client.AwaitVerdict? && Usable(c.file) ==> c.client.ticket == Lookup(c.file, c.url)
    ensures c.client.AwaitVerdict? ==> c.server != Closed(Accepted)
    ensures c.client.AwaitVerdict? && c.down != [] ==> (FirstLine(c.down[0]) == "OK" <==> c.server.Serving?)
  {
    hide Lookup, Asked, Risky, Answer, Single, Usable, IsTicket, FirstLine, Granted;
    FixedPackets();
    if c.client.AwaitVerdict? && c.down != [] && c.server.Serving? {
      GrantedOne(c.down);
      GrantedPacket(c.down[0]);
    }
  }

  lemma GoodBegins(c: Conn, log: seq<Event>, user: string, url: string, command: string)
    requires Good(c, log) && Single(command) && Keyed(url)
    ensures Good(Begin(c, user, url, command), log)
  {
    hide InStep, Orderly, Keyed, Lookup, IsTicket, Single;
    BeginInStep(c, user, url, command);
  }

  lemma GoodAsks(digest: string -> Digest, c: Conn, log: seq<Event>, typed: string)
    requires Good(c, log) && c.client.ToAuthenticate?
    ensures Good(ClientAsk(digest, c, typed), log)
  {
    hide InStep, Orderly, Lookup, IsTicket, Offered, AuthText, Checked, Usable;
    AskKeeps(digest, c, typed);
    Partner(c);
    CheckedOrderly(c.file);
  }

  lemma GoodJudges(digest: string -> Digest, c: Conn, log: seq<Event>, table: Table, now: int, fails: bool)
    requires Good(c, log) && c.server.Listening? && c.up != []
    ensures Good(ServerJudge(digest, c, table, now, fails), log)
  {
    hide InStep, Orderly, Lookup, IsTicket, Judge;
    JudgeKeeps(digest, c, table, now, fails);
    Partner(c);
    assert c.down + [OK] == [OK];
  }

  lemma GoodStores(c: Conn, log: seq<Event>, stored: bool, now: int)
    requires Good(c, log) && c.server.Storing?
    ensures var es := if stored then [Issued(c.server.user, c.server.ticket, now)] else [];
      Good(ServerStore(c, stored, |log|), log + es)
  {
    hide InStep, Orderly, Lookup, IsTicket;
    StoreKeeps(c, stored, |log|);
    Partner(c);
    var es := if stored then [Issued(c.server.user, c.server.ticket, now)] else [];
    assert stored ==> (log + es)[|log|] == Issued(c.server.user, c.server.ticket, now);
    assert c.down + [OK + c.server.ticket] == [OK + c.server.ticket];
  }

  lemma TicketPacket(t: string)
    requires IsTicket(t)
    ensures FirstLine(OK + t) == "OK" && AfterFirstLine(OK + t) == t && OK + t != OK
  {
    ReplyParts("OK", t);
    assert OK + t == "OK" + "\n" + t;
    assert |t| == 95;
  }

  /** The file after the verdict. */
  lemma VerdictFile(c: Conn, log: seq<Event>)
    requires Good(c, log) && c.client.AwaitVerdict? && c.down != []
    ensures Orderly(ClientHear(c).file)
    ensures FirstLine(c.down[0]) == "OK" && c.issued >= 0 ==>
      Lookup(ClientHear(c).file, c.url) == log[c.issued].ticket
  {
    hide InStep, Orderly, Lookup, IsTicket, FirstLine, AfterFirstLine, StoreTicket, Usable;
    Partner(c);
    OrderlyUsable(c.file);
    FixedPackets();
    if c.issued >= 0 && c.server.Serving? {
      var t := log[c.issued].ticket;
      TicketPacket(t);
      StoredIsFound(c.file, c.url, c.client.ticket, t);
    }
  }

  lemma GoodHears(c: Conn, log: seq<Event>)
    requires Good(c, log) && c.client.AwaitVerdict? && c.down != []
    ensures Good(ClientHear(c), log)
  {
    hide InStep, Orderly, Lookup, IsTicket, FirstLine, AfterFirstLine, StoreTicket, ClearedOnRecord;
    HearKeeps(c);
    Partner(c);
    VerdictFile(c, log);
    ClearedKept(c, ClientHear(c), log);
  }

  lemma ClearedKept(c: Conn, c': Conn, log: seq<Event>)
    requires c.issued >= 0 ==> TicketOnRecord(c, log)
    requires ClearedOnRecord(c, log) && c'.cleared == c.cleared && c'.issued == c.issued
    ensures ClearedOnRecord(c', log)
  {
  }

  lemma GoodCommands(c: Conn, log: seq<Event>)
    requires Good(c, log) && c.client.ToCommand?
    ensures Good(ClientCommand(c), log)
  {
    hide InStep, Orderly, Lookup, IsTicket;
    CommandKeeps(c);
  }

  lemma GoodReads(c: Conn, log: seq<Event>)
    requires Good(c, log) && c.client.AwaitReply? && c.down != []
    ensures Good(ClientReply(c), log)
  {
    hide InStep, Orderly, Lookup, IsTicket, FirstLine, Deleted, ClearedOnRecord;
    ReplyKeeps(c);
    DeletedIsGone(c.file, c.url);
    ClearedKept(c, ClientReply(c), log);
  }

  lemma GoodServes(c: Conn, log: seq<Event>, info: string, reset: bool)
    requires Good(c, log) && c.server.Serving? && c.up != [] && Single(c.up[0])
    ensures var es := if Classify(c.up[0]).Logout? && reset then [Cleared(c.server.user)] else [];
      Good(ServerServe(c, info, reset, |log|), log + es)
  {
    hide InStep, Orderly, Lookup, IsTicket, Answer, Classify, Single;
    ServeKeeps(c, info, reset, |log|);
    Partner(c);
    var es := if Classify(c.up[0]).Logout? && reset then [Cleared(c.server.user)] else [];
    assert es != [] ==> (log + es)[|log|] == Cleared(c.server.user);
    assert forall k :: 0 <= k < |log| ==> (log + es)[k] == log[k];
  }

  /** A move that begins a conversation does so with a url that can be a key. */
  predicate KeyedUrl(m: Move) {
    m.Begins? ==> Keyed(m.url)
  }

  /** Every move of a good conversation leaves it good. */
  lemma GoodMoves(digest: string -> Digest, c: Conn, m: Move, table: Table, log: seq<Event>)
    requires Good(c, log) && Enabled(c, m) && KeyedUrl(m)
    ensures Good(Moved(digest, c, m, table, |log|), log + Recorded(digest, c, m, table))
  {
    hide Good, Finished, Single, Begin, ClientAsk, ClientHear, ClientCommand, ClientReply, ServerJudge, ServerStore,
         ServerServe, Classify, Judge, AuthMessage.Parse;
    var es := Recorded(digest, c, m, table);
    assert log + [] == log;
    match m {
      case Begins(user, url, command) => GoodBegins(c, log, user, url, command);
      case Asks(typed) => GoodAsks(digest, c, log, typed);
      case Hears => GoodHears(c, log);
      case Commands => GoodCommands(c, log);
      case Reads => GoodReads(c, log);
      case Judges(now, fails) =>
        GoodJudges(digest, c, log, table, now, fails);
        GoodGrows(ServerJudge(digest, c, table, now, fails), log, es);
      case Stores(now, fails) => GoodStores(c, log, c.server.user in table && !fails, now);
      case Serves(info, fails) => GoodServes(c, log, info, c.server.user in table && !fails);
    }
  }

  lemma NextKeepsGood(digest: string -> Digest, w: World, i: nat, j: nat, m: Move)
    requires i < |w.conns| && Good(w.conns[i], w.log)
    requires j < |w.conns| && Enabled(w.conns[j], m) && (i == j ==> KeyedUrl(m))
    ensures var v := Next(digest, w, j, m); i < |v.conns| && Good(v.conns[i], v.log)
  {
    hide Good, Enabled, Moved, Recorded, AppliedAll;
    if i == j {
      GoodMoves(digest, w.conns[j], m, w.table, w.log);
    } else {
      GoodGrows(w.conns[i], w.log, Recorded(digest, w.conns[j], m, w.table));
    }
  }

  /** Client `i` only ever uses such urls. */
  ghost predicate KeyedUrls(turns: seq<Turn>, i: nat) {
    forall t :: t in turns && t.i == i ==> KeyedUrl(t.m)
  }

  lemma {:induction false} RunKeepsGood(digest: string -> Digest, w: World, turns: seq<Turn>, v: World, i: nat)
    requires Leads(digest, w, turns, v) && i < |w.conns| && Good(w.conns[i], w.log) && KeyedUrls(turns, i)
    ensures i < |v.conns| && Good(v.conns[i], v.log)
    decreases |turns|
  {
    hide Good, Enabled, Next, KeyedUrl;
    if turns != [] {
      assert turns[0] in turns && forall t :: t in turns[1..] ==> t in turns;
      NextKeepsGood(digest, w, i, turns[0].i, turns[0].m);
      RunKeepsGood(digest, Next(digest, w, turns[0].i, turns[0].m), turns[1..], v, i);
    }
  }

  // ----- Credentials that are good

  /** A client whose file answers the ticket in its user's row is let in without a password
      until the ticket ends. */
  lemma StoredTicketWorks(digest: string -> Digest, c: Conn, table: Table, now: int, typed: string)
    requires c.client.ToAuthenticate? && !c.client.retry && Quiet(c) && Usable(c.file)
    requires IsTicket(Lookup(c.file, c.url)) && c.user != "" && Free(c.user, ';')
    requires c.user in table && table[c.user].ticket == Text(Lookup(c.file, c.url))
    requires now < table[c.user].ticketEnd.AsInt64()
    ensures Judge(digest, table, ClientAsk(digest, c, typed).up[0], now, false) == TicketGood(c.user)
  {
    hide AuthText, AuthMessage.Parse, Lookup, Plain, Salted, Checked;
    var ticket := Lookup(c.file, c.url);
    PlainIsSafe(ticket);
    MessageRoundTrip(c.user, Ticket(ticket));
  }

  /** A user whose row the enrolment tool wrote is judged good with the enrolled password, for
      every digest and salt, and every count that fits. */
  lemma EnrolledJudged(digest: string -> Digest, user: string, password: string, table: Table, now: int)
    requires user != "" && Free(user, ';') && user in table && RoundsFit(table[user].iteration)
    requires table[user].passwordHash
          == Salted(digest, Sha256(digest, password), table[user].salt, table[user].iteration)
    ensures Judge(digest, table, AuthText(user, Password(Sha256(digest, password))), now, false)
         == PasswordGood(user, NewTicket(digest, now, table[user].passwordHash))
    ensures IsTicket(NewTicket(digest, now, table[user].passwordHash))
  {
    hide AuthText, AuthMessage.Parse, Plain, Salted, Sha256, RoundsFit;
    HashShape(digest, password);
    PlainIsSafe(Sha256(digest, password));
    MessageRoundTrip(user, Password(Sha256(digest, password)));
    FittingRoundsVerify(digest, password, table[user].salt, table[user].iteration);
    IssuedIsTicket(digest, table, AuthText(user, Password(Sha256(digest, password))), now, false);
  }
}
