/** What it takes to be let in: the password judgement, the tickets it issues, and over whole
    runs where every ticket comes from. */
module Passwords {
  import opened Text
  import opened Numbers
  import opened Crypto
  import opened AuthMessage
  import opened Session
  import opened Commands
  import opened UserTable
  import opened Conversation
  import opened Lockstep
  import opened World
  import opened Tickets
  import opened Stores
  import opened Login
  import Statement

  // ----- One judgement

  /** The rounds over what the client sent give the hash in the user's row. */
  predicate Fits(digest: string -> Digest, table: Table, user: string, secret: string)
    requires user in table
  {
    Salted(digest, secret, table[user].salt, ToInt32(table[user].iteration)) == table[user].passwordHash
  }

  /** The row holds the ticket, and its end has not come. */
  predicate TicketHolds(table: Table, user: string, ticket: string, now: int)
    requires user in table
  {
    table[user].ticket == Statement.Text(ticket) && now < table[user].ticketEnd.AsInt64()
  }

  /** The server's decision on every credential whose parts are free of `;`: what is good, what
      is a bad ticket, and that all else is rejected. */
  lemma JudgeDecides(digest: string -> Digest, table: Table, user: string, offer: Offer, now: int, fails: bool)
    requires Free(user, ';') && Free(offer.Secret(), ';')
    ensures var j := Judge(digest, table, AuthText(user, offer), now, fails);
      var known := user != "" && user in table && !fails;
      && (j.PasswordGood? <==> known && !offer.Ticket? && Fits(digest, table, user, offer.Secret()))
      && (j.PasswordGood? ==> j == PasswordGood(user, NewTicket(digest, now, table[user].passwordHash)))
      && (j.TicketGood? <==> known && offer.Ticket? && offer.ticket != "" && TicketHolds(table, user, offer.ticket, now))
      && (j.TicketGood? ==> j == TicketGood(user))
      && (j.TicketBad? <==> known && offer.Ticket? && offer.ticket != "" && !j.TicketGood?)
      && (j.TicketBad? ==> j == TicketBad(user))
  {
    hide AuthText, AuthMessage.Parse, Salted, NewTicket;
    MessageRoundTrip(user, offer);
  }

  // ----- One ticket

  /** What a ticket is the digest of. */
  function TicketText(now: int, passwordHash: string): string {
    "Tintirek::" + VERSION + "::" + DecimalInt(now) + "::" + passwordHash + "::" + "EndOfTicket"
  }

  lemma {:induction false} DecimalIntTells(a: int, b: int)
    requires DecimalInt(a) == DecimalInt(b)
    ensures a == b
  {
    DecimalRead(if a < 0 then -a else a);
    DecimalRead(if b < 0 then -b else b);
    assert a < 0 ==> DecimalInt(a)[0] == '-' && DecimalInt(a)[1..] == Decimal(-a);
    assert b < 0 ==> DecimalInt(b)[0] == '-' && DecimalInt(b)[1..] == Decimal(-b);
    assert a >= 0 ==> DecimalInt(a) == Decimal(a);
    assert b >= 0 ==> DecimalInt(b) == Decimal(b);
  }

  lemma {:induction false} DecimalIntFree(v: int)
    ensures Free(DecimalInt(v), ':')
  {
  }

  lemma TicketTextTells(a: int, h: string, b: int, k: string)
    requires TicketText(a, h) == TicketText(b, k)
    ensures a == b && h == k
  {
    hide DecimalInt, IndexOf;
    var front := "Tintirek::" + VERSION + "::";
    var s, t := DecimalInt(a) + [':'] + (":" + h + "::EndOfTicket"), DecimalInt(b) + [':'] + (":" + k + "::EndOfTicket");
    assert TicketText(a, h) == front + s && TicketText(b, k) == front + t;
    assert s == (front + s)[|front|..] && t == (front + t)[|front|..];
    DecimalIntFree(a);
    DecimalIntFree(b);
    IndexOfSplit(DecimalInt(a), ':', ":" + h + "::EndOfTicket");
    IndexOfSplit(DecimalInt(b), ':', ":" + k + "::EndOfTicket");
    var n := |DecimalInt(a)|;
    assert |DecimalInt(b)| == n && DecimalInt(a) == s[..n] && DecimalInt(b) == t[..n];
    DecimalIntTells(a, b);
    assert h == s[n + 2..|s| - 13] && k == t[n + 2..|t| - 13];
  }

  predicate SameTicket(digest: string -> Digest, a: int, h: string, b: int, k: string) {
    NewTicket(digest, a, h) == NewTicket(digest, b, k)
  }

  /** A ticket depends on the time of the login and on the stored hash: two logins get the same
      ticket for every digest exactly when both agree. */
  lemma TicketsTell(a: int, h: string, b: int, k: string)
    ensures (forall digest: string -> Digest :: SameTicket(digest, a, h, b, k)) <==> a == b && h == k
  {
    hide Sha256, Marking, Print, DecimalInt;
    if !(a == b && h == k) {
      var s, t := TicketText(a, h), TicketText(b, k);
      if s == t {
        TicketTextTells(a, h, b, k);
      }
      var marked := (x: string) => x == s;
      var digest := Marking(marked, 1, 0);
      MarkingPrints(marked, 1, 0, s, ":");
      MarkingPrints(marked, 1, 0, t, ":");
      PrintTells(1, 0, ":");
      assert !SameTicket(digest, a, h, b, k);
    }
  }

  // ----- The enrolled columns of every row stay what they are

  /** The same users, with the same hashes, salts and counts. */
  ghost predicate SameEnrolment(t: Table, u: Table) {
    && t.Keys == u.Keys
    && forall x :: x in t ==>
         t[x].passwordHash == u[x].passwordHash && t[x].salt == u[x].salt && t[x].iteration == u[x].iteration
  }

  lemma {:induction false} EnrolmentStays(table: Table, es: seq<Event>)
    ensures SameEnrolment(table, AppliedAll(table, es))
    decreases |es|
  {
    if es != [] {
      EnrolmentStays(table, es[..|es| - 1]);
    }
  }

  /** No run changes who is enrolled and with what: only ticket columns are ever written. */
  lemma {:induction false} RunKeepsEnrolment(digest: string -> Digest, w: World, turns: seq<Turn>, v: World)
    requires Initial(w) && Leads(digest, w, turns, v)
    ensures SameEnrolment(w.table, v.table)
  {
    StartTruthful(w);
    RunKeepsHistory(digest, w, turns, v, w.table);
    EnrolmentStays(w.table, v.log);
    hide Leads, Initial, SameEnrolment, AppliedAll, Truthful;
  }

  // ----- What is on record about passwords

  /** A password on record was accepted exactly when it fits the row. */
  ghost predicate TriedRightly(digest: string -> Digest, table: Table, e: Event)
    requires e.Tried?
  {
    e.user in table && (e.accepted <==> Fits(digest, table, e.user, e.secret))
  }

  /** The ticket goes back to an accepted password of the user, entered at the time that is
      hashed into it. */
  ghost predicate Earned(digest: string -> Digest, table: Table, log: seq<Event>, k: nat, user: string, ticket: string)
    requires k <= |log|
  {
    exists j :: 0 <= j < k && EarnedBy(digest, table, log[j], user, ticket)
  }

  predicate EarnedBy(digest: string -> Digest, table: Table, e: Event, user: string, ticket: string) {
    && e.Tried? && e.accepted && e.user == user && user in table && Fits(digest, table, user, e.secret)
    && ticket == NewTicket(digest, e.now, table[user].passwordHash)
  }

  ghost predicate Honest(digest: string -> Digest, table: Table, w: World) {
    && SameEnrolment(table, w.table)
    && (forall k :: 0 <= k < |w.log| && w.log[k].Tried? ==> TriedRightly(digest, table, w.log[k]))
    && (forall k :: 0 <= k < |w.log| && w.log[k].Issued? ==>
          Earned(digest, table, w.log, k, w.log[k].user, w.log[k].ticket))
    && (forall i :: 0 <= i < |w.conns| && w.conns[i].server.Storing? ==>
          Earned(digest, table, w.log, |w.log|, w.conns[i].server.user, w.conns[i].server.ticket))
  }

  /** A move that decides about a password records the decision; only an accepted one leads to
      the ticket update, and the update issues that very ticket. */
  lemma MoveIsHonest(digest: string -> Digest, c: Conn, m: Move, table: Table, at: nat)
    requires Enabled(c, m)
    ensures var c' := Moved(digest, c, m, table, at); var es := Recorded(digest, c, m, table);
      && |es| <= 1 && (forall e :: e in es && e.Tried? ==> TriedRightly(digest, table, e))
      && (forall e :: e in es && e.Issued? ==> c.server == Storing(e.user, e.ticket))
      && (c'.server.Storing? ==>
            c'.server == c.server || (es != [] && EarnedBy(digest, table, es[0], c'.server.user, c'.server.ticket)))
  {
    hide AuthMessage.Parse, Salted, NewTicket, Classify, Single, Finished, Abandoned, Answer, Offered, AuthText;
  }

  lemma SameFits(digest: string -> Digest, t: Table, u: Table, user: string, secret: string)
    requires SameEnrolment(t, u) && user in t
    ensures user in u && (Fits(digest, t, user, secret) <==> Fits(digest, u, user, secret))
    ensures t[user].passwordHash == u[user].passwordHash
  {
  }

  lemma EarnedLater(digest: string -> Digest, table: Table, log: seq<Event>, more: seq<Event>, k: nat, n: nat,
                    user: string, ticket: string)
    requires k <= |log| && k <= n <= |log + more| && Earned(digest, table, log, k, user, ticket)
    ensures Earned(digest, table, log + more, n, user, ticket)
  {
    hide EarnedBy;
    var j :| 0 <= j < k && EarnedBy(digest, table, log[j], user, ticket);
    assert (log + more)[j] == log[j];
  }

  lemma NextIsHonest(digest: string -> Digest, table: Table, w: World, t: Turn)
    requires Honest(digest, table, w) && t.i < |w.conns| && Enabled(w.conns[t.i], t.m)
    ensures Honest(digest, table, Next(digest, w, t.i, t.m))
  {
    hide Enabled, Moved, Recorded, AppliedAll, Earned, TriedRightly, EarnedBy, SameEnrolment;
    var c, v := w.conns[t.i], Next(digest, w, t.i, t.m);
    var es := Recorded(digest, c, t.m, w.table);
    MoveIsHonest(digest, c, t.m, w.table, |w.log|);
    EnrolmentStays(w.table, es);
    SameTwice(table, w.table, v.table);
    forall k | 0 <= k < |v.log| && v.log[k].Tried? ensures TriedRightly(digest, table, v.log[k]) {
      if k >= |w.log| {
        assert v.log[k] == es[0];
        TriedSame(digest, table, w.table, es[0]);
      }
    }
    forall k | 0 <= k < |v.log| && v.log[k].Issued?
      ensures Earned(digest, table, v.log, k, v.log[k].user, v.log[k].ticket)
    {
      if k < |w.log| {
        EarnedLater(digest, table, w.log, es, k, k, v.log[k].user, v.log[k].ticket);
      } else {
        assert v.log[k] == es[0];
        EarnedLater(digest, table, w.log, es, |w.log|, k, v.log[k].user, v.log[k].ticket);
      }
    }
    forall i | 0 <= i < |v.conns| && v.conns[i].server.Storing?
      ensures Earned(digest, table, v.log, |v.log|, v.conns[i].server.user, v.conns[i].server.ticket)
    {
      if i == t.i && v.conns[i].server != c.server {
        assert v.log[|w.log|] == es[0];
        EarnedNow(digest, table, w.table, v.log, |w.log|, v.conns[i].server.user, v.conns[i].server.ticket);
      } else {
        EarnedLater(digest, table, w.log, es, |w.log|, |v.log|, v.conns[i].server.user, v.conns[i].server.ticket);
      }
    }
  }

  lemma SameTwice(t: Table, u: Table, v: Table)
    requires SameEnrolment(t, u) && SameEnrolment(u, v)
    ensures SameEnrolment(t, v)
  {
  }

  lemma TriedSame(digest: string -> Digest, t: Table, u: Table, e: Event)
    requires SameEnrolment(t, u) && e.Tried? && TriedRightly(digest, u, e)
    ensures TriedRightly(digest, t, e)
  {
    hide Fits;
    SameFits(digest, t, u, e.user, e.secret);
  }

  lemma EarnedNow(digest: string -> Digest, t: Table, u: Table, log: seq<Event>, j: nat, user: string, ticket: string)
    requires SameEnrolment(t, u) && j < |log| && EarnedBy(digest, u, log[j], user, ticket)
    ensures Earned(digest, t, log, |log|, user, ticket)
  {
    hide Fits, NewTicket;
    SameFits(digest, t, u, user, log[j].secret);
    assert EarnedBy(digest, t, log[j], user, ticket);
  }

  lemma {:induction false} RunIsHonest(digest: string -> Digest, table: Table, w: World, turns: seq<Turn>, v: World)
    requires Leads(digest, w, turns, v) && Honest(digest, table, w)
    ensures Honest(digest, table, v)
    decreases |turns|
  {
    hide Honest, Enabled, Next;
    if turns != [] {
      NextIsHonest(digest, table, w, turns[0]);
      RunIsHonest(digest, table, Next(digest, w, turns[0].i, turns[0].m), turns[1..], v);
    }
  }

  lemma StartIsHonest(digest: string -> Digest, w: World)
    requires Initial(w)
    ensures Honest(digest, w.table, w)
  {
  }

  /** Over every run of all clients: a password is accepted exactly when its rounds give the hash
      the user was enrolled with. */
  lemma {:induction false} PasswordAcceptedIff(digest: string -> Digest, w: World, turns: seq<Turn>, v: World, k: nat)
    requires Initial(w) && Leads(digest, w, turns, v)
    requires k < |v.log| && v.log[k].Tried?
    ensures var e := v.log[k]; e.user in w.table && (e.accepted <==> Fits(digest, w.table, e.user, e.secret))
  {
    hide Leads, Initial, Fits, Earned, SameEnrolment;
    StartIsHonest(digest, w);
    RunIsHonest(digest, w.table, w, turns, v);
    assert TriedRightly(digest, w.table, v.log[k]);
  }

  /** And every ticket that is ever issued goes back to such a password of that user: it is the
      digest of the time at which it was entered and of the enrolled hash. */
  lemma {:induction false} TicketsAreEarned(digest: string -> Digest, w: World, turns: seq<Turn>, v: World, k: nat)
    requires Initial(w) && Leads(digest, w, turns, v)
    requires k < |v.log| && v.log[k].Issued?
    ensures exists j :: 0 <= j < k && EarnedBy(digest, w.table, v.log[j], v.log[k].user, v.log[k].ticket)
  {
    hide Leads, Initial, EarnedBy, SameEnrolment, TriedRightly;
    StartIsHonest(digest, w);
    RunIsHonest(digest, w.table, w, turns, v);
    assert Earned(digest, w.table, v.log, k, v.log[k].user, v.log[k].ticket);
  }

  // ----- Being let in

  /** The server works, or is about to work, for a user. */
  predicate In(c: Conn) {
    c.server.Storing? || c.server.Serving?
  }

  predicate AcceptedEvent(e: Event, user: string) {
    (e.Judged? || e.Tried?) && e.accepted && e.user == user
  }

  /** Nobody gets in but by a judgement, and what a judgement does to the connection is what goes
      on record: an accepted credential of the user the server then works for. */
  lemma InByJudgement(digest: string -> Digest, c: Conn, m: Move, table: Table, at: nat)
    requires Enabled(c, m) && !In(c)
    ensures var c' := Moved(digest, c, m, table, at); var es := Recorded(digest, c, m, table);
      In(c') <==> exists e :: e in es && (e.Judged? || e.Tried?) && e.accepted
    ensures var c' := Moved(digest, c, m, table, at); var es := Recorded(digest, c, m, table);
      In(c') ==> |es| == 1 && AcceptedEvent(es[0], c'.server.user)
  {
    hide AuthMessage.Parse, Salted, NewTicket, Classify, Single, Finished, Abandoned, Answer, Offered, AuthText;
    var es := Recorded(digest, c, m, table);
    assert es != [] ==> es[0] in es;
  }

  /** Client `i` has been refused on the way from `w` to `v`, and nothing else has happened. */
  ghost predicate RefusedIn(w: World, v: World, i: nat, command: string)
    requires i < |w.conns|
  {
    && i < |v.conns| && v.table == w.table && v.conns[i].file == Checked(w.conns[i].file)
    && v.conns[i].client == Over(false, false, command) && v.conns[i].server == Closed(Refused)
    && w.log <= v.log && forall k :: |w.log| <= k < |v.log| ==> v.log[k].Tried? && !v.log[k].accepted
  }

  /** A client that types a password that does not fit, or whose user is unknown, is refused, at
      once or in its retry: nothing is issued, and table and file stay. */
  lemma {:induction false} WrongPasswordRefused(digest: string -> Digest, w: World, i: nat, user: string, url: string,
                                                retry: bool,
                                                command: string, typed: string, now: int, fails: bool)
    requires i < |w.conns| && AboutToAsk(w.conns[i], user, url, retry, command) && Usable(w.conns[i].file)
    requires Free(user, ';') && (retry || Lookup(w.conns[i].file, url) == "")
    requires fails || user == "" || user !in w.table || !Fits(digest, w.table, user, Sha256(digest, typed))
    ensures var turns := [Turn(i, Asks(typed)), Turn(i, Judges(now, fails)), Turn(i, Hears)];
      exists v :: Leads(digest, w, turns, v) && RefusedIn(w, v, i, command)
  {
    hide Lookup, AuthText, AuthMessage.Parse, ClientAsk, ServerJudge, ClientHear, Judge, Single, Finished, Abandoned,
         AboutToAsk,
         Checked, Usable, Sha256, Fits, AppliedAll;
    StartsToAskPassword(w.conns[i], user, url, retry, command);
    RefusedSteps(digest, w.conns[i], user, url, retry, command, typed, w.table, now, fails);
    NothingRecorded(w.table);
    var c2 := ClientAsk(digest, w.conns[i], typed);
    var w2 := Next(digest, w, i, Asks(typed));
    assert w2.conns[i] == c2 && w2.table == w.table && w2.log == w.log;
    RefusalRecorded(digest, c2, w.table, now, fails);
    var w3 := Next(digest, w2, i, Judges(now, fails));
    var v := Next(digest, w3, i, Hears);
    assert Leads(digest, v, [], v);
    assert Leads(digest, w3, [Turn(i, Hears)], v);
    assert Leads(digest, w2, [Turn(i, Judges(now, fails)), Turn(i, Hears)], v);
    var es := Recorded(digest, c2, Judges(now, fails), w.table);
    assert v.log == w.log + es && forall k :: |w.log| <= k < |v.log| ==> v.log[k] == es[k - |w.log|];
    assert RefusedIn(w, v, i, command);
  }

  lemma StartsToAskPassword(c: Conn, user: string, url: string, retry: bool, command: string)
    requires AboutToAsk(c, user, url, retry, command)
    ensures c.client.ToAuthenticate?
  {
  }

  lemma RefusedSteps(digest: string -> Digest, c: Conn, user: string, url: string, retry: bool, command: string,
                     typed: string, table: Table, now: int, fails: bool)
    requires AboutToAsk(c, user, url, retry, command) && Usable(c.file)
    requires Free(user, ';') && (retry || Lookup(c.file, url) == "")
    requires fails || user == "" || user !in table || !Fits(digest, table, user, Sha256(digest, typed))
    ensures c.client.ToAuthenticate?
    ensures var c2 := ClientAsk(digest, c, typed);
      && c2.server.Listening? && c2.up != [] && Judge(digest, table, c2.up[0], now, fails) == Reject
      && !AuthMessage.Parse(c2.up[0]).isTicket && c2.file == Checked(c.file)
      && var c3 := ServerJudge(digest, c2, table, now, fails);
      && c3.client.AwaitVerdict? && c3.down != []
      && ClientHear(c3).client == Over(false, false, command) && ClientHear(c3).server == Closed(Refused)
      && ClientHear(c3).file == Checked(c.file)
  {
    hide Lookup, AuthText, AuthMessage.Parse, Judge, Checked, StoreTicket, FirstLine, AfterFirstLine, Usable, Sha256,
         Fits, Plain;
    HashShape(digest, typed);
    PlainIsSafe(Sha256(digest, typed));
    PasswordParsed(digest, user, typed);
    JudgeDecides(digest, table, user, Password(Sha256(digest, typed)), now, fails);
    FixedPackets();
    var c2 := ClientAsk(digest, c, typed);
    assert c2.up == [AuthText(user, Password(Sha256(digest, typed)))];
  }

  lemma {:induction false} RefusalRecorded(digest: string -> Digest, c: Conn, table: Table, now: int, fails: bool)
    requires c.server.Listening? && c.up != [] && Judge(digest, table, c.up[0], now, fails) == Reject
    ensures var es := Recorded(digest, c, Judges(now, fails), table);
      && |es| <= 1 && (forall e :: e in es ==> e.Tried? && !e.accepted) && AppliedAll(table, es) == table
  {
    hide AuthMessage.Parse, Judge;
    var es := Recorded(digest, c, Judges(now, fails), table);
    if es != [] {
      assert es == [es[0]] && es[..0] == [];
      assert AppliedAll(table, es) == Applied(AppliedAll(table, []), es[0]);
    }
  }
}
