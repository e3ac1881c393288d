/** Agreement and logins that outlast the conversation they began in. */
module Lasting {
  import opened Text
  import opened Crypto
  import opened AuthMessage
  import opened Session
  import opened Commands
  import opened Statement
  import opened UserTable
  import opened Conversation
  import opened Lockstep
  import opened World
  import opened Tickets
  import opened Stores
  import opened Agreement

  // ----- Staying logged in

  /** A client that is let in with its ticket `t` whenever it asks: it never gets to its retry,
      is never refused, and does not log out. */
  ghost predicate Holding(c: Conn, user: string, url: string, t: string) {
    && InStep(c) && Orderly(c.file) && c.user == user && c.url == url && Lookup(c.file, url) == t
    && match c.client
       case ToAuthenticate(retry, command) => !retry && !Classify(command).Logout?
       case AwaitVerdict(retry, ticket, command) =>
         && !retry && ticket == t && !Classify(command).Logout?
         && ((c.server == Listening(false) && c.up == [AuthText(user, Ticket(t))])
             || (c.server == Serving(user) && c.down == [OK]))
       case ToCommand(command) => !Classify(command).Logout?
       case AwaitReply(command) => !Classify(command).Logout?
       case Over(authenticated, _, _) => authenticated
  }

  /** The client begins as the same user with the same url and does not log out; its ticket is
      judged before the end and without a failing query. */
  predicate Steady(m: Move, user: string, url: string, end: int) {
    match m
    case Begins(u, l, command) => u == user && l == url && !Classify(command).Logout?
    case Judges(now, fails) => now < end && !fails
    case _ => true
  }

  lemma HeldTicketIsGood(digest: string -> Digest, table: Table, user: string, t: string, end: int, now: int)
    requires user != "" && Free(user, ';') && IsTicket(t) && user in table
    requires ColumnsOf(table, user) == Columns(Text(t), Integer(end)) && now < end
    ensures Judge(digest, table, AuthText(user, Ticket(t)), now, false) == TicketGood(user)
  {
    hide AuthText, AuthMessage.Parse, Plain, Salted;
    PlainIsSafe(t);
    MessageRoundTrip(user, Ticket(t));
  }

  /** Where a holding client's server is. */
  lemma HoldingPartner(c: Conn, user: string, url: string, t: string)
    requires Holding(c, user, url, t)
    ensures !c.server.Storing?
    ensures c.server.Listening? && c.up != [] ==> c.client.AwaitVerdict? && c.up == [AuthText(user, Ticket(t))] && c.down == []
    ensures c.server.Serving? && c.up != [] ==> Single(c.up[0]) && !Classify(c.up[0]).Logout?
    ensures c.server.Serving? && c.up != [] ==> c.client.AwaitReply? || c.client.Over?
  {
    CloseIsUnknown();
    hide Lookup, Orderly, Asked, Risky, Usable, Answer, Granted, AuthText, Classify;
  }

  lemma HoldingMoves(digest: string -> Digest, c: Conn, m: Move, table: Table, at: nat, user: string, url: string,
                     t: string, end: int)
    requires Holding(c, user, url, t) && Enabled(c, m) && Steady(m, user, url, end)
    requires user != "" && Free(user, ';') && IsTicket(t) && user in table
    requires ColumnsOf(table, user) == Columns(Text(t), Integer(end))
    ensures Holding(Moved(digest, c, m, table, at), user, url, t)
    ensures forall e :: e in Recorded(digest, c, m, table) ==> e.Judged?
  {
    hide InStep, Orderly, Lookup, Checked, AuthText, Judge, AuthMessage.Parse, FirstLine, AfterFirstLine, StoreTicket,
         Deleted, Answer,
         Classify, Single, Finished, Abandoned, Plain, Sha256, Usable;
    MoveKeepsStep(digest, c, m, table, at);
    HoldingPartner(c, user, url, t);
    match m {
      case Begins(_, _, _) =>
      case Asks(typed) =>
        OrderlyUsable(c.file);
        CheckedFile(c.file, url);
        CheckedOrderly(c.file);
        assert IsTicket(t) ==> t != "";
        assert ClientAsk(digest, c, typed).up == c.up + [AuthText(user, Ticket(t))];
        AskFresh(c);
      case Judges(now, fails) => HeldTicketIsGood(digest, table, user, t, end, now);
      case Hears =>
        FixedPackets();
        HearsOk(c, user, url, t);
      case Commands =>
      case Reads => LogoutIsLogout();
      case Stores(_, _) =>
      case Serves(_, _) =>
    }
  }

  lemma AskFresh(c: Conn)
    requires InStep(c) && c.client.ToAuthenticate?
    ensures c.up == [] && c.down == [] && c.server == Listening(c.client.retry)
  {
    hide Single, Lookup;
  }

  lemma HearsOk(c: Conn, user: string, url: string, t: string)
    requires Holding(c, user, url, t) && c.client.AwaitVerdict? && c.down != []
    ensures c.down == [OK] && c.server == Serving(user)
  {
    hide Orderly, Lookup, Risky, Usable, Granted, AuthText, Classify, Single, Asked;
  }

  /** No other client's move writes the user's ticket columns. */
  ghost predicate OthersLeave(digest: string -> Digest, w: World, turns: seq<Turn>, i: nat, user: string)
    decreases |turns|
  {
    if turns == [] then true
    else
      var t := turns[0];
      && t.i < |w.conns| && Enabled(w.conns[t.i], t.m)
      && (t.i != i ==> forall e :: e in Recorded(digest, w.conns[t.i], t.m, w.table) ==> !Writes(e, user))
      && OthersLeave(digest, Next(digest, w, t.i, t.m), turns[1..], i, user)
  }

  /** What a run keeps for a holding client. */
  ghost predicate Held(w: World, i: nat, user: string, url: string, t: string, end: int) {
    && i < |w.conns| && Holding(w.conns[i], user, url, t)
    && user in w.table && ColumnsOf(w.table, user) == Columns(Text(t), Integer(end))
  }

  lemma {:induction false} UnwrittenColumns(table: Table, es: seq<Event>, user: string)
    requires user in table && |es| <= 1 && forall e :: e in es ==> !Writes(e, user)
    ensures user in AppliedAll(table, es) && ColumnsOf(AppliedAll(table, es), user) == ColumnsOf(table, user)
  {
    if es != [] {
      assert es == [es[0]] && es[..0] == [] && es[0] in es;
      assert AppliedAll(table, es) == Applied(AppliedAll(table, []), es[0]);
      AppliedColumns(table, es[0], user);
    }
  }

  lemma NextHeld(digest: string -> Digest, w: World, i: nat, turn: Turn, user: string, url: string, t: string, end: int)
    requires Held(w, i, user, url, t, end) && user != "" && Free(user, ';') && IsTicket(t)
    requires turn.i < |w.conns| && Enabled(w.conns[turn.i], turn.m)
    requires turn.i == i ==> Steady(turn.m, user, url, end)
    requires turn.i != i ==> forall e :: e in Recorded(digest, w.conns[turn.i], turn.m, w.table) ==> !Writes(e, user)
    ensures var v := Next(digest, w, turn.i, turn.m);
      Held(v, i, user, url, t, end) && w.log <= v.log && forall k :: |w.log| <= k < |v.log| ==> !Writes(v.log[k], user)
  {
    hide Holding, Enabled, Moved, Recorded, AppliedAll, IsTicket, Steady, ColumnsOf;
    var c := w.conns[turn.i];
    var es := Recorded(digest, c, turn.m, w.table);
    RecordedRightly(digest, c, turn.m, w.table);
    if turn.i == i {
      HoldingMoves(digest, c, turn.m, w.table, |w.log|, user, url, t, end);
    }
    assert forall e :: e in es ==> !Writes(e, user);
    UnwrittenColumns(w.table, es, user);
    assert forall k :: 0 <= k < |es| ==> (w.log + es)[|w.log| + k] == es[k] && es[k] in es;
  }

  lemma {:induction false} RunHeld(digest: string -> Digest, w: World, turns: seq<Turn>, v: World, i: nat,
                                   user: string, url: string, t: string, end: int)
    requires Leads(digest, w, turns, v) && Held(w, i, user, url, t, end)
    requires user != "" && Free(user, ';') && IsTicket(t)
    requires forall u :: u in turns && u.i == i ==> Steady(u.m, user, url, end)
    requires OthersLeave(digest, w, turns, i, user)
    ensures Held(v, i, user, url, t, end) && w.log <= v.log
    ensures forall k :: |w.log| <= k < |v.log| ==> !Writes(v.log[k], user)
    decreases |turns|
  {
    hide Held, Enabled, Next, IsTicket, Steady, Writes;
    if turns != [] {
      assert turns[0] in turns && forall u :: u in turns[1..] ==> u in turns;
      var w' := Next(digest, w, turns[0].i, turns[0].m);
      NextHeld(digest, w, i, turns[0], user, url, t, end);
      RunHeld(digest, w', turns[1..], v, i, user, url, t, end);
      assert forall k :: 0 <= k < |w'.log| ==> v.log[k] == w'.log[k];
    }
  }

  /** The client was let in with a password, its user's row was not written since, and it is
      not about to log out. */
  ghost predicate LoggedIn(c: Conn, log: seq<Event>) {
    && Authenticated(c) && !LoggedOut(c) && c.issued >= 0 && Latest(log, c.issued, c.user) && log[c.issued].Issued?
    && (c.client.Over? || !Classify(c.client.command).Logout?)
  }

  lemma LoggedInHolds(c: Conn, log: seq<Event>)
    requires Good(c, log) && LoggedIn(c, log)
    ensures Holding(c, c.user, c.url, Lookup(c.file, c.url))
  {
    hide InStep, Orderly, Lookup, Keyed, Classify, Agrees;
  }

  /** No password is needed: before its authentication the client has the ticket to offer,
      during it it waits for a verdict on that, and after it it has not been refused. */
  ghost predicate InWithTicket(digest: string -> Digest, c: Conn, t: string) {
    match c.client
    case ToAuthenticate(retry, _) => forall typed :: Offered(digest, c.file, c.url, retry, typed) == Ticket(t)
    case AwaitVerdict(retry, ticket, _) => !retry && ticket == t
    case Over(authenticated, _, _) => authenticated
    case _ => true
  }

  lemma HoldingIsIn(digest: string -> Digest, c: Conn, user: string, url: string, t: string)
    requires Holding(c, user, url, t) && t != ""
    ensures InWithTicket(digest, c, t)
    ensures GoesOn(c) || (Finished(c) && c.client.authenticated)
  {
    hide InStep, Lookup, Usable, Classify, AuthText, Sha256, GoesOn, Risky, Single;
    OrderlyUsable(c.file);
    StuckOnlyIf(c);
    CanMoveGoesOn(c);
  }

  /** From the login on, through any number of conversations of this client as the same user
      with the same url, and whatever all other clients do as long as none logs in or out as
      that user: until a day after the login the client is let in with its ticket each time,
      never needs a password and is never refused; file and row keep holding that ticket. */
  lemma {:induction false} StaysLoggedIn(digest: string -> Digest, w: World, turns: seq<Turn>, v: World, i: nat,
                                         later: seq<Turn>, x: World)
    requires Initial(w) && Leads(digest, w, turns, v) && Careful(w, turns, i) && Clear(w, turns, i)
    requires i < |v.conns| && LoggedIn(v.conns[i], v.log) && Leads(digest, v, later, x)
    requires var c := v.conns[i];
      && (forall u :: u in later && u.i == i ==> Steady(u.m, c.user, c.url, v.log[c.issued].at + 86400))
      && OthersLeave(digest, v, later, i, c.user)
    ensures i < |x.conns|
    ensures var c, d := v.conns[i], x.conns[i]; var t := Lookup(c.file, c.url);
      && d.user == c.user && d.url == c.url && Lookup(d.file, d.url) == t
      && d.user in x.table && ColumnsOf(x.table, d.user) == Columns(Text(t), Integer(v.log[c.issued].at + 86400))
      && InWithTicket(digest, d, t) && (GoesOn(d) || (Finished(d) && d.client.authenticated))
    ensures v.log <= x.log && forall k :: |v.log| <= k < |x.log| ==> !Writes(x.log[k], v.conns[i].user)
  {
    hide Leads, Initial, Careful, Clear, Good, Named, Lookup, LastBefore, IsTicket, Holding, ColumnsOf, OthersLeave,
         Steady, Writes,
         GoesOn, InWithTicket, Finished, LastServed, Orderly, Classify;
    var c := v.conns[i];
    var t := Lookup(c.file, c.url);
    FileIsRow(digest, w, turns, v, i);
    CarefulIsGood(digest, w, turns, v, i);
    StillUnambiguous(digest, w, turns, v, i);
    NamedUser(c, v.log);
    LoggedInHolds(c, v.log);
    RunHeld(digest, v, later, x, i, c.user, c.url, t, v.log[c.issued].at + DAY);
    HeldMeans(x, i, c.user, c.url, t);
    TicketIsText(t);
    HoldingIsIn(digest, x.conns[i], c.user, c.url, t);
  }

  lemma TicketIsText(t: string)
    requires IsTicket(t)
    ensures t != ""
  {
  }

  lemma NamedUser(c: Conn, log: seq<Event>)
    requires Named(c, log) && c.issued >= 0
    ensures c.user != "" && Free(c.user, ';')
  {
    hide Lookup;
  }

  lemma HeldMeans(w: World, i: nat, user: string, url: string, t: string)
    requires i < |w.conns| && Holding(w.conns[i], user, url, t)
    ensures w.conns[i].user == user && w.conns[i].url == url && Lookup(w.conns[i].file, url) == t
  {
    hide InStep, Orderly, Lookup, Classify;
  }

  // ----- Agreement from one conversation to the next

  /** The client uses the url as this user only. */
  predicate SameUser(m: Move, user: string, url: string) {
    m.Begins? && m.url == url ==> m.user == user
  }

  /** What a conversation about the url still has to do to the file goes back to an event from
      place `from` of the history on. */
  predicate NothingOld(c: Conn, user: string, url: string, from: nat) {
    c.url == url ==>
      && c.user == user
      && (c.client.AwaitVerdict? && c.server.Serving? && c.issued >= 0 ==> from <= c.issued)
      && (c.client == AwaitReply("Logout") && c.server == Closed(Accepted) ==> from <= c.cleared)
  }

  ghost predicate NoWrites(log: seq<Event>, from: nat, user: string) {
    forall k :: from <= k < |log| ==> !Writes(log[k], user)
  }

  lemma NothingOldMoves(digest: string -> Digest, c: Conn, m: Move, table: Table, log: seq<Event>,
                        user: string, url: string, from: nat)
    requires Good(c, log) && Backed(c, table) && NothingOld(c, user, url, from) && from <= |log|
    requires Enabled(c, m) && SameUser(m, user, url) && !(m.Serves? && m.fails)
    ensures NothingOld(Moved(digest, c, m, table, |log|), user, url, from)
  {
    hide InStep, Lookup, Orderly, Keyed, Classify, Single, Finished, Abandoned, AuthMessage.Parse, Salted, NewTicket,
         Offered, AuthText,
         FirstLine, AfterFirstLine, StoreTicket, Deleted, Answer, Checked, IsTicket;
    Partner(c);
    RepliedBy(c);
    LogoutIsLogout();
    if m.Serves? {
      ServedCommand(c);
    }
  }

  /** As long as nothing is written, no move of the client changes what the file answers. */
  lemma FileUntouched(digest: string -> Digest, c: Conn, m: Move, table: Table, log: seq<Event>,
                      user: string, url: string, from: nat)
    requires Good(c, log) && Named(c, log) && NothingOld(c, user, url, from)
    requires Enabled(c, m) && NoWrites(log, from, user)
    ensures Lookup(Moved(digest, c, m, table, |log|).file, url) == Lookup(c.file, url)
  {
    hide InStep, Lookup, Orderly, Keyed, Classify, Single, Finished, Abandoned, AuthMessage.Parse, Salted, NewTicket,
         Offered, AuthText,
         FirstLine, AfterFirstLine, StoreTicket, Deleted, Answer, Checked, IsTicket, Unambiguous, Usable;
    match m {
      case Asks(_) => CheckedFile(c.file, url);
      case Hears =>
        Partner(c);
        OrderlyUsable(c.file);
        FixedPackets();
        if c.issued >= 0 && c.server.Serving? {
          TicketPacket(log[c.issued].ticket);
          StoredIsFound(c.file, c.url, c.client.ticket, log[c.issued].ticket);
        }
      case Reads =>
        RepliedBy(c);
        DeletedIsGone(c.file, c.url);
      case _ =>
    }
  }

  /** What a run without writes keeps. */
  ghost predicate Keeping(w: World, i: nat, user: string, url: string, t: string, from: nat) {
    && i < |w.conns| && from <= |w.log| && AllBacked(w) && Good(w.conns[i], w.log) && Named(w.conns[i], w.log)
    && NothingOld(w.conns[i], user, url, from) && Lookup(w.conns[i].file, url) == t
  }

  predicate Proper(m: Move, user: string, url: string) {
    KeyedUrl(m) && CleanName(m) && SameUser(m, user, url) && !(m.Serves? && m.fails)
  }

  lemma NextKeeping(digest: string -> Digest, w: World, i: nat, turn: Turn, user: string, url: string, t: string,
                    from: nat)
    requires Keeping(w, i, user, url, t, from) && turn.i < |w.conns| && Enabled(w.conns[turn.i], turn.m)
    requires turn.i == i ==> Proper(turn.m, user, url)
    requires NoWrites(w.log, from, user)
    ensures Keeping(Next(digest, w, turn.i, turn.m), i, user, url, t, from)
  {
    hide AllBacked, Good, Named, NothingOld, Enabled, Moved, Recorded, AppliedAll, KeyedUrl, CleanName, SameUser,
         NoWrites, Lookup;
    NextKeepsBacked(digest, w, turn.i, turn.m);
    NextKeepsGood(digest, w, i, turn.i, turn.m);
    NextKeepsNamed(digest, w, i, turn.i, turn.m);
    if turn.i == i {
      BackedOne(w, i);
      NothingOldMoves(digest, w.conns[i], turn.m, w.table, w.log, user, url, from);
      FileUntouched(digest, w.conns[i], turn.m, w.table, w.log, user, url, from);
    }
  }

  lemma BackedOne(w: World, i: nat)
    requires AllBacked(w) && i < |w.conns|
    ensures Backed(w.conns[i], w.table)
  {
  }

  lemma {:induction false} LogGrows(digest: string -> Digest, w: World, turns: seq<Turn>, v: World)
    requires Leads(digest, w, turns, v)
    ensures w.log <= v.log
    decreases |turns|
  {
    hide Enabled, Moved, Recorded, AppliedAll;
    if turns != [] {
      LogGrows(digest, Next(digest, w, turns[0].i, turns[0].m), turns[1..], v);
    }
  }

  lemma {:induction false} RunKeeping(digest: string -> Digest, w: World, turns: seq<Turn>, v: World, i: nat,
                                      user: string, url: string, t: string, from: nat)
    requires Leads(digest, w, turns, v) && Keeping(w, i, user, url, t, from)
    requires forall u :: u in turns && u.i == i ==> Proper(u.m, user, url)
    requires NoWrites(v.log, from, user)
    ensures Keeping(v, i, user, url, t, from)
    decreases |turns|
  {
    hide Keeping, Enabled, Next, Proper, Writes;
    if turns != [] {
      assert turns[0] in turns && forall u :: u in turns[1..] ==> u in turns;
      LogGrows(digest, w, turns, v);
      assert NoWrites(w.log, from, user);
      NextKeeping(digest, w, i, turns[0], user, url, t, from);
      RunKeeping(digest, Next(digest, w, turns[0].i, turns[0].m), turns[1..], v, i, user, url, t, from);
    }
  }

  /** The place of the event that file and row go back to: the login, or the logout. */
  ghost predicate Settled(c: Conn, log: seq<Event>, k: int) {
    && Latest(log, k, c.user)
    && ((Authenticated(c) && !LoggedOut(c) && c.issued == k) || (LoggedOut(c) && c.cleared == k))
  }

  lemma SettledNothingOld(c: Conn, log: seq<Event>, k: int)
    requires Good(c, log) && Named(c, log) && ResetKnown(c, true) && Settled(c, log, k)
    ensures NothingOld(c, c.user, c.url, |log|)
  {
    hide InStep, Lookup, Orderly, Keyed, Unambiguous, IsTicket;
  }

  /** Nothing written since: what was written last is what it was. */
  lemma StillLatest(log: seq<Event>, more: seq<Event>, k: int, user: string)
    requires log <= more && Latest(log, k, user) && NoWrites(more, |log|, user)
    ensures Latest(more, k, user) && more[k] == log[k]
  {
    hide Writes;
    forall j | k < j < |more| ensures !Writes(more[j], user) {
      if j < |log| {
        assert more[j] == log[j];
      }
    }
  }

  /** Agreement does not end with the conversation: over every continuation of a run, with any
      conversations of this client in between, also as other users with other urls, with any
      clocks, typed passwords, failing queries and failing ticket updates, but no failing reset,
      file and row keep saying the same until somebody logs in or out as the user. */
  lemma {:induction false} AgreementLasts(digest: string -> Digest, w: World, turns: seq<Turn>, v: World, i: nat,
                                          k: int,
                                          later: seq<Turn>, x: World)
    requires Initial(w) && Leads(digest, w, turns, v) && Careful(w, turns, i) && Clear(w, turns, i) && LastServed(turns, i)
    requires i < |v.conns| && Settled(v.conns[i], v.log, k) && Leads(digest, v, later, x)
    requires var c := v.conns[i];
      && (forall u :: u in later && u.i == i ==> Proper(u.m, c.user, c.url))
      && NoWrites(x.log, |v.log|, c.user)
    ensures i < |x.conns|
    ensures var c := v.conns[i]; var file := x.conns[i].file;
      && Lookup(file, c.url) == Lookup(c.file, c.url)
      && c.user in v.table && c.user in x.table && ColumnsOf(x.table, c.user) == ColumnsOf(v.table, c.user)
      && ColumnsOf(x.table, c.user).ticket.AsString() == Lookup(file, c.url)
  {
    hide Leads, Initial, Careful, Clear, Good, Named, Lookup, LastBefore, IsTicket, ColumnsOf, Proper, NoWrites,
         Orderly, Keeping,
         AllInStep, AllBacked, AppliedAll, Truthful, ResetKnown, LastServed, NothingOld;
    var c := v.conns[i];
    RowAt(digest, w, turns, v, i, k);
    StillUnambiguous(digest, w, turns, v, i);
    CarefulIsGood(digest, w, turns, v, i);
    CarefulIndex(w, turns, i);
    InitialRest(w, i);
    RunKeepsReset(digest, w, turns, v, i, true);
    SettledNothingOld(c, v.log, k);
    RunFaults(digest, w, turns, v, i);
    StartKeeping(v, i);
    RunKeeping(digest, v, later, x, i, c.user, c.url, Lookup(c.file, c.url), |v.log|);
    KeepingMeans(x, i, c.user, c.url, Lookup(c.file, c.url), |v.log|);
    LogGrows(digest, v, later, x);
    StillLatest(v.log, x.log, k, c.user);
    LeadsConcat(digest, w, turns, v, later, x);
    RowWritten(digest, w, turns, v, k, c.user);
    RowWritten(digest, w, turns + later, x, k, c.user);
  }

  lemma StartKeeping(v: World, i: nat)
    requires i < |v.conns| && AllBacked(v) && Good(v.conns[i], v.log) && Named(v.conns[i], v.log)
    requires NothingOld(v.conns[i], v.conns[i].user, v.conns[i].url, |v.log|)
    ensures var c := v.conns[i]; Keeping(v, i, c.user, c.url, Lookup(c.file, c.url), |v.log|)
  {
    hide AllBacked, Good, Named, NothingOld, Lookup;
  }

  lemma CarefulIndex(w: World, turns: seq<Turn>, i: nat)
    requires Careful(w, turns, i)
    ensures i < |w.conns|
  {
  }

  lemma KeepingMeans(w: World, i: nat, user: string, url: string, t: string, from: nat)
    requires Keeping(w, i, user, url, t, from)
    ensures i < |w.conns| && Lookup(w.conns[i].file, url) == t
  {
  }

  /** The row at the end of a run, from the last event that wrote it. */
  lemma {:induction false} RowWritten(digest: string -> Digest, w: World, turns: seq<Turn>, v: World, k: int,
                                      user: string)
    requires Initial(w) && Leads(digest, w, turns, v) && Latest(v.log, k, user)
    ensures user in v.table && ColumnsOf(v.table, user) == Written(v.log[k])
  {
    hide Leads, AppliedAll, Truthful, ColumnsOf, Written;
    InitialKnown(w);
    RunKnows(digest, w, turns, v);
    StartTruthful(w);
    RunKeepsHistory(digest, w, turns, v, w.table);
    LatestWrites(v.log, k, user);
    AtTheEnd(w.table, v.table, v.log, k);
  }

  lemma LatestWrites(log: seq<Event>, k: int, user: string)
    requires Latest(log, k, user)
    ensures log[k].user == user && LastBefore(log, k, |log|, log[k].user)
  {
  }

  lemma InitialKnown(w: World)
    requires Initial(w)
    ensures Known(w.table, w.log)
  {
  }

  /** The row and the file where the agreement starts. */
  lemma {:induction false} RowAt(digest: string -> Digest, w: World, turns: seq<Turn>, v: World, i: nat, k: int)
    requires Initial(w) && Leads(digest, w, turns, v) && Careful(w, turns, i) && Clear(w, turns, i) && LastServed(turns, i)
    requires i < |v.conns| && Settled(v.conns[i], v.log, k)
    ensures var c := v.conns[i];
      c.user in v.table && ColumnsOf(v.table, c.user).ticket.AsString() == Lookup(c.file, c.url)
  {
    hide Leads, Initial, Careful, Clear, Lookup, LastBefore, IsTicket, LastServed;
    FileIsRow(digest, w, turns, v, i);
  }
}
