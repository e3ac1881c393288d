/** Many clients, each with its own session file, against one server and its user table;
    every interleaving of their steps, with clocks, typed passwords and failing updates
    chosen freely. */
module World {
  import opened Text
  import opened Crypto
  import opened AuthMessage
  import opened Session
  import opened Commands
  import opened UserTable
  import opened Conversation
  import opened Lockstep

  /** What the server has done to the tickets, and what it has decided about them. */
  datatype Event =
    | Issued(user: string, ticket: string, at: int)
    | Cleared(user: string)
    | Judged(user: string, presented: string, now: int, accepted: bool)
    | Tried(user: string, secret: string, now: int, accepted: bool)

  datatype World = World(table: Table, conns: seq<Conn>, log: seq<Event>)

  datatype Move =
    | Begins(user: string, url: string, command: string)
    | Asks(typed: string)
    | Hears
    | Commands
    | Reads
    | Judges(now: int, fails: bool)
    | Stores(now: int, fails: bool)
    | Serves(info: string, fails: bool)

  /** The conversation is stuck for good: the ticket update failed and the client has to be
      stopped, or the client has given up while the server waits on. */
  predicate Abandoned(c: Conn) {
    Quiet(c) && ((c.client.AwaitVerdict? && c.server == Closed(Faulted)) || (GaveUp(c) && c.server == Listening(true)))
  }

  /** A client begins again when its conversation is done or stuck; it then gets a fresh
      connection and keeps its file. */
  ghost predicate Enabled(c: Conn, m: Move) {
    match m
    case Begins(_, _, command) => (Finished(c) || Abandoned(c)) && Single(command)
    case Asks(_) => c.client.ToAuthenticate?
    case Hears => c.client.AwaitVerdict? && c.down != []
    case Commands => c.client.ToCommand?
    case Reads => c.client.AwaitReply? && c.down != []
    case Judges(_, _) => c.server.Listening? && c.up != []
    case Stores(_, _) => c.server.Storing?
    case Serves(_, _) => c.server.Serving? && c.up != [] && Single(c.up[0])
  }

  /** One side of one connection moves. */
  function Moved(digest: string -> Digest, c: Conn, m: Move, table: Table, at: nat): Conn
    requires Enabled(c, m)
  {
    match m
    case Begins(user, url, command) => Begin(c, user, url, command)
    case Asks(typed) => ClientAsk(digest, c, typed)
    case Hears => ClientHear(c)
    case Commands => ClientCommand(c)
    case Reads => ClientReply(c)
    case Judges(now, fails) => ServerJudge(digest, c, table, now, fails)
    case Stores(_, fails) => ServerStore(c, c.server.user in table && !fails, at)
    case Serves(info, fails) => ServerServe(c, info, c.server.user in table && !fails, at)
  }

  /** A password is compared with the row's. */
  predicate Weighed(table: Table, offered: Credential, fails: bool) {
    offered.username != "" && offered.username in table && !fails && !offered.isTicket
  }

  /** What the move does to the table or decides about a credential, as an event. */
  function Recorded(digest: string -> Digest, c: Conn, m: Move, table: Table): seq<Event>
    requires Enabled(c, m)
  {
    match m
    case Judges(now, fails) =>
      var offered := AuthMessage.Parse(c.up[0]);
      var j := Judge(digest, table, c.up[0], now, fails);
      if j.TicketGood? || j.TicketBad? then [Judged(offered.username, offered.secret, now, j.TicketGood?)]
      else if Weighed(table, offered, fails) then [Tried(offered.username, offered.secret, now, j.PasswordGood?)]
      else []
    case Stores(now, fails) =>
      if c.server.user in table && !fails then [Issued(c.server.user, c.server.ticket, now)] else []
    case Serves(_, fails) =>
      if Classify(c.up[0]).Logout? && c.server.user in table && !fails then [Cleared(c.server.user)] else []
    case _ => []
  }

  function Applied(table: Table, e: Event): Table {
    match e
    case Issued(u, t, at) => SetTicket(table, u, t, at + DAY)
    case Cleared(u) => ClearTicket(table, u)
    case _ => table
  }

  function AppliedAll(table: Table, es: seq<Event>): Table {
    if es == [] then table else Applied(AppliedAll(table, es[..|es| - 1]), es[|es| - 1])
  }

  function Next(digest: string -> Digest, w: World, i: nat, m: Move): World
    requires i < |w.conns| && Enabled(w.conns[i], m)
  {
    var c := w.conns[i];
    var es := Recorded(digest, c, m, w.table);
    World(AppliedAll(w.table, es), w.conns[i := Moved(digest, c, m, w.table, |w.log|)], w.log + es)
  }

  /** A move of one connection, named by its place. */
  datatype Turn = Turn(i: nat, m: Move)

  ghost predicate Leads(digest: string -> Digest, w: World, turns: seq<Turn>, v: World)
    decreases |turns|
  {
    if turns == [] then w == v
    else
      var t := turns[0];
      t.i < |w.conns| && Enabled(w.conns[t.i], t.m) && Leads(digest, Next(digest, w, t.i, t.m), turns[1..], v)
  }

  /** Nothing has happened yet: everybody is done, the server's history is empty. */
  ghost predicate Initial(w: World) {
    w.log == [] && forall i :: 0 <= i < |w.conns| ==>
      GaveUp(w.conns[i]) && w.conns[i].server == Closed(Refused) && Quiet(w.conns[i])
      && w.conns[i].issued == -1 && w.conns[i].cleared == -1
  }

  // ----- Lockstep for all of them

  ghost predicate AllInStep(w: World) {
    forall i :: 0 <= i < |w.conns| ==> InStep(w.conns[i])
  }

  lemma MoveKeepsStep(digest: string -> Digest, c: Conn, m: Move, table: Table, at: nat)
    requires InStep(c) && Enabled(c, m)
    ensures InStep(Moved(digest, c, m, table, at))
    ensures m.Begins? || Rank(Moved(digest, c, m, table, at)) < Rank(c)
    ensures m.Begins? ==> Rank(Moved(digest, c, m, table, at)) == 10
  {
    hide InStep, Finished, ClientAsk, ClientHear, ClientCommand, ClientReply, ServerJudge, ServerStore, ServerServe,
         Begin, Rank, Single;
    RankFalls(digest, c, m, table, at);
    match m
    case Begins(user, url, command) => BeginInStep(c, user, url, command);
    case Asks(typed) => AskKeeps(digest, c, typed);
    case Hears => HearKeeps(c);
    case Commands => CommandKeeps(c);
    case Reads => ReplyKeeps(c);
    case Judges(now, fails) => JudgeKeeps(digest, c, table, now, fails);
    case Stores(_, fails) => StoreKeeps(c, c.server.user in table && !fails, at);
    case Serves(info, fails) => ServeKeeps(c, info, c.server.user in table && !fails, at);
  }

  lemma BeginInStep(c: Conn, user: string, url: string, command: string)
    requires Single(command)
    ensures InStep(Begin(c, user, url, command))
  {
    hide Single, Lookup;
  }

  /** A conversation has at most ten steps. */
  lemma RankFalls(digest: string -> Digest, c: Conn, m: Move, table: Table, at: nat)
    requires InStep(c) && Enabled(c, m)
    ensures m.Begins? || Rank(Moved(digest, c, m, table, at)) < Rank(c)
    ensures m.Begins? ==> Rank(Moved(digest, c, m, table, at)) == 10
  {
    hide Lookup, Single, Asked, Risky, Usable, Judge, FirstLine, AfterFirstLine, Answer, Classify, Granted, IsTicket;
  }

  lemma NextKeepsStep(digest: string -> Digest, w: World, i: nat, m: Move)
    requires AllInStep(w) && i < |w.conns| && Enabled(w.conns[i], m)
    ensures AllInStep(Next(digest, w, i, m))
  {
    hide InStep, Enabled, Moved, Recorded, AppliedAll;
    MoveKeepsStep(digest, w.conns[i], m, w.table, |w.log|);
  }

  lemma {:induction false} RunKeepsStep(digest: string -> Digest, w: World, turns: seq<Turn>, v: World)
    requires AllInStep(w) && Leads(digest, w, turns, v)
    ensures AllInStep(v)
    decreases |turns|
  {
    hide AllInStep, Next, Enabled;
    if turns != [] {
      NextKeepsStep(digest, w, turns[0].i, turns[0].m);
      RunKeepsStep(digest, Next(digest, w, turns[0].i, turns[0].m), turns[1..], v);
    }
  }

  lemma InitialInStep(w: World)
    requires Initial(w)
    ensures AllInStep(w)
  {
  }

  /** One run after the other. */
  lemma {:induction false} LeadsConcat(digest: string -> Digest, w: World, a: seq<Turn>, u: World, b: seq<Turn>,
                                       v: World)
    requires Leads(digest, w, a, u) && Leads(digest, u, b, v)
    ensures Leads(digest, w, a + b, v)
    decreases |a|
  {
    hide Enabled, Next;
    if a == [] {
      assert a + b == b;
    } else {
      assert (a + b)[0] == a[0] && (a + b)[1..] == a[1..] + b;
      LeadsConcat(digest, Next(digest, w, a[0].i, a[0].m), a[1..], u, b, v);
    }
  }

  // ----- The users a server thread works for are in the table

  lemma {:induction false} KeysStay(table: Table, es: seq<Event>)
    ensures AppliedAll(table, es).Keys == table.Keys
    decreases |es|
  {
    if es != [] {
      KeysStay(table, es[..|es| - 1]);
    }
  }

  /** A user who was let in, or is about to be, is a named row of the table. */
  predicate Backed(c: Conn, table: Table) {
    c.server.Storing? || c.server.Serving? ==> c.server.user != "" && c.server.user in table
  }

  ghost predicate AllBacked(w: World) {
    forall i :: 0 <= i < |w.conns| ==> Backed(w.conns[i], w.table)
  }

  lemma MoveKeepsBacked(digest: string -> Digest, c: Conn, m: Move, table: Table, at: nat)
    requires Backed(c, table) && Enabled(c, m)
    ensures Backed(Moved(digest, c, m, table, at), table)
  {
    hide AuthMessage.Parse, Salted, NewTicket, Classify, Single, Finished, Answer, Offered, AuthText;
  }

  lemma NextKeepsBacked(digest: string -> Digest, w: World, i: nat, m: Move)
    requires AllBacked(w) && i < |w.conns| && Enabled(w.conns[i], m)
    ensures AllBacked(Next(digest, w, i, m)) && Next(digest, w, i, m).table.Keys == w.table.Keys
  {
    hide Enabled, Moved, Recorded, AppliedAll;
    MoveKeepsBacked(digest, w.conns[i], m, w.table, |w.log|);
    KeysStay(w.table, Recorded(digest, w.conns[i], m, w.table));
  }

  // ----- When the ticket update fails

  /** What turn `t` does to the question whether the ticket update of client `i`'s present
      conversation has failed. */
  predicate UpdateFailing(t: Turn, i: nat, failed: bool) {
    if t.i == i && t.m.Stores? then t.m.fails else if t.i == i && t.m.Begins? then false else failed
  }

  /** The engine failed the ticket update of client `i`'s latest conversation. */
  predicate UpdateFailed(turns: seq<Turn>, i: nat, failed: bool := false)
    decreases |turns|
  {
    if turns == [] then failed else UpdateFailed(turns[1..], i, UpdateFailing(turns[0], i, failed))
  }

  lemma MoveFaults(digest: string -> Digest, c: Conn, m: Move, table: Table, at: nat)
    requires InStep(c) && Backed(c, table) && Enabled(c, m)
    ensures c.server == Closed(Faulted) ==> m.Begins?
    ensures Moved(digest, c, m, table, at).server == Closed(Faulted) <==> m.Stores? && m.fails
  {
    hide Lookup, Asked, Risky, Usable, Judge, FirstLine, AfterFirstLine, Answer, Classify, Granted, IsTicket, Single;
  }

  lemma NextFaults(digest: string -> Digest, w: World, t: Turn, i: nat)
    requires AllInStep(w) && AllBacked(w) && i < |w.conns| && t.i < |w.conns| && Enabled(w.conns[t.i], t.m)
    ensures var v := Next(digest, w, t.i, t.m);
      v.conns[i].server == Closed(Faulted) <==> UpdateFailing(t, i, w.conns[i].server == Closed(Faulted))
  {
    hide InStep, Enabled, Moved, Recorded, AppliedAll, Backed;
    MoveFaults(digest, w.conns[t.i], t.m, w.table, |w.log|);
  }

  lemma {:induction false} RunFaults(digest: string -> Digest, w: World, turns: seq<Turn>, v: World, i: nat)
    requires AllInStep(w) && AllBacked(w) && i < |w.conns| && Leads(digest, w, turns, v)
    ensures i < |v.conns| && AllBacked(v) && v.table.Keys == w.table.Keys
    ensures v.conns[i].server == Closed(Faulted) <==> UpdateFailed(turns, i, w.conns[i].server == Closed(Faulted))
    decreases |turns|
  {
    hide AllInStep, AllBacked, Next, Enabled, UpdateFailing;
    if turns != [] {
      var w' := Next(digest, w, turns[0].i, turns[0].m);
      NextKeepsStep(digest, w, turns[0].i, turns[0].m);
      NextKeepsBacked(digest, w, turns[0].i, turns[0].m);
      NextFaults(digest, w, turns[0], i);
      SameClients(digest, w, turns[0].i, turns[0].m);
      RunFaults(digest, w', turns[1..], v, i);
    }
  }

  lemma SameClients(digest: string -> Digest, w: World, i: nat, m: Move)
    requires i < |w.conns| && Enabled(w.conns[i], m)
    ensures |Next(digest, w, i, m).conns| == |w.conns|
  {
    hide Enabled, Moved, Recorded, AppliedAll;
  }

  lemma {:induction false} RunKeepsClients(digest: string -> Digest, w: World, turns: seq<Turn>, v: World)
    requires Leads(digest, w, turns, v)
    ensures |v.conns| == |w.conns|
    decreases |turns|
  {
    hide Enabled, Next;
    if turns != [] {
      SameClients(digest, w, turns[0].i, turns[0].m);
      RunKeepsClients(digest, Next(digest, w, turns[0].i, turns[0].m), turns[1..], v);
    }
  }

  /** A password match implies that the row exists, so the ticket update that has to come
      before the answer finds it: over every run the server thread ends without an answer
      exactly when the engine failed that very update. */
  lemma {:induction false} FaultedIff(digest: string -> Digest, w: World, turns: seq<Turn>, v: World, i: nat)
    requires Initial(w) && Leads(digest, w, turns, v) && i < |v.conns|
    ensures v.conns[i].server == Closed(Faulted) <==> UpdateFailed(turns, i)
    ensures v.conns[i].server.Storing? || v.conns[i].server.Serving? ==> v.conns[i].server.user in v.table
  {
    InitialInStep(w);
    RunKeepsClients(digest, w, turns, v);
    assert AllBacked(w);
    RunFaults(digest, w, turns, v, i);
    hide Leads, Initial, InStep;
  }

  // ----- Progress

  /** One of the two sides can take a step of the conversation. */
  ghost predicate GoesOn(c: Conn) {
    exists m: Move :: !m.Begins? && Enabled(c, m)
  }

  lemma CanMoveGoesOn(c: Conn)
    requires InStep(c)
    ensures GoesOn(c) <==> CanMove(c)
  {
    hide InStep, Single, Finished, Answer, Classify;
    if c.server.Serving? && c.up != [] {
      ServeKeeps(c, "", false, 0);
    }
    if CanMove(c) {
      var m := if c.client.ToAuthenticate? then Asks("")
               else if c.client.ToCommand? then Commands
               else if c.client.AwaitVerdict? && c.down != [] then Hears
               else if c.client.AwaitReply? && c.down != [] then Reads
               else if c.server.Listening? && c.up != [] then Judges(0, false)
               else if c.server.Storing? then Stores(0, false)
               else Serves("", false);
      assert !m.Begins? && Enabled(c, m);
    }
  }

  /** From any table, with any number of clients and any interleaving: a conversation that
      cannot go on is done on both sides with the same verdict, unless the engine failed the
      ticket update or a risky user name met a client without a session file. */
  lemma {:induction false} NoDeadlock(digest: string -> Digest, w: World, turns: seq<Turn>, v: World, i: nat)
    requires Initial(w) && Leads(digest, w, turns, v) && i < |v.conns|
    ensures var c := v.conns[i];
      GoesOn(c) || Finished(c)
      || (Abandoned(c) && if c.server == Closed(Faulted) then UpdateFailed(turns, i) else LeftListening(c))
  {
    InitialInStep(w);
    RunKeepsStep(digest, w, turns, v);
    StuckOnlyIf(v.conns[i]);
    CanMoveGoesOn(v.conns[i]);
    FaultedIff(digest, w, turns, v, i);
    hide InStep, CanMove, GoesOn, Finished, LeftListening, Leads, Initial, UpdateFailed;
  }

  /** With engine and names in order every conversation that cannot go on is done, and both
      sides hold the same verdict. */
  lemma {:induction false} CleanRunsFinish(digest: string -> Digest, w: World, turns: seq<Turn>, v: World, i: nat)
    requires Initial(w) && Leads(digest, w, turns, v) && i < |v.conns|
    requires !UpdateFailed(turns, i)
    requires Free(v.conns[i].user, ';') || Usable(v.conns[i].file)
    ensures GoesOn(v.conns[i]) || Finished(v.conns[i])
  {
    NoDeadlock(digest, w, turns, v, i);
    if Free(v.conns[i].user, ';') {
      CleanNameNotRisky(v.conns[i].user);
    }
    hide Leads, Initial, GoesOn, Finished, Risky;
  }
}
