/** Which tickets the server accepts, told from its history alone. */
module Tickets {
  import opened Crypto
  import opened AuthMessage
  import opened Commands
  import opened Statement
  import opened UserTable
  import opened Conversation
  import opened Lockstep
  import opened World

  // ----- The table is its history

  lemma {:induction false} AppliedAllConcat(table: Table, a: seq<Event>, b: seq<Event>)
    ensures AppliedAll(table, a + b) == AppliedAll(AppliedAll(table, a), b)
    decreases |b|
  {
    hide Applied;
    if b == [] {
      assert a + b == a;
    } else {
      var n := |b| - 1;
      AppliedAllConcat(table, a, b[..n]);
      assert (a + b)[..|a + b| - 1] == a + b[..n];
    }
  }

  predicate Writes(e: Event, user: string) {
    (e.Issued? || e.Cleared?) && e.user == user
  }

  /** The ticket columns of a row. */
  datatype Columns = Columns(ticket: Cell, end: Cell)

  function ColumnsOf(table: Table, user: string): Columns
    requires user in table
  {
    Columns(table[user].ticket, table[user].ticketEnd)
  }

  /** What a writing event leaves in them. */
  function Written(e: Event): Columns {
    if e.Issued? then Columns(Text(e.ticket), Integer(e.at + DAY)) else Columns(Null, Null)
  }

  lemma AppliedColumns(table: Table, e: Event, user: string)
    requires user in table
    ensures user in Applied(table, e)
    ensures ColumnsOf(Applied(table, e), user) == if Writes(e, user) then Written(e) else ColumnsOf(table, user)
  {
  }

  /** Event `j` wrote the ticket columns of `user` last before event `k`; -1 if none did. */
  ghost predicate LastBefore(log: seq<Event>, j: int, k: int, user: string)
    requires 0 <= k <= |log|
  {
    -1 <= j < k && (j >= 0 ==> Writes(log[j], user)) && forall i :: j < i < k ==> !Writes(log[i], user)
  }

  /** A row holds what the last event about its user wrote, or what it started with. */
  lemma {:induction false} LastWriteRules(table: Table, log: seq<Event>, j: int, k: nat, user: string)
    requires user in table && k <= |log| && LastBefore(log, j, k, user)
    ensures user in AppliedAll(table, log[..k])
    ensures ColumnsOf(AppliedAll(table, log[..k]), user) == if j >= 0 then Written(log[j]) else ColumnsOf(table, user)
    decreases k
  {
    hide Applied, ColumnsOf, Written, Writes;
    if k > 0 {
      assert log[..k][..k - 1] == log[..k - 1] && log[..k][k - 1] == log[k - 1];
      KeysStay(table, log[..k - 1]);
      AppliedColumns(AppliedAll(table, log[..k - 1]), log[k - 1], user);
      if j < k - 1 {
        LastWriteRules(table, log, j, k - 1, user);
      }
    }
  }

  /** Every judgement on record is the one the table of its moment called for. */
  ghost predicate Truthful(table: Table, log: seq<Event>) {
    forall k :: 0 <= k < |log| && log[k].Judged? ==> JudgedRightly(AppliedAll(table, log[..k]), log[k])
  }

  ghost predicate JudgedRightly(then_: Table, e: Event)
    requires e.Judged?
  {
    && e.user in then_ && e.presented != ""
    && (e.accepted <==> then_[e.user].ticket.AsString() == e.presented && e.now < then_[e.user].ticketEnd.AsInt64())
  }

  lemma RecordedRightly(digest: string -> Digest, c: Conn, m: Move, table: Table)
    requires Enabled(c, m)
    ensures |Recorded(digest, c, m, table)| <= 1
    ensures forall e :: e in Recorded(digest, c, m, table) && e.Judged? ==> JudgedRightly(table, e)
  {
    hide AuthMessage.Parse, Salted, NewTicket, Classify, Single, Finished;
  }

  lemma {:induction false} NextKeepsHistory(digest: string -> Digest, w: World, i: nat, m: Move, table: Table)
    requires i < |w.conns| && Enabled(w.conns[i], m)
    requires w.table == AppliedAll(table, w.log) && Truthful(table, w.log)
    ensures var v := Next(digest, w, i, m); v.table == AppliedAll(table, v.log) && Truthful(table, v.log)
  {
    hide Enabled, Moved, Recorded, AppliedAll, JudgedRightly;
    var es := Recorded(digest, w.conns[i], m, w.table);
    AppliedAllConcat(table, w.log, es);
    RecordedRightly(digest, w.conns[i], m, w.table);
    var log := w.log + es;
    forall k | 0 <= k < |log| && log[k].Judged? ensures JudgedRightly(AppliedAll(table, log[..k]), log[k]) {
      if k < |w.log| {
        assert log[..k] == w.log[..k];
      } else {
        assert log[..k] == w.log && log[k] == es[0];
      }
    }
  }

  lemma {:induction false} RunKeepsHistory(digest: string -> Digest, w: World, turns: seq<Turn>, v: World, table: Table)
    requires Leads(digest, w, turns, v)
    requires w.table == AppliedAll(table, w.log) && Truthful(table, w.log)
    ensures v.table == AppliedAll(table, v.log) && Truthful(table, v.log)
    decreases |turns|
  {
    hide Enabled, Next, AppliedAll, Truthful;
    if turns != [] {
      NextKeepsHistory(digest, w, turns[0].i, turns[0].m, table);
      RunKeepsHistory(digest, Next(digest, w, turns[0].i, turns[0].m), turns[1..], v, table);
    }
  }

  lemma LastWriteExists(log: seq<Event>, k: nat, user: string) returns (j: int)
    requires k <= |log|
    ensures LastBefore(log, j, k, user)
  {
    hide Writes;
    j := k - 1;
    while j >= 0 && !Writes(log[j], user)
      invariant -1 <= j < k
      invariant forall i :: j < i < k ==> !Writes(log[i], user)
    {
      j := j - 1;
    }
  }

  lemma LastIsUnique(log: seq<Event>, i: int, j: int, k: nat, user: string)
    requires k <= |log| && LastBefore(log, i, k, user) && LastBefore(log, j, k, user)
    ensures i == j
  {
    hide Writes;
  }

  /** The ticket columns of event `k`'s user, when event `j` wrote them last. */
  function ColumnsAfter(table: Table, log: seq<Event>, j: int, user: string): Columns
    requires j < |log| && user in table
  {
    if j >= 0 then Written(log[j]) else ColumnsOf(table, user)
  }

  /** The presented ticket is the one in those columns, and its end has not come. */
  ghost predicate Valid(table: Table, log: seq<Event>, j: int, k: nat)
    requires k < |log| && log[k].Judged?
  {
    && LastBefore(log, j, k, log[k].user) && log[k].user in table
    && ColumnsAfter(table, log, j, log[k].user).ticket.AsString() == log[k].presented
    && log[k].now < ColumnsAfter(table, log, j, log[k].user).end.AsInt64()
  }

  lemma JudgedByLastWrite(table: Table, log: seq<Event>, k: nat)
    requires k < |log| && log[k].Judged? && Truthful(table, log)
    ensures log[k].accepted <==> exists j :: Valid(table, log, j, k)
  {
    var e := log[k];
    var row := AppliedAll(table, log[..k]);
    assert JudgedRightly(row, e);
    KeysStay(table, log[..k]);
    var j := LastWriteExists(log, k, e.user);
    LastWriteRules(table, log, j, k, e.user);
    hide AppliedAll, Writes, Truthful;
    forall i | LastBefore(log, i, k, e.user) ensures i == j {
      LastIsUnique(log, i, j, k, e.user);
    }
    assert e.accepted <==> Valid(table, log, j, k);
  }

  lemma StartTruthful(w: World)
    requires Initial(w)
    ensures w.table == AppliedAll(w.table, w.log) && Truthful(w.table, w.log)
  {
  }

  /** Whatever the table held at first: a ticket is accepted exactly when it is the one left
      by the last login or logout of its user before, or by nobody yet, and has not ended. */
  lemma {:induction false} TicketAccepted(digest: string -> Digest, w: World, turns: seq<Turn>, v: World, k: nat)
    requires Initial(w) && Leads(digest, w, turns, v)
    requires k < |v.log| && v.log[k].Judged?
    ensures v.log[k].presented != ""
    ensures v.log[k].accepted <==> exists j :: Valid(w.table, v.log, j, k)
  {
    StartTruthful(w);
    RunKeepsHistory(digest, w, turns, v, w.table);
    assert JudgedRightly(AppliedAll(w.table, v.log[..k]), v.log[k]);
    hide Leads, Initial, AppliedAll, Truthful;
    JudgedByLastWrite(w.table, v.log, k);
  }

  /** No ticket has been issued yet. */
  ghost predicate NoTickets(table: Table) {
    forall u :: u in table ==> ColumnsOf(table, u) == Columns(Null, Null)
  }

  /** The presented ticket is the last one issued to the user before event `k`, not reset
      since, and not a day old. */
  ghost predicate Current(log: seq<Event>, j: int, k: nat)
    requires k < |log| && log[k].Judged?
  {
    && 0 <= j && LastBefore(log, j, k, log[k].user)
    && log[j].Issued? && log[j].ticket == log[k].presented && log[k].now < log[j].at + 86400
  }

  /** From a table without tickets, over every interleaving of all clients' logins, logouts
      and clocks: a ticket login is accepted exactly when the presented ticket is the one
      issued by the user's latest password login, with no logout of the user after it, and
      less than a day old. */
  lemma {:induction false} TicketAcceptedIff(digest: string -> Digest, w: World, turns: seq<Turn>, v: World, k: nat)
    requires Initial(w) && Leads(digest, w, turns, v) && NoTickets(w.table)
    requires k < |v.log| && v.log[k].Judged?
    ensures v.log[k].accepted <==> exists j :: Current(v.log, j, k)
  {
    TicketAccepted(digest, w, turns, v, k);
    hide Leads, Initial, LastBefore;
    forall j ensures Valid(w.table, v.log, j, k) ==> Current(v.log, j, k) {
      ValidIsCurrent(w.table, v.log, j, k);
    }
    forall j ensures Current(v.log, j, k) ==> Valid(w.table, v.log, j, k) {
      StartTruthful(w);
      RunKeepsHistory(digest, w, turns, v, w.table);
      CurrentIsValid(w.table, v.log, j, k);
    }
  }

  lemma ValidIsCurrent(table: Table, log: seq<Event>, j: int, k: nat)
    requires k < |log| && log[k].Judged? && log[k].presented != "" && NoTickets(table)
    ensures Valid(table, log, j, k) ==> Current(log, j, k)
  {
  }

  lemma CurrentIsValid(table: Table, log: seq<Event>, j: int, k: nat)
    requires k < |log| && log[k].Judged? && Truthful(table, log)
    ensures Current(log, j, k) ==> Valid(table, log, j, k)
  {
    assert JudgedRightly(AppliedAll(table, log[..k]), log[k]);
    KeysStay(table, log[..k]);
  }
}
