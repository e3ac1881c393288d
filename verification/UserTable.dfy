/** The user table and the four queries the server makes of it. */
module UserTable {
  import opened Numbers
  import opened Statement

  datatype User = User(passwordHash: string, salt: string, iteration: int, ticket: Cell, ticketEnd: Cell)

  /** Rows by user name, which the schema makes unique. */
  type Table = map<string, User>

  const DAY := 24 * 3600

  function SetTicket(t: Table, username: string, ticket: string, end: int): Table {
    if username in t then t[username := t[username].(ticket := Text(ticket), ticketEnd := Integer(end))] else t
  }

  function ClearTicket(t: Table, username: string): Table {
    if username in t then t[username := t[username].(ticket := Null, ticketEnd := Null)] else t
  }

  class UserDb {
    var table: Table

    /** False exactly for an absent user or a failing step. */
    method GetUserPasswdFromDB(username: string, faults: seq<bool>)
      returns (found: bool, passwd: string, salt: string, iteration: int)
      ensures found <==> username in table && !(faults != [] && faults[0])
      ensures found ==> var u := table[username];
        passwd == u.passwordHash && salt == u.salt && iteration == ToInt32(u.iteration)
    {
      passwd, salt, iteration := "", "", 0;
      var rows := if username in table
                  then var u := table[username];
                       [[Text(u.passwordHash), Text(u.salt), Integer(u.iteration)]]
                  else [];
      var query := new Statement(["password_hash", "salt", "iteration"], rows, 0, faults);
      var stepped := query.ExecuteStep();
      if stepped.Exception? {
        return false, passwd, salt, iteration;
      }
      var cell := query.GetColumn(0);
      if cell.Exception? {
        return false, passwd, salt, iteration;
      }
      passwd := cell.value.AsString();
      cell := query.GetColumn(1);
      if cell.Exception? {
        return false, passwd, salt, iteration;
      }
      salt := cell.value.AsString();
      cell := query.GetColumn(2);
      if cell.Exception? {
        return false, passwd, salt, iteration;
      }
      iteration := cell.value.AsInt32();
      found := true;
    }

    /** A ticket that is NULL reads as the empty string, an end that is NULL as 0. */
    method GetUserTicketFromDB(username: string, faults: seq<bool>)
      returns (found: bool, ticket: string, endTime: int)
      ensures found <==> username in table && !(faults != [] && faults[0])
      ensures found ==> ticket == table[username].ticket.AsString() && endTime == table[username].ticketEnd.AsInt64()
      ensures found && table[username].ticket == Null ==> ticket == ""
      ensures found && table[username].ticket.Text? ==> table[username].ticket == Text(ticket)
      ensures found && table[username].ticketEnd == Null ==> endTime == 0
      ensures found && table[username].ticketEnd.Integer? ==> table[username].ticketEnd == Integer(endTime)
    {
      ticket, endTime := "", 0;
      var rows := if username in table then [[table[username].ticket, table[username].ticketEnd]] else [];
      var query := new Statement(["ticket", "ticket_end"], rows, 0, faults);
      var stepped := query.ExecuteStep();
      if stepped.Exception? {
        return false, ticket, endTime;
      }
      var cell := query.GetColumn(0);
      if cell.Exception? {
        return false, ticket, endTime;
      }
      ticket := cell.value.AsString();
      cell := query.GetColumn(1);
      if cell.Exception? {
        return false, ticket, endTime;
      }
      endTime := cell.value.AsInt64();
      found := true;
    }

    method ResetUserTicketDB(username: string, faults: seq<bool>) returns (ok: bool)
      modifies this
      ensures ok <==> username in old(table) && !(faults != [] && faults[0])
      ensures table == if ok then ClearTicket(old(table), username) else old(table)
    {
      ok := Update(username, Null, Null, faults);
    }

    /** The ticket is good for a day from `now`. */
    method UpdateUserTicketDB(username: string, ticket: string, now: int, faults: seq<bool>) returns (ok: bool)
      modifies this
      ensures ok <==> username in old(table) && !(faults != [] && faults[0])
      ensures table == if ok then SetTicket(old(table), username, ticket, now + 86400) else old(table)
    {
      ok := Update(username, Text(ticket), Integer(now + DAY), faults);
    }

    /** `UPDATE user SET ticket = ?, ticket_end = ? WHERE username = ?`, and whether
        `Execute` reported a changed row. A failing step changes nothing. */
    method Update(username: string, ticket: Cell, end: Cell, faults: seq<bool>) returns (ok: bool)
      modifies this
      ensures ok <==> username in old(table) && !(faults != [] && faults[0])
      ensures table == if ok then old(table)[username := old(table)[username].(ticket := ticket, ticketEnd := end)]
                       else old(table)
    {
      var matched := if username in table then 1 else 0;
      var query := new Statement([], [], matched, faults);
      var changes := query.Execute();
      if changes.Exception? {
        return false;
      }
      if username in table {
        table := table[username := table[username].(ticket := ticket, ticketEnd := end)];
      }
      ok := changes.value > 0;
    }
  }
}
