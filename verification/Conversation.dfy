/** One `SendCommand` conversation: authentication with its one retry, a command, and the
    end, over two FIFO channels of packets. Each function is one step of one side. */
module Conversation {
  import opened Text
  import opened Numbers
  import opened Crypto
  import opened AuthMessage
  import opened Session
  import opened Commands
  import opened UserTable

  const OK := "OK\n"
  const REFUSAL := "ERROR\n"
  const INVALID := "ERROR\nTicket Invalid"

  /** Where the client is. `ticket` is what it found in its session file. */
  datatype Client =
    | ToAuthenticate(retry: bool, command: string)
    | AwaitVerdict(retry: bool, ticket: string, command: string)
    | ToCommand(command: string)
    | AwaitReply(command: string)
    | Over(authenticated: bool, ok: bool, command: string)

  datatype Verdict = Accepted | Refused | Faulted

  /** Where the server's thread is: in one of its two `ReceivePacket` calls, between the
      password check and the ticket update, or done. */
  datatype Server =
    | Listening(retry: bool)
    | Storing(user: string, ticket: string)
    | Serving(user: string)
    | Closed(verdict: Verdict)

  /** `issued` and `cleared` are the places in the server's history where this conversation
      was issued a ticket and had one reset, or -1. */
  datatype Conn = Conn(user: string, url: string, client: Client, server: Server,
                       up: seq<string>, down: seq<string>, file: File, issued: int, cleared: int)

  /** A new conversation of the same client, possibly as another user or with another url;
      what stays is the session file. */
  function Begin(c: Conn, user: string, url: string, command: string): Conn {
    Conn(user, url, ToAuthenticate(false, command), Listening(false), [], [], c.file, -1, -1)
  }

  // ----- The client

  /** What the client has to offer: its ticket the first time, a password otherwise, and
      nothing at all when there is no session file and none can be made. */
  function Offered(digest: string -> Digest, f: File, url: string, retry: bool, typed: string): Offer {
    if !Usable(f) then Nothing
    else if Lookup(f, url) != "" && !retry then Ticket(Lookup(f, url))
    else Password(Sha256(digest, typed))
  }

  function ClientAsk(digest: string -> Digest, c: Conn, typed: string): Conn
    requires c.client.ToAuthenticate?
  {
    var r := c.client.retry;
    c.(client := AwaitVerdict(r, if Usable(c.file) then Lookup(c.file, c.url) else "", c.client.command),
       file := Checked(c.file),
       up := c.up + [AuthText(c.user, Offered(digest, c.file, c.url, r, typed))])
  }

  function StoreTicket(f: File, url: string, ticket: string, newTicket: string): File {
    if ticket != newTicket && ticket != "" then Changed(f, newTicket, url) else Saved(f, newTicket, url)
  }

  function ClientHear(c: Conn): Conn
    requires c.client.AwaitVerdict? && c.down != []
  {
    var AwaitVerdict(retry, ticket, command) := c.client;
    var result := c.down[0];
    var heard := c.(down := c.down[1..]);
    if FirstLine(result) == "OK" then
      heard.(client := ToCommand(command),
             file := if result != OK then StoreTicket(c.file, c.url, ticket, AfterFirstLine(result)) else c.file)
    else if FirstLine(result) == "ERROR" && ticket != "" && !retry && AfterFirstLine(result) == "Ticket Invalid" then
      heard.(client := ToAuthenticate(true, command))
    else heard.(client := Over(false, false, command))
  }

  function ClientCommand(c: Conn): Conn
    requires c.client.ToCommand?
  {
    var command := c.client.command;
    c.(client := if command == "Close" then Over(true, true, command) else AwaitReply(command), up := c.up + [command])
  }

  /** The reply; a logout that succeeded also drops the ticket from the session file. */
  function ClientReply(c: Conn): Conn
    requires c.client.AwaitReply? && c.down != []
  {
    var ok := FirstLine(c.down[0]) == "OK";
    c.(client := Over(true, ok, c.client.command), down := c.down[1..],
       file := if ok && c.client.command == "Logout" then Deleted(c.file, c.url) else c.file)
  }

  // ----- The server

  const VERSION := "1.0.0 (Development)"

  function NewTicket(digest: string -> Digest, now: int, passwordHash: string): string {
    Sha256(digest, "Tintirek::" + VERSION + "::" + DecimalInt(now) + "::" + passwordHash + "::" + "EndOfTicket", ":")
  }

  datatype Judgement = Reject | PasswordGood(user: string, ticket: string) | TicketGood(user: string)
                     | TicketBad(user: string)

  /** What an authentication message is worth against the table at time `now`. A failing
      query is an unknown user. */
  function Judge(digest: string -> Digest, table: Table, message: string, now: int, dbFails: bool): Judgement {
    var c := AuthMessage.Parse(message);
    if c.username == "" || (c.isTicket && c.secret == "") || c.username !in table || dbFails then Reject
    else
      var u := table[c.username];
      if c.isTicket then
        if u.ticket.AsString() == c.secret && now < u.ticketEnd.AsInt64() then TicketGood(c.username)
        else TicketBad(c.username)
      else if Salted(digest, c.secret, u.salt, ToInt32(u.iteration)) == u.passwordHash then
        PasswordGood(c.username, NewTicket(digest, now, u.passwordHash))
      else Reject
  }

  /** The same, as the server does it: tokenizer, queries, hash loop. */
  method JudgeMessage(digest: string -> Digest, db: UserDb, message: string, now: int, faults: seq<bool>)
    returns (j: Judgement)
    ensures j == Judge(digest, db.table, message, now, faults != [] && faults[0])
  {
    var c := ParseCredential(message);
    if c.username != "" && (!c.isTicket || c.secret != "") {
      if !c.isTicket {
        var found, passwd, salt, iteration := db.GetUserPasswdFromDB(c.username, faults);
        if found {
          var val := VerifierHash(digest, c.secret, salt, iteration);
          if val == passwd {
            return PasswordGood(c.username, NewTicket(digest, now, passwd));
          }
        }
      } else {
        var found, ticket, endTime := db.GetUserTicketFromDB(c.username, faults);
        if found {
          if ticket == c.secret {
            if now < endTime {
              return TicketGood(c.username);
            }
          }
          return TicketBad(c.username);
        }
      }
    }
    j := Reject;
  }

  function ServerJudge(digest: string -> Digest, c: Conn, table: Table, now: int, dbFails: bool): Conn
    requires c.server.Listening? && c.up != []
  {
    var heard := c.(up := c.up[1..]);
    match Judge(digest, table, c.up[0], now, dbFails)
    case Reject => heard.(server := Closed(Refused), down := c.down + [REFUSAL])
    case PasswordGood(u, t) => heard.(server := Storing(u, t))
    case TicketGood(u) => heard.(server := Serving(u), down := c.down + [OK])
    case TicketBad(u) =>
      heard.(server := if c.server.retry then Closed(Refused) else Listening(true), down := c.down + [INVALID])
  }

  /** The ticket update must succeed before the answer goes out; otherwise nothing is sent. */
  function ServerStore(c: Conn, stored: bool, at: nat): Conn
    requires c.server.Storing?
  {
    if stored then c.(server := Serving(c.server.user), down := c.down + [OK + c.server.ticket], issued := at)
    else c.(server := Closed(Faulted))
  }

  /** A command that is not an announcement. */
  predicate Single(command: string) {
    Defined(command) && !Classify(command).Many?
  }

  function Answer(command: string, info: string): string
    requires Single(command)
  {
    var k := Classify(command);
    if k.Unknown? then NOT_FOUND else Reply(k, info)
  }

  /** `reset` tells whether a logout's reset of the row went through; the answer is the same. */
  function ServerServe(c: Conn, info: string, reset: bool, at: nat): Conn
    requires c.server.Serving? && c.up != [] && Single(c.up[0])
  {
    var command := c.up[0];
    c.(server := Closed(Accepted), up := c.up[1..],
       cleared := if Classify(command).Logout? && reset then at else c.cleared,
       down := if command == "Close" then c.down else c.down + [Answer(command, info)])
  }

  // ----- Lockstep

  predicate IsTicket(t: string) {
    Plain(t) && |t| == 95
  }

  /** A user name that smuggles a ticket into a message meant to carry no credential. */
  predicate Risky(user: string) {
    var c := AuthMessage.Parse(AuthText(user, Nothing));
    c.username != "" && c.isTicket && c.secret != ""
  }

  predicate Quiet(c: Conn) {
    c.up == [] && c.down == []
  }

  /** The message on its way is one the client can build from its file. */
  ghost predicate Asked(c: Conn, retry: bool, ticket: string, message: string) {
    if !Usable(c.file) then ticket == "" && message == AuthText(c.user, Nothing)
    else
      && ticket == Lookup(c.file, c.url)
      && if ticket != "" && !retry then message == AuthText(c.user, Ticket(ticket))
         else exists hash :: Plain(hash) && message == AuthText(c.user, Password(hash))
  }

  predicate Granted(down: seq<string>) {
    down == [OK] || (|down| == 1 && |down[0]| == |OK| + 95 && down[0] == OK + down[0][|OK|..] && IsTicket(down[0][|OK|..]))
  }

  ghost predicate Awaiting(c: Conn, retry: bool, ticket: string) {
    match c.server
    case Listening(r) =>
      || (r == retry && |c.up| == 1 && c.down == [] && Asked(c, retry, ticket, c.up[0]))
      || (r && !retry && c.up == [] && c.down == [INVALID] && (ticket != "" || (Risky(c.user) && !Usable(c.file))))
    case Storing(_, t) => Quiet(c) && IsTicket(t)
    case Serving(_) => c.up == [] && Granted(c.down)
    case Closed(v) => c.up == [] && ((v == Refused && (c.down == [REFUSAL] || (retry && c.down == [INVALID])))
                                    || (v == Faulted && c.down == []))
  }

  /** Every way the two sides can stand to each other. */
  ghost predicate InStep(c: Conn) {
    match c.client
    case ToAuthenticate(retry, command) =>
      && c.server == Listening(retry) && Quiet(c) && Single(command)
      && (retry ==> Usable(c.file) && Lookup(c.file, c.url) != "")
    case AwaitVerdict(retry, ticket, command) =>
      && Awaiting(c, retry, ticket) && Single(command)
      && (if Usable(c.file) then ticket == Lookup(c.file, c.url) else ticket == "")
      && (retry ==> ticket != "")
    case ToCommand(command) => c.server.Serving? && Quiet(c) && Single(command)
    case AwaitReply(command) =>
      && command != "Close" && Single(command)
      && if c.server.Serving? then c.up == [command] && c.down == []
         else c.server == Closed(Accepted) && c.up == [] && exists info :: c.down == [Answer(command, info)]
    case Over(authenticated, ok, command) =>
      (if authenticated then AuthenticatedEnd(c) && (ok <==> command == "Close" || Acceptable(command))
       else Quiet(c) && !ok && (c.server == Closed(Refused) || LeftListening(c)))
  }

  /** The client has read all it will; after `Close` the server may not have heard it yet. */
  predicate AuthenticatedEnd(c: Conn) {
    c.down == [] && ((c.server.Serving? && c.up == ["Close"]) || (c.server == Closed(Accepted) && c.up == []))
  }

  /** The server waits for a second credential that the client will not send. */
  predicate LeftListening(c: Conn) {
    c.server == Listening(true) && Risky(c.user) && !Usable(c.file)
  }
}
