/** A credential smuggled in with the user name, and the deadlock it can lead to. */
module Limits {
  import opened Text
  import opened Crypto
  import opened AuthMessage
  import opened Session
  import opened Statement
  import opened UserTable
  import opened Conversation
  import opened Lockstep
  import opened World
  import Commands

  /** A client that cannot keep a session file, run against a table in which the smuggled
      user has no ticket. */
  function Lonely(user: string, url: string): World
  {
    var smuggled := AuthMessage.Parse(AuthText(user, Nothing)).username;
    World(map[smuggled := User("", "", 0, Null, Null)],
          [Conn(user, url, Over(false, false, ""), Closed(Refused), [], [], Missing(false), -1, -1)], [])
  }

  lemma SmuggledIsBad(digest: string -> Digest, user: string, url: string)
    requires Risky(user)
    ensures Judge(digest, Lonely(user, url).table, AuthText(user, Nothing), 0, false).TicketBad?
  {
    hide AuthText, AuthMessage.Parse, Salted;
  }

  lemma LonelySteps(digest: string -> Digest, user: string, url: string)
    requires Risky(user)
    ensures var c := Lonely(user, url).conns[0];
      var asked := ClientAsk(digest, Begin(c, user, url, "Close"), "");
      var judged := ServerJudge(digest, asked, Lonely(user, url).table, 0, false);
      && asked.up == [AuthText(user, Nothing)] && asked.server == Listening(false) && asked.down == []
      && judged.down == [INVALID] && judged.client == asked.client == AwaitVerdict(false, "", "Close")
      && LeftListening(ClientHear(judged)) && Quiet(ClientHear(judged)) && GaveUp(ClientHear(judged))
  {
    hide AuthText, Judge, FirstLine, AfterFirstLine, Risky;
    SmuggledIsBad(digest, user, url);
    FixedPackets();
    var c := Lonely(user, url).conns[0];
    var asked := ClientAsk(digest, Begin(c, user, url, "Close"), "");
    assert asked.up == [AuthText(user, Nothing)];
    assert asked.down + [INVALID] == [INVALID];
  }

  /** So every risky user name can deadlock such a client: after four moves it has given up
      while the server waits for a second credential. */
  lemma RiskyDeadlocks(digest: string -> Digest, user: string, url: string)
    requires Risky(user)
    ensures Initial(Lonely(user, url))
    ensures var turns := [Turn(0, Begins(user, url, "Close")), Turn(0, Asks("")), Turn(0, Judges(0, false)), Turn(0, Hears)];
      exists v :: Leads(digest, Lonely(user, url), turns, v) && |v.conns| == 1
               && !GoesOn(v.conns[0]) && !Finished(v.conns[0])
  {
    hide AuthText, Judge, FirstLine, AfterFirstLine, Risky, ClientAsk, ServerJudge, ClientHear, AuthMessage.Parse,
         AppliedAll;
    LonelySteps(digest, user, url);
    Commands.CloseIsUnknown();
    var w0 := Lonely(user, url);
    var w1 := Next(digest, w0, 0, Begins(user, url, "Close"));
    var w2 := Next(digest, w1, 0, Asks(""));
    NothingApplied(w0.table);
    assert w1.table == w0.table && w2.table == w0.table;
    var w3 := Next(digest, w2, 0, Judges(0, false));
    var v := Next(digest, w3, 0, Hears);
    assert Leads(digest, v, [], v);
    assert Leads(digest, w3, [Turn(0, Hears)], v);
    assert Leads(digest, w2, [Turn(0, Judges(0, false)), Turn(0, Hears)], v);
    assert Leads(digest, w1, [Turn(0, Asks("")), Turn(0, Judges(0, false)), Turn(0, Hears)], v);
  }

  lemma {:induction false} NothingApplied(table: Table)
    ensures AppliedAll(table, []) == table
  {
  }

  /** Such names exist. */
  lemma SomeNameIsRisky()
    ensures Risky("u;Ticket=x")
  {
    hide Split, Apply;
    var message := AuthText("u;Ticket=x", Nothing);
    assert message == "Username=u" + ";" + ("Ticket=x" + ";" + "");
    ParseConcat("Username=u", "Ticket=x" + ";" + "");
    SplitConcat("Ticket=x", ';', "");
    ApplyAllConcat(Split("Ticket=x", ';'), Split("", ';'), AuthMessage.Parse("Username=u"));
    assert "Ticket=x" + ";" + "" == "Ticket=x" + [';'] + "";
    OneToken("Username", "u", BLANK);
    OneToken("Ticket", "x", AuthMessage.Parse("Username=u"));
    assert "Username=u" == "Username" + "=" + "u" && "Ticket=x" == "Ticket" + "=" + "x";
    ApplyPair("Username", "u", BLANK);
    ApplyPair("Ticket", "x", Credential("u", "", false));
    EmptyTokens(Credential("u", "x", true));
  }
}
