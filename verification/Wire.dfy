/** The packets of the conversations fit the framing, so that the channels of packets are the
    byte streams underneath. */
module Wire {
  import opened Text
  import opened Crypto
  import opened AuthMessage
  import opened Session
  import opened Commands
  import opened UserTable
  import opened Conversation
  import opened Lockstep
  import opened World
  import opened Stores
  import opened Agreement
  import Framing

  /** A text the framing carries, and one so much shorter that the messages built from it and
      another such text are carried too. */
  predicate Sendable(s: string) {
    Free(s, '\0') && |s| < 0x8000_0000
  }

  predicate Modest(s: string) {
    Free(s, '\0') && |s| < 0x2000_0000
  }

  ghost predicate ModestFile(f: File) {
    forall u :: Modest(Lookup(f, u))
  }

  predicate AllSendable(packets: seq<string>) {
    forall p :: p in packets ==> Sendable(p)
  }

  /** Everything that is on its way can be sent, and what is still to be sent is built from
      modest parts. */
  ghost predicate Fits(c: Conn) {
    && Modest(c.user) && ModestFile(c.file) && (c.client.Over? || Modest(c.client.command))
    && AllSendable(c.up) && AllSendable(c.down)
  }

  predicate ModestMove(m: Move) {
    match m
    case Begins(user, _, command) => Modest(user) && Modest(command)
    case Serves(info, _) => Modest(info)
    case _ => true
  }

  lemma SendableConcat(a: string, b: string)
    requires Free(a, '\0') && Free(b, '\0') && |a| + |b| < 0x8000_0000
    ensures Sendable(a + b)
  {
    FreeConcat(a, b, '\0');
  }

  lemma CredentialSendable(user: string, offer: Offer)
    requires Modest(user) && Modest(offer.Secret())
    ensures Sendable(AuthText(user, offer))
  {
    var a := "Username=" + user + ";";
    FreeConcat("Username=", user, '\0');
    FreeConcat("Username=" + user, ";", '\0');
    match offer
    case Nothing => assert AuthText(user, offer) == a;
    case Password(h) =>
      FreeConcat("Password=", h, '\0');
      SendableConcat(a, "Password=" + h);
    case Ticket(t) =>
      FreeConcat("Ticket=", t, '\0');
      SendableConcat(a, "Ticket=" + t);
  }

  lemma PlainIsModest(s: string)
    requires Plain(s) && |s| <= 95
    ensures Modest(s)
  {
    PlainIsSafe(s);
  }

  lemma PartModest(s: string, pos: nat, count: int)
    requires Modest(s) && count >= NPOS
    ensures Modest(Substr(s, pos, count))
  {
  }

  lemma {:induction false} FirstParameterModest(m: string, current: nat)
    requires Modest(m) && current <= |m|
    ensures Modest(Params(m, current)[0])
  {
    hide Modest;
    ParamsStep(m, current);
    PartModest(m, current, NPOS);
    var pos := IndexOf(m, '?', current);
    if pos != NPOS {
      PartModest(m, current, pos);
    }
  }

  lemma PathModest(m: string)
    requires Modest(m)
    ensures Classify(m).Add? || Classify(m).Edit? ==> Modest(Classify(m).path)
  {
    hide Modest, Params, IndexOf, Numbers.Stoi;
    ParseIs(m);
    var pos := IndexOf(m, '?');
    if pos != NPOS {
      FirstParameterModest(m, pos + 1);
    }
  }

  lemma AnswerSendable(command: string, info: string)
    requires Modest(command) && Modest(info) && Single(command)
    ensures Sendable(Answer(command, info))
  {
    PathModest(command);
    var k := Classify(command);
    hide Classify;
    match k {
      case Information => SendableConcat("OK\n", info);
      case Add(path) =>
        FreeConcat("OK\n", path, '\0');
        SendableConcat("OK\n" + path, " -- opened for client");
      case Edit(path) =>
        FreeConcat("OK\n", path, '\0');
        SendableConcat("OK\n" + path, " -- already opened for client");
      case _ =>
    }
  }

  lemma AskFits(digest: string -> Digest, c: Conn, typed: string)
    requires Fits(c) && c.client.ToAuthenticate?
    ensures Fits(ClientAsk(digest, c, typed))
  {
    hide Lookup, Checked, Plain, Sha256, AuthText, Modest, Sendable, Usable;
    HashShape(digest, typed);
    PlainIsModest(Sha256(digest, typed));
    EmptyModest();
    forall u ensures Lookup(Checked(c.file), u) == Lookup(c.file, u) {
      CheckedFile(c.file, u);
    }
    CredentialSendable(c.user, Offered(digest, c.file, c.url, c.client.retry, typed));
  }

  lemma EmptyModest()
    ensures Modest("") && Sendable(OK) && Sendable(REFUSAL) && Sendable(INVALID) && Modest("Close")
  {
  }

  lemma HearFits(c: Conn, log: seq<Event>)
    requires Fits(c) && Good(c, log) && c.client.AwaitVerdict? && c.down != []
    ensures Fits(ClientHear(c))
  {
    hide InStep, Orderly, Keyed, Lookup, Plain, FirstLine, AfterFirstLine, StoreTicket, Usable, Modest, Sendable;
    Partner(c);
    OrderlyUsable(c.file);
    FixedPackets();
    if c.issued >= 0 && c.server.Serving? {
      var t := log[c.issued].ticket;
      TicketPacket(t);
      PlainIsModest(t);
      StoredIsFound(c.file, c.url, c.client.ticket, t);
    }
  }

  lemma ReadFits(c: Conn, log: seq<Event>)
    requires Fits(c) && Good(c, log) && c.client.AwaitReply? && c.down != []
    ensures Fits(ClientReply(c))
  {
    hide InStep, Orderly, Keyed, Lookup, FirstLine, Deleted, Modest, Sendable;
    EmptyModest();
    DeletedIsGone(c.file, c.url);
  }

  lemma StoreFits(c: Conn, stored: bool, at: nat)
    requires Fits(c) && InStep(c) && c.server.Storing?
    ensures Fits(ServerStore(c, stored, at))
  {
    hide InStep, Lookup, Modest, Plain;
    Partner(c);
    var t := c.server.ticket;
    PlainIsSafe(t);
    EmptyModest();
    SendableConcat(OK, t);
    hide Sendable;
  }

  lemma ServeFits(c: Conn, info: string, reset: bool, at: nat)
    requires Fits(c) && InStep(c) && c.server.Serving? && c.up != [] && Single(c.up[0]) && Modest(info)
    ensures Fits(ServerServe(c, info, reset, at))
  {
    hide InStep, Lookup, Modest, Sendable, Answer, Classify, Single;
    Partner(c);
    ServedCommand(c);
    ClosingCommand(c);
    EmptyModest();
    AnswerSendable(c.up[0], info);
  }

  lemma ClosingCommand(c: Conn)
    requires InStep(c) && c.server.Serving? && c.up != []
    ensures c.client.Over? ==> c.up[0] == "Close"
  {
    hide Lookup, Asked, Risky, Answer, Single, Usable;
  }

  lemma MoveFits(digest: string -> Digest, c: Conn, m: Move, table: Table, log: seq<Event>)
    requires Fits(c) && Good(c, log) && Enabled(c, m) && ModestMove(m)
    ensures Fits(Moved(digest, c, m, table, |log|))
  {
    hide InStep, Orderly, Keyed, Lookup, Agrees, Modest, Sendable, Judge, ClientAsk, ClientHear, ClientReply,
         ServerStore, ServerServe,
         Single, Finished, Abandoned;
    EmptyModest();
    match m {
      case Begins(_, _, _) =>
      case Asks(typed) => AskFits(digest, c, typed);
      case Hears => HearFits(c, log);
      case Commands => CommandFits(c);
      case Reads => ReadFits(c, log);
      case Judges(_, _) =>
      case Stores(_, fails) => StoreFits(c, c.server.user in table && !fails, |log|);
      case Serves(info, fails) => ServeFits(c, info, c.server.user in table && !fails, |log|);
    }
  }

  lemma CommandFits(c: Conn)
    requires Fits(c) && c.client.ToCommand?
    ensures Fits(ClientCommand(c))
  {
    hide Lookup;
  }

  ghost predicate AllModest(turns: seq<Turn>, i: nat) {
    forall t :: t in turns && t.i == i ==> ModestMove(t.m)
  }

  lemma {:induction false} RunFits(digest: string -> Digest, w: World, turns: seq<Turn>, v: World, i: nat)
    requires Leads(digest, w, turns, v) && i < |w.conns| && Good(w.conns[i], w.log) && Fits(w.conns[i])
    requires KeyedUrls(turns, i) && AllModest(turns, i)
    ensures i < |v.conns| && Fits(v.conns[i])
    decreases |turns|
  {
    hide Good, Fits, Enabled, Next, KeyedUrl, ModestMove;
    if turns != [] {
      var t := turns[0];
      assert t in turns && forall u :: u in turns[1..] ==> u in turns;
      NextKeepsGood(digest, w, i, t.i, t.m);
      NextFits(digest, w, i, t);
      RunFits(digest, Next(digest, w, t.i, t.m), turns[1..], v, i);
    }
  }

  lemma NextFits(digest: string -> Digest, w: World, i: nat, t: Turn)
    requires i < |w.conns| && Good(w.conns[i], w.log) && Fits(w.conns[i])
    requires t.i < |w.conns| && Enabled(w.conns[t.i], t.m) && (t.i == i ==> ModestMove(t.m))
    ensures var v := Next(digest, w, t.i, t.m); i < |v.conns| && Fits(v.conns[i])
  {
    hide Good, Fits, Enabled, Moved, Recorded, AppliedAll, ModestMove;
    if t.i == i {
      MoveFits(digest, w.conns[i], t.m, w.table, w.log);
    }
  }

  // ----- A channel of packets is a stream of bytes

  lemma {:induction false} EncodeAllAppend(packets: seq<string>, p: string)
    ensures Framing.EncodeAll(packets + [p]) == Framing.EncodeAll(packets) + Framing.Encode(p)
  {
    hide Framing.Encode;
    if packets == [] {
      assert [] + [p] == [p] && [p][1..] == [];
      assert Framing.EncodeAll([p]) == Framing.Encode(p) + "";
    } else {
      assert (packets + [p])[1..] == packets[1..] + [p] && (packets + [p])[0] == packets[0];
      EncodeAllAppend(packets[1..], p);
    }
  }

  /** Putting a packet on the channel is what `SendPacket` does to the bytes, taking one off is
      what `ReceivePacket` does, and all of them can be read back from the bytes. */
  ghost predicate IsStream(packets: seq<string>) {
    && AllSendable(packets)
    && (forall p :: Framing.EncodeAll(packets + [p]) == Framing.EncodeAll(packets) + Framing.Encode(p))
    && (forall rest :: packets != [] ==>
          Framing.Decode(Framing.EncodeAll(packets) + rest) == Framing.Packet(packets[0], Framing.EncodeAll(packets[1..]) + rest))
    && (forall rest :: Framing.DecodeAll(Framing.EncodeAll(packets) + rest, |packets|) == (packets, rest))
  }

  lemma SendableIsStream(packets: seq<string>)
    requires AllSendable(packets)
    ensures IsStream(packets)
  {
    hide Framing.Encode, Framing.Decode, Framing.EncodeAll, Framing.DecodeAll;
    forall p ensures Framing.EncodeAll(packets + [p]) == Framing.EncodeAll(packets) + Framing.Encode(p) {
      EncodeAllAppend(packets, p);
    }
    forall rest
      ensures packets != [] ==>
        Framing.Decode(Framing.EncodeAll(packets) + rest) == Framing.Packet(packets[0], Framing.EncodeAll(packets[1..]) + rest)
      ensures Framing.DecodeAll(Framing.EncodeAll(packets) + rest, |packets|) == (packets, rest)
    {
      Framing.RoundTripAll(packets, rest);
      if packets != [] {
        Framing.NextPacket(packets, 0, rest);
        assert packets[0..] == packets;
      }
    }
  }

  /** Over every run in which a client's names, commands and stored tickets, and what the server
      prints about itself, are free of NUL and shorter than 2^29 bytes: both channels of its
      connection are byte streams of framed packets. */
  lemma {:induction false} ChannelsAreStreams(digest: string -> Digest, w: World, turns: seq<Turn>, v: World, i: nat)
    requires Initial(w) && Leads(digest, w, turns, v) && Careful(w, turns, i)
    requires Modest(w.conns[i].user) && ModestFile(w.conns[i].file) && AllModest(turns, i)
    ensures i < |v.conns| && IsStream(v.conns[i].up) && IsStream(v.conns[i].down)
  {
    InitialGood(w, i);
    assert Fits(w.conns[i]) by {
      hide Lookup, Modest;
    }
    hide Leads, Initial, Good, Orderly, Keyed, Lookup, Modest, IsStream;
    RunFits(digest, w, turns, v, i);
    SendableIsStream(v.conns[i].up);
    SendableIsStream(v.conns[i].down);
  }
}
