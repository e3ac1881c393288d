/** One connection carrying many commands: the server's recursion over announced counts,
    and the client that sends a queue and reads one reply per command. */
module MultipleCommands {
  import opened Text
  import opened Commands

  // ----- The server, one message at a time

  /** `Top` waits for the connection's one command. `Nested` is inside announcements: for
      each one still open, how many of its commands are left, the one now awaited (or
      being carried out by the announcement above it) included. */
  datatype Server = Top | Nested(left: seq<nat>) | Stopped

  ghost predicate Counts(left: seq<nat>) {
    forall k :: 0 <= k < |left| ==> left[k] > 0
  }

  /** One command of the innermost announcement is finished; that may finish the announcement,
      and so one command of the announcement around it, and so on. */
  function Complete(left: seq<nat>): (r: seq<nat>)
    requires Counts(left)
    ensures Counts(r)
  {
    if left == [] then []
    else
      var n := |left| - 1;
      if left[n] > 1 then left[..n] + [left[n] - 1] else Complete(left[..n])
  }

  /** The outermost announcement answers `NONE` when it is through. */
  function Resume(left: seq<nat>): (Server, seq<string>) {
    if left == [] then (Stopped, ["NONE\n"]) else (Nested(left), [])
  }

  function Open(s: Server): seq<nat> {
    if s.Nested? then s.left else []
  }

  /** An error text passed up through `depth` announcements. */
  function Chain(depth: nat, error: string): string {
    if depth == 0 then error else "ERROR\n" + Chain(depth - 1, error)
  }

  /** Each announcement has put one `ERROR` line in front of the text. */
  lemma {:induction false} ChainUnwraps(depth: nat, error: string)
    ensures Chain(0, error) == error
    ensures FirstLine(Chain(depth + 1, error)) == "ERROR" && AfterFirstLine(Chain(depth + 1, error)) == Chain(depth, error)
    ensures |Chain(depth, error)| == 6 * depth + |error|
  {
    hide FirstLine, AfterFirstLine;
    if depth > 0 {
      ChainUnwraps(depth - 1, error);
    }
    ReplyParts("ERROR", Chain(depth, error));
    assert Chain(depth + 1, error) == "ERROR" + "\n" + Chain(depth, error);
  }

  /** The first reply to a command that is not refused. */
  function ReplyTo(m: string, info: string): string {
    var k := Classify(m);
    if k.Many? then "OK\n" else if k.Unknown? || k.MissingParameter? then "" else Reply(k, info)
  }

  ghost predicate Sound(s: Server) {
    s.Nested? ==> s.left != [] && Counts(s.left)
  }

  /** What a waiting server does with a message: its next state and what it sends. */
  function OnMessage(s: Server, m: string, info: string): (r: (Server, seq<string>))
    requires !s.Stopped? && Sound(s) && Defined(m)
    ensures Sound(r.0)
  {
    var k := Classify(m);
    if s.Top? && m == "Close" then (Stopped, [])
    else if k.Unknown? then (Stopped, [Chain(|Open(s)|, NOT_FOUND)])
    else if k.Many? && k.count > 0 then (Nested(Open(s) + [k.count]), ["OK\n"])
    else if k.Many? || s.Nested? then
      var (s', sent) := Resume(Complete(Open(s)));
      (s', [ReplyTo(m, info)] + sent)
    else (Stopped, [ReplyTo(m, info)])
  }

  /** The messages of `inbox` taken one after the other until the server stops or starves. */
  datatype Played = Played(sent: seq<string>, rest: seq<string>, server: Server)

  function Before(sent: seq<string>, p: Played): Played {
    p.(sent := sent + p.sent)
  }

  function Drive(s: Server, inbox: seq<string>, info: string): Played
    requires Sound(s) && forall m :: m in inbox ==> Defined(m)
    decreases |inbox|
  {
    if s.Stopped? || inbox == [] then Played([], inbox, s)
    else
      var (s', sent) := OnMessage(s, inbox[0], info);
      Before(sent, Drive(s', inbox[1..], info))
  }

  /** Going on after a command of the innermost of `left` has been finished. */
  function DriveOn(left: seq<nat>, inbox: seq<string>, info: string): Played
    requires Counts(left) && forall m :: m in inbox ==> Defined(m)
  {
    var (s, sent) := Resume(left);
    Before(sent, Drive(s, inbox, info))
  }

  lemma BeforeBefore(a: seq<string>, b: seq<string>, p: Played)
    ensures Before(a, Before(b, p)) == Before(a + b, p) && Before([], p) == p
  {
    assert a + (b + p.sent) == a + b + p.sent && [] + p.sent == p.sent;
  }

  lemma {:induction false} ChainOutside(depth: nat, error: string)
    ensures Chain(depth, "ERROR\n" + error) == Chain(depth + 1, error)
  {
    if depth > 0 {
      ChainOutside(depth - 1, error);
    }
  }

  lemma {:induction false} CompleteLast(left: seq<nat>, n: nat)
    requires Counts(left) && n > 0
    ensures Counts(left + [n])
    ensures Complete(left + [n]) == if n > 1 then left + [n - 1] else Complete(left)
  {
    assert (left + [n])[..|left|] == left;
  }

  // ----- The server as it is written: recursive, and blocking inside ReceivePacket

  /** `Starving`: blocked inside `ReceivePacket`. `Lost`: that call failed. `Unsent`: a
      `SendPacket` did. */
  datatype Status = Fine | Failed | Starving | Lost | Unsent

  function Around(left: seq<nat>): Server {
    if left == [] then Top else Nested(left)
  }

  /** What is left to play once a command that was answered with one packet is through. */
  function AfterLeaf(left: seq<nat>, inbox: seq<string>, info: string): Played
    requires Counts(left) && forall m :: m in inbox ==> Defined(m)
  {
    if left == [] then Played([], inbox, Stopped) else DriveOn(Complete(left), inbox, info)
  }

  /** The server blocked for want of a message, having sent `sent`. */
  predicate Starved(all: Played, sent: seq<string>) {
    all.sent == sent && all.rest == [] && !all.server.Stopped?
  }

  /** A receive failed: the machine waits for a message that will not come, and the error text,
      wrapped so far for all but `depth` of the open announcements, is the text of the failure
      wrapped once for each. */
  predicate Broken(all: Played, sent: seq<string>, depth: nat, error: string, failure: string) {
    Starved(all, sent) && Chain(depth, error) == Chain(|Open(all.server)|, failure)
  }

  /** `HandleCommand` returned: a plain reply is not sent yet, an announcement is all sent. */
  ghost predicate CommandHandled(all: Played, status: Status, returned: string, many: bool, left: seq<nat>,
                                 sent: seq<string>, inbox: seq<string>, info: string, failure: string)
    requires Counts(left) && forall m :: m in inbox ==> Defined(m)
  {
    match status
    case Fine =>
      && (returned == "NONE\n" <==> many)
      && all == (if many then Before(sent, DriveOn(Complete(left), inbox, info))
                 else Before(sent + [returned], AfterLeaf(left, inbox, info)))
    case Failed => all == Played(sent + [Chain(|left|, returned)], inbox, Stopped)
    case Starving => Starved(all, sent)
    case Lost => Broken(all, sent, |left|, returned, failure)
    case Unsent => sent < all.sent
  }

  /** `HandleConnectionMultiple` returned: everything about one nested command is sent,
      except the error that its callers still have to wrap. */
  ghost predicate ConnectionHandled(all: Played, status: Status, error: string, left: seq<nat>,
                                    sent: seq<string>, inbox: seq<string>, info: string, failure: string)
    requires Counts(left) && forall m :: m in inbox ==> Defined(m)
  {
    match status
    case Fine => all == Before(sent, DriveOn(Complete(left), inbox, info))
    case Failed => all == Played(sent + [Chain(|left|, error)], inbox, Stopped)
    case Starving => Starved(all, sent)
    case Lost => Broken(all, sent, |left|, error, failure)
    case Unsent => sent < all.sent
  }

  /** Where a loop that still has `n` commands to take stands. */
  function Looping(left: seq<nat>, n: int): (r: seq<nat>)
    requires Counts(left)
    ensures Counts(r)
  {
    if n > 0 then left + [n] else Complete(left)
  }

  lemma {:induction false} DriveMessage(left: seq<nat>, m: string, inbox: seq<string>, info: string)
    requires Counts(left) && Defined(m) && forall x :: x in inbox ==> Defined(x)
    requires left == [] ==> m != "Close"
    ensures forall x :: x in [m] + inbox ==> Defined(x)
    ensures var all := Drive(Around(left), [m] + inbox, info);
      var k := Classify(m);
      && (k.Unknown? ==> all == Played([Chain(|left|, NOT_FOUND)], inbox, Stopped))
      && (k.Many? ==> all == Before(["OK\n"], DriveOn(Looping(left, k.count), inbox, info)))
      && (!k.Unknown? && !k.Many? ==> all == Before([Reply(k, info)], AfterLeaf(left, inbox, info)))
  {
    var s := Around(left);
    assert Open(s) == left;
    assert ([m] + inbox)[1..] == inbox;
    var (s', sent) := OnMessage(s, m, info);
    assert Drive(s, [m] + inbox, info) == Before(sent, Drive(s', inbox, info));
    var k := Classify(m);
    if k.Unknown? {
      assert sent + [] == sent;
    } else if k.Many? {
      var (t, more) := Resume(Looping(left, k.count));
      BeforeBefore(["OK\n"], more, Drive(t, inbox, info));
      assert ["OK\n"] + [] == ["OK\n"];
    } else if left != [] {
      var (t, more) := Resume(Complete(left));
      BeforeBefore([Reply(k, info)], more, Drive(t, inbox, info));
    }
  }

  lemma {:induction false} DriveStarving(left: seq<nat>, info: string, failure: string)
    requires Counts(left)
    ensures Starved(Drive(Around(left), [], info), [])
    ensures left != [] ==> Broken(Drive(Around(left), [], info), [], |left|, failure, failure)
  {
  }

  lemma {:induction false} DriveLooping(left: seq<nat>, n: int, inbox: seq<string>, info: string)
    requires Counts(left) && n > 0 && forall x :: x in inbox ==> Defined(x)
    ensures DriveOn(Looping(left, n), inbox, info) == Drive(Around(left + [n]), inbox, info)
    ensures Complete(left + [n]) == Looping(left, n - 1)
  {
    CompleteLast(left, n);
    BeforeBefore([], [], Drive(Nested(left + [n]), inbox, info));
  }

  /** An error inside an announcement reaches the outside wrapped once more. */
  lemma {:induction false} FailedInside(a: seq<string>, inner: Played, b: seq<string>, depth: nat, error: string,
                                        inbox: seq<string>)
    requires inner == Played(b + [Chain(depth + 1, error)], inbox, Stopped)
    ensures Before(a, inner) == Played(a + b + [Chain(depth, "ERROR\n" + error)], inbox, Stopped)
  {
    ChainOutside(depth, error);
    assert a + (b + [Chain(depth + 1, error)]) == a + b + [Chain(depth + 1, error)];
  }

  lemma StarvedInside(a: seq<string>, inner: Played, b: seq<string>)
    requires Starved(inner, b)
    ensures Starved(Before(a, inner), a + b)
  {
  }

  /** The error text of a failure, wrapped any number of times. */
  ghost predicate Wrapped(error: string, failure: string) {
    exists depth: nat :: error == Chain(depth, failure)
  }

  lemma {:induction false} WrapOnce(error: string, failure: string)
    requires Wrapped(error, failure)
    ensures Wrapped("ERROR\n" + error, failure)
  {
    var depth: nat :| error == Chain(depth, failure);
    assert "ERROR\n" + error == Chain(depth + 1, failure);
  }

  lemma {:induction false} NotWrapped(failure: string)
    ensures Wrapped(failure, failure)
  {
    assert failure == Chain(0, failure);
  }

  lemma {:induction false} UnsentFirst(packet: string, p: Played)
    ensures [] < Before([packet], p).sent
  {
  }

  lemma {:induction false} UnsentInside(a: seq<string>, inner: Played, b: seq<string>)
    requires b < inner.sent
    ensures a + b < Before(a, inner).sent
  {
  }

  lemma {:induction false} UnsentReply(all: Played, sent: seq<string>, reply: string, p: Played)
    requires all == Before(sent + [reply], p)
    ensures sent < all.sent
  {
  }

  lemma {:induction false} LostInside(a: seq<string>, inner: Played, b: seq<string>, depth: nat, error: string,
                                      failure: string)
    requires Broken(inner, b, depth + 1, error, failure)
    ensures Broken(Before(a, inner), a + b, depth, "ERROR\n" + error, failure)
  {
    ChainOutside(depth, error);
  }

  lemma {:induction false} LoopDone(left: seq<nat>, n: int)
    requires Counts(left) && n <= 0
    ensures Looping(left, n) == Complete(left)
  {
  }

  /** The connection is over, or blocked for want of a message; or a receive failed, and that
      is answered with one error packet, wrapped once per open announcement, unless the
      connection's own command was still to come. When a send failed, the packets are the first
      of the machine's, and behind them at most one error packet with the text of that failure. */
  ghost predicate TopHandled(all: Played, status: Status, sent: seq<string>, inbox: seq<string>, failure: string,
                             sendError: string) {
    match status
    case Starving => Starved(all, sent)
    case Unsent => sent <= all.sent || (sent != [] && sent[..|sent| - 1] < all.sent && Wrapped(sent[|sent| - 1], sendError))
    case Lost =>
      && Starved(all, all.sent)
      && sent == all.sent + (if all.server.Top? then [] else [Chain(|Open(all.server)|, failure)])
    case _ => all == Played(sent, inbox, Stopped)
  }

  /** What `HandleConnection` still sends when the command has returned, and whether it can. */
  lemma {:induction false} TopDone(all: Played, status: Status, returned: string, many: bool, sent: seq<string>,
                                   inbox: seq<string>,
                                   info: string, failure: string, sendError: string)
    requires forall m :: m in inbox ==> Defined(m)
    requires CommandHandled(all, status, returned, many, [], sent, inbox, info, failure)
    requires status == Lost ==> !all.server.Top?
    requires status == Unsent ==> Wrapped(returned, sendError)
    ensures TopHandled(all, status, if status == Starving then sent else sent + [returned], inbox, failure, sendError)
    ensures status != Starving ==> TopHandled(all, Unsent, sent, inbox, failure, sendError)
  {
    if status == Unsent {
      assert (sent + [returned])[..|sent|] == sent;
    }
    assert sent <= sent + [returned];
  }

  lemma {:induction false} TopStarving(info: string, failure: string, sendError: string)
    ensures TopHandled(Drive(Top, [], info), Starving, [], [], failure, sendError)
    ensures TopHandled(Drive(Top, [], info), Lost, [], [], failure, sendError)
  {
  }

  lemma {:induction false} NeverTop(s: Server, inbox: seq<string>, info: string)
    requires Sound(s) && !s.Top? && forall m :: m in inbox ==> Defined(m)
    ensures !Drive(s, inbox, info).server.Top?
    decreases |inbox|
  {
    hide Classify, Complete, Reply;
    if !s.Stopped? && inbox != [] {
      NeverTop(OnMessage(s, inbox[0], info).0, inbox[1..], info);
    }
  }

  lemma {:induction false} TopLeft(message: string, inbox: seq<string>, info: string)
    requires Defined(message) && forall m :: m in inbox ==> Defined(m)
    ensures forall m :: m in [message] + inbox ==> Defined(m)
    ensures !Drive(Top, [message] + inbox, info).server.Top?
  {
    hide Classify, Complete, Reply;
    assert ([message] + inbox)[1..] == inbox;
    NeverTop(OnMessage(Top, message, info).0, inbox, info);
  }

  lemma {:induction false} TopClose(inbox: seq<string>, info: string, failure: string, sendError: string)
    requires forall m :: m in inbox ==> Defined(m)
    ensures forall m :: m in ["Close"] + inbox ==> Defined(m)
    ensures TopHandled(Drive(Top, ["Close"] + inbox, info), Fine, [], inbox, failure, sendError)
  {
    hide Classify;
    CloseIsUnknown();
    var all := ["Close"] + inbox;
    assert all[0] == "Close" && all[1..] == inbox;
    assert forall m :: m in all ==> m == "Close" || m in inbox;
    BeforeBefore([], [], Drive(Stopped, inbox, info));
  }

  lemma ReplyIsNotNone(k: Kind, info: string)
    requires k.Information? || k.Logout? || k.Add? || k.Edit?
    ensures Reply(k, info) != "NONE\n"
  {
    assert Reply(k, info)[0] == 'O';
  }

  // ----- Logouts among the messages taken

  /** How many of the messages reset the user's ticket. */
  function Logouts(ms: seq<string>): nat {
    if ms == [] then 0
    else Logouts(ms[..|ms| - 1]) + if Classify(ms[|ms| - 1]).Logout? then 1 else 0
  }

  lemma {:induction false} LogoutsConcat(a: seq<string>, b: seq<string>)
    ensures Logouts(a + b) == Logouts(a) + Logouts(b)
    decreases |b|
  {
    hide Classify;
    if b == [] {
      assert a + b == a;
    } else {
      LogoutsConcat(a, b[..|b| - 1]);
      assert (a + b)[..|a + b| - 1] == a + b[..|b| - 1];
    }
  }

  lemma OneLogout(m: string)
    ensures Logouts([m]) == if Classify(m).Logout? then 1 else 0
    ensures Logouts([]) == 0
  {
    hide Classify;
    assert [m][..0] == [];
  }

  /** The messages taken from the inbox on the way from `before` to `after`. */
  function Taken(before: seq<string>, after: seq<string>): seq<string>
    requires |after| <= |before|
  {
    before[..|before| - |after|]
  }

  lemma TakenTwice(before: seq<string>, mid: seq<string>, after: seq<string>)
    requires |after| <= |mid| <= |before| && before == Taken(before, mid) + mid && mid == Taken(mid, after) + after
    ensures Taken(before, after) == Taken(before, mid) + Taken(mid, after) && before == Taken(before, after) + after
    ensures Logouts(Taken(before, after)) == Logouts(Taken(before, mid)) + Logouts(Taken(mid, after))
  {
    hide Logouts;
    LogoutsConcat(Taken(before, mid), Taken(mid, after));
    var a, b := Taken(before, mid), Taken(mid, after);
    assert before == a + (b + after) == a + b + after;
    assert before[..|a + b|] == a + b;
  }

  lemma TakenNone(inbox: seq<string>)
    ensures Taken(inbox, inbox) == [] && inbox == [] + inbox
  {
  }

  lemma TakenOne(message: string, inbox: seq<string>)
    ensures Taken([message] + inbox, inbox) == [message]
  {
  }

  /** What one nested command comes to: anything but success is passed on; a plain reply goes
      out at once, if it can be sent; an announcement has sent its own. */
  lemma {:induction false} NestedDone(all: Played, status: Status, returned: string, many: bool, left: seq<nat>,
                                      sent: seq<string>, inbox: seq<string>, info: string, failure: string,
                                      sendError: string)
    requires Counts(left) && left != [] && forall m :: m in inbox ==> Defined(m)
    requires CommandHandled(all, status, returned, many, left, sent, inbox, info, failure)
    ensures status != Fine ==> ConnectionHandled(all, status, returned, left, sent, inbox, info, failure)
    ensures status == Fine && returned == "NONE\n" ==> ConnectionHandled(all, Fine, "", left, sent, inbox, info, failure)
    ensures status == Fine && returned != "NONE\n" ==>
      && ConnectionHandled(all, Fine, "", left, sent + [returned], inbox, info, failure)
      && ConnectionHandled(all, Unsent, sendError, left, sent, inbox, info, failure)
  {
    hide Drive, DriveOn, Classify, Complete, Before, Starved, Broken, Chain;
    if status == Fine && returned != "NONE\n" {
      UnsentReply(all, sent, returned, DriveOn(Complete(left), inbox, info));
    }
  }

  /** Nothing to receive. */
  lemma {:induction false} NestedStarving(left: seq<nat>, info: string, failure: string)
    requires Counts(left) && left != []
    ensures var all := Drive(Around(left), [], info);
      && ConnectionHandled(all, Starving, "", left, [], [], info, failure)
      && ConnectionHandled(all, Lost, failure, left, [], [], info, failure)
  {
    hide Drive, Chain, Starved, Broken;
    DriveStarving(left, info, failure);
  }

  lemma SentBehind(before: seq<string>, sent: seq<string>, packet: string)
    ensures (before + sent + [packet])[|before|..] == sent + [packet] && before <= before + sent + [packet]
  {
  }

  class Connection {
    var inbox: seq<string>
    var outbox: seq<string>
    var resets: nat
    const info: string

    /** Whether `ReceivePacket` fails once the inbox is used up, and with what text. */
    const lost: bool
    const failure: string

    /** Which sends fail, and with what text. */
    var sendFaults: seq<bool>
    const sendError: string

    ghost predicate Valid()
      reads this
    {
      forall m :: m in inbox ==> Defined(m)
    }

    method SendPacket(message: string) returns (ok: bool)
      modifies this`outbox, this`sendFaults
      ensures outbox == if ok then old(outbox) + [message] else old(outbox)
      ensures !ok ==> true in old(sendFaults)
      ensures forall b :: b in sendFaults ==> b in old(sendFaults)
    {
      ok := !(sendFaults != [] && sendFaults[0]);
      sendFaults := if sendFaults == [] then [] else sendFaults[1..];
      if ok {
        outbox := outbox + [message];
      }
    }

    /** The whole recursion below one command does what the one-message machine does with
        it and with as many messages behind it as it announces, at any depth `left`. Every
        Logout among the messages taken resets the ticket once. */
    method HandleCommand(message: string, ghost left: seq<nat>) returns (status: Status, returned: string)
      requires Valid() && Defined(message) && Counts(left)
      requires left == [] ==> message != "Close"
      modifies this
      ensures Valid() && |inbox| <= |old(inbox)| && old(outbox) <= outbox
      ensures old(inbox) == Taken(old(inbox), inbox) + inbox
      ensures resets == old(resets) + Logouts([message]) + Logouts(Taken(old(inbox), inbox))
      ensures status == Lost ==> lost
      ensures status == Starving ==> !lost
      ensures status == Unsent ==> true in old(sendFaults) && Wrapped(returned, sendError)
      ensures forall b :: b in sendFaults ==> b in old(sendFaults)
      ensures forall m :: m in [message] + old(inbox) ==> Defined(m)
      ensures CommandHandled(Drive(Around(left), [message] + old(inbox), info), status, returned,
                             Classify(message).Many?, left, outbox[|old(outbox)|..], inbox, info, failure)
      decreases |inbox|, 1
    {
      hide Drive, DriveOn, OnMessage, Chain, Reply, Classify, Looping, Complete, AfterLeaf, Before, Starved, Broken,
           Taken, Logouts;
      DriveMessage(left, message, inbox, info);
      OneLogout(message);
      TakenNone(inbox);
      var k := ChooseCommand(message);
      if k.Unknown? {
        assert [] + [Chain(|left|, NOT_FOUND)] == [Chain(|left|, NOT_FOUND)];
        return Failed, NOT_FOUND;
      } else if k.Many? {
        var count := k.count;
        ghost var all := Drive(Around(left), [message] + inbox, info);
        var announced := SendPacket("OK\n");
        if !announced {
          UnsentFirst("OK\n", DriveOn(Looping(left, count), inbox, info));
          NotWrapped(sendError);
          WrapOnce(sendError, sendError);
          assert outbox[|old(outbox)|..] == [];
          return Unsent, "ERROR\n" + sendError;
        }
        ghost var sent := ["OK\n"];
        var i := 0;
        while i < count
          invariant 0 <= i && (i <= count || i == 0)
          invariant Valid() && |inbox| <= |old(inbox)|
          invariant old(inbox) == Taken(old(inbox), inbox) + inbox
          invariant resets == old(resets) + Logouts(Taken(old(inbox), inbox))
          invariant outbox == old(outbox) + sent
          invariant forall b :: b in sendFaults ==> b in old(sendFaults)
          invariant all == Before(sent, DriveOn(Looping(left, count - i), inbox, info))
        {
          DriveLooping(left, count - i, inbox, info);
          ghost var inner := Drive(Around(left + [count - i]), inbox, info);
          ghost var inboxBefore, outboxBefore := inbox, outbox;
          var nested, error := HandleConnectionMultiple(left + [count - i]);
          TakenTwice(old(inbox), inboxBefore, inbox);
          ghost var more := outbox[|outboxBefore|..];
          assert outbox == old(outbox) + (sent + more);
          if nested == Failed {
            FailedInside(sent, inner, more, |left|, error, inbox);
            return Failed, "ERROR\n" + error;
          } else if nested == Starving {
            StarvedInside(sent, inner, more);
            return Starving, "";
          } else if nested == Lost {
            LostInside(sent, inner, more, |left|, error, failure);
            return Lost, "ERROR\n" + error;
          } else if nested == Unsent {
            UnsentInside(sent, inner, more);
            WrapOnce(error, sendError);
            return Unsent, "ERROR\n" + error;
          }
          BeforeBefore(sent, more, DriveOn(Looping(left, count - i - 1), inbox, info));
          sent := sent + more;
          i := i + 1;
        }
        LoopDone(left, count - i);
        return Fine, "NONE\n";
      } else {
        ReplyIsNotNone(k, info);
        if k.Logout? {
          resets := resets + 1;
        }
        assert outbox[|old(outbox)|..] == [];
        assert [] + [Reply(k, info)] == [Reply(k, info)];
        return Fine, Reply(k, info);
      }
    }

    method HandleConnectionMultiple(ghost left: seq<nat>) returns (status: Status, error: string)
      requires Valid() && Counts(left) && left != []
      modifies this
      ensures Valid() && |inbox| <= |old(inbox)| && old(outbox) <= outbox
      ensures old(inbox) == Taken(old(inbox), inbox) + inbox
      ensures resets == old(resets) + Logouts(Taken(old(inbox), inbox))
      ensures status == Lost ==> lost
      ensures status == Starving ==> !lost
      ensures status == Unsent ==> true in old(sendFaults) && Wrapped(error, sendError)
      ensures forall b :: b in sendFaults ==> b in old(sendFaults)
      ensures ConnectionHandled(Drive(Around(left), old(inbox), info), status, error, left,
                                outbox[|old(outbox)|..], inbox, info, failure)
      decreases |inbox|, 0
    {
      hide Taken, Logouts, Drive, Classify, Wrapped, CommandHandled, ConnectionHandled;
      TakenNone(inbox);
      OneLogout("");
      if inbox == [] {
        NestedStarving(left, info, failure);
        assert outbox[|old(outbox)|..] == [] && old(inbox) == [];
        if lost {
          return Lost, failure;
        }
        return Starving, "";
      }
      var message := inbox[0];
      assert inbox == [message] + inbox[1..];
      TakenOne(message, inbox[1..]);
      inbox := inbox[1..];
      ghost var inboxBefore := inbox;
      var returned;
      status, returned := HandleCommand(message, left);
      TakenTwice(old(inbox), inboxBefore, inbox);
      ghost var sent := outbox[|old(outbox)|..];
      assert outbox == old(outbox) + sent;
      NestedDone(Drive(Around(left), old(inbox), info), status, returned, Classify(message).Many?, left, sent, inbox, info,
                 failure, sendError);
      if status != Fine {
        return status, returned;
      }
      if returned != "NONE\n" {
        var replied := SendPacket(returned);
        if !replied {
          NotWrapped(sendError);
          assert outbox[|old(outbox)|..] == sent;
          return Unsent, sendError;
        }
        SentBehind(old(outbox), sent, returned);
      }
      return Fine, "";
    }

    /** The connection's one command, after authentication. */
    method HandleConnection() returns (status: Status)
      requires Valid()
      modifies this
      ensures Valid() && |inbox| <= |old(inbox)| && old(outbox) <= outbox
      ensures resets == old(resets) + Logouts(Taken(old(inbox), inbox))
      ensures status == Lost ==> lost
      ensures status == Starving ==> !lost
      ensures status == Unsent ==> true in old(sendFaults)
      ensures forall b :: b in sendFaults ==> b in old(sendFaults)
      ensures TopHandled(Drive(Top, old(inbox), info), status, outbox[|old(outbox)|..], inbox, failure, sendError)
    {
      hide Drive, TopHandled, CommandHandled, Classify, Defined, Taken, Logouts, Wrapped;
      TakenNone(inbox);
      OneLogout("Close");
      CloseIsUnknown();
      if inbox == [] {
        TopStarving(info, failure, sendError);
        assert outbox[|old(outbox)|..] == [];
        return if lost then Lost else Starving;
      }
      var message := inbox[0];
      assert inbox == [message] + inbox[1..];
      TakenOne(message, inbox[1..]);
      inbox := inbox[1..];
      ghost var inboxBefore := inbox;
      if message == "Close" {
        TopClose(inbox, info, failure, sendError);
        assert outbox[|old(outbox)|..] == [];
        return Fine;
      }
      TopLeft(message, inbox, info);
      var returned;
      status, returned := HandleCommand(message, []);
      TakenTwice(old(inbox), inboxBefore, inbox);
      ghost var sent := outbox[|old(outbox)|..];
      assert outbox == old(outbox) + sent;
      TopDone(Drive(Top, old(inbox), info), status, returned, Classify(message).Many?, sent, inbox, info, failure, sendError);
      if status != Starving {
        var replied := SendPacket(returned);
        if !replied {
          assert outbox[|old(outbox)|..] == sent;
          return Unsent;
        }
        SentBehind(old(outbox), sent, returned);
      }
    }
  }
}
