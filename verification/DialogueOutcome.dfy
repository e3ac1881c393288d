/** How the many-command conversation ends: decided by counting announced commands. */
module DialogueOutcome {
  import opened Text
  import opened Numbers
  import opened Commands
  import opened MultipleCommands
  import opened CommandQueue
  import opened Dialogue

  // ----- Counting

  /** How many further commands a command announces. */
  function Announces(m: string): nat {
    var k := Classify(m);
    if k.Many? && k.count > 0 then k.count else 0
  }

  /** How many commands are still due after the first `p`. */
  function Due(cmds: seq<string>, p: nat): int
    requires p <= |cmds|
  {
    if p == 0 then 1 else Due(cmds, p - 1) - 1 + Announces(cmds[p - 1])
  }

  /** The list is exactly what it announces: never complete too early, complete at the end. */
  ghost predicate Exact(cmds: seq<string>) {
    && (forall m :: m in cmds ==> Acceptable(m))
    && Due(cmds, |cmds|) == 0
    && forall p :: 0 <= p < |cmds| ==> Due(cmds, p) > 0
  }

  /** Command `u` is due, and the first one the server refuses. */
  ghost predicate FailsAt(cmds: seq<string>, u: nat) {
    && u < |cmds| && Classify(cmds[u]).Unknown? && !(u == 0 && cmds[0] == "Close")
    && (forall j :: 0 <= j < u ==> Acceptable(cmds[j]))
    && forall p :: 0 <= p <= u ==> Due(cmds, p) > 0
  }

  function Replies(cmds: seq<string>, p: nat, info: string): (rs: seq<string>)
    requires p <= |cmds|
    ensures |rs| == p
  {
    if p == 0 then [] else Replies(cmds, p - 1, info) + [ReplyTo(cmds[p - 1], info)]
  }

  /** Each command's own reply, in order. */
  lemma {:induction false} RepliesInOrder(cmds: seq<string>, p: nat, info: string, j: nat)
    requires j < p <= |cmds|
    ensures Replies(cmds, p, info)[j] == ReplyTo(cmds[j], info)
  {
    hide ReplyTo;
    if j < p - 1 {
      RepliesInOrder(cmds, p - 1, info, j);
    }
  }

  // ----- The server's frames and the count

  function Sum(left: seq<nat>): int {
    if left == [] then 0 else Sum(left[..|left| - 1]) + left[|left| - 1] - 1
  }

  function Pending(s: Server): int {
    match s
    case Top => 1
    case Stopped => 0
    case Nested(left) => Sum(left) + 1
  }

  lemma {:induction false} SumCounts(left: seq<nat>)
    requires Counts(left)
    ensures Sum(left) >= 0
  {
    if left != [] {
      SumCounts(left[..|left| - 1]);
    }
  }

  lemma {:induction false} CompleteCounts(left: seq<nat>)
    requires Counts(left) && left != []
    ensures Pending(Resume(Complete(left)).0) == Sum(left)
  {
    var n := |left| - 1;
    if left[n] > 1 {
      var r := left[..n] + [left[n] - 1];
      assert r[..n] == left[..n] && Complete(left) == r;
    } else if n > 0 {
      CompleteCounts(left[..n]);
    } else {
      assert left[..0] == [];
    }
  }

  /** An accepted command costs one due command, adds what it announces, and gets its own
      reply first; `NONE` follows when that finishes the outermost announcement. */
  ghost predicate AcceptedStep(s: Server, m: string, s': Server, sent: seq<string>, info: string)
    requires Acceptable(m)
  {
    && Pending(s') == Pending(s) - 1 + Announces(m)
    && (s'.Stopped? <==> Pending(s') == 0) && Pending(s') >= 0 && !s'.Top?
    && (s'.Nested? ==> s.Nested? || Classify(m).Many?)
    && sent == [ReplyTo(m, info)] + (if s'.Stopped? && (s.Nested? || Classify(m).Many?) then ["NONE\n"] else [])
  }

  lemma ResumePending(left: seq<nat>)
    requires Counts(left)
    ensures var s := Resume(left).0; Pending(s) >= 0 && (s.Stopped? <==> Pending(s) == 0) && !s.Top?
    ensures Resume(left).1 == if Resume(left).0.Stopped? then ["NONE\n"] else []
  {
    SumCounts(left);
  }

  lemma OnAccepted(s: Server, m: string, info: string)
    requires !s.Stopped? && Sound(s) && Acceptable(m)
    ensures AcceptedStep(s, m, OnMessage(s, m, info).0, OnMessage(s, m, info).1, info)
  {
    hide IndexOf, Classify, Complete, ReplyTo, Sum;
    CloseIsUnknown();
    assert m != "Close";
    var k := Classify(m);
    var left := Open(s);
    if k.Many? && k.count > 0 {
      Pushed(left, k.count);
      assert [ReplyTo(m, info)] + [] == [ReplyTo(m, info)];
      AnnouncementReply(m, info);
    } else if k.Many? || s.Nested? {
      ResumePending(Complete(left));
      if left != [] {
        CompleteCounts(left);
      } else {
        NothingLeft();
      }
    } else {
      assert [ReplyTo(m, info)] + [] == [ReplyTo(m, info)];
    }
  }

  lemma {:induction false} Pushed(left: seq<nat>, n: nat)
    requires Counts(left) && n > 0
    ensures Sum(left + [n]) == Sum(left) + n - 1 && Sum(left) >= 0 && Sum([]) == 0
  {
    SumCounts(left);
    assert (left + [n])[..|left|] == left;
  }

  lemma NothingLeft()
    ensures Complete([]) == []
  {
  }

  lemma AnnouncementReply(m: string, info: string)
    requires Acceptable(m) && Classify(m).Many?
    ensures ReplyTo(m, info) == "OK\n"
  {
  }

  /** The server, and what it sent, after `p` accepted commands. */
  ghost predicate Played(s: Server, sent: seq<string>, cmds: seq<string>, p: nat, info: string)
    requires p <= |cmds| && forall j :: 0 <= j < p ==> Acceptable(cmds[j])
  {
    && Pending(s) == Due(cmds, p) >= 0
    && (s.Stopped? <==> Due(cmds, p) == 0)
    && (s.Top? <==> p == 0) && (s.Nested? ==> Classify(cmds[0]).Many?)
    && sent == Replies(cmds, p, info) + (if s.Stopped? && Classify(cmds[0]).Many? then ["NONE\n"] else [])
  }

  lemma PlayedStep(s: Server, sent: seq<string>, cmds: seq<string>, p: nat, info: string)
    requires p < |cmds| && forall j :: 0 <= j <= p ==> Acceptable(cmds[j])
    requires Defined(cmds[p]) && Sound(s) && !s.Stopped? && Played(s, sent, cmds, p, info)
    ensures var (s', more) := OnMessage(s, cmds[p], info); Played(s', sent + more, cmds, p + 1, info)
  {
    hide OnMessage, Pending, Announces, Classify, ReplyTo, Acceptable;
    OnAccepted(s, cmds[p], info);
    var (s', more) := OnMessage(s, cmds[p], info);
    var done := Replies(cmds, p, info);
    var none: seq<string> := if s'.Stopped? && Classify(cmds[0]).Many? then ["NONE\n"] else [];
    assert sent == done + [] == done;
    assert more == [ReplyTo(cmds[p], info)] + none;
    assert done + ([ReplyTo(cmds[p], info)] + none) == done + [ReplyTo(cmds[p], info)] + none;
  }

  lemma {:induction false} PlayedStart(cmds: seq<string>, info: string)
    requires AllDefined(cmds)
    ensures Played(Play(cmds, 0, info).0, Play(cmds, 0, info).1, cmds, 0, info)
  {
    hide OnMessage;
    assert Replies(cmds, 0, info) + [] == [];
  }

  lemma LiveBefore(cmds: seq<string>, p: nat, info: string)
    requires AllDefined(cmds) && 0 < p <= |cmds| && Live(cmds, p, info)
    ensures Live(cmds, p - 1, info) && !Play(cmds, p - 1, info).0.Stopped?
    ensures Sound(Play(cmds, p - 1, info).0) && Defined(cmds[p - 1])
  {
    hide Play;
  }

  lemma {:induction false} PlayAccepted(cmds: seq<string>, p: nat, info: string)
    requires p <= |cmds| && AllDefined(cmds) && Live(cmds, p, info)
    requires forall j :: 0 <= j < p ==> Acceptable(cmds[j])
    ensures Played(Play(cmds, p, info).0, Play(cmds, p, info).1, cmds, p, info)
  {
    if p == 0 {
      PlayedStart(cmds, info);
    } else {
      LiveBefore(cmds, p, info);
      hide *;
      PlayAccepted(cmds, p - 1, info);
      PlayStep(cmds, p - 1, info);
      PlayedStep(Play(cmds, p - 1, info).0, Play(cmds, p - 1, info).1, cmds, p - 1, info);
    }
  }

  // ----- Which replies stop the client

  lemma NoErrorReplies(m: string, info: string)
    requires Acceptable(m)
    ensures !IsError(ReplyTo(m, info)) && !IsError("NONE\n")
  {
    var r := ReplyTo(m, info);
    assert r == "OK" + "\n" + r[3..];
    ReplyParts("OK", r[3..]);
    assert "NONE\n" == "NONE" + "\n" + "";
    ReplyParts("NONE", "");
  }

  lemma ErrorText(rest: string)
    ensures IsError("ERROR\n" + rest)
  {
    ReplyParts("ERROR", rest);
    assert "ERROR\n" + rest == "ERROR" + "\n" + rest;
    assert ("ERROR\n" + rest)[5] == '\n';
  }

  lemma {:induction false} ChainIsError(depth: nat)
    ensures IsError(Chain(depth, NOT_FOUND))
  {
    hide IsError;
    if depth == 0 {
      ErrorText("Command not found");
      assert NOT_FOUND == "ERROR\n" + "Command not found";
    } else {
      ErrorText(Chain(depth - 1, NOT_FOUND));
    }
  }

  /** The packets a server has sent after accepting `p` commands, the last `NONE` included. */
  function Packets(cmds: seq<string>, p: nat, through: bool, info: string): seq<string>
    requires p <= |cmds|
    requires through ==> cmds != []
  {
    Replies(cmds, p, info) + (if through && Classify(cmds[0]).Many? then ["NONE\n"] else [])
  }

  lemma NoErrorIn(cmds: seq<string>, p: nat, through: bool, info: string)
    requires p <= |cmds| && forall j :: 0 <= j < p ==> Acceptable(cmds[j])
    requires through ==> cmds != []
    ensures forall k :: 0 <= k < |Packets(cmds, p, through, info)| ==> !IsError(Packets(cmds, p, through, info)[k])
    ensures p <= |Packets(cmds, p, through, info)| && (!through ==> |Packets(cmds, p, through, info)| == p)
  {
    var all := Packets(cmds, p, through, info);
    forall k | 0 <= k < |all| ensures !IsError(all[k]) {
      if k < p {
        NoErrorReplies(cmds[k], info);
        RepliesInOrder(cmds, p, info, k);
        assert all[k] == ReplyTo(cmds[k], info);
      } else {
        NoneIsNoError();
        assert all[k] == "NONE\n";
      }
    }
  }

  lemma NoneIsNoError()
    ensures !IsError("NONE\n")
  {
    assert "NONE\n" == "NONE" + "\n" + "";
    ReplyParts("NONE", "");
  }

  lemma {:induction false} PlayedPackets(cmds: seq<string>, p: nat, info: string)
    requires p <= |cmds| && AllDefined(cmds) && Live(cmds, p, info)
    requires forall j :: 0 <= j < p ==> Acceptable(cmds[j])
    ensures var (s, sent) := Play(cmds, p, info);
      && (s.Stopped? <==> Due(cmds, p) == 0) && (s.Stopped? ==> p > 0)
      && (s.Stopped? ==> cmds != [])
      && sent == Packets(cmds, p, s.Stopped?, info)
  {
    hide Play, Pending, Due, Classify, Acceptable, Replies, Live;
    PlayAccepted(cmds, p, info);
  }

  /** The client's side of a finished conversation in which nothing was refused. */
  lemma ClientEnd(t: State, cmds: seq<string>, p: nat, all: seq<string>)
    requires Terminal(t) && ClientKeeps(t, cmds)
    requires p <= Sent(t, cmds) <= |cmds| && t.up == cmds[p..Sent(t, cmds)]
    requires t.replies + t.down == all && (forall k :: 0 <= k < |all| ==> !IsError(all[k]))
    requires p <= |all| && (!t.server.Stopped? ==> |all| == p)
    ensures t.client != Finished(false)
    ensures !t.server.Stopped? ==> t.client == Finished(true) && p == |cmds| && t.up == []
    ensures t.server.Stopped? && t.client.Waiting? ==> p < Sent(t, cmds)
  {
    hide IsError;
    assert forall k :: 0 <= k < |t.replies| ==> all[k] == t.replies[k];
    assert |t.replies| > 0 ==> !IsError(t.replies[|t.replies| - 1]);
  }

  /** Where a finished conversation stands while the server has accepted everything so far. */
  lemma {:induction false} AcceptedEnd(t: State, cmds: seq<string>, p: nat, info: string)
    requires AllDefined(cmds) && Terminal(t) && ClientKeeps(t, cmds) && ServerKeeps(t, cmds, p, info)
    requires forall j :: 0 <= j < p ==> Acceptable(cmds[j])
    ensures t.server.Stopped? <==> Due(cmds, p) == 0
    ensures t.server.Stopped? ==> cmds != []
    ensures t.replies + t.down == Packets(cmds, p, t.server.Stopped?, info)
    ensures t.client != Finished(false)
    ensures !t.server.Stopped? ==> t.client == Finished(true) && p == |cmds| && t.up == []
    ensures t.server.Stopped? && t.client.Waiting? ==> p < Sent(t, cmds)
  {
    hide Play, Live, IsError, Packets, Due, ClientKeeps, Terminal, Sent, Acceptable;
    PlayedPackets(cmds, p, info);
    NoErrorIn(cmds, p, t.server.Stopped?, info);
    ClientEnd(t, cmds, p, Packets(cmds, p, t.server.Stopped?, info));
  }

  /** A list that is exactly what it announces: both sides stop, every command has its own
      reply, in order, and the only packet left unread is the final `NONE`. */
  lemma {:induction false} ExactSucceeds(t: State, cmds: seq<string>, info: string)
    requires AllDefined(cmds) && Exact(cmds) && Reachable(t, cmds, info) && Terminal(t)
    ensures t.client == Finished(true) && t.server.Stopped? && t.up == []
    ensures cmds != [] && t.replies == Replies(cmds, |cmds|, info)
    ensures t.down == if Classify(cmds[0]).Many? then ["NONE\n"] else []
  {
    hide Play, Live, IsError, Classify;
    ReachableInvariant(t, cmds, info);
    var p: nat :| ServerKeeps(t, cmds, p, info);
    AcceptedEnd(t, cmds, p, info);
    assert p == |cmds|;
    assert t.replies == (t.replies + t.down)[..|t.replies|];
  }

  lemma {:induction false} LiveWhileDue(cmds: seq<string>, u: nat, info: string)
    requires AllDefined(cmds) && u < |cmds|
    requires forall j :: 0 <= j < u ==> Acceptable(cmds[j])
    requires forall p :: 0 <= p <= u ==> Due(cmds, p) > 0
    ensures Live(cmds, u, info) && !Play(cmds, u, info).0.Stopped?
    ensures Play(cmds, u, info).1 == Replies(cmds, u, info)
  {
    hide Live, Play, Due, Acceptable, Packets, AllDefined, Replies;
    if u > 0 {
      LiveWhileDue(cmds, u - 1, info);
      PlayStep(cmds, u - 1, info);
    } else {
      LiveAtFirst(cmds, info);
    }
    PlayedPackets(cmds, u, info);
    NotThrough(cmds, u, info);
  }

  lemma LiveAtFirst(cmds: seq<string>, info: string)
    requires AllDefined(cmds)
    ensures Live(cmds, 0, info)
  {
  }

  lemma {:induction false} NotThrough(cmds: seq<string>, p: nat, info: string)
    requires p <= |cmds|
    ensures Packets(cmds, p, false, info) == Replies(cmds, p, info)
  {
  }

  lemma PlayRefused(cmds: seq<string>, u: nat, info: string)
    requires AllDefined(cmds) && FailsAt(cmds, u)
    ensures Play(cmds, u + 1, info)
         == (Stopped, Replies(cmds, u, info) + [Chain(|Open(Play(cmds, u, info).0)|, NOT_FOUND)])
  {
    hide Play, Due;
    LiveWhileDue(cmds, u, info);
    PlayStep(cmds, u, info);
    var s := Play(cmds, u, info).0;
    assert s.Top? ==> u == 0 by {
      PlayAccepted(cmds, u, info);
    }
  }

  /** The first refused command ends everything: both sides stop, the commands before it
      have their replies, one error packet answers it, and nothing is left unread. */
  lemma {:induction false} RefusedFails(t: State, cmds: seq<string>, u: nat, info: string)
    requires AllDefined(cmds) && FailsAt(cmds, u) && Reachable(t, cmds, info) && Terminal(t)
    ensures t.client == Finished(false) && t.server.Stopped? && t.up == [] && t.down == []
    ensures t.replies == Replies(cmds, u, info) + [Chain(|Open(Play(cmds, u, info).0)|, NOT_FOUND)]
  {
    hide Play, Live, IsError, Terminal, Acceptable, Due, Open, Chain, Replies, ClientKeeps, Sent, AllDefined;
    ReachableInvariant(t, cmds, info);
    var p: nat :| ServerKeeps(t, cmds, p, info);
    PlayRefused(cmds, u, info);
    LiveBound(cmds, p, u + 1, info);
    RefusalReached(t, cmds, u, p, info);
    var depth := |Open(Play(cmds, u, info).0)|;
    assert t.replies + t.down == Replies(cmds, u, info) + [Chain(depth, NOT_FOUND)];
    assert u + 1 <= Sent(t, cmds) <= |cmds| && t.up == cmds[u + 1..Sent(t, cmds)] && t.server.Stopped?;
    FineReplies(cmds, u, info);
    ChainIsError(depth);
    RefusedEnd(t, cmds, u, Replies(cmds, u, info), Chain(depth, NOT_FOUND));
  }

  /** The conversation does not end before the refused command has been answered. */
  lemma RefusalReached(t: State, cmds: seq<string>, u: nat, p: nat, info: string)
    requires AllDefined(cmds) && FailsAt(cmds, u) && Terminal(t)
    requires ClientKeeps(t, cmds) && ServerKeeps(t, cmds, p, info) && p <= u + 1
    ensures p == u + 1
  {
    if p <= u {
      AcceptedEnd(t, cmds, p, info);
      assert false by {
        hide Play, Live, IsError, ClientKeeps, ServerKeeps, Terminal, Acceptable, Due, Packets, AllDefined;
      }
    }
  }

  lemma {:induction false} LiveBound(cmds: seq<string>, p: nat, q: nat, info: string)
    requires AllDefined(cmds) && p <= |cmds| && q <= |cmds| && Live(cmds, p, info) && Play(cmds, q, info).0.Stopped?
    ensures p <= q
  {
    hide Play;
  }

  lemma {:induction false} FineReplies(cmds: seq<string>, u: nat, info: string)
    requires u <= |cmds| && forall j :: 0 <= j < u ==> Acceptable(cmds[j])
    ensures forall k :: 0 <= k < u ==> !IsError(Replies(cmds, u, info)[k])
  {
    forall k | 0 <= k < u ensures !IsError(Replies(cmds, u, info)[k]) {
      NoErrorReplies(cmds[k], info);
      RepliesInOrder(cmds, u, info, k);
    }
  }

  lemma RefusedEnd(t: State, cmds: seq<string>, u: nat, fine: seq<string>, error: string)
    requires Terminal(t) && ClientKeeps(t, cmds) && u + 1 <= Sent(t, cmds) <= |cmds| && u < |cmds|
    requires |fine| == u && t.replies + t.down == fine + [error]
    requires (forall k :: 0 <= k < u ==> !IsError(fine[k])) && IsError(error)
    ensures t.client == Finished(false) && t.down == [] && t.replies == fine + [error] && Sent(t, cmds) == u + 1
  {
    hide IsError;
    var all := t.replies + t.down;
    assert forall k :: 0 <= k < |t.replies| ==> all[k] == t.replies[k];
    assert all[u] == error;
    assert forall k :: 0 <= k < u ==> all[k] == fine[k];
  }

  // ----- Exactly the lists that end well

  /** Both sides have stopped, no packet to the server is left, and at most the final
      `NONE` to the client. */
  predicate CleanEnd(t: State) {
    t.client.Finished? && t.server.Stopped? && t.up == [] && (t.down == [] || t.down == ["NONE\n"])
  }

  lemma {:induction false} LiveMeansDue(cmds: seq<string>, p: nat, info: string)
    requires AllDefined(cmds) && p <= |cmds| && Live(cmds, p, info)
    requires forall j :: 0 <= j < p ==> Acceptable(cmds[j])
    ensures forall k :: 0 <= k < p ==> Due(cmds, k) > 0
  {
    forall k | 0 <= k < p ensures Due(cmds, k) > 0 {
      PlayAccepted(cmds, k, info);
    }
  }

  lemma FirstRefused(cmds: seq<string>, p: nat) returns (j: nat)
    requires p <= |cmds|
    ensures j <= p && (forall i :: 0 <= i < j ==> Acceptable(cmds[i])) && (j < p ==> !Acceptable(cmds[j]))
  {
    hide Acceptable;
    j := 0;
    while j < p && Acceptable(cmds[j])
      invariant j <= p && forall i :: 0 <= i < j ==> Acceptable(cmds[i])
    {
      j := j + 1;
    }
  }

  lemma {:induction false} CloseUnanswered(cmds: seq<string>, info: string)
    requires AllDefined(cmds) && cmds != [] && cmds[0] == "Close"
    ensures Play(cmds, 1, info) == (Stopped, [])
  {
    hide Classify;
    assert Play(cmds, 0, info) == (Top, []);
    assert OnMessage(Top, "Close", info) == (Stopped, []);
    var none: seq<string> := [];
    assert none + none == none;
  }

  lemma CleanMeansGood(t: State, cmds: seq<string>, info: string)
    requires AllDefined(cmds) && Reachable(t, cmds, info) && Terminal(t) && CleanEnd(t)
    ensures Exact(cmds) || exists u: nat :: FailsAt(cmds, u)
  {
    ReachableInvariant(t, cmds, info);
    var p: nat :| ServerKeeps(t, cmds, p, info);
    var j := FirstRefused(cmds, p);
    LiveMeansDue(cmds, j, info);
    if j == p {
      AcceptedEnd(t, cmds, p, info);
      hide Play, Live, Due, IsError, Acceptable, Packets;
      assert p == |cmds|;
    } else {
      LiveBeforeRefusal(cmds, j, p, info);
      if j == 0 && cmds[0] == "Close" {
        NeverAnswered(t, cmds, p, info);
        assert false;
      } else {
        hide Play, Live, Due, IsError, ClientKeeps, ServerKeeps;
        assert Defined(cmds[j]) && Classify(cmds[j]).Unknown?;
        assert FailsAt(cmds, j);
      }
    }
  }

  lemma {:induction false} LiveBeforeRefusal(cmds: seq<string>, j: nat, p: nat, info: string)
    requires AllDefined(cmds) && j < p <= |cmds| && Live(cmds, p, info)
    requires forall i :: 0 <= i < j ==> Acceptable(cmds[i])
    ensures forall k :: 0 <= k <= j ==> Due(cmds, k) > 0
  {
    forall k | 0 <= k <= j ensures Due(cmds, k) > 0 {
      PlayAccepted(cmds, k, info);
    }
  }

  /** A client whose only command is the unanswered `Close` goes on waiting. */
  lemma NeverAnswered(t: State, cmds: seq<string>, p: nat, info: string)
    requires AllDefined(cmds) && cmds != [] && ClientKeeps(t, cmds) && ServerKeeps(t, cmds, p, info)
    requires p > 0 && cmds[0] == "Close"
    ensures !t.client.Finished?
  {
    hide Play, Live, IsError;
    CloseUnanswered(cmds, info);
    LiveBound(cmds, p, 1, info);
    assert |t.replies + t.down| == 0;
  }

  /** The conversation about a list ends cleanly exactly when the list is what it announces,
      or a due command is refused. All others leave one side waiting or a packet unread. */
  lemma EndsCleanlyIff(t: State, cmds: seq<string>, info: string)
    requires AllDefined(cmds) && Reachable(t, cmds, info) && Terminal(t)
    ensures CleanEnd(t) <==> Exact(cmds) || exists u: nat :: FailsAt(cmds, u)
  {
    if CleanEnd(t) {
      CleanMeansGood(t, cmds, info);
    }
    if Exact(cmds) {
      ExactSucceeds(t, cmds, info);
    }
    if u: nat :| FailsAt(cmds, u) {
      RefusedFails(t, cmds, u, info);
    }
  }

  // ----- The queue that `add` and `edit` build

  lemma ClassifyEach(verb: string, path: string)
    requires verb == "Add" || verb == "Edit"
    ensures Acceptable(verb + "?" + path) && Announces(verb + "?" + path) == 0
  {
    hide Classify, FirstParameter;
    ClassifyPath(verb, path);
  }

  lemma {:induction false} AnnouncedDue(verb: string, paths: seq<string>, p: nat)
    requires verb == "Add" || verb == "Edit"
    requires |paths| < 0x8000_0000 && 1 <= p <= |paths| + 1
    ensures Due(Announced(verb, paths), p) == |paths| + 1 - p
  {
    hide Classify, Decimal;
    var cmds := Announced(verb, paths);
    AnnouncementRoundTrip(|paths|);
    if p > 1 {
      AnnouncedDue(verb, paths, p - 1);
      ClassifyEach(verb, paths[p - 2]);
      assert cmds[p - 1] == Each(verb, paths)[p - 2];
    } else {
      assert Due(cmds, 0) == 1;
    }
  }

  /** The announced queue is exact, so its conversation with an authenticated server always
      succeeds, one reply per file. */
  lemma AnnouncedIsExact(verb: string, paths: seq<string>)
    requires verb == "Add" || verb == "Edit"
    requires |paths| < 0x8000_0000
    ensures var cmds := Announced(verb, paths);
      Exact(cmds) && AllDefined(cmds) && Classify(cmds[0]) == Many(|paths|)
  {
    hide Classify, Decimal, Due;
    var cmds := Announced(verb, paths);
    AnnouncementRoundTrip(|paths|);
    forall k | 0 <= k < |cmds| ensures Acceptable(cmds[k]) {
      if k > 0 {
        ClassifyEach(verb, paths[k - 1]);
        assert cmds[k] == Each(verb, paths)[k - 1];
      }
    }
    forall p | 0 <= p <= |cmds| ensures Due(cmds, p) == if p == 0 then 1 else |paths| + 1 - p {
      if p > 0 {
        AnnouncedDue(verb, paths, p);
      } else {
        DueFirst(cmds);
      }
    }
  }

  lemma {:induction false} DueFirst(cmds: seq<string>)
    ensures Due(cmds, 0) == 1
  {
  }
}
