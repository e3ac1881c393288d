/** The conversation of `SendCommandMultiple` with an authenticated server, over two FIFO
    channels of packets, under every interleaving. */
module Dialogue {
  import opened Text
  import opened Commands
  import opened MultipleCommands

  datatype Client = Ready(queue: seq<string>) | Waiting(queue: seq<string>) | Finished(ok: bool)

  datatype State = State(client: Client, server: Server, up: seq<string>, down: seq<string>, replies: seq<string>)

  /** A reply on which the client gives up. */
  predicate IsError(m: string) {
    IndexOf(m, '\n') != NPOS && FirstLine(m) == "ERROR"
  }

  function Start(cmds: seq<string>): State {
    State(Ready(cmds), Top, [], [], [])
  }

  datatype Step = Send | Finish | Receive | Serve

  predicate Enabled(s: State, step: Step) {
    match step
    case Send => s.client.Ready? && s.client.queue != []
    case Finish => s.client.Ready? && s.client.queue == []
    case Receive => s.client.Waiting? && s.down != []
    case Serve => !s.server.Stopped? && s.up != []
  }

  ghost predicate Sane(s: State) {
    && Sound(s.server)
    && (forall m :: m in s.up ==> Defined(m))
    && (!s.client.Finished? ==> forall m :: m in s.client.queue ==> Defined(m))
    && (s.client.Waiting? ==> s.client.queue != [])
  }

  function Next(s: State, step: Step, info: string): State
    requires Sane(s) && Enabled(s, step)
  {
    match step
    case Send => s.(client := Waiting(s.client.queue), up := s.up + [s.client.queue[0]])
    case Finish => s.(client := Finished(true))
    case Receive =>
      var m := s.down[0];
      s.(client := if IsError(m) then Finished(false) else Ready(s.client.queue[1..]),
         down := s.down[1..], replies := s.replies + [m])
    case Serve =>
      var (server, sent) := OnMessage(s.server, s.up[0], info);
      s.(server := server, up := s.up[1..], down := s.down + sent)
  }

  /** `t` is where the steps lead from `s`. */
  ghost predicate Leads(s: State, steps: seq<Step>, t: State, info: string)
    requires Sane(s)
    decreases |steps|
  {
    if steps == [] then s == t
    else Enabled(s, steps[0]) && Sane(Next(s, steps[0], info)) && Leads(Next(s, steps[0], info), steps[1..], t, info)
  }

  predicate Terminal(s: State) {
    !Enabled(s, Send) && !Enabled(s, Finish) && !Enabled(s, Receive) && !Enabled(s, Serve)
  }

  // ----- Every run ends

  function Measure(s: State): nat {
    |s.up| + match s.client
    case Ready(q) => 3 * |q| + 1
    case Waiting(q) => if q == [] then 0 else 3 * |q| - 1
    case Finished(_) => 0
  }

  lemma {:induction false} RunsAreShort(s: State, steps: seq<Step>, t: State, info: string)
    requires Sane(s) && Leads(s, steps, t, info)
    ensures |steps| + Measure(t) <= Measure(s)
    decreases |steps|
  {
    if steps != [] {
      var s' := Next(s, steps[0], info);
      assert Measure(s') < Measure(s) by {
        hide OnMessage;
      }
      RunsAreShort(s', steps[1..], t, info);
    }
  }

  // ----- What the server has done after each message

  ghost predicate AllDefined(cmds: seq<string>) {
    forall m :: m in cmds ==> Defined(m)
  }

  /** The server and everything it sent after the first `p` commands. */
  ghost function Play(cmds: seq<string>, p: nat, info: string): (r: (Server, seq<string>))
    requires p <= |cmds| && AllDefined(cmds)
    ensures Sound(r.0)
  {
    if p == 0 then (Top, [])
    else
      var (server, sent) := Play(cmds, p - 1, info);
      if server.Stopped? then (server, sent)
      else
        var (server', more) := OnMessage(server, cmds[p - 1], info);
        (server', sent + more)
  }

  /** The server was still waiting for each of the first `p` commands. */
  ghost predicate Live(cmds: seq<string>, p: nat, info: string)
    requires p <= |cmds| && AllDefined(cmds)
  {
    forall j :: 0 <= j < p ==> !Play(cmds, j, info).0.Stopped?
  }

  ghost function Sent(s: State, cmds: seq<string>): int {
    match s.client
    case Ready(q) => |cmds| - |q|
    case Waiting(q) => |cmds| - |q| + 1
    case Finished(_) => |s.replies|
  }

  ghost predicate ClientKeeps(s: State, cmds: seq<string>) {
    var n := |s.replies|;
    && n <= |cmds|
    && (s.client.Ready? ==> s.client.queue == cmds[n..])
    && (s.client.Waiting? ==> n < |cmds| && s.client.queue == cmds[n..])
    && (s.client.Finished? && s.client.ok ==> n == |cmds|)
    && (forall k :: 0 <= k < n ==>
          (IsError(s.replies[k]) <==> s.client == Finished(false) && k == n - 1))
    && (s.client == Finished(false) ==> n > 0)
  }

  ghost predicate ServerKeeps(s: State, cmds: seq<string>, p: nat, info: string)
    requires AllDefined(cmds)
  {
    && p <= Sent(s, cmds) <= |cmds|
    && s.up == cmds[p..Sent(s, cmds)]
    && Live(cmds, p, info)
    && Play(cmds, p, info) == (s.server, s.replies + s.down)
  }

  /** What every reachable state keeps. */
  ghost predicate Invariant(s: State, cmds: seq<string>, info: string)
    requires AllDefined(cmds)
  {
    ClientKeeps(s, cmds) && exists p: nat :: ServerKeeps(s, cmds, p, info)
  }

  lemma InvariantIsSane(s: State, cmds: seq<string>, info: string)
    requires AllDefined(cmds) && Invariant(s, cmds, info)
    ensures Sane(s)
  {
    var p: nat :| ServerKeeps(s, cmds, p, info);
    assert forall m :: m in s.up ==> m in cmds;
  }

  lemma PlayStep(cmds: seq<string>, p: nat, info: string)
    requires AllDefined(cmds) && p < |cmds| && Live(cmds, p, info) && !Play(cmds, p, info).0.Stopped?
    ensures Live(cmds, p + 1, info)
    ensures var (server, sent) := Play(cmds, p, info);
      var (server', more) := OnMessage(server, cmds[p], info);
      Play(cmds, p + 1, info) == (server', sent + more)
  {
    hide OnMessage;
  }

  lemma ServeKeeps(s: State, cmds: seq<string>, info: string)
    requires AllDefined(cmds) && Invariant(s, cmds, info)
    requires Sane(s) && Enabled(s, Serve)
    ensures Invariant(Next(s, Serve, info), cmds, info)
  {
    hide Play, OnMessage, Live, ClientKeeps;
    var p: nat :| ServerKeeps(s, cmds, p, info);
    var s' := Next(s, Serve, info);
    assert s.up[0] == cmds[p] && s.up[1..] == cmds[p + 1..Sent(s, cmds)];
    PlayStep(cmds, p, info);
    var more := OnMessage(s.server, cmds[p], info).1;
    assert s.replies + s.down + more == s.replies + (s.down + more);
    assert ServerKeeps(s', cmds, p + 1, info);
    ClientUntouched(s, s', cmds);
  }

  lemma ClientUntouched(s: State, s': State, cmds: seq<string>)
    requires ClientKeeps(s, cmds) && s'.client == s.client && s'.replies == s.replies
    ensures ClientKeeps(s', cmds)
  {
  }

  lemma SendKeeps(s: State, cmds: seq<string>, info: string)
    requires AllDefined(cmds) && Invariant(s, cmds, info) && Sane(s) && Enabled(s, Send)
    ensures Invariant(Next(s, Send, info), cmds, info)
  {
    hide Play, OnMessage, Live, IsError;
    var p: nat :| ServerKeeps(s, cmds, p, info);
    assert ServerKeeps(Next(s, Send, info), cmds, p, info);
  }

  lemma FinishKeeps(s: State, cmds: seq<string>, info: string)
    requires AllDefined(cmds) && Invariant(s, cmds, info) && Sane(s) && Enabled(s, Finish)
    ensures Invariant(Next(s, Finish, info), cmds, info)
  {
    hide Play, OnMessage, Live, IsError;
    var p: nat :| ServerKeeps(s, cmds, p, info);
    assert ServerKeeps(Next(s, Finish, info), cmds, p, info);
  }

  lemma ReceiveKeeps(s: State, cmds: seq<string>, info: string)
    requires AllDefined(cmds) && Invariant(s, cmds, info) && Sane(s) && Enabled(s, Receive)
    ensures Invariant(Next(s, Receive, info), cmds, info)
  {
    hide Play, OnMessage, Live, IsError;
    var p: nat :| ServerKeeps(s, cmds, p, info);
    var s' := Next(s, Receive, info);
    assert s.replies + s.down == s'.replies + s'.down;
    assert ServerKeeps(s', cmds, p, info);
    var n := |s.replies|;
    assert forall k :: 0 <= k < n ==> s'.replies[k] == s.replies[k];
    assert cmds[n..][1..] == cmds[n + 1..];
  }

  lemma {:induction false} ReachableKeeps(s: State, steps: seq<Step>, t: State, cmds: seq<string>, info: string)
    requires AllDefined(cmds) && Invariant(s, cmds, info) && Sane(s) && Leads(s, steps, t, info)
    ensures Invariant(t, cmds, info)
    decreases |steps|
  {
    if steps != [] {
      match steps[0] {
        case Send => SendKeeps(s, cmds, info);
        case Finish => FinishKeeps(s, cmds, info);
        case Receive => ReceiveKeeps(s, cmds, info);
        case Serve => ServeKeeps(s, cmds, info);
      }
      ReachableKeeps(Next(s, steps[0], info), steps[1..], t, cmds, info);
    }
  }

  /** A state some run of the conversation about `cmds` reaches. */
  ghost predicate Reachable(t: State, cmds: seq<string>, info: string)
    requires AllDefined(cmds)
  {
    Sane(Start(cmds)) && exists steps: seq<Step> :: Leads(Start(cmds), steps, t, info)
  }

  lemma ReachableInvariant(t: State, cmds: seq<string>, info: string)
    requires AllDefined(cmds) && Reachable(t, cmds, info)
    ensures Invariant(t, cmds, info) && Sane(t)
  {
    var s := Start(cmds);
    var steps: seq<Step> :| Leads(s, steps, t, info);
    assert s.replies + s.down == [];
    assert ServerKeeps(s, cmds, 0, info);
    ReachableKeeps(s, steps, t, cmds, info);
    InvariantIsSane(t, cmds, info);
  }
}
