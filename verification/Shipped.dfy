/** `SendCommandMultiple` as it is shipped: it sends its queue at once, but the server's thread
    starts with `Authenticate`. The client's steps and the channels are those of the dialogue;
    the server authenticates first and serves the dialogue only after that. */
module Shipped {
  import opened Text
  import opened Numbers
  import opened Crypto
  import opened AuthMessage
  import opened Session
  import opened UserTable
  import opened Conversation
  import Commands
  import CommandQueue
  import Dialogue
  import DialogueOutcome
  import Lockstep
  import MultipleCommands

  /** `gate` is where the server is in its authentication; the dialogue's server is behind it. */
  datatype State = State(dialogue: Dialogue.State, gate: Server)

  function Start(cmds: seq<string>): State {
    State(Dialogue.Start(cmds), Listening(false))
  }

  /** The client's steps, the server's authentication against whatever the table then is, and
      the steps of a server that has let the client in. */
  datatype Step =
    | Sends
    | Finishes
    | Receives
    | Judges(table: Table, now: int, fails: bool)
    | Stores(stored: bool)
    | Serves

  /** The connection as the server's thread sees it while it authenticates. */
  function Gate(s: State): Conn {
    Conn("", "", Over(false, false, ""), s.gate, s.dialogue.up, s.dialogue.down, Missing(false), -1, -1)
  }

  function Through(s: State, c: Conn): State {
    State(s.dialogue.(up := c.up, down := c.down), c.server)
  }

  predicate Enabled(s: State, step: Step) {
    match step
    case Sends => Dialogue.Enabled(s.dialogue, Dialogue.Send)
    case Finishes => Dialogue.Enabled(s.dialogue, Dialogue.Finish)
    case Receives => Dialogue.Enabled(s.dialogue, Dialogue.Receive)
    case Judges(_, _, _) => s.gate.Listening? && s.dialogue.up != []
    case Stores(_) => s.gate.Storing?
    case Serves => s.gate.Serving? && Dialogue.Enabled(s.dialogue, Dialogue.Serve)
  }

  function Next(digest: string -> Digest, s: State, step: Step, info: string): State
    requires Dialogue.Sane(s.dialogue) && Enabled(s, step)
  {
    match step
    case Sends => s.(dialogue := Dialogue.Next(s.dialogue, Dialogue.Send, info))
    case Finishes => s.(dialogue := Dialogue.Next(s.dialogue, Dialogue.Finish, info))
    case Receives => s.(dialogue := Dialogue.Next(s.dialogue, Dialogue.Receive, info))
    case Judges(table, now, fails) => Through(s, ServerJudge(digest, Gate(s), table, now, fails))
    case Stores(stored) => Through(s, ServerStore(Gate(s), stored, 0))
    case Serves => s.(dialogue := Dialogue.Next(s.dialogue, Dialogue.Serve, info))
  }

  ghost predicate Leads(digest: string -> Digest, s: State, steps: seq<Step>, t: State, info: string)
    decreases |steps|
  {
    Dialogue.Sane(s.dialogue) &&
    if steps == [] then s == t
    else Enabled(s, steps[0]) && Leads(digest, Next(digest, s, steps[0], info), steps[1..], t, info)
  }

  /** Nobody can move. */
  ghost predicate Terminal(s: State) {
    forall step: Step :: !Enabled(s, step)
  }

  // ----- What the server makes of a command

  lemma {:induction false} NoPairs(tokens: seq<string>, c: Credential)
    requires forall k :: 0 <= k < |tokens| ==> Free(tokens[k], '=')
    ensures ApplyAll(tokens, c) == c
  {
    if tokens != [] {
      NoPairs(tokens[1..], c);
    }
  }

  lemma {:induction false} PiecesStayFree(s: string, c: char, d: char)
    requires Free(s, d)
    ensures forall k :: 0 <= k < |Split(s, c)| ==> Free(Split(s, c)[k], d)
    decreases |s|
  {
    var p := IndexOf(s, c);
    if p != NPOS {
      PiecesStayFree(s[p + 1..], c, d);
    }
  }

  /** A message without `=` names no user, so no table accepts it as an authentication. */
  lemma NoUserRejected(digest: string -> Digest, table: Table, message: string, now: int, fails: bool)
    requires Free(message, '=')
    ensures Judge(digest, table, message, now, fails) == Reject
  {
    PiecesStayFree(message, ';', '=');
    NoPairs(Split(message, ';'), BLANK);
  }

  lemma AnnouncementNamesNobody(verb: string, paths: seq<string>)
    ensures Free(CommandQueue.Announced(verb, paths)[0], '=')
  {
    hide Decimal;
    assert Free("MultipleCommands?", '=');
    FreeConcat("MultipleCommands?", Decimal(|paths|), '=');
  }

  // ----- The whole run

  /** The four states of a refused conversation: queue in hand, first command on its way,
      refusal on its way, refusal read. The dialogue's server is never reached. */
  function Phase(cmds: seq<string>, k: nat): State
    requires cmds != []
  {
    if k == 0 then Start(cmds)
    else if k == 1 then
      State(Dialogue.State(Dialogue.Waiting(cmds), MultipleCommands.Top, [cmds[0]], [], []), Listening(false))
    else if k == 2 then
      State(Dialogue.State(Dialogue.Waiting(cmds), MultipleCommands.Top, [], [REFUSAL], []), Closed(Refused))
    else
      State(Dialogue.State(Dialogue.Finished(false), MultipleCommands.Top, [], [], [REFUSAL]), Closed(Refused))
  }

  lemma RefusalIsError()
    ensures Dialogue.IsError(REFUSAL) && AfterFirstLine(REFUSAL) == ""
  {
    hide FirstLine, AfterFirstLine;
    Lockstep.FixedPackets();
    assert REFUSAL[5] == '\n';
  }

  lemma PhaseSteps(digest: string -> Digest, cmds: seq<string>, k: nat, step: Step, info: string)
    requires cmds != [] && Free(cmds[0], '=') && k <= 3
    requires Dialogue.Sane(Phase(cmds, k).dialogue) && Enabled(Phase(cmds, k), step)
    ensures k < 3 && Next(digest, Phase(cmds, k), step, info) == Phase(cmds, k + 1)
  {
    hide Judge, Dialogue.IsError, FirstLine, AfterFirstLine, Commands.Classify;
    RefusalIsError();
    if step.Judges? {
      NoUserRejected(digest, step.table, cmds[0], step.now, step.fails);
    }
    assert [] + [cmds[0]] == [cmds[0]] && [cmds[0]][1..] == [];
  }

  lemma {:induction false} PhaseRuns(digest: string -> Digest, cmds: seq<string>, k: nat, steps: seq<Step>, t: State,
                                     info: string)
    requires cmds != [] && Free(cmds[0], '=') && k <= 3
    requires Leads(digest, Phase(cmds, k), steps, t, info)
    ensures k + |steps| <= 3 && t == Phase(cmds, k + |steps|)
    decreases |steps|
  {
    hide Phase, Enabled, Next;
    if steps != [] {
      PhaseSteps(digest, cmds, k, steps[0], info);
      PhaseRuns(digest, cmds, k + 1, steps[1..], t, info);
    }
  }

  /** Somebody can move until the refusal has been read. */
  lemma PhaseMoves(cmds: seq<string>, k: nat)
    requires cmds != [] && k <= 3
    ensures Terminal(Phase(cmds, k)) <==> k == 3
  {
    var s := Phase(cmds, k);
    assert k == 0 ==> Enabled(s, Sends);
    assert k == 1 ==> Enabled(s, Judges(map[], 0, false));
    assert k == 2 ==> Enabled(s, Receives);
  }

  /** A queue whose first command holds no `=`, sent without authentication: every run has at
      most three steps, it can stop only after all three, and then the client has given up with
      the refusal as the one reply, the server is closed, nothing is on its way and no command
      has been served. */
  lemma {:induction false} QueueRefused(digest: string -> Digest, cmds: seq<string>, steps: seq<Step>, t: State,
                                        info: string)
    requires cmds != [] && Free(cmds[0], '=')
    requires Leads(digest, Start(cmds), steps, t, info)
    ensures |steps| <= 3 && (Terminal(t) <==> |steps| == 3)
    ensures t.dialogue.server == MultipleCommands.Top
    ensures Terminal(t) ==>
      && t.dialogue.client == Dialogue.Finished(false) && t.dialogue.replies == [REFUSAL]
      && t.gate == Closed(Refused) && t.dialogue.up == [] && t.dialogue.down == []
  {
    PhaseRuns(digest, cmds, 0, steps, t, info);
    PhaseMoves(cmds, |steps|);
    hide Leads, Terminal;
  }

  /** So `add` and `edit` of a directory are always refused, for every table, list of files and
      clock, with an empty error text. */
  lemma {:induction false} DirectoryRefused(digest: string -> Digest, verb: string, paths: seq<string>,
                                            steps: seq<Step>, t: State, info: string)
    requires verb == "Add" || verb == "Edit"
    requires |paths| < 0x8000_0000
    requires Leads(digest, Start(CommandQueue.Announced(verb, paths)), steps, t, info)
    ensures |steps| <= 3 && (Terminal(t) <==> |steps| == 3)
    ensures Terminal(t) ==>
      && t.dialogue.client == Dialogue.Finished(false) && t.dialogue.replies == [REFUSAL] && t.gate == Closed(Refused)
      && t.dialogue.server == MultipleCommands.Top && AfterFirstLine(t.dialogue.replies[0]) == ""
  {
    hide Leads, Terminal, AfterFirstLine, Decimal;
    AnnouncementNamesNobody(verb, paths);
    RefusalIsError();
    QueueRefused(digest, CommandQueue.Announced(verb, paths), steps, t, info);
  }

  /** There are such runs: the queue starts out sane, and the three steps lead to the end. */
  lemma {:induction false} RefusalReachable(digest: string -> Digest, verb: string, paths: seq<string>, table: Table,
                                            now: int, fails: bool, info: string)
    requires verb == "Add" || verb == "Edit"
    requires |paths| < 0x8000_0000
    ensures var cmds := CommandQueue.Announced(verb, paths);
      cmds != [] && Leads(digest, Start(cmds), [Sends, Judges(table, now, fails), Receives], Phase(cmds, 3), info)
  {
    hide Judge, Dialogue.IsError, FirstLine, AfterFirstLine, Commands.Classify, Decimal, DialogueOutcome.Due;
    var cmds := CommandQueue.Announced(verb, paths);
    DialogueOutcome.AnnouncedIsExact(verb, paths);
    AnnouncementNamesNobody(verb, paths);
    var judges := Judges(table, now, fails);
    PhaseSteps(digest, cmds, 0, Sends, info);
    PhaseSteps(digest, cmds, 1, judges, info);
    PhaseSteps(digest, cmds, 2, Receives, info);
    assert Leads(digest, Phase(cmds, 3), [], Phase(cmds, 3), info);
    assert Leads(digest, Phase(cmds, 2), [Receives], Phase(cmds, 3), info);
    assert Leads(digest, Phase(cmds, 1), [judges, Receives], Phase(cmds, 3), info);
  }
}
