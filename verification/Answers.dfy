/** What a client reads in answer to each command. */
module Answers {
  import opened Text
  import opened Commands
  import opened Conversation
  import opened Lockstep
  import opened World
  import Crypto
  import Info = Information
  import MultipleCommands

  /** The client of `info` reads back what the server prints about itself exactly when no value
      holds a `;`. */
  lemma InformationAnswered(i: Info.Info)
    ensures Single("GetInformation") && FirstLine(Answer("GetInformation", Info.InfoText(i))) == "OK"
    ensures AfterFirstLine(Answer("GetInformation", Info.InfoText(i)))
         == "serverversion=" + i.version + ";serveruptime=" + i.uptime + ";servertime=" + i.time
    ensures Info.Read(AfterFirstLine(Answer("GetInformation", Info.InfoText(i)))) == i <==> Info.SemicolonFree(i)
  {
    hide FirstLine, AfterFirstLine, Classify, Info.Read, Info.SemicolonFree, Answer;
    assert Info.InfoText(i) == "serverversion=" + i.version + ";serveruptime=" + i.uptime + ";servertime=" + i.time;
    GetInformationIsInformation();
    AnswerText("GetInformation", Info.InfoText(i));
    Info.InfoRoundTrip(i);
  }

  /** What `add` and `edit` of a file print: the path and the literal text of the command exactly
      when the path arrives whole. */
  lemma PathAnswered(verb: string, path: string, info: string)
    requires verb == "Add" || verb == "Edit"
    ensures Single(verb + "?" + path) && FirstLine(Answer(verb + "?" + path, info)) == "OK"
    ensures AfterFirstLine(Answer(verb + "?" + path, info))
         == path + (if verb == "Add" then " -- opened for client" else " -- already opened for client")
      <==> Free(path, '?') || |path| - IndexOf(path, '?') <= |verb| + 1
  {
    hide FirstLine, AfterFirstLine, Classify, Answer, IndexOf, FirstParameter, Free;
    ClassifyPath(verb, path);
    FirstParameterWhole(verb, path);
    AnswerText(verb + "?" + path, info);
    SameFront(FirstParameter(verb, path), path,
              if verb == "Add" then " -- opened for client" else " -- already opened for client");
  }

  lemma SameFront(a: string, b: string, text: string)
    ensures a + text == b + text <==> a == b
  {
    if a + text == b + text {
      assert a == (a + text)[..|a|] && b == (b + text)[..|b|];
    }
  }

  /** A logout is answered with an empty text, any other word with the error. */
  lemma WordAnswered(word: string, info: string)
    requires Free(word, '?')
    ensures Single("Logout") && Answer("Logout", info) == "OK\n"
    ensures word !in {"MultipleCommands", "Add", "Edit", "GetInformation", "Logout"} ==>
      && Single(word) && FirstLine(Answer(word, info)) == "ERROR" && AfterFirstLine(Answer(word, info)) == "Command not found"
  {
    hide FirstLine, AfterFirstLine, Classify;
    LogoutIsLogout();
    OtherWords(word);
    ReplyParts("ERROR", "Command not found");
    assert NOT_FOUND == "ERROR" + "\n" + "Command not found";
  }

  /** Inside a many-command conversation an accepted command gets the very same answer, and an
      announcement a bare OK. */
  lemma NestedAnswer(command: string, info: string)
    requires Acceptable(command)
    ensures MultipleCommands.ReplyTo(command, info) == if Single(command) then Answer(command, info) else "OK\n"
  {
    hide Classify;
  }

  /** Over every run of all clients: when an authenticated conversation is over, the client has
      been told OK exactly for a command the server carries out, or has sent `Close`. */
  lemma {:induction false} OutcomeIsAnswer(digest: string -> Crypto.Digest, w: World, turns: seq<Turn>, v: World,
                                           i: nat)
    requires Initial(w) && Leads(digest, w, turns, v) && i < |v.conns|
    ensures var k := v.conns[i].client;
      k.Over? && k.authenticated ==> (k.ok <==> k.command == "Close" || Acceptable(k.command))
  {
    InitialInStep(w);
    RunKeepsStep(digest, w, turns, v);
    hide Leads, Initial, Acceptable, LeftListening;
    assert InStep(v.conns[i]);
  }
}
