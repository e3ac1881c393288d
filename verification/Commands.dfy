/** Splitting a command into its name and parameters, and the commands the server knows. */
module Commands {
  import opened Text
  import opened Numbers

  /** The parameters from `current` on. The end of a segment is handed to `substr` as its
      length, as the server does. */
  function Params(m: string, current: nat): (ps: seq<string>)
    requires current <= |m|
    ensures |ps| >= 1
    decreases |m| - current
  {
    var pos := IndexOf(m, '?', current);
    if pos == NPOS then [Substr(m, current)]
    else [Substr(m, current, pos)] + Params(m, pos + 1)
  }

  datatype Parts = Parts(command: string, parameters: seq<string>)

  function Parse(m: string): Parts {
    var pos := IndexOf(m, '?');
    if pos == NPOS then Parts(m, []) else Parts(Substr(m, 0, pos), Params(m, pos + 1))
  }

  lemma ParamsStep(m: string, current: nat)
    requires current <= |m|
    ensures var pos := IndexOf(m, '?', current);
      Params(m, current) == if pos == NPOS then [Substr(m, current)]
                            else [Substr(m, current, pos)] + Params(m, pos + 1)
  {
  }

  lemma {:induction false} ParseIs(m: string)
    ensures Parse(m) == var pos := IndexOf(m, '?');
      if pos == NPOS then Parts(m, []) else Parts(Substr(m, 0, pos), Params(m, pos + 1))
  {
  }

  /** What has been collected, and what is behind `current`, make up the parameters. */
  predicate Collecting(m: string, current: nat, collected: seq<string>) {
    current <= |m| && Parse(m).parameters == collected + Params(m, current)
  }

  lemma CollectFirst(m: string)
    requires IndexOf(m, '?') != NPOS
    ensures Parse(m).command == Substr(m, 0, IndexOf(m, '?')) && Collecting(m, IndexOf(m, '?') + 1, [])
  {
    hide IndexOf, Params;
    assert Parse(m).parameters == [] + Params(m, IndexOf(m, '?') + 1);
  }

  lemma CollectNext(m: string, current: nat, collected: seq<string>)
    requires Collecting(m, current, collected) && IndexOf(m, '?', current) != NPOS
    ensures Collecting(m, IndexOf(m, '?', current) + 1, collected + [Substr(m, current, IndexOf(m, '?', current))])
  {
    hide Params;
    hide Parse, IndexOf, Substr;
    ParamsStep(m, current);
    var pos := IndexOf(m, '?', current);
    var here, more := [Substr(m, current, pos)], Params(m, pos + 1);
    assert collected + (here + more) == collected + here + more;
  }

  lemma CollectLast(m: string, current: nat, collected: seq<string>)
    requires Collecting(m, current, collected) && IndexOf(m, '?', current) == NPOS
    ensures Parse(m).parameters == collected + [Substr(m, current)]
  {
    hide Parse, IndexOf, Substr;
  }

  method SplitCommand(message: string) returns (command: string, parameters: seq<string>)
    ensures Parse(message) == Parts(command, parameters)
  {
    hide *;
    Npos();
    ParseIs(message);
    parameters := [];
    var pos := IndexOf(message, '?');
    if pos == NPOS {
      return message, [];
    }
    CollectFirst(message);
    command := Substr(message, 0, pos);
    var current := pos + 1;
    pos := IndexOf(message, '?', current);
    while pos != NPOS
      invariant 0 <= current <= |message| && pos == IndexOf(message, '?', current)
      invariant Collecting(message, current, parameters)
      decreases |message| - current
    {
      CollectNext(message, current, parameters);
      parameters := parameters + [Substr(message, current, pos)];
      current := pos + 1;
      pos := IndexOf(message, '?', current);
    }
    CollectLast(message, current, parameters);
    parameters := parameters + [Substr(message, current)];
  }

  function Piece(m: string, lo: nat, hi: nat): string
    requires lo <= hi <= |m|
  {
    m[lo..hi]
  }

  /** The segments actually written between the question marks. */
  function Segments(m: string, current: nat): seq<string>
    requires current <= |m|
  {
    Split(m[current..], '?')
  }

  lemma IndexOfSuffix(m: string, c: char, current: nat)
    requires current <= |m|
    ensures IndexOf(m[current..], c) == if IndexOf(m, c, current) == NPOS then NPOS else IndexOf(m, c, current) - current
  {
    var p, q := IndexOf(m, c, current), IndexOf(m[current..], c);
    assert forall k :: 0 <= k < |m| - current ==> m[current..][k] == m[current + k];
    if p != NPOS {
      assert m[current..][p - current] == c;
    }
    if q != NPOS {
      assert m[current + q] == c;
    }
  }

  lemma SegmentsStep(m: string, current: nat)
    requires current <= |m|
    ensures var pos := IndexOf(m, '?', current);
      Segments(m, current) == if pos == NPOS then [Piece(m, current, |m|)]
                              else [Piece(m, current, pos)] + Segments(m, pos + 1)
  {
    IndexOfSuffix(m, '?', current);
    assert Piece(m, current, |m|) == m[current..];
    var pos := IndexOf(m, '?', current);
    if pos != NPOS {
      assert m[current..][..pos - current] == m[current..pos];
      assert m[current..][pos - current + 1..] == m[pos + 1..];
    }
  }

  /** A parameter that is not the last one is longer than its segment. */
  lemma OverLong(m: string, current: nat)
    requires 1 <= current <= |m| && IndexOf(m, '?', current) != NPOS
    ensures var pos := IndexOf(m, '?', current);
      Piece(m, current, pos) <= Substr(m, current, pos) && Piece(m, current, pos) != Substr(m, current, pos)
  {
    var pos := IndexOf(m, '?', current);
    var here := Substr(m, current, pos);
    assert here == m[current..current + |here|];
    assert |here| > pos - current;
  }

  ghost predicate Approximates(parameters: seq<string>, segments: seq<string>) {
    && |parameters| == |segments|
    && (forall k :: 0 <= k < |parameters| ==> segments[k] <= parameters[k])
    && (forall k :: 0 <= k < |parameters| ==> (parameters[k] == segments[k] <==> k == |parameters| - 1))
  }

  lemma ApproximatesCons(p: string, ps: seq<string>, s: string, ss: seq<string>)
    requires ps != [] && Approximates(ps, ss) && s <= p && s != p
    ensures Approximates([p] + ps, [s] + ss)
  {
  }

  lemma {:induction false} LastParameter(m: string, current: nat)
    requires current <= |m| && IndexOf(m, '?', current) == NPOS
    ensures Approximates(Params(m, current), Segments(m, current))
  {
    hide Params, Segments, IndexOf;
    SegmentsStep(m, current);
    ParamsStep(m, current);
  }

  /** One parameter per question mark, each starting with the segment meant; it is that
      segment exactly when it is the last one. */
  lemma {:induction false} ParametersAndSegments(m: string, current: nat)
    requires 1 <= current <= |m|
    ensures Approximates(Params(m, current), Segments(m, current))
    decreases |m| - current
  {
    hide *;
    Npos();
    var pos := IndexOf(m, '?', current);
    if pos == NPOS {
      LastParameter(m, current);
    } else {
      ParametersAndSegments(m, pos + 1);
      EarlierParameter(m, current);
    }
  }

  lemma EarlierParameter(m: string, current: nat)
    requires 1 <= current <= |m| && IndexOf(m, '?', current) != NPOS
    requires var next := IndexOf(m, '?', current) + 1; Approximates(Params(m, next), Segments(m, next))
    ensures Approximates(Params(m, current), Segments(m, current))
  {
    hide *;
    Npos();
    SegmentsStep(m, current);
    ParamsStep(m, current);
    OverLong(m, current);
    var pos := IndexOf(m, '?', current);
    ApproximatesCons(Substr(m, current, pos), Params(m, pos + 1), Piece(m, current, pos), Segments(m, pos + 1));
  }

  datatype Kind = Information | Logout | Many(count: int) | Add(path: string) | Edit(path: string) | Unknown
                | MissingParameter

  /** `HandleCommand`'s choice. Three commands read `parameters[0]`, which nothing checks. */
  function Classify(m: string): Kind {
    var parts := Parse(m);
    if parts.command == "GetInformation" then Information
    else if parts.command == "Logout" then Logout
    else if parts.command in {"MultipleCommands", "Add", "Edit"} && parts.parameters == [] then MissingParameter
    else if parts.command == "MultipleCommands" then Many(Stoi(parts.parameters[0]))
    else if parts.command == "Add" then Add(parts.parameters[0])
    else if parts.command == "Edit" then Edit(parts.parameters[0])
    else Unknown
  }

  /** The same, as the server goes through it. */
  method ChooseCommand(message: string) returns (k: Kind)
    ensures k == Classify(message)
  {
    hide Parse, Stoi;
    var command, parameters := SplitCommand(message);
    if command == "GetInformation" {
      k := Information;
    } else if command == "Logout" {
      k := Logout;
    } else if command == "MultipleCommands" || command == "Add" || command == "Edit" {
      if parameters == [] {
        k := MissingParameter;
      } else if command == "MultipleCommands" {
        k := Many(Stoi(parameters[0]));
      } else if command == "Add" {
        k := Add(parameters[0]);
      } else {
        k := Edit(parameters[0]);
      }
    } else {
      k := Unknown;
    }
  }

  /** A command the server carries out. */
  predicate Acceptable(message: string) {
    !Classify(message).Unknown? && !Classify(message).MissingParameter?
  }

  /** The command finds the parameters it reads. */
  predicate Defined(message: string) {
    !Classify(message).MissingParameter?
  }

  lemma WordParsed(word: string)
    requires Free(word, '?')
    ensures Parse(word) == Parts(word, [])
  {
    assert IndexOf(word, '?') == NPOS;
  }

  lemma LogoutIsLogout()
    ensures Classify("Logout") == Logout
  {
    hide Parse;
    WordParsed("Logout");
  }

  lemma GetInformationIsInformation()
    ensures Classify("GetInformation") == Information
  {
    hide Parse;
    WordParsed("GetInformation");
  }

  lemma CloseIsUnknown()
    ensures Classify("Close") == Unknown
  {
    hide Parse;
    WordParsed("Close");
  }

  /** A verb alone finds no parameter; any other word is no command. */
  lemma OtherWords(word: string)
    requires Free(word, '?')
    ensures word in {"MultipleCommands", "Add", "Edit"} ==> Classify(word) == MissingParameter
    ensures word !in {"MultipleCommands", "Add", "Edit", "GetInformation", "Logout"} ==> Classify(word) == Unknown
  {
    hide Parse;
    WordParsed(word);
  }

  lemma {:induction false} ParseVerb(verb: string, rest: string)
    requires Free(verb, '?')
    ensures var m := verb + "?" + rest;
      && IndexOf(m, '?') == |verb|
      && Parse(m).command == verb && Parse(m).parameters == Params(m, |verb| + 1)
  {
    hide IndexOf, Params, Parse, Free;
    Npos();
    var m := verb + "?" + rest;
    IndexOfSplit(verb, '?', rest);
    assert m == verb + ['?'] + rest;
    ParseIs(m);
    assert Substr(m, 0, |verb|) == verb;
  }

  /** The first parameter, when a verb and a question mark come before `rest`. */
  function FirstParameter(verb: string, rest: string): string {
    var q := IndexOf(rest, '?');
    if q == NPOS then rest else Substr(rest, 0, |verb| + 1 + q)
  }

  lemma FirstParameterIs(verb: string, rest: string)
    requires Free(verb, '?')
    ensures var ps := Parse(verb + "?" + rest).parameters; ps != [] && ps[0] == FirstParameter(verb, rest)
  {
    hide Parse, Params, IndexOf, Substr;
    var m := verb + "?" + rest;
    var current := |verb| + 1;
    ParseVerb(verb, rest);
    ParamsStep(m, current);
    IndexOfSuffix(m, '?', current);
    assert m[current..] == rest;
    SubstrBehind(verb + "?", rest, IndexOf(rest, '?'));
    assert m == (verb + "?") + rest;
  }

  lemma SubstrBehind(front: string, rest: string, q: int)
    requires front != "" && NPOS <= q < |rest|
    ensures Substr(front + rest, |front|) == rest
    ensures q != NPOS ==> Substr(front + rest, |front|, |front| + q) == Substr(rest, 0, |front| + q)
  {
    var m := front + rest;
    assert m[|front|..] == rest;
    if q != NPOS && |front| + q <= |rest| {
      assert m[|front|..|front| + (|front| + q)] == rest[..|front| + q];
    }
  }

  lemma FirstParameterWhole(verb: string, path: string)
    ensures FirstParameter(verb, path) == path <==> Free(path, '?') || |path| - IndexOf(path, '?') <= |verb| + 1
  {
    var q := IndexOf(path, '?');
    if q != NPOS && |verb| + 1 + q == |path| {
      assert Substr(path, 0, |verb| + 1 + q) == path;
    }
  }

  lemma ClassifyPath(verb: string, path: string)
    requires verb == "Add" || verb == "Edit"
    ensures Classify(verb + "?" + path) == (if verb == "Add" then Add(FirstParameter(verb, path))
                                            else Edit(FirstParameter(verb, path)))
  {
    hide Parse, FirstParameter;
    ParseVerb(verb, path);
    FirstParameterIs(verb, path);
  }

  /** The path of `Add?path` or `Edit?path` arrives whole exactly when at most as many
      characters follow from its first question mark on as the verb and its mark take. */
  lemma PathRoundTrip(verb: string, path: string)
    requires verb == "Add" || verb == "Edit"
    ensures Classify(verb + "?" + path) == (if verb == "Add" then Add(path) else Edit(path))
      <==> Free(path, '?') || |path| - IndexOf(path, '?') <= |verb| + 1
  {
    hide Classify, FirstParameter, IndexOf;
    ClassifyPath(verb, path);
    FirstParameterWhole(verb, path);
  }

  /** The announcement `MultipleCommands?n` arrives as n, for every n that is an `int`. */
  lemma {:induction false} AnnouncementRoundTrip(n: nat)
    requires n < 0x8000_0000
    ensures Classify("MultipleCommands?" + Decimal(n)) == Many(n)
  {
    hide Parse, Decimal, Stoi, IndexOf;
    DecimalStoi(n);
    assert Free(Decimal(n), '?');
    var m := "MultipleCommands" + "?" + Decimal(n);
    assert "MultipleCommands?" + Decimal(n) == m;
    ParseVerb("MultipleCommands", Decimal(n));
    FirstParameterIs("MultipleCommands", Decimal(n));
    NoMark("MultipleCommands", Decimal(n));
  }

  lemma NoMark(verb: string, rest: string)
    requires Free(rest, '?')
    ensures FirstParameter(verb, rest) == rest
  {
  }

  /** The reply to a command that gets one. `info` stands for what the server prints about itself. */
  function Reply(k: Kind, info: string): string
    requires k.Information? || k.Logout? || k.Add? || k.Edit?
  {
    match k
    case Information => "OK\n" + info
    case Logout => "OK\n"
    case Add(path) => "OK\n" + path + " -- opened for client"
    case Edit(path) => "OK\n" + path + " -- already opened for client"
  }

  /** What the client shows of it. */
  function ReplyText(k: Kind, info: string): string {
    match k
    case Information => info
    case Add(path) => path + " -- opened for client"
    case Edit(path) => path + " -- already opened for client"
    case _ => ""
  }

  lemma ReplyIsOk(k: Kind, info: string)
    requires k.Information? || k.Logout? || k.Add? || k.Edit?
    ensures FirstLine(Reply(k, info)) == "OK" && AfterFirstLine(Reply(k, info)) == ReplyText(k, info)
  {
    hide FirstLine, AfterFirstLine;
    ReplyParts("OK", ReplyText(k, info));
    assert Reply(k, info) == "OK" + "\n" + ReplyText(k, info);
  }

  const NOT_FOUND := "ERROR\nCommand not found"
}
