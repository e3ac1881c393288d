/** The client's session file: one `url=ticket` line per server. */
module Session {
  import opened Text

  // ----- Lines of a text file

  /** One `getline`: the text before the first newline, and what is left to read. */
  function GetLine(input: string): (r: (string, string))
    requires input != ""
    ensures |r.1| < |input| && Free(r.0, '\n')
  {
    var p := IndexOf(input, '\n');
    if p == NPOS then (input, "") else (input[..p], input[p + 1..])
  }

  function Lines(input: string): (ls: seq<string>)
    ensures forall k :: 0 <= k < |ls| ==> Free(ls[k], '\n')
    decreases |input|
  {
    if input == "" then [] else var (line, rest) := GetLine(input); [line] + Lines(rest)
  }

  function Unlines(ls: seq<string>): string {
    if ls == [] then "" else ls[0] + "\n" + Unlines(ls[1..])
  }

  /** Every line is ended; the state in which appending starts a new line. */
  predicate Terminated(text: string) {
    text == "" || text[|text| - 1] == '\n'
  }

  lemma {:induction false} LinesCons(line: string, rest: string)
    requires Free(line, '\n')
    ensures Lines(line + "\n" + rest) == [line] + Lines(rest)
  {
    IndexOfSplit(line, '\n', rest);
    var t := line + "\n" + rest;
    assert t == line + ['\n'] + rest;
    assert t[..|line|] == line && t[|line| + 1..] == rest;
  }

  lemma {:induction false} LinesUnlines(ls: seq<string>)
    requires forall k :: 0 <= k < |ls| ==> Free(ls[k], '\n')
    ensures Lines(Unlines(ls)) == ls && Terminated(Unlines(ls))
  {
    if ls != [] {
      LinesUnlines(ls[1..]);
      LinesCons(ls[0], Unlines(ls[1..]));
      assert [ls[0]] + ls[1..] == ls;
    }
  }

  lemma FirstOfTerminated(text: string) returns (first: string, rest: string)
    requires Terminated(text) && text != ""
    ensures text == first + "\n" + rest && Free(first, '\n') && Terminated(rest)
  {
    var p := IndexOf(text, '\n');
    assert p != NPOS;
    first, rest := text[..p], text[p + 1..];
  }

  lemma EmptyAndEnded(text: string)
    ensures Lines("") == [] && Terminated(text + "\n")
  {
  }

  lemma {:induction false} LinesAppend(text: string, line: string)
    requires Terminated(text) && Free(line, '\n')
    ensures Lines(text + line + "\n") == Lines(text) + [line]
    ensures Terminated(text + line + "\n")
    decreases |text|
  {
    hide *;
    EmptyAndEnded(text + line);
    if text == "" {
      LinesCons(line, "");
      assert text + line + "\n" == line + "\n" + "";
    } else {
      var first, rest := FirstOfTerminated(text);
      var later := rest + line + "\n";
      LinesAppend(rest, line);
      LinesCons(first, later);
      LinesCons(first, rest);
      assert text + line + "\n" == first + "\n" + later;
    }
  }

  lemma FirstOfUnterminated(text: string) returns (first: string, rest: string)
    requires !Terminated(text) && !Free(text, '\n')
    ensures text == first + "\n" + rest && Free(first, '\n') && !Terminated(rest)
  {
    var p := IndexOf(text, '\n');
    first, rest := text[..p], text[p + 1..];
  }

  lemma {:induction false} OneUnendedLine(text: string, line: string)
    requires !Terminated(text) && Free(text, '\n') && Free(line, '\n')
    ensures Lines(text) == [text] && Lines(text + line + "\n") == [text + line]
  {
    FreeConcat(text, line, '\n');
    LinesCons(text + line, "");
    assert text + line + "\n" == (text + line) + "\n" + "";
  }

  function ExtendLast(ls: seq<string>, line: string): seq<string> {
    if ls == [] then [] else ls[..|ls| - 1] + [ls[|ls| - 1] + line]
  }

  lemma ExtendLastCons(first: string, ls: seq<string>, line: string)
    requires ls != []
    ensures ExtendLast([first] + ls, line) == [first] + ExtendLast(ls, line)
    ensures ExtendLast([first], line) == [first + line]
  {
    assert ([first] + ls)[..|ls|] == [first] + ls[..|ls| - 1];
  }

  /** Without the final newline the appended entry melts into the last line. */
  lemma {:induction false} LinesAppendUnterminated(text: string, line: string)
    requires !Terminated(text) && Free(line, '\n')
    ensures Lines(text) != []
    ensures Lines(text + line + "\n") == ExtendLast(Lines(text), line)
    decreases |text|
  {
    hide *;
    if Free(text, '\n') {
      OneUnendedLine(text, line);
      ExtendLastCons(text, [text], line);
    } else {
      var first, rest := FirstOfUnterminated(text);
      var later := rest + line + "\n";
      LinesAppendUnterminated(rest, line);
      LinesCons(first, later);
      LinesCons(first, rest);
      ExtendLastCons(first, Lines(rest), line);
      assert text + line + "\n" == first + "\n" + later;
    }
  }

  // ----- Entries

  /** The test `DeleteSessionTicket` and `ChangeSessionTicket` make. */
  predicate HasPrefix(line: string, url: string) {
    Find(line, url + "=") == 0
  }

  /** The test `GetSessionTicketByServerURL` makes: cut at the first `=`, compare keys. */
  predicate HasKey(line: string, url: string) {
    var p := IndexOf(line, '=');
    p != NPOS && Substr(line, 0, p) == url
  }

  function Value(line: string): string {
    Substr(line, IndexOf(line, '=') + 1)
  }

  /** The two tests pick the same lines for a url exactly when it has no `=`. */
  lemma PrefixIsKey(url: string)
    ensures (forall line :: HasPrefix(line, url) <==> HasKey(line, url)) <==> Free(url, '=')
  {
    if Free(url, '=') {
      forall line ensures HasPrefix(line, url) <==> HasKey(line, url) {
        PrefixIsKeyAt(line, url);
      }
    } else {
      var line := url + "=";
      assert MatchAt(line, url + "=", 0);
      var p := IndexOf(line, '=');
      assert p < |url|;
      assert HasPrefix(line, url) && !HasKey(line, url);
    }
  }

  lemma PrefixIsKeyAt(line: string, url: string)
    requires Free(url, '=')
    ensures HasPrefix(line, url) <==> HasKey(line, url)
  {
    var pat := url + "=";
    assert HasPrefix(line, url) <==> MatchAt(line, pat, 0);
    if MatchAt(line, pat, 0) {
      assert line == url + ['='] + line[|pat|..];
      IndexOfSplit(url, '=', line[|pat|..]);
    }
    var p := IndexOf(line, '=');
    if HasKey(line, url) {
      assert line[0..|pat|] == pat;
    }
  }

  function LookupIn(ls: seq<string>, url: string): string {
    if ls == [] then ""
    else if HasKey(ls[0], url) then Value(ls[0])
    else LookupIn(ls[1..], url)
  }

  function ChangeLine(line: string, ticket: string, url: string): string {
    if HasPrefix(line, url) then url + "=" + ticket else line
  }

  function ChangeIn(ls: seq<string>, ticket: string, url: string): seq<string> {
    if ls == [] then [] else [ChangeLine(ls[0], ticket, url)] + ChangeIn(ls[1..], ticket, url)
  }

  function DeleteIn(ls: seq<string>, url: string): seq<string> {
    if ls == [] then []
    else (if HasPrefix(ls[0], url) then [] else [ls[0]]) + DeleteIn(ls[1..], url)
  }

  // ----- The file

  datatype File = Missing(creatable: bool) | Present(text: string)

  predicate Usable(f: File) {
    f.Present? || f.creatable
  }

  /** The file after `CheckSessionFileExists`, which creates it when it can. */
  function Checked(f: File): File {
    if f == Missing(true) then Present("") else f
  }

  function Saved(f: File, ticket: string, url: string): File {
    match Checked(f)
    case Missing(_) => f
    case Present(text) => Present(text + (url + "=" + ticket) + "\n")
  }

  /** A missing file is created empty, and the ticket is not written. */
  function Changed(f: File, ticket: string, url: string): File {
    match f
    case Missing(_) => Checked(f)
    case Present(text) => Present(Unlines(ChangeIn(Lines(text), ticket, url)))
  }

  function Deleted(f: File, url: string): File {
    match f
    case Missing(_) => Checked(f)
    case Present(text) => Present(Unlines(DeleteIn(Lines(text), url)))
  }

  function Entries(f: File): seq<string> {
    if f.Present? then Lines(f.text) else []
  }

  function Lookup(f: File, url: string): string {
    LookupIn(Entries(f), url)
  }

  lemma {:induction false} ReadLine(input: string, url: string, ticket: string)
    requires input != ""
    ensures var (line, rest) := GetLine(input);
      && Unlines(ChangeIn(Lines(input), ticket, url))
         == (if Find(line, url + "=") == 0 then url + "=" + ticket else line) + "\n"
            + Unlines(ChangeIn(Lines(rest), ticket, url))
      && Unlines(DeleteIn(Lines(input), url))
         == (if Find(line, url + "=") == 0 then "" else line + "\n") + Unlines(DeleteIn(Lines(rest), url))
      && LookupIn(Lines(input), url) == if HasKey(line, url) then Value(line) else LookupIn(Lines(rest), url)
  {
    var (line, rest) := GetLine(input);
    var ls := Lines(rest);
    assert Lines(input) == [line] + ls && ([line] + ls)[1..] == ls;
    var changed, deleted := ChangeIn(ls, ticket, url), DeleteIn(ls, url);
    assert ([ChangeLine(line, ticket, url)] + changed)[1..] == changed;
    assert ([line] + deleted)[1..] == deleted && [] + deleted == deleted;
  }

  lemma {:induction false} FileCases(f: File, ticket: string, url: string)
    ensures f.Missing? ==> Changed(f, ticket, url) == Deleted(f, url) == Checked(f)
    ensures f.Present? ==> Usable(f)
    ensures f.Present? ==> Changed(f, ticket, url) == Present(Unlines(ChangeIn(Lines(f.text), ticket, url)))
    ensures f.Present? ==> Deleted(f, url) == Present(Unlines(DeleteIn(Lines(f.text), url)))
    ensures Unlines(ChangeIn(Lines(""), ticket, url)) == "" && Unlines(DeleteIn(Lines(""), url)) == ""
  {
  }

  class Store {
    var file: File

    method CheckSessionFileExists() returns (ok: bool)
      modifies this
      ensures file == Checked(old(file)) && ok == Usable(old(file))
    {
      if file.Missing? && file.creatable {
        file := Present("");
      }
      ok := file.Present?;
    }

    /** `writable` tells whether a file that is there can be opened for appending. */
    method SaveSessionTicket(ticket: string, url: string, writable: bool) returns (ok: bool)
      modifies this
      ensures file == if writable then Saved(old(file), ticket, url) else Checked(old(file))
      ensures ok == (writable && Usable(old(file)))
    {
      if file.Missing? && file.creatable {
        file := Present("");
      }
      if file.Present? && writable {
        file := Present(file.text + (url + "=" + ticket) + "\n");
        return true;
      }
      ok := false;
    }

    /** `writable` tells whether the new file can be written and renamed over the old one. */
    method DeleteSessionTicket(url: string, writable: bool) returns (ok: bool)
      modifies this
      ensures file == if old(file).Present? && !writable then old(file) else Deleted(old(file), url)
      ensures ok == if old(file).Present? then writable else Usable(old(file))
    {
      hide *;
      FileCases(file, "", url);
      if file.Missing? {
        ok := CheckSessionFileExists();
        return;
      }
      var input, output := file.text, "";
      while input != ""
        invariant file == old(file)
        invariant output + Unlines(DeleteIn(Lines(input), url)) == Unlines(DeleteIn(Lines(file.text), url))
        decreases |input|
      {
        var (line, rest) := GetLine(input);
        ReadLine(input, url, "");
        if Find(line, url + "=") != 0 {
          output := output + line + "\n";
        }
        input := rest;
      }
      if !writable {
        return false;
      }
      file := Present(output);
      ok := true;
    }

    method ChangeSessionTicket(ticket: string, url: string, writable: bool) returns (ok: bool)
      modifies this
      ensures file == if old(file).Present? && !writable then old(file) else Changed(old(file), ticket, url)
      ensures ok == if old(file).Present? then writable else Usable(old(file))
    {
      hide *;
      FileCases(file, ticket, url);
      if file.Missing? {
        ok := CheckSessionFileExists();
        return;
      }
      var input, output := file.text, "";
      while input != ""
        invariant file == old(file)
        invariant output + Unlines(ChangeIn(Lines(input), ticket, url))
               == Unlines(ChangeIn(Lines(file.text), ticket, url))
        decreases |input|
      {
        var (line, rest) := GetLine(input);
        ReadLine(input, url, ticket);
        if Find(line, url + "=") == 0 {
          output := output + (url + "=" + ticket) + "\n";
        } else {
          output := output + line + "\n";
        }
        input := rest;
      }
      if !writable {
        return false;
      }
      file := Present(output);
      ok := true;
    }

    /** `readable` tells whether a file that is there can be opened for reading. */
    method GetSessionTicketByServerURL(url: string, readable: bool) returns (ticket: string)
      ensures ticket == if readable then Lookup(file, url) else ""
    {
      if file.Missing? || !readable {
        return "";
      }
      var input := file.text;
      while input != ""
        invariant LookupIn(Lines(input), url) == Lookup(file, url)
        decreases |input|
      {
        var (line, rest) := GetLine(input);
        ReadLine(input, url, "");
        var delimiterPos := IndexOf(line, '=');
        if delimiterPos != NPOS {
          var key, value := Substr(line, 0, delimiterPos), Substr(line, delimiterPos + 1);
          if key == url {
            return value;
          }
        }
        input := rest;
      }
      ticket := "";
    }
  }

  // ----- The file as a map

  /** One entry put in front: its key gets its value. */
  function Put(m: map<string, string>, line: string): map<string, string> {
    var p := IndexOf(line, '=');
    if p == NPOS then m else m[Substr(line, 0, p) := Substr(line, p + 1)]
  }

  /** The first value of each key. */
  function View(ls: seq<string>): map<string, string> {
    if ls == [] then map[] else Put(View(ls[1..]), ls[0])
  }

  function Updated(m: map<string, string>, ticket: string, url: string): map<string, string> {
    if url in m then m[url := ticket] else m
  }

  lemma {:induction false} LookupIsView(ls: seq<string>, url: string)
    ensures LookupIn(ls, url) == if url in View(ls) then View(ls)[url] else ""
  {
    if ls != [] {
      LookupIsView(ls[1..], url);
    }
  }

  /** No key holds an `=`, no key or value a newline. */
  lemma {:induction false} ViewShape(ls: seq<string>)
    requires forall k :: 0 <= k < |ls| ==> Free(ls[k], '\n')
    ensures forall url :: url in View(ls) ==>
      Free(url, '=') && Free(url, '\n') && Free(View(ls)[url], '\n')
  {
    if ls != [] {
      ViewShape(ls[1..]);
    }
  }

  lemma EntryParts(url: string, ticket: string)
    requires Free(url, '=')
    ensures var line := url + "=" + ticket;
            IndexOf(line, '=') == |url| && Substr(line, 0, |url|) == url && Substr(line, |url| + 1) == ticket
  {
    IndexOfSplit(url, '=', ticket);
    assert url + "=" + ticket == url + ['='] + ticket;
  }

  lemma PutEntry(m: map<string, string>, url: string, ticket: string)
    requires Free(url, '=')
    ensures Put(m, url + "=" + ticket) == m[url := ticket]
  {
    EntryParts(url, ticket);
  }

  lemma ChangePut(m: map<string, string>, line: string, ticket: string, url: string)
    requires Free(url, '=')
    ensures Put(Updated(m, ticket, url), ChangeLine(line, ticket, url)) == Updated(Put(m, line), ticket, url)
  {
    PrefixIsKeyAt(line, url);
    PutEntry(Updated(m, ticket, url), url, ticket);
  }

  lemma {:induction false} ChangeView(ls: seq<string>, ticket: string, url: string)
    requires Free(url, '=')
    ensures View(ChangeIn(ls, ticket, url)) == Updated(View(ls), ticket, url)
  {
    if ls != [] {
      ChangeView(ls[1..], ticket, url);
      ChangePut(View(ls[1..]), ls[0], ticket, url);
      assert ChangeIn(ls, ticket, url)[1..] == ChangeIn(ls[1..], ticket, url);
      hide Put, ChangeLine, Updated;
    }
  }

  lemma DeletePut(m: map<string, string>, line: string, url: string)
    requires Free(url, '=')
    ensures Put(m, line) - {url} == if HasPrefix(line, url) then m - {url} else Put(m - {url}, line)
  {
    PrefixIsKeyAt(line, url);
  }

  lemma {:induction false} DeleteView(ls: seq<string>, url: string)
    requires Free(url, '=')
    ensures View(DeleteIn(ls, url)) == View(ls) - {url}
  {
    if ls != [] {
      DeleteView(ls[1..], url);
      DeletePut(View(ls[1..]), ls[0], url);
      hide Put, HasPrefix;
      var rest := DeleteIn(ls[1..], url);
      assert [] + rest == rest && ([ls[0]] + rest)[1..] == rest;
    }
  }

  lemma {:induction false} SaveView(ls: seq<string>, ticket: string, url: string)
    requires Free(url, '=')
    ensures View(ls + [url + "=" + ticket]) == if url in View(ls) then View(ls) else View(ls)[url := ticket]
  {
    EntryParts(url, ticket);
    var line := url + "=" + ticket;
    if ls == [] {
      assert ([] + [line])[1..] == [];
    } else {
      assert (ls + [line])[1..] == ls[1..] + [line];
      SaveView(ls[1..], ticket, url);
    }
  }

  // ----- Any sequence of operations

  datatype Op = Save(ticket: string, url: string) | Change(ticket: string, url: string) | Delete(url: string)

  function Do(op: Op, f: File): File {
    match op
    case Save(t, u) => Saved(f, t, u)
    case Change(t, u) => Changed(f, t, u)
    case Delete(u) => Deleted(f, u)
  }

  function DoAll(ops: seq<Op>, f: File): File {
    if ops == [] then f else DoAll(ops[1..], Do(ops[0], f))
  }

  /** The same operation on the map. */
  function DoMap(op: Op, m: map<string, string>): map<string, string> {
    match op
    case Save(t, u) => if u in m then m else m[u := t]
    case Change(t, u) => if u in m then m[u := t] else m
    case Delete(u) => m - {u}
  }

  function DoAllMap(ops: seq<Op>, m: map<string, string>): map<string, string> {
    if ops == [] then m else DoAllMap(ops[1..], DoMap(ops[0], m))
  }

  predicate Clean(op: Op) {
    Free(op.url, '=') && Free(op.url, '\n') && (!op.Delete? ==> Free(op.ticket, '\n'))
  }

  predicate WellFormed(f: File) {
    Usable(f) && (f.Present? ==> Terminated(f.text))
  }

  function Map(f: File): map<string, string> {
    View(Entries(f))
  }

  lemma {:induction false} ChangeKeepsLines(ls: seq<string>, ticket: string, url: string)
    requires forall k :: 0 <= k < |ls| ==> Free(ls[k], '\n')
    requires Free(url, '\n') && Free(ticket, '\n')
    ensures forall k :: 0 <= k < |ChangeIn(ls, ticket, url)| ==> Free(ChangeIn(ls, ticket, url)[k], '\n')
  {
    if ls != [] {
      ChangeKeepsLines(ls[1..], ticket, url);
      FreeConcat(url + "=", ticket, '\n');
      FreeConcat(url, "=", '\n');
    }
  }

  lemma {:induction false} DeleteKeepsLines(ls: seq<string>, url: string)
    requires forall k :: 0 <= k < |ls| ==> Free(ls[k], '\n')
    ensures forall k :: 0 <= k < |DeleteIn(ls, url)| ==> Free(DeleteIn(ls, url)[k], '\n')
  {
    if ls != [] {
      DeleteKeepsLines(ls[1..], url);
    }
  }

  /** One operation on the bytes of the file is one operation on the map: Save adds only
      where nothing was, Change and Delete touch only their own url. */
  lemma DoRefines(op: Op, f: File)
    requires Clean(op) && WellFormed(f)
    ensures WellFormed(Do(op, f))
    ensures Map(Do(op, f)) == DoMap(op, Map(f))
  {
    var ls := Entries(f);
    match op
    case Save(t, u) =>
      SaveView(ls, t, u);
      FreeConcat(u + "=", t, '\n');
      FreeConcat(u, "=", '\n');
      LinesAppend(if f.Present? then f.text else "", u + "=" + t);
    case Change(t, u) =>
      ChangeView(ls, t, u);
      ChangeKeepsLines(ls, t, u);
      LinesUnlines(ChangeIn(ls, t, u));
    case Delete(u) =>
      DeleteView(ls, u);
      DeleteKeepsLines(ls, u);
      LinesUnlines(DeleteIn(ls, u));
  }

  lemma {:induction false} DoAllRefines(ops: seq<Op>, f: File)
    requires WellFormed(f) && forall op :: op in ops ==> Clean(op)
    ensures WellFormed(DoAll(ops, f))
    ensures Map(DoAll(ops, f)) == DoAllMap(ops, Map(f))
  {
    if ops != [] {
      DoRefines(ops[0], f);
      DoAllRefines(ops[1..], Do(ops[0], f));
    }
  }

  /** Change and Delete only create a missing file; Save writes the entry into it. What cannot
      be created stays missing. */
  lemma MissingFile(ticket: string, url: string)
    ensures Changed(Missing(true), ticket, url) == Deleted(Missing(true), url) == Checked(Missing(true)) == Present("")
    ensures Saved(Missing(true), ticket, url) == Present(url + "=" + ticket + "\n")
    ensures forall op: Op :: Do(op, Missing(false)) == Missing(false)
  {
    assert "" + (url + "=" + ticket) + "\n" == url + "=" + ticket + "\n";
  }

  // ----- When a saved ticket is found again

  lemma {:induction false} LinesConcat(text: string, more: string)
    requires Terminated(text)
    ensures Lines(text + more) == Lines(text) + Lines(more)
    decreases |text|
  {
    hide *;
    EmptyAndEnded("");
    if text == "" {
      assert text + more == more && [] + Lines(more) == Lines(more);
    } else {
      var first, rest := FirstOfTerminated(text);
      LinesConcat(rest, more);
      LinesCons(first, rest);
      LinesCons(first, rest + more);
      assert text + more == first + "\n" + (rest + more);
      assert [first] + Lines(rest) + Lines(more) == [first] + (Lines(rest) + Lines(more));
    }
  }

  lemma {:induction false} ViewConcat(a: seq<string>, b: seq<string>, url: string)
    ensures url in View(a) ==> url in View(a + b) && View(a + b)[url] == View(a)[url]
    ensures url !in View(a) ==> (url in View(a + b) <==> url in View(b))
    ensures url !in View(a) && url in View(b) ==> View(a + b)[url] == View(b)[url]
  {
    if a == [] {
      assert a + b == b;
    } else {
      assert (a + b)[1..] == a[1..] + b;
      ViewConcat(a[1..], b, url);
    }
  }

  /** A file cut behind its last newline. */
  lemma CutUnended(text: string) returns (front: string, last: string)
    ensures text == front + last && Terminated(front) && Free(last, '\n')
    ensures last == "" <==> Terminated(text)
  {
    front, last := text, "";
    while front != "" && front[|front| - 1] != '\n'
      invariant text == front + last && Free(last, '\n')
      decreases |front|
    {
      front, last := front[..|front| - 1], [front[|front| - 1]] + last;
    }
    assert last != "" ==> text[|text| - 1] == last[|last| - 1];
  }

  /** The text whose lines are all ended. */
  function EndedPart(text: string): string {
    if Terminated(text) then text else EndedPart(text[..|text| - 1])
  }

  lemma {:induction false} EndedPartIs(front: string, last: string)
    requires Terminated(front) && Free(last, '\n')
    ensures EndedPart(front + last) == front
    decreases |last|
  {
    var text := front + last;
    if last == "" {
      assert text == front;
    } else {
      assert text[..|text| - 1] == front + last[..|last| - 1];
      EndedPartIs(front, last[..|last| - 1]);
    }
  }

  lemma {:induction false} OneLine(last: string)
    requires last != "" && Free(last, '\n')
    ensures Lines(last) == [last] == Lines(last + "\n")
    ensures View([last]) == Put(map[], last)
  {
    LinesCons(last, "");
    assert last + "\n" == last + "\n" + "";
    assert [last][1..] == [];
  }

  /** An entry that melts into an unended line without newline is never read back. */
  lemma MeltedValue(last: string, ticket: string, url: string)
    requires last != "" && Free(url, '=')
    ensures var m := Put(map[], last + url + "=" + ticket);
      && (url in m <==> url in Put(map[], last))
      && (url in m ==> |m[url]| > |ticket|)
  {
    var entry := last + url + "=" + ticket;
    var p := IndexOf(last, '=');
    hide Put;
    if p == NPOS {
      FreeConcat(last, url, '=');
      PutEntry(map[], last + url, ticket);
      NoEntry(last);
    } else {
      var key, value := last[..p], last[p + 1..];
      assert last == key + "=" + value;
      assert entry == key + "=" + (value + url + "=" + ticket);
      PutEntry(map[], key, value);
      PutEntry(map[], key, value + url + "=" + ticket);
    }
  }

  lemma NoEntry(line: string)
    requires Free(line, '=')
    ensures Put(map[], line) == map[]
  {
  }

  lemma {:induction false} MeltedLookup(last: string, ticket: string, url: string)
    requires last != "" && Free(last, '\n')
    ensures LookupIn(Lines(last + (url + "=" + ticket) + "\n"), url) == ticket
      <==> ticket == "" && url !in View([last])
  {
    hide Put, Lines, LookupIn, View;
    var entry := last + (url + "=" + ticket);
    var ls := Lines(entry + "\n");
    LookupIsView(ls, url);
    ViewShape(ls);
    OneLine(last);
    ViewShape([last]);
    if Free(url, '=') && Free(url, '\n') && Free(ticket, '\n') {
      FreeConcat(url, "=", '\n');
      FreeConcat(url + "=", ticket, '\n');
      FreeConcat(last, url + "=" + ticket, '\n');
      OneLine(entry);
      assert entry == last + url + "=" + ticket;
      MeltedValue(last, ticket, url);
    }
  }

  /** What the file answers for the url from the lines that are ended. */
  function EndedMap(f: File): map<string, string> {
    if f.Present? then View(Lines(EndedPart(f.text))) else map[]
  }

  /** What is looked up in ended lines and more behind them. */
  lemma {:induction false} LookupBehind(front: string, more: string, url: string)
    requires Terminated(front)
    ensures var m := View(Lines(front));
      && LookupIn(Lines(front + more), url) == (if url in m then m[url] else LookupIn(Lines(more), url))
      && (url in View(Lines(front + more)) <==> url in m || url in View(Lines(more)))
  {
    hide *;
    var a, b := Lines(front), Lines(more);
    LinesConcat(front, more);
    ViewConcat(a, b, url);
    LookupIsView(a + b, url);
    LookupIsView(b, url);
  }

  lemma {:induction false} EntryLookup(ticket: string, url: string)
    ensures LookupIn(Lines(url + "=" + ticket + "\n"), url) == ticket
      <==> ticket == "" || (Free(url, '=') && Free(url, '\n') && Free(ticket, '\n'))
  {
    var entry := url + "=" + ticket;
    var ls := Lines(entry + "\n");
    LookupIsView(ls, url);
    ViewShape(ls);
    if Free(url, '=') && Free(url, '\n') && Free(ticket, '\n') {
      FreeConcat(url, "=", '\n');
      FreeConcat(url + "=", ticket, '\n');
      OneLine(entry);
      PutEntry(map[], url, ticket);
    }
    hide View, Lines, LookupIn, Put, Free;
  }

  lemma SavedParts(f: File, ticket: string, url: string) returns (front: string, last: string)
    requires Usable(f)
    ensures Terminated(front) && Free(last, '\n') && (last == "" <==> WellFormed(f))
    ensures EndedMap(f) == View(Lines(front)) && Map(f) == View(Lines(front + last))
    ensures Entries(Saved(f, ticket, url)) == Lines(front + (last + (url + "=" + ticket) + "\n"))
  {
    hide Lines, View, Free, Terminated, EndedPart;
    EmptyAndEnded("");
    if f.Present? {
      front, last := CutUnended(f.text);
      EndedPartIs(front, last);
      assert f.text + (url + "=" + ticket) + "\n" == front + (last + (url + "=" + ticket) + "\n");
    } else {
      front, last := CutUnended("");
      assert front == "" && last == "";
      assert "" + (url + "=" + ticket) + "\n" == front + (last + (url + "=" + ticket) + "\n");
      NothingInView();
    }
  }

  lemma NothingInView()
    ensures View(Lines("")) == map[] && View([]) == map[] && Lines("") == []
  {
  }

  /** For every file, ticket and url: after Save the file answers the ticket exactly when an
      ended line answered it before; or no line did, every line is ended, and no separator gets
      in the way; or the ticket is empty and no line has the url. */
  lemma SaveThenLookup(f: File, ticket: string, url: string)
    ensures Lookup(Saved(f, ticket, url), url) == ticket <==>
      if url in EndedMap(f) then EndedMap(f)[url] == ticket
      else (ticket == "" && url !in Map(f))
           || (WellFormed(f) && Free(url, '=') && Free(url, '\n') && Free(ticket, '\n'))
  {
    hide Lines, View, LookupIn, Free, WellFormed, EndedMap, Map, Saved, Entries;
    if !Usable(f) {
      UnusableSave(f, ticket, url);
    } else {
      var front, last := SavedParts(f, ticket, url);
      var entry := url + "=" + ticket;
      LookupBehind(front, last + entry + "\n", url);
      LookupBehind(front, last, url);
      if last != "" {
        OneLine(last);
        MeltedLookup(last, ticket, url);
      } else {
        assert last + entry + "\n" == entry + "\n";
        EntryLookup(ticket, url);
        NothingInView();
      }
    }
  }

  lemma UnusableSave(f: File, ticket: string, url: string)
    requires !Usable(f)
    ensures Lookup(Saved(f, ticket, url), url) == "" && EndedMap(f) == map[] == Map(f) && !WellFormed(f)
  {
  }
}
