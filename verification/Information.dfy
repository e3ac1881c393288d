/** The reply to `GetInformation`: how the server prints it and the client reads it. */
module Information {
  import opened Text
  import opened Numbers

  datatype Info = Info(version: string, uptime: string, time: string)

  const NOTHING := Info("", "", "")

  /** The body of the server's reply. */
  function InfoText(i: Info): string {
    "serverversion=" + i.version + ";" + "serveruptime=" + i.uptime + ";" + "servertime=" + i.time
  }

  /** One field: known keys append their value. */
  function Take(field: string, i: Info): Info {
    var p := IndexOf(field, '=');
    if p == NPOS then i
    else
      var key, value := Substr(field, 0, p), Substr(field, p + 1);
      if key == "servertime" then i.(time := i.time + value)
      else if key == "serveruptime" then i.(uptime := i.uptime + value)
      else if key == "serverversion" then i.(version := i.version + value)
      else i
  }

  function TakeAll(fields: seq<string>, i: Info): Info {
    if fields == [] then i else TakeAll(fields[1..], Take(fields[0], i))
  }

  function Read(data: string): Info {
    TakeAll(Split(data, ';'), NOTHING)
  }

  ghost predicate Reading(data: string, pos: nat, i: Info, whole: string) {
    pos <= |data| && TakeAll(Split(data[pos..], ';'), i) == Read(whole)
  }

  lemma TakeIs(field: string, i: Info)
    ensures IndexOf(field, '=') == NPOS ==> Take(field, i) == i
    ensures var p := IndexOf(field, '='); p != NPOS ==>
      var key, value := Substr(field, 0, p), Substr(field, p + 1);
      && (key == "servertime" ==> Take(field, i) == i.(time := i.time + value))
      && (key == "serveruptime" ==> Take(field, i) == i.(uptime := i.uptime + value))
      && (key == "serverversion" ==> Take(field, i) == i.(version := i.version + value))
      && (key != "servertime" && key != "serveruptime" && key != "serverversion" ==> Take(field, i) == i)
  {
  }

  lemma {:induction false} TakeAllConcat(a: seq<string>, b: seq<string>, i: Info)
    ensures TakeAll(a + b, i) == TakeAll(b, TakeAll(a, i))
  {
    hide Take;
    if a == [] {
      assert a + b == b;
    } else {
      assert (a + b)[1..] == a[1..] + b;
      TakeAllConcat(a[1..], b, Take(a[0], i));
    }
  }

  lemma {:induction false} EmptyField(i: Info)
    ensures TakeAll(Split("", ';'), i) == i
  {
    assert Split("", ';') == [""] && [""][1..] == [];
  }

  /** The `;` the client adds at the end changes nothing. */
  lemma ReadEnded(data: string)
    ensures Read(data + ";") == Read(data)
  {
    SplitConcat(data, ';', "");
    assert data + [';'] + "" == data + ";";
    TakeAllConcat(Split(data, ';'), Split("", ';'), NOTHING);
    EmptyField(Read(data));
    hide Split, TakeAll, IndexOf;
  }

  lemma ReadingStarts(data: string)
    ensures Reading(data, 0, Info("", "", ""), data)
  {
    assert data[0..] == data;
  }

  lemma ReadingStep(data: string, pos: nat, i: Info, whole: string)
    requires Reading(data, pos, i, whole) && IndexOf(data, ';', pos) != NPOS
    ensures var semi := IndexOf(data, ';', pos);
      Reading(data, semi + 1, Take(data[pos..semi], i), whole)
  {
    hide Take, Read, IndexOf;
    var semi := IndexOf(data, ';', pos);
    var field, rest := data[pos..semi], data[semi + 1..];
    assert Free(field, ';') by { AbsentIsFree(data, ';', pos, semi); }
    assert data[pos..] == field + [';'] + rest;
    SplitFirst(field, ';', rest);
    hide Split;
    assert ([field] + Split(rest, ';'))[1..] == Split(rest, ';');
  }

  lemma AbsentIsFree(s: string, c: char, lo: nat, hi: nat)
    requires lo <= hi <= |s| && Absent(s, c, lo, hi)
    ensures Free(s[lo..hi], c)
  {
  }

  lemma ReadingEnds(data: string, pos: nat, i: Info, whole: string)
    requires data != "" && data[|data| - 1] == ';'
    requires Reading(data, pos, i, whole) && IndexOf(data, ';', pos) == NPOS
    ensures i == Read(whole)
  {
    hide Split, TakeAll, Take, Read;
    assert pos == |data|;
    assert data[pos..] == "";
    EmptyField(i);
  }

  /** The client's loop over a reply that is not empty. */
  method ReadInfo(returned: string) returns (i: Info)
    requires returned != ""
    ensures i == Read(returned)
  {
    hide *;
    Npos();
    var data := returned;
    if data[|data| - 1] != ';' {
      data := data + ";";
      ReadEnded(returned);
    }
    i := Info("", "", "");
    var pos := 0;
    ReadingStarts(data);
    var semicolonPos := IndexOf(data, ';', pos);
    while semicolonPos != NPOS
      invariant 0 <= pos <= |data| && semicolonPos == IndexOf(data, ';', pos)
      invariant Reading(data, pos, i, data)
      decreases |data| - pos
    {
      ReadingStep(data, pos, i, data);
      var param := data[pos..semicolonPos];
      TakeIs(param, i);
      var equalSignPos := IndexOf(param, '=');
      if equalSignPos != NPOS {
        var key, value := Substr(param, 0, equalSignPos), Substr(param, equalSignPos + 1);
        if key == "servertime" {
          i := i.(time := i.time + value);
        } else if key == "serveruptime" {
          i := i.(uptime := i.uptime + value);
        } else if key == "serverversion" {
          i := i.(version := i.version + value);
        }
      }
      pos := semicolonPos + 1;
      semicolonPos := IndexOf(data, ';', pos);
    }
    ReadingEnds(data, pos, i, data);
  }

  predicate SemicolonFree(i: Info) {
    Free(i.version, ';') && Free(i.uptime, ';') && Free(i.time, ';')
  }

  lemma TakeKeepsFree(field: string, i: Info)
    requires Free(field, ';') && SemicolonFree(i)
    ensures SemicolonFree(Take(field, i))
  {
    hide Substr;
    var p := IndexOf(field, '=');
    if p != NPOS {
      var value := Substr(field, p + 1);
      SuffixFree(field, p + 1, ';');
      FreeConcat(i.version, value, ';');
      FreeConcat(i.uptime, value, ';');
      FreeConcat(i.time, value, ';');
    }
  }

  lemma {:induction false} ReadIsFree(fields: seq<string>, i: Info)
    requires SemicolonFree(i) && forall k :: 0 <= k < |fields| ==> Free(fields[k], ';')
    ensures SemicolonFree(TakeAll(fields, i))
  {
    hide Take, SemicolonFree;
    if fields != [] {
      TakeKeepsFree(fields[0], i);
      ReadIsFree(fields[1..], Take(fields[0], i));
    }
  }

  lemma PairTaken(key: string, value: string, i: Info)
    requires key in {"servertime", "serveruptime", "serverversion"}
    ensures Take(key + "=" + value, i) ==
      if key == "servertime" then i.(time := i.time + value)
      else if key == "serveruptime" then i.(uptime := i.uptime + value)
      else i.(version := i.version + value)
  {
    hide IndexOf;
    Npos();
    var field := key + "=" + value;
    IndexOfSplit(key, '=', value);
    assert field == key + ['='] + value;
    assert Substr(field, 0, |key|) == key && Substr(field, |key| + 1) == value;
  }

  lemma {:induction false} NoSeparator(field: string)
    requires Free(field, ';')
    ensures Split(field, ';') == [field]
  {
  }

  lemma {:induction false} OneField(key: string, value: string, i: Info)
    requires key in {"servertime", "serveruptime", "serverversion"} && Free(value, ';')
    ensures TakeAll(Split(key + "=" + value, ';'), i) ==
      if key == "servertime" then i.(time := i.time + value)
      else if key == "serveruptime" then i.(uptime := i.uptime + value)
      else i.(version := i.version + value)
  {
    hide Take, Split, IndexOf;
    var field := key + "=" + value;
    assert Free(key + "=", ';');
    FreeConcat(key + "=", value, ';');
    NoSeparator(field);
    PairTaken(key, value, i);
    assert [field][1..] == [];
  }

  lemma StartIsFree()
    ensures SemicolonFree(NOTHING)
  {
  }

  /** The client recovers what the server printed exactly when no value holds a `;`. */
  lemma InfoRoundTrip(i: Info)
    ensures Read(InfoText(i)) == i <==> SemicolonFree(i)
  {
    hide Split, TakeAll, Take, IndexOf, Free;
    StartIsFree();
    ReadIsFree(Split(InfoText(i), ';'), NOTHING);
    if SemicolonFree(i) {
      var a := "serverversion" + "=" + i.version;
      var b := "serveruptime" + "=" + i.uptime;
      var c := "servertime" + "=" + i.time;
      assert InfoText(i) == a + [';'] + (b + [';'] + c);
      SplitConcat(a, ';', b + [';'] + c);
      SplitConcat(b, ';', c);
      TakeAllConcat(Split(a, ';'), Split(b, ';') + Split(c, ';'), NOTHING);
      OneField("serverversion", i.version, NOTHING);
      var i1 := NOTHING.(version := i.version);
      assert "" + i.version == i.version && "" + i.uptime == i.uptime && "" + i.time == i.time;
      TakeAllConcat(Split(b, ';'), Split(c, ';'), i1);
      OneField("serveruptime", i.uptime, i1);
      OneField("servertime", i.time, i1.(uptime := i.uptime));
    }
  }

  // ----- The uptime

  /** Hours, minutes and seconds without padding, each printed through an `int`. */
  function Uptime(seconds: nat): string {
    DecimalInt(ToInt32(seconds / 3600)) + ":" + Decimal(seconds % 3600 / 60) + ":" + Decimal(seconds % 60)
  }

  lemma DecimalIntStoi(v: int)
    requires -0x8000_0000 <= v < 0x8000_0000
    ensures Stoi(DecimalInt(v)) == v && Free(DecimalInt(v), ':')
  {
    if v >= 0 {
      DecimalStoi(v);
    } else {
      DecimalRead(-v);
      var s := "-" + Decimal(-v);
      assert SkipSpace(s) == s && s[1..] == Decimal(-v);
    }
  }

  /** The printed parts give the uptime back exactly while its hours fit an `int`. */
  lemma UptimeRoundTrip(seconds: nat)
    ensures var parts := Split(Uptime(seconds), ':');
      && |parts| == 3
      && (Stoi(parts[0]) * 3600 + Stoi(parts[1]) * 60 + Stoi(parts[2]) == seconds <==> seconds / 3600 < 0x8000_0000)
  {
    hide DecimalInt, Decimal, Split, Stoi;
    var h, m, s := ToInt32(seconds / 3600), seconds % 3600 / 60, seconds % 60;
    DecimalIntStoi(h);
    DecimalIntStoi(m);
    DecimalIntStoi(s);
    NonNegative(m);
    NonNegative(s);
    var a, b, c := DecimalInt(h), Decimal(m), Decimal(s);
    assert Uptime(seconds) == a + [':'] + (b + [':'] + c);
    SplitFirst(a, ':', b + [':'] + c);
    SplitFirst(b, ':', c);
    SplitFirst(c, ':', "");
    assert [a] + ([b] + [c]) == [a, b, c];
    Narrowing(seconds);
  }

  lemma {:induction false} NonNegative(n: nat)
    ensures DecimalInt(n) == Decimal(n)
  {
  }

  lemma MinutesAndSeconds(seconds: nat)
    ensures seconds / 3600 * 3600 + seconds % 3600 / 60 * 60 + seconds % 60 == seconds
  {
    var q := seconds / 3600;
    var r := seconds - 3600 * q;
    var m := r / 60;
    assert seconds % 3600 == r;
    assert seconds == 60 * (60 * q + m) + (r - 60 * m);
    assert seconds / 60 == 60 * q + m;
  }

  lemma NarrowHours(h: nat)
    ensures ToInt32(h) == h <==> h < 0x8000_0000
  {
  }

  lemma Narrowing(seconds: nat)
    ensures seconds / 3600 * 3600 + seconds % 3600 / 60 * 60 + seconds % 60 == seconds
    ensures ToInt32(seconds / 3600) == seconds / 3600 <==> seconds / 3600 < 0x8000_0000
  {
    hide *;
    MinutesAndSeconds(seconds);
    NarrowHours(seconds / 3600);
  }
}
