/** The authentication message: how the client writes it and how the server takes it
    apart again. */
module AuthMessage {
  import opened Text

  /** What the server has understood so far of an authentication message. */
  datatype Credential = Credential(username: string, secret: string, isTicket: bool)

  const BLANK := Credential("", "", false)

  /** What the client puts behind the user name. */
  datatype Offer = Nothing | Password(hash: string) | Ticket(ticket: string)
  {
    function Secret(): string {
      match this
      case Nothing => ""
      case Password(h) => h
      case Ticket(t) => t
    }
  }

  /** The message the client builds. */
  function AuthText(username: string, offer: Offer): string {
    "Username=" + username + ";" +
    match offer
    case Nothing => ""
    case Password(h) => "Password=" + h
    case Ticket(t) => "Ticket=" + t
  }

  /** What the client means the server to understand. */
  function Intended(username: string, offer: Offer): Credential {
    Credential(username, offer.Secret(), offer.Ticket?)
  }

  /** One `key=value` token, cut at its first `=`. */
  function Apply(token: string, c: Credential): Credential {
    var p := IndexOf(token, '=');
    if p == NPOS then c
    else
      var key, value := Substr(token, 0, p), Substr(token, p + 1);
      if key == "Username" then c.(username := value)
      else if key == "Password" then c.(secret := value, isTicket := false)
      else if key == "Ticket" then c.(secret := value, isTicket := true)
      else c
  }

  function ApplyAll(tokens: seq<string>, c: Credential): Credential {
    if tokens == [] then c else ApplyAll(tokens[1..], Apply(tokens[0], c))
  }

  function Parse(message: string): Credential {
    ApplyAll(Split(message, ';'), BLANK)
  }

  lemma ApplyIs(token: string, c: Credential)
    ensures IndexOf(token, '=') == NPOS ==> Apply(token, c) == c
    ensures var p := IndexOf(token, '='); p != NPOS ==>
      var key, value := Substr(token, 0, p), Substr(token, p + 1);
      && (key == "Username" ==> Apply(token, c) == c.(username := value))
      && (key == "Password" ==> Apply(token, c) == c.(secret := value, isTicket := false))
      && (key == "Ticket" ==> Apply(token, c) == c.(secret := value, isTicket := true))
      && (key != "Username" && key != "Password" && key != "Ticket" ==> Apply(token, c) == c)
  {
  }

  /** What is left of the message, used from `c` on, makes up the meaning of the whole. */
  predicate Using(message: string, c: Credential, received: string) {
    ApplyAll(Split(message, ';'), c) == Parse(received)
  }

  lemma UseAll(received: string)
    ensures Using(received, BLANK, received)
  {
  }

  /** The server's loop: find the next `;`, use the token before it, erase both. */
  method ParseCredential(received: string) returns (c: Credential)
    ensures c == Parse(received)
  {
    hide *;
    var message := received;
    c := BLANK;
    Npos();
    UseAll(received);
    while |message| > 0
      invariant Using(message, c, received)
      decreases |message|
    {
      var pos := IndexOf(message, ';');
      if pos == NPOS {
        pos := |message|;
      }
      var token := Substr(message, 0, pos);
      UseToken(message, c, received);
      ApplyIs(token, c);
      var equalPos := IndexOf(token, '=');
      if equalPos != NPOS {
        var key := Substr(token, 0, equalPos);
        var value := Substr(token, equalPos + 1);
        if key == "Username" {
          c := c.(username := value);
        } else if key == "Password" {
          c := c.(secret := value, isTicket := false);
        } else if key == "Ticket" {
          c := c.(secret := value, isTicket := true);
        }
      }
      message := Erase(message, 0, pos + 1);
    }
    UsedUp(message, c, received);
  }

  lemma {:induction false} EmptyTokens(c: Credential)
    ensures ApplyAll(Split("", ';'), c) == c
  {
    assert Split("", ';') == [""];
    assert [""][1..] == [];
  }

  lemma UsedUp(message: string, c: Credential, received: string)
    requires |message| == 0 && Using(message, c, received)
    ensures c == Parse(received)
  {
    EmptyTokens(c);
    assert message == "";
  }

  lemma UseToken(message: string, c: Credential, received: string)
    requires message != "" && Using(message, c, received)
    ensures var pos := if IndexOf(message, ';') == NPOS then |message| else IndexOf(message, ';');
            && |Erase(message, 0, pos + 1)| < |message|
            && Using(Erase(message, 0, pos + 1), Apply(Substr(message, 0, pos), c), received)
  {
    hide Apply, Parse;
    var p := IndexOf(message, ';');
    if p == NPOS {
      assert Split(message, ';') == [message] && [message][1..] == [];
      assert Substr(message, 0, |message|) == message && Erase(message, 0, |message| + 1) == "";
      EmptyTokens(Apply(message, c));
    } else {
      var rest := message[p + 1..];
      assert Substr(message, 0, p) == message[..p];
      assert Erase(message, 0, p + 1) == rest;
      assert ([message[..p]] + Split(rest, ';'))[1..] == Split(rest, ';');
    }
  }

  lemma {:induction false} ApplyAllConcat(a: seq<string>, b: seq<string>, c: Credential)
    ensures ApplyAll(a + b, c) == ApplyAll(b, ApplyAll(a, c))
  {
    if a == [] {
      assert a + b == b;
    } else {
      assert (a + b)[1..] == a[1..] + b;
      ApplyAllConcat(a[1..], b, Apply(a[0], c));
    }
  }

  lemma {:induction false} ParseConcat(a: string, b: string)
    ensures Parse(a + ";" + b) == ApplyAll(Split(b, ';'), Parse(a))
  {
    SplitConcat(a, ';', b);
    ApplyAllConcat(Split(a, ';'), Split(b, ';'), BLANK);
  }

  /** A token is taken apart at its first `=` only, so values may contain `=`. */
  lemma ApplyPair(key: string, value: string, c: Credential)
    requires key in {"Username", "Password", "Ticket"}
    ensures var t := Apply(key + "=" + value, c);
            t == if key == "Username" then c.(username := value) else c.(secret := value, isTicket := key == "Ticket")
  {
    IndexOfSplit(key, '=', value);
    var token := key + "=" + value;
    assert token == key + ['='] + value;
    assert Substr(token, 0, |key|) == key;
    assert Substr(token, |key| + 1) == value;
  }

  /** The tokens of the message. */
  lemma {:induction false} MessageTokens(username: string, offer: Offer)
    requires Free(username, ';') && Free(offer.Secret(), ';')
    ensures Split(AuthText(username, offer), ';') == ["Username=" + username] +
      match offer
      case Nothing => [""]
      case Password(h) => ["Password=" + h]
      case Ticket(t) => ["Ticket=" + t]
  {
    hide Split;
    var first := "Username=" + username;
    FreeConcat("Username=", username, ';');
    var last := match offer case Nothing => "" case Password(h) => "Password=" + h case Ticket(t) => "Ticket=" + t;
    FreeConcat("Password=", offer.Secret(), ';');
    FreeConcat("Ticket=", offer.Secret(), ';');
    assert AuthText(username, offer) == first + [';'] + last;
    SplitFirst(first, ';', last);
    SplitFirst(last, ';', "");
  }

  predicate SemicolonFree(c: Credential) {
    Free(c.username, ';') && Free(c.secret, ';')
  }

  lemma {:induction false} ParsedIsSemicolonFree(tokens: seq<string>, c: Credential)
    requires SemicolonFree(c)
    requires forall k :: 0 <= k < |tokens| ==> Free(tokens[k], ';')
    ensures SemicolonFree(ApplyAll(tokens, c))
  {
    if tokens != [] {
      assert SemicolonFree(Apply(tokens[0], c)) by {
        var token := tokens[0];
        var p := IndexOf(token, '=');
        if p != NPOS {
          SuffixFree(token, p + 1, ';');
        }
      }
      ParsedIsSemicolonFree(tokens[1..], Apply(tokens[0], c));
    }
  }

  lemma {:induction false} OneToken(key: string, value: string, c: Credential)
    requires key in {"Username", "Password", "Ticket"} && Free(value, ';')
    ensures ApplyAll(Split(key + "=" + value, ';'), c) == Apply(key + "=" + value, c)
  {
    var token := key + "=" + value;
    assert Free(key + "=", ';');
    FreeConcat(key + "=", value, ';');
    assert Split(token, ';') == [token] && [token][1..] == [];
  }

  /** Whatever the user name holds, an offered password is what the server ends up
      checking, and it is never taken for a ticket. */
  lemma PasswordWins(username: string, hash: string)
    requires Free(hash, ';')
    ensures Parse(AuthText(username, Password(hash))).secret == hash
    ensures !Parse(AuthText(username, Password(hash))).isTicket
  {
    var a, b := "Username=" + username, "Password=" + hash;
    assert AuthText(username, Password(hash)) == a + ";" + b;
    ParseConcat(a, b);
    OneToken("Password", hash, Parse(a));
    assert b == "Password" + "=" + hash;
    ApplyPair("Password", hash, Parse(a));
  }

  lemma UserToken(username: string)
    requires Free(username, ';')
    ensures Parse("Username=" + username) == Credential(username, "", false)
  {
    hide Split, Apply;
    var a := "Username=" + username;
    assert a == "Username" + "=" + username;
    OneToken("Username", username, BLANK);
    ApplyPair("Username", username, BLANK);
  }

  lemma CleanRoundTrip(username: string, offer: Offer)
    requires Free(username, ';') && Free(offer.Secret(), ';')
    ensures Parse(AuthText(username, offer)) == Intended(username, offer)
  {
    hide Split, Apply, Free, Parse, ApplyAll;
    var message, a := AuthText(username, offer), "Username=" + username;
    UserToken(username);
    match offer
    case Nothing =>
      assert message == a + ";" + "";
      ParseConcat(a, "");
      EmptyTokens(Parse(a));
    case Password(h) =>
      assert message == a + ";" + ("Password" + "=" + h);
      ParseConcat(a, "Password" + "=" + h);
      OneToken("Password", h, Parse(a));
      ApplyPair("Password", h, Parse(a));
    case Ticket(t) =>
      assert message == a + ";" + ("Ticket" + "=" + t);
      ParseConcat(a, "Ticket" + "=" + t);
      OneToken("Ticket", t, Parse(a));
      ApplyPair("Ticket", t, Parse(a));
  }

  /** The server understands exactly what the client meant precisely when neither the
      user name nor the offered secret contains the token separator. */
  lemma MessageRoundTrip(username: string, offer: Offer)
    ensures Parse(AuthText(username, offer)) == Intended(username, offer)
      <==> Free(username, ';') && Free(offer.Secret(), ';')
  {
    hide Split, Apply, AuthText, ApplyAll, Free;
    StartSemicolonFree();
    ParsedIsSemicolonFree(Split(AuthText(username, offer), ';'), BLANK);
    if Free(username, ';') && Free(offer.Secret(), ';') {
      CleanRoundTrip(username, offer);
    }
  }

  lemma StartSemicolonFree()
    ensures SemicolonFree(BLANK)
  {
  }
}
