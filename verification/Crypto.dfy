/** Password hashing on both sides of the enrolment. The digest itself is a parameter:
    any function from byte strings to 32 bytes. */
module Crypto {
  import opened Text
  import opened Numbers

  const DIGEST_LENGTH := 32

  type Digest = d: seq<nat> | |d| == DIGEST_LENGTH && forall k :: 0 <= k < |d| ==> d[k] < 256
    witness seq(DIGEST_LENGTH, _ => 0)

  function LowerDigit(v: nat): char
    requires v < 16
  {
    if v < 10 then '0' + v as char else 'a' + (v - 10) as char
  }

  /** `%02x` of one byte. */
  function HexByte(b: nat): (s: string)
    requires b < 256
    ensures |s| == 2
  {
    [LowerDigit(b / 16), LowerDigit(b % 16)]
  }

  /** Hex pairs with a separator between neighbours. */
  function Hex(bytes: seq<nat>, separator: string): string
    requires forall k :: 0 <= k < |bytes| ==> bytes[k] < 256
  {
    if bytes == [] then ""
    else if |bytes| == 1 then HexByte(bytes[0])
    else HexByte(bytes[0]) + separator + Hex(bytes[1..], separator)
  }

  /** `TrkCryptoHelper::SHA256`. */
  function Sha256(digest: string -> Digest, s: string, separator: string := ""): string {
    Hex(digest(s), separator)
  }

  /** What is still to be printed from byte `i` on. */
  function Tail(hash: Digest, i: nat, separator: string): string
    requires i <= DIGEST_LENGTH
  {
    Hex(hash[i..], separator)
  }

  lemma DigestLength()
    ensures DIGEST_LENGTH == 32
  {
  }

  lemma {:induction false} TailStep(hash: Digest, i: nat, separator: string)
    requires i < DIGEST_LENGTH
    ensures Tail(hash, 0, separator) == Hex(hash, separator) && Tail(hash, DIGEST_LENGTH, separator) == ""
    ensures Tail(hash, i, separator)
         == HexByte(hash[i]) + ((if i < DIGEST_LENGTH - 1 then separator else "") + Tail(hash, i + 1, separator))
  {
    assert hash[0..] == hash;
    assert hash[i..][1..] == hash[i + 1..] && hash[i..][0] == hash[i];
  }

  /** The two characters of a byte are its value in base 16. */
  lemma HexByteReads(b: nat)
    requires b < 256
    ensures Stoi(HexByte(b), 16) == b
  {
    LowerDigitReads(b / 16);
    LowerDigitReads(b % 16);
    var s := HexByte(b);
    assert SkipSpace(s) == s && s[1..] == [LowerDigit(b % 16)] && s[1..][1..] == "";
    assert ReadDigits(s[1..], 16, b / 16) == b / 16 * 16 + b % 16;
    assert ReadDigits(s, 16, 0) == ReadDigits(s[1..], 16, b / 16);
  }

  lemma LowerDigitReads(v: nat)
    requires v < 16
    ensures DigitValue(LowerDigit(v)) == v && !IsSpace(LowerDigit(v)) && LowerDigit(v) != '-' && LowerDigit(v) != '+'
  {
    assert v in {0, 1, 2, 3, 4, 5, 6, 7, 8, 9, 10, 11, 12, 13, 14, 15};
  }

  /** Byte `k` is printed at place `k * (2 + |separator|)`, with a separator behind it unless it
      is the last one. */
  predicate PairAt(text: string, bytes: seq<nat>, separator: string, k: nat)
    requires k < |bytes|
  {
    var p := k * (2 + |separator|);
    && p + 2 <= |text| && Stoi(text[p..p + 2], 16) == bytes[k]
    && if k == |bytes| - 1 then p + 2 == |text|
       else p + 2 + |separator| <= |text| && text[p + 2..p + 2 + |separator|] == separator
  }

  lemma {:induction false} HexPairs(bytes: seq<nat>, separator: string, k: nat)
    requires forall j :: 0 <= j < |bytes| ==> bytes[j] < 256
    requires k < |bytes|
    ensures PairAt(Hex(bytes, separator), bytes, separator, k)
    decreases |bytes|
  {
    hide Stoi, HexByte, PairAt;
    HexByteReads(bytes[0]);
    if |bytes| == 1 {
      FirstPair(Hex(bytes, separator), HexByte(bytes[0]), "", bytes, separator);
    } else {
      var front, rest := HexByte(bytes[0]) + separator, Hex(bytes[1..], separator);
      if k == 0 {
        FirstPair(Hex(bytes, separator), HexByte(bytes[0]), rest, bytes, separator);
      } else {
        HexPairs(bytes[1..], separator, k - 1);
        LaterPair(front, rest, bytes, separator, k);
      }
    }
  }

  lemma FirstPair(text: string, first: string, rest: string, bytes: seq<nat>, separator: string)
    requires bytes != [] && |first| == 2 && Stoi(first, 16) == bytes[0]
    requires text == if |bytes| == 1 then first else first + separator + rest
    ensures PairAt(text, bytes, separator, 0)
  {
    assert text[0..2] == first;
    assert |bytes| > 1 ==> text[2..2 + |separator|] == separator;
    hide Stoi;
  }

  lemma LaterPair(front: string, rest: string, bytes: seq<nat>, separator: string, k: nat)
    requires 0 < k < |bytes| && |front| == 2 + |separator| && PairAt(rest, bytes[1..], separator, k - 1)
    ensures PairAt(front + rest, bytes, separator, k)
  {
    hide Stoi;
    var text, w, p := front + rest, |front|, (k - 1) * |front|;
    assert k * w == p + w;
    assert text[p + w..p + w + 2] == rest[p..p + 2];
    assert k < |bytes| - 1 ==> text[p + w + 2..p + w + w] == rest[p + 2..p + w];
  }

  lemma {:induction false} AllPairs(bytes: seq<nat>, separator: string)
    requires forall j :: 0 <= j < |bytes| ==> bytes[j] < 256
    ensures forall k :: 0 <= k < |bytes| ==> PairAt(Hex(bytes, separator), bytes, separator, k)
  {
    forall k | 0 <= k < |bytes| ensures PairAt(Hex(bytes, separator), bytes, separator, k) {
      HexPairs(bytes, separator, k);
    }
  }

  /** The printing loop: a pair per byte, and a separator after each but the last. */
  method PrintDigest(hash: Digest, separator: string) returns (hashString: string)
    ensures hashString == Hex(hash, separator)
    ensures forall k :: 0 <= k < |hash| ==> PairAt(hashString, hash, separator, k)
  {
    hide *;
    AllPairs(hash, separator);
    DigestLength();
    TailStep(hash, 0, separator);
    hashString := "";
    for i := 0 to DIGEST_LENGTH
      invariant hashString + Tail(hash, i, separator) == Hex(hash, separator)
    {
      TailStep(hash, i, separator);
      ghost var left := Tail(hash, i + 1, separator);
      ghost var between := if i < DIGEST_LENGTH - 1 then separator else "";
      Regroup(hashString, HexByte(hash[i]), between + left);
      hashString := hashString + HexByte(hash[i]);
      Regroup(hashString, between, left);
      if separator != "" && i < DIGEST_LENGTH - 1 {
        hashString := hashString + separator;
      }
    }
  }

  lemma Regroup(a: string, b: string, c: string)
    ensures a + (b + c) == a + b + c && a + "" == a
  {
  }

  predicate HexOrColon(c: char) {
    '0' <= c <= '9' || 'a' <= c <= 'f' || c == ':'
  }

  predicate Plain(s: string) {
    forall k :: 0 <= k < |s| ==> HexOrColon(s[k])
  }

  lemma {:induction false} HexShape(bytes: seq<nat>, separator: string)
    requires forall k :: 0 <= k < |bytes| ==> bytes[k] < 256
    requires separator == "" || separator == ":"
    ensures Plain(Hex(bytes, separator))
    ensures bytes != [] ==> |Hex(bytes, separator)| == 2 * |bytes| + |separator| * (|bytes| - 1)
  {
    if |bytes| >= 1 {
      var a, b := bytes[0] / 16, bytes[0] % 16;
      assert HexOrColon(LowerDigit(a)) && HexOrColon(LowerDigit(b));
    }
    if |bytes| > 1 {
      HexShape(bytes[1..], separator);
    }
  }

  /** Both hash forms are made of hex digits and colons only; a ticket has 95 characters. */
  lemma HashShape(digest: string -> Digest, s: string)
    ensures |Sha256(digest, s)| == 64 && |Sha256(digest, s, ":")| == 95
    ensures Plain(Sha256(digest, s)) && Plain(Sha256(digest, s, ":"))
  {
    HexShape(digest(s), "");
    HexShape(digest(s), ":");
  }

  /** So neither form can be mistaken for a separator of a message or of the session file. */
  lemma PlainIsSafe(s: string)
    requires Plain(s)
    ensures Free(s, ';') && Free(s, '=') && Free(s, '\n') && Free(s, '\0')
  {
  }

  /** `n` rounds of salted hashing; none for a negative count. */
  function Salted(digest: string -> Digest, start: string, salt: string, n: int): string
    decreases n
  {
    if n <= 0 then start else Sha256(digest, Salted(digest, start, salt, n - 1) + "::" + salt)
  }

  /** The enrolment tool's loop. */
  method EnrolledHash(digest: string -> Digest, password: string, salt: string, iterations: int)
    returns (passwd: string)
    ensures passwd == Salted(digest, Sha256(digest, password), salt, iterations)
  {
    passwd := Sha256(digest, password);
    var i := 0;
    while i < iterations
      invariant 0 <= i && (i <= iterations || i == 0)
      invariant passwd == Salted(digest, Sha256(digest, password), salt, i)
    {
      passwd := Sha256(digest, passwd + "::" + salt);
      i := i + 1;
    }
    assert iterations <= 0 ==> Salted(digest, passwd, salt, iterations) == passwd;
  }

  /** The server's loop over the credential the client sent. */
  method VerifierHash(digest: string -> Digest, passwd: string, salt: string, iterations: int)
    returns (val: string)
    ensures val == Salted(digest, passwd, salt, iterations)
  {
    val := passwd;
    var i := 0;
    while i < iterations
      invariant 0 <= i && (i <= iterations || i == 0)
      invariant val == Salted(digest, passwd, salt, i)
    {
      val := Sha256(digest, val + "::" + salt);
      i := i + 1;
    }
  }

  /** How many rounds the server makes for a stored count: the column is read as 32 bits. */
  function Rounds(stored: int): int {
    if ToInt32(stored) <= 0 then 0 else ToInt32(stored)
  }

  /** The count fits an `int`, or is so negative that neither side makes a round. */
  predicate RoundsFit(stored: int) {
    -0x8000_0000 <= stored < 0x8000_0000 || (stored < 0 && ToInt32(stored) <= 0)
  }

  /** Then, and only then, enrolment and verification make the same number of rounds. */
  lemma RoundsAgree(stored: int)
    ensures Rounds(stored) == (if stored <= 0 then 0 else stored) <==> RoundsFit(stored)
  {
  }

  lemma {:induction false} SaltedByRounds(digest: string -> Digest, start: string, salt: string, n: int)
    ensures Salted(digest, start, salt, n) == Salted(digest, start, salt, if n <= 0 then 0 else n)
  {
  }

  /** What the server computes from the client's pre-hashed password is what enrolment stored. */
  predicate Verifies(digest: string -> Digest, password: string, salt: string, stored: int) {
    Salted(digest, Sha256(digest, password), salt, ToInt32(stored)) == Salted(digest, Sha256(digest, password), salt, stored)
  }

  lemma FittingRoundsVerify(digest: string -> Digest, password: string, salt: string, stored: int)
    requires RoundsFit(stored)
    ensures Verifies(digest, password, salt, stored)
  {
    SaltedByRounds(digest, Sha256(digest, password), salt, stored);
    SaltedByRounds(digest, Sha256(digest, password), salt, ToInt32(stored));
  }

  // ----- A digest that counts rounds

  /** The number of values of `k` bytes. */
  function Capacity(k: nat): (r: nat)
    ensures r > 0
  {
    if k == 0 then 1 else 256 * Capacity(k - 1)
  }

  /** The low `k` bytes of a number, lowest first. */
  function Bytes(n: nat, k: nat): (d: seq<nat>)
    ensures |d| == k && forall i :: 0 <= i < k ==> d[i] < 256
  {
    if k == 0 then [] else [n % 256] + Bytes(n / 256, k - 1)
  }

  lemma {:induction false} BytesTell(a: nat, b: nat, k: nat)
    requires a < Capacity(k) && b < Capacity(k) && Bytes(a, k) == Bytes(b, k)
    ensures a == b
  {
    if k > 0 {
      assert Bytes(a, k)[0] == Bytes(b, k)[0] && Bytes(a, k)[1..] == Bytes(b, k)[1..];
      BytesTell(a / 256, b / 256, k - 1);
    }
  }

  lemma HexByteTells(a: nat, b: nat)
    requires a < 256 && b < 256 && HexByte(a) == HexByte(b)
    ensures a == b
  {
    assert HexByte(a)[0] == HexByte(b)[0] && HexByte(a)[1] == HexByte(b)[1];
  }

  lemma {:induction false} HexCons(bytes: seq<nat>)
    requires bytes != [] && forall k :: 0 <= k < |bytes| ==> bytes[k] < 256
    ensures Hex(bytes, "") == HexByte(bytes[0]) + Hex(bytes[1..], "")
  {
    if |bytes| == 1 {
      assert bytes[1..] == [];
    }
  }

  /** The printed bytes can be read back from the front of a longer text. */
  lemma {:induction false} HexTells(a: seq<nat>, x: string, b: seq<nat>, y: string)
    requires forall k :: 0 <= k < |a| ==> a[k] < 256
    requires forall k :: 0 <= k < |b| ==> b[k] < 256
    requires |a| == |b| && Hex(a, "") + x == Hex(b, "") + y
    ensures a == b
    decreases |a|
  {
    hide Hex, HexByte;
    if a != [] {
      HexCons(a);
      HexCons(b);
      var a', b' := Hex(a[1..], "") + x, Hex(b[1..], "") + y;
      assert HexByte(a[0]) + a' == Hex(a, "") + x && HexByte(b[0]) + b' == Hex(b, "") + y;
      assert (HexByte(a[0]) + a')[..2] == HexByte(a[0]) && (HexByte(b[0]) + b')[..2] == HexByte(b[0]);
      assert (HexByte(a[0]) + a')[2..] == a' && (HexByte(b[0]) + b')[2..] == b';
      HexByteTells(a[0], b[0]);
      HexTells(a[1..], x, b[1..], y);
      assert a == [a[0]] + a[1..] && b == [b[0]] + b[1..];
    }
  }

  function Counter(n: nat): Digest {
    Bytes(n % Capacity(DIGEST_LENGTH), DIGEST_LENGTH)
  }

  lemma CounterTells(a: nat, x: string, b: nat, y: string)
    requires Hex(Counter(a), "") + x == Hex(Counter(b), "") + y
    ensures a % Capacity(DIGEST_LENGTH) == b % Capacity(DIGEST_LENGTH)
  {
    hide Hex, Bytes, Capacity;
    HexTells(Counter(a), x, Counter(b), y);
    BytesTell(a % Capacity(DIGEST_LENGTH), b % Capacity(DIGEST_LENGTH), DIGEST_LENGTH);
  }

  /** What one round hashes when the counter stands at `n`. */
  function Stage(n: nat, salt: string): string {
    Hex(Counter(n), "") + "::" + salt
  }

  ghost function CountOn(salt: string, s: string): Digest {
    if exists n: nat :: s == Stage(n, salt) then
      var n: nat :| s == Stage(n, salt);
      Counter(n + 1)
    else Counter(0)
  }

  ghost function Counting(salt: string): string -> Digest {
    s => CountOn(salt, s)
  }

  lemma Multiple(m: nat, d: int)
    ensures d >= 1 ==> m * d >= m
    ensures d <= 0 ==> m * d <= 0
  {
  }

  lemma DivisionIsUnique(x: nat, m: nat, q: nat, r: nat)
    requires r < m && x == m * q + r
    ensures x % m == r
  {
    var d := x / m - q;
    assert x == m * (x / m) + x % m;
    assert m * d == m * (x / m) - m * q;
    Multiple(m, d);
    Multiple(m, -d);
    assert m * -d == -(m * d);
  }

  lemma ModNext(x: nat, m: nat)
    requires m > 0
    ensures (x + 1) % m == if x % m + 1 == m then 0 else x % m + 1
  {
    var q := x / m;
    assert x == m * q + x % m;
    if x % m + 1 == m {
      assert m * (q + 1) == m * q + m;
      DivisionIsUnique(x + 1, m, q + 1, 0);
    } else {
      DivisionIsUnique(x + 1, m, q, x % m + 1);
    }
  }

  lemma CountOnChoice(salt: string, s: string) returns (k: nat)
    requires exists n: nat :: s == Stage(n, salt)
    ensures s == Stage(k, salt) && CountOn(salt, s) == Counter(k + 1)
  {
    hide Counter, Stage;
    k :| s == Stage(k, salt) && CountOn(salt, s) == Counter(k + 1);
  }

  /** A round turns the counter on. */
  lemma CountingStep(n: nat, salt: string)
    ensures Counting(salt)(Stage(n, salt)) == Counter(n + 1)
  {
    hide Hex, Bytes, Capacity, CountOn, Stage;
    var k := CountOnChoice(salt, Stage(n, salt));
    StageTells(n, k, salt);
    ModNext(n, Capacity(DIGEST_LENGTH));
    ModNext(k, Capacity(DIGEST_LENGTH));
  }

  lemma StageTells(a: nat, b: nat, salt: string)
    requires Stage(a, salt) == Stage(b, salt)
    ensures a % Capacity(DIGEST_LENGTH) == b % Capacity(DIGEST_LENGTH)
  {
    hide Hex, Counter, Capacity;
    assert Stage(a, salt) == Hex(Counter(a), "") + ("::" + salt);
    assert Stage(b, salt) == Hex(Counter(b), "") + ("::" + salt);
    CounterTells(a, "::" + salt, b, "::" + salt);
  }

  lemma {:induction false} CountedRounds(start: nat, salt: string, n: nat)
    ensures Salted(Counting(salt), Hex(Counter(start), ""), salt, n) == Hex(Counter(start + n), "")
  {
    hide Hex, Counter, CountOn, Counting;
    if n > 0 {
      CountedRounds(start, salt, n - 1);
      CountingStep(start + n - 1, salt);
    }
  }

  lemma CountsFrom(password: string, salt: string) returns (start: nat)
    ensures Counting(salt)(password) == Counter(start)
  {
    hide Counter, Stage;
    if exists n: nat :: password == Stage(n, salt) {
      var n := CountOnChoice(salt, password);
      start := n + 1;
    } else {
      start := 0;
    }
  }

  lemma ModTells(x: nat, a: nat, b: nat, m: nat)
    requires a < b < m
    ensures (x + a) % m != (x + b) % m
  {
    var p, q := (x + a) / m, (x + b) / m;
    assert x + a == m * p + (x + a) % m && x + b == m * q + (x + b) % m;
    assert m * (q - p) == m * q - m * p;
    Multiple(m, q - p);
  }

  lemma {:induction false} CapacityGrows(j: nat, k: nat)
    requires j <= k
    ensures Capacity(j) <= Capacity(k)
    decreases k
  {
    if j < k {
      CapacityGrows(j, k - 1);
    }
  }

  lemma CapacityOfEight()
    ensures Capacity(8) == 0x1_0000_0000_0000_0000
  {
    assert Capacity(2) == 0x1_0000;
    assert Capacity(4) == 256 * (256 * Capacity(2)) == 0x1_0000_0000;
    assert Capacity(6) == 256 * (256 * Capacity(4));
    assert Capacity(8) == 256 * (256 * Capacity(6));
  }

  /** Two different numbers of rounds below 2^64 are told apart. */
  lemma {:induction false} RoundsTell(password: string, salt: string, a: nat, b: nat)
    requires a < b < 0x1_0000_0000_0000_0000
    ensures var start := Sha256(Counting(salt), password);
      Salted(Counting(salt), start, salt, a) != Salted(Counting(salt), start, salt, b)
  {
    hide Hex, Counter, CountOn, Counting, Capacity, Salted;
    var start := CountsFrom(password, salt);
    CountedRounds(start, salt, a);
    CountedRounds(start, salt, b);
    CapacityOfEight();
    CapacityGrows(8, DIGEST_LENGTH);
    if Hex(Counter(start + a), "") == Hex(Counter(start + b), "") {
      CounterTells(start + a, "", start + b, "");
      ModTells(start, a, b, Capacity(DIGEST_LENGTH));
    }
  }

  /** For every password, salt and 64-bit count: the server accepts the password the user was
      enrolled with, whatever the digest is, exactly when the count fits. */
  lemma EnrolledPasswordVerifies(password: string, salt: string, stored: int)
    requires -0x8000_0000_0000_0000 <= stored < 0x8000_0000_0000_0000
    ensures (forall digest: string -> Digest :: Verifies(digest, password, salt, stored)) <==> RoundsFit(stored)
  {
    if RoundsFit(stored) {
      forall digest: string -> Digest ensures Verifies(digest, password, salt, stored) {
        FittingRoundsVerify(digest, password, salt, stored);
      }
    } else {
      RoundsAgree(stored);
      var start := Sha256(Counting(salt), password);
      SaltedByRounds(Counting(salt), start, salt, stored);
      SaltedByRounds(Counting(salt), start, salt, ToInt32(stored));
      var a, b := Rounds(stored), if stored <= 0 then 0 else stored;
      hide Salted, Counting, Sha256;
      RoundsTell(password, salt, if a < b then a else b, if a < b then b else a);
      assert !Verifies(Counting(salt), password, salt, stored);
    }
  }

  // ----- What the salted hash depends on

  /** A digest with two values: 32 times `yes` on the marked texts, 32 times `no` on all others. */
  ghost function Marking(marked: string -> bool, yes: nat, no: nat): string -> Digest
    requires yes < 256 && no < 256
  {
    s => if marked(s) then seq(DIGEST_LENGTH, _ => yes) else seq(DIGEST_LENGTH, _ => no)
  }

  /** How a digest of equal bytes is printed. */
  function Print(byte: nat, separator: string := ""): string
    requires byte < 256
  {
    Hex(seq(DIGEST_LENGTH, _ => byte), separator)
  }

  lemma PrintTells(a: nat, b: nat, separator: string)
    requires a < 256 && b < 256 && a != b
    ensures Print(a, separator) != Print(b, separator)
  {
    HexPairs(seq(DIGEST_LENGTH, _ => a), separator, 0);
    HexPairs(seq(DIGEST_LENGTH, _ => b), separator, 0);
    hide Hex, Stoi;
  }

  lemma MarkingPrints(marked: string -> bool, yes: nat, no: nat, s: string, separator: string)
    requires yes < 256 && no < 256
    ensures Sha256(Marking(marked, yes, no), s, separator) == Print(if marked(s) then yes else no, separator)
  {
    hide Hex;
  }

  lemma SaltedStep(digest: string -> Digest, start: string, salt: string, n: int)
    ensures n <= 0 ==> Salted(digest, start, salt, n) == start
    ensures n > 0 ==> Salted(digest, start, salt, n) == Sha256(digest, Salted(digest, start, salt, n - 1) + "::" + salt)
  {
  }

  lemma {:induction false} SaltedIsHash(digest: string -> Digest, start: string, salt: string, n: nat)
    requires |start| == 64
    ensures |Salted(digest, start, salt, n)| == 64
  {
    if n > 0 {
      HashShape(digest, Salted(digest, start, salt, n - 1) + "::" + salt);
    }
  }

  predicate SaltedAlike(digest: string -> Digest, s: string, a: string, t: string, b: string, n: int) {
    Salted(digest, s, a, n) == Salted(digest, t, b, n)
  }

  lemma SaltsDiffer(password: string, a: string, b: string, n: int) returns (digest: string -> Digest)
    requires a != b && n > 0
    ensures !SaltedAlike(digest, Sha256(digest, password), a, Sha256(digest, password), b, n)
  {
    hide Salted, Sha256, Marking, Print;
    var marked := (s: string) => |s| >= 66 && s[66..] == a;
    digest := Marking(marked, 1, 0);
    var start := Sha256(digest, password);
    HashShape(digest, password);
    SaltedIsHash(digest, start, a, n - 1);
    SaltedIsHash(digest, start, b, n - 1);
    SaltedStep(digest, start, a, n);
    SaltedStep(digest, start, b, n);
    var s, t := Salted(digest, start, a, n - 1) + "::" + a, Salted(digest, start, b, n - 1) + "::" + b;
    assert s[66..] == a && t[66..] == b;
    MarkingPrints(marked, 1, 0, s, "");
    MarkingPrints(marked, 1, 0, t, "");
    PrintTells(1, 0, "");
  }

  /** The salt counts: two salts give the same result for every digest exactly when they are the
      same or no round is made. */
  lemma SaltsTell(password: string, a: string, b: string, n: int)
    ensures (forall digest: string -> Digest ::
               SaltedAlike(digest, Sha256(digest, password), a, Sha256(digest, password), b, n)) <==> a == b || n <= 0
  {
    hide Salted, Sha256, SaltedAlike;
    if a != b && n > 0 {
      var digest := SaltsDiffer(password, a, b, n);
    } else {
      forall digest: string -> Digest
        ensures SaltedAlike(digest, Sha256(digest, password), a, Sha256(digest, password), b, n)
      {
        SameSalted(digest, Sha256(digest, password), a, b, n);
      }
    }
  }

  lemma SameSalted(digest: string -> Digest, start: string, a: string, b: string, n: int)
    requires a == b || n <= 0
    ensures SaltedAlike(digest, start, a, start, b, n)
  {
    SaltedStep(digest, start, a, n);
    SaltedStep(digest, start, b, n);
  }

  /** The texts that keep the rounds from `secret` on the mark. */
  function OnTrack(secret: string, mark: string, salt: string): string -> bool {
    x => x == secret + "::" + salt || x == mark + "::" + salt
  }

  lemma Unsalted(a: string, b: string, salt: string)
    ensures a + "::" + salt == b + "::" + salt <==> a == b
  {
    if a + "::" + salt == b + "::" + salt {
      assert a == (a + "::" + salt)[..|a|] && b == (b + "::" + salt)[..|b|];
    }
  }

  lemma {:induction false} StaysOnTrack(secret: string, other: string, salt: string, yes: nat, no: nat, n: nat)
    requires yes < 256 && no < 256 && yes != no
    requires other != secret && Print(yes) != other && Print(no) != secret
    ensures var digest := Marking(OnTrack(secret, Print(yes), salt), yes, no);
      && Salted(digest, secret, salt, n) == (if n == 0 then secret else Print(yes))
      && Salted(digest, other, salt, n) == (if n == 0 then other else Print(no))
  {
    hide Salted, Sha256, Marking, Print;
    var marked := OnTrack(secret, Print(yes), salt);
    var digest := Marking(marked, yes, no);
    SaltedStep(digest, secret, salt, n);
    SaltedStep(digest, other, salt, n);
    if n > 0 {
      StaysOnTrack(secret, other, salt, yes, no, n - 1);
      var s, t := Salted(digest, secret, salt, n - 1), Salted(digest, other, salt, n - 1);
      MarkingPrints(marked, yes, no, s + "::" + salt, "");
      MarkingPrints(marked, yes, no, t + "::" + salt, "");
      PrintTells(yes, no, "");
      Unsalted(t, secret, salt);
      Unsalted(t, Print(yes), salt);
    }
  }

  /** The secret counts: two secrets give the same result for every digest exactly when they are
      the same. */
  lemma SecretsTell(s: string, t: string, salt: string, n: int)
    ensures (forall digest: string -> Digest :: SaltedAlike(digest, s, salt, t, salt, n)) <==> s == t
  {
    hide Sha256, Print, Marking, Salted;
    if s != t {
      var n' := if n <= 0 then 0 else n;
      PrintTells(0, 1, "");
      PrintTells(2, 3, "");
      var yes := if Print(0) == t then 1 else 0;
      var no := if Print(2) == s then 3 else 2;
      var digest := Marking(OnTrack(s, Print(yes), salt), yes, no);
      StaysOnTrack(s, t, salt, yes, no, n');
      SaltedStep(digest, s, salt, n);
      SaltedStep(digest, t, salt, n);
      PrintTells(yes, no, "");
      assert !SaltedAlike(digest, s, salt, t, salt, n);
    }
  }
}
