/** Number printing (`sprintf`, `operator<<`) and reading (`TrkString::stoi`). */
module Numbers {

  function Digit(v: nat): (c: char)
    requires v < 16
  {
    if v < 10 then '0' + v as char else 'A' + (v - 10) as char
  }

  /** The value of a digit in any base up to 16, or -1. */
  function DigitValue(c: char): int {
    if '0' <= c <= '9' then c as int - '0' as int
    else if 'a' <= c <= 'f' then c as int - 'a' as int + 10
    else if 'A' <= c <= 'F' then c as int - 'A' as int + 10
    else -1
  }

  predicate IsDigit(c: char, base: nat) {
    0 <= DigitValue(c) < base
  }

  predicate IsSpace(c: char) {
    c == ' ' || 9 <= c as int <= 13
  }

  function SkipSpace(s: string): string {
    if s != "" && IsSpace(s[0]) then SkipSpace(s[1..]) else s
  }

  /** The longest run of digits at the front of `s`, read after `acc`. */
  function ReadDigits(s: string, base: nat, acc: int): int {
    if s != "" && IsDigit(s[0], base)
    then ReadDigits(s[1..], base, acc * base + DigitValue(s[0]))
    else acc
  }

  const LONG_MAX := 0x7FFF_FFFF_FFFF_FFFF
  const INT_RANGE := 0x1_0000_0000

  /** `strtol` with a 64-bit `long`: blanks, a sign, an optional 0x, digits, saturation. */
  function Strtol(s: string, base: nat): int {
    var t := SkipSpace(s);
    var negative := t != "" && t[0] == '-';
    var u := if t != "" && (t[0] == '-' || t[0] == '+') then t[1..] else t;
    var w := if base == 16 && |u| >= 3 && u[0] == '0' && (u[1] == 'x' || u[1] == 'X') && IsDigit(u[2], 16)
             then u[2..] else u;
    var v := ReadDigits(w, base, 0);
    var signed := if negative then -v else v;
    if signed > LONG_MAX then LONG_MAX
    else if signed < -LONG_MAX - 1 then -LONG_MAX - 1
    else signed
  }

  /** A 64-bit value narrowed to a 32-bit `int`. */
  function ToInt32(v: int): (r: int)
    ensures -0x8000_0000 <= r < 0x8000_0000
    ensures -0x8000_0000 <= v < 0x8000_0000 ==> r == v
    ensures (v - r) % INT_RANGE == 0
  {
    var m := v % INT_RANGE;
    if m >= 0x8000_0000 then m - INT_RANGE else m
  }

  /** `TrkString::stoi`. */
  function Stoi(s: string, base: nat := 10): int {
    ToInt32(Strtol(s, base))
  }

  /** `sprintf("%03X", n)` for a number of at most three hex digits. */
  function Hex3(n: nat): (s: string)
    requires n < 0x1000
    ensures |s| == 3
  {
    [Digit(n / 256), Digit(n / 16 % 16), Digit(n % 16)]
  }

  lemma DigitRoundTrip(v: nat)
    requires v < 16
    ensures DigitValue(Digit(v)) == v && ('0' <= Digit(v) <= '9' || 'A' <= Digit(v) <= 'F')
    ensures !IsSpace(Digit(v)) && Digit(v) !in "-+xX\0"
  {
    assert v in {0, 1, 2, 3, 4, 5, 6, 7, 8, 9, 10, 11, 12, 13, 14, 15};
  }

  lemma ReadThreeDigits(a: nat, b: nat, c: nat)
    requires a < 16 && b < 16 && c < 16
    ensures ReadDigits([Digit(a), Digit(b), Digit(c)], 16, 0) == (a * 16 + b) * 16 + c
  {
    DigitRoundTrip(a);
    DigitRoundTrip(b);
    DigitRoundTrip(c);
    var s := [Digit(a), Digit(b), Digit(c)];
    assert s[1..] == [Digit(b), Digit(c)];
    assert s[1..][1..] == [Digit(c)];
    assert ReadDigits([Digit(c)], 16, a * 16 + b) == (a * 16 + b) * 16 + c by {
      assert [Digit(c)][1..] == "";
    }
  }

  lemma ThreeHexDigits(n: nat)
    requires n < 0x1000
    ensures n / 256 < 16 && (n / 256 * 16 + n / 16 % 16) * 16 + n % 16 == n
  {
  }

  /** A chunk header's three digits read back as the number printed. */
  lemma Hex3RoundTrip(n: nat)
    requires n < 0x1000
    ensures Stoi(Hex3(n), 16) == n
    ensures forall k :: 0 <= k < 3 ==> '0' <= Hex3(n)[k] <= '9' || 'A' <= Hex3(n)[k] <= 'F'
  {
    ThreeHexDigits(n);
    var a, b, c := n / 256, n / 16 % 16, n % 16;
    DigitRoundTrip(a);
    DigitRoundTrip(b);
    DigitRoundTrip(c);
    ReadThreeDigits(a, b, c);
    assert SkipSpace(Hex3(n)) == Hex3(n);
  }

  /** `operator<<` of a non-negative integer: its decimal digits. */
  function Decimal(n: nat): (s: string)
    ensures |s| >= 1
    ensures forall k :: 0 <= k < |s| ==> '0' <= s[k] <= '9'
  {
    if n < 10 then [Digit(n)] else Decimal(n / 10) + [Digit(n % 10)]
  }

  lemma {:induction false} ReadDigitsAppend(s: string, d: char, acc: int)
    requires forall k :: 0 <= k < |s| ==> '0' <= s[k] <= '9'
    requires '0' <= d <= '9'
    ensures ReadDigits(s + [d], 10, acc) == ReadDigits(s, 10, acc) * 10 + DigitValue(d)
  {
    if s == "" {
      assert (s + [d])[1..] == "";
    } else {
      assert (s + [d])[1..] == s[1..] + [d];
      ReadDigitsAppend(s[1..], d, acc * 10 + DigitValue(s[0]));
    }
  }

  lemma {:induction false} DecimalRead(n: nat)
    ensures ReadDigits(Decimal(n), 10, 0) == n
  {
    if n < 10 {
      DigitRoundTrip(n);
      assert Decimal(n)[1..] == "";
    } else {
      DecimalRead(n / 10);
      DigitRoundTrip(n % 10);
      ReadDigitsAppend(Decimal(n / 10), Digit(n % 10), 0);
    }
  }

  /** A printed count reads back as the `int` with the same low 32 bits, so it
      survives exactly when it fits an `int`. */
  lemma {:induction false} DecimalStoi(n: nat)
    requires n <= LONG_MAX
    ensures Stoi(Decimal(n)) == ToInt32(n)
    ensures Stoi(Decimal(n)) == n <==> n < 0x8000_0000
  {
    DecimalRead(n);
    assert SkipSpace(Decimal(n)) == Decimal(n);
  }

  lemma {:induction false} ReadDigitsStops(s: string, rest: string, base: nat, acc: int)
    requires forall k :: 0 <= k < |s| ==> IsDigit(s[k], base)
    requires rest == "" || !IsDigit(rest[0], base)
    ensures ReadDigits(s + rest, base, acc) == ReadDigits(s, base, acc)
  {
    if s == "" {
      assert s + rest == rest;
    } else {
      assert (s + rest)[1..] == s[1..] + rest;
      ReadDigitsStops(s[1..], rest, base, acc * base + DigitValue(s[0]));
    }
  }

  /** A 64-bit `long` takes what does not fit it for its nearest end. */
  function Saturated(v: int): int {
    if v > 0x7FFF_FFFF_FFFF_FFFF then 0x7FFF_FFFF_FFFF_FFFF
    else if v < -0x8000_0000_0000_0000 then -0x8000_0000_0000_0000
    else v
  }

  /** `strtol` in base 10 of a text that starts with a digit, without and with a sign. */
  lemma {:induction false} StrtolForms(d: string)
    requires d != "" && '0' <= d[0] <= '9'
    ensures Strtol(d, 10) == Strtol("+" + d, 10) == Saturated(ReadDigits(d, 10, 0))
    ensures Strtol("-" + d, 10) == Saturated(-ReadDigits(d, 10, 0))
  {
    hide ReadDigits, IsDigit;
    var p, m := "+" + d, "-" + d;
    assert p[1..] == d && m[1..] == d;
    assert SkipSpace(d) == d && SkipSpace(p) == p && SkipSpace(m) == m;
  }

  /** A sign, and what is behind the digits: all the forms in which a decimal number can be
      given to `stoi`. */
  lemma {:induction false} StoiForms(n: int, rest: string)
    requires n >= 0
    requires rest == "" || !IsDigit(rest[0], 10)
    ensures Stoi(Decimal(n) + rest) == Stoi("+" + Decimal(n) + rest) == ToInt32(Saturated(n))
    ensures Stoi("-" + Decimal(n) + rest) == ToInt32(Saturated(-n))
  {
    hide Decimal, ReadDigits, Strtol, ToInt32, Saturated;
    DecimalRead(n);
    var d := Decimal(n) + rest;
    ReadDigitsStops(Decimal(n), rest, 10, 0);
    StrtolForms(d);
    assert "+" + Decimal(n) + rest == "+" + d && "-" + Decimal(n) + rest == "-" + d;
  }

  /** Blanks do not count, and a text without digits is 0. */
  lemma {:induction false} StoiBlanks(c: char, s: string, base: nat)
    requires c in " \t\n\r" || c as int == 11 || c as int == 12
    ensures Stoi([c] + s, base) == Stoi(s, base) && Stoi("", base) == 0
    ensures s != "" && !IsSpace(s[0]) && !IsDigit(s[0], base) && s[0] != '-' && s[0] != '+' ==> Stoi(s, base) == 0
    ensures forall d: char :: IsSpace(d) ==> d == ' ' || 9 <= d as int <= 13
  {
    assert ([c] + s)[1..] == s;
    assert SkipSpace([c] + s) == SkipSpace(s);
  }

  /** A `0x` in front of hex digits does not count either; anywhere else it ends the number. */
  lemma {:induction false} StoiPrefix(s: string)
    requires s != "" && forall k :: 0 <= k < |s| ==> IsDigit(s[k], 16)
    ensures Stoi("0x" + s, 16) == Stoi("0X" + s, 16) == Stoi(s, 16)
    ensures Stoi("0x", 16) == 0 && Stoi("0x" + s, 10) == 0
  {
    var a, b := "0x" + s, "0X" + s;
    assert a[2..] == s && b[2..] == s;
    assert SkipSpace(a) == a && SkipSpace(b) == b && SkipSpace(s) == s;
    assert "0x"[1..] == "x" && a[1..][0] == 'x';
    assert ReadDigits("0x", 16, 0) == ReadDigits("x", 16, 0) == 0;
    assert ReadDigits(a, 10, 0) == ReadDigits(a[1..], 10, 0) == 0;
  }

  /** `operator<<` of any integer. */
  function DecimalInt(v: int): string {
    if v < 0 then "-" + Decimal(-v) else Decimal(v)
  }
}
