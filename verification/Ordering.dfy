/** The two orders on strings: the C structure's own comparison, which goes by signed
    characters and lengths, and `strcmp`, which goes by unsigned characters up to the NUL. */
module Ordering {

  /** A plain `char` is signed. */
  function Signed(c: char): int {
    if c as int >= 128 then c as int - 256 else c as int
  }

  predicate Bytes(s: string) {
    forall k :: 0 <= k < |s| ==> s[k] as int < 256
  }

  /** `trk_string_strcmp` as a function. */
  function Compare(a: string, b: string): int {
    if a == "" then (if b == "" then 0 else -1)
    else if b == "" then 1
    else if Signed(a[0]) < Signed(b[0]) then -1
    else if Signed(a[0]) > Signed(b[0]) then 1
    else Compare(a[1..], b[1..])
  }

  method TrkStringStrcmp(a: string, b: string) returns (r: int)
    ensures r == Compare(a, b)
  {
    var i := 0;
    while i < |a| && i < |b|
      invariant i <= |a| && i <= |b|
      invariant Compare(a[i..], b[i..]) == Compare(a, b)
    {
      assert a[i..][0] == a[i] && b[i..][0] == b[i];
      assert a[i..][1..] == a[i + 1..] && b[i..][1..] == b[i + 1..];
      if Signed(a[i]) < Signed(b[i]) {
        return -1;
      } else if Signed(a[i]) > Signed(b[i]) {
        return 1;
      }
      i := i + 1;
    }
    if |a| < |b| {
      return -1;
    } else if |a| > |b| {
      return 1;
    }
    r := 0;
  }

  /** Zero only on equality. */
  lemma {:induction false} CompareZero(a: string, b: string)
    requires Bytes(a) && Bytes(b)
    ensures Compare(a, b) == 0 <==> a == b
  {
    if a != "" && b != "" {
      assert a == [a[0]] + a[1..] && b == [b[0]] + b[1..];
      CompareZero(a[1..], b[1..]);
    }
  }

  /** `a` comes first: at the first place where the texts part, `a` ends or has the smaller
      character. */
  ghost predicate Before(a: string, b: string) {
    exists k: nat :: PartAt(a, b, k)
  }

  predicate PartAt(a: string, b: string, k: nat) {
    k <= |a| && k < |b| && a[..k] == b[..k] && (k == |a| || Signed(a[k]) < Signed(b[k]))
  }

  lemma PartBehind(a: string, b: string, k: nat)
    requires PartAt(a, b, k) && a != "" && b != ""
    ensures k > 0 ==> a[0] == b[0]
  {
    if k > 0 {
      assert a[..k][0] == a[0] && b[..k][0] == b[0];
    }
  }

  /** Negative exactly for the text that comes first. */
  lemma {:induction false} CompareDecides(a: string, b: string)
    requires Bytes(a) && Bytes(b)
    ensures Compare(a, b) < 0 <==> Before(a, b)
  {
    if a == "" {
      assert b != "" ==> PartAt(a, b, 0);
    } else if b != "" {
      var a', b' := a[1..], b[1..];
      if a[0] == b[0] {
        CompareDecides(a', b');
        if Before(a', b') {
          var k: nat :| PartAt(a', b', k);
          assert a[..k + 1] == [a[0]] + a'[..k] && b[..k + 1] == [b[0]] + b'[..k];
          assert PartAt(a, b, k + 1);
        }
        if Before(a, b) {
          var k: nat :| PartAt(a, b, k);
          assert a'[..k - 1] == a[..k][1..] && b'[..k - 1] == b[..k][1..];
          assert PartAt(a', b', k - 1);
        }
      } else {
        assert Signed(a[0]) < Signed(b[0]) ==> PartAt(a, b, 0);
        if Before(a, b) {
          var k: nat :| PartAt(a, b, k);
          PartBehind(a, b, k);
        }
      }
    }
  }

  /** The value of a signed byte. */
  lemma SignedIs(c: char)
    requires c as int < 256
    ensures -128 <= Signed(c) < 128 && (c as int - Signed(c)) % 256 == 0
  {
  }

  lemma {:induction false} CompareAntisymmetric(a: string, b: string)
    ensures Compare(a, b) == -Compare(b, a)
    ensures -1 <= Compare(a, b) <= 1
  {
    if a != "" && b != "" {
      CompareAntisymmetric(a[1..], b[1..]);
    }
  }

  /** Transitive, and strictly so as soon as one of the two steps is strict. */
  lemma {:induction false} CompareTransitive(a: string, b: string, c: string)
    requires Compare(a, b) <= 0 && Compare(b, c) <= 0
    ensures Compare(a, c) <= 0
    ensures Compare(a, b) < 0 || Compare(b, c) < 0 ==> Compare(a, c) < 0
  {
    if a != "" && b != "" && c != "" && Signed(a[0]) == Signed(b[0]) == Signed(c[0]) {
      CompareTransitive(a[1..], b[1..], c[1..]);
    }
  }

  /** `strcmp` on texts without NUL: the end counts as less than any character. */
  function Strcmp(a: string, b: string): int {
    if a == "" then (if b == "" then 0 else -1)
    else if b == "" then 1
    else if a[0] < b[0] then -1
    else if a[0] > b[0] then 1
    else Strcmp(a[1..], b[1..])
  }

  /** Where the texts first differ, both characters are 7-bit or neither is. */
  predicate SameHalf(a: string, b: string) {
    if a == "" || b == "" then true
    else if a[0] == b[0] then SameHalf(a[1..], b[1..])
    else (a[0] as int < 128 <==> b[0] as int < 128)
  }

  /** The two orders agree exactly when the first difference does not cross the sign bit. */
  lemma {:induction false} OrdersAgree(a: string, b: string)
    requires Bytes(a) && Bytes(b)
    ensures Compare(a, b) == Strcmp(a, b) <==> SameHalf(a, b)
  {
    if a != "" && b != "" && a[0] == b[0] {
      OrdersAgree(a[1..], b[1..]);
    }
  }

  lemma {:induction false} SevenBitSameHalf(a: string, b: string)
    requires forall k :: 0 <= k < |a| ==> a[k] as int < 128
    requires forall k :: 0 <= k < |b| ==> b[k] as int < 128
    ensures SameHalf(a, b)
  {
    if a != "" && b != "" {
      SevenBitSameHalf(a[1..], b[1..]);
    }
  }
}
