/** The string classes on the heap: a buffer with a length and a NUL behind the text,
    edited in place with unsigned index arithmetic that wraps. */
module TrkStrings {
  import opened Text

  /** 2^64, the range of `size_t`, and 2^32, that of `unsigned int`. */
  const SIZE_RANGE := 0x1_0000_0000_0000_0000
  const UINT_RANGE := 0x1_0000_0000

  /** The value of `npos` in an unsigned type with `range` values. */
  function Nowhere(range: nat): nat
    requires range > 0
  {
    range - 1
  }

  /** An unsigned count as the specifications write it. */
  function Count(count: nat, range: nat): int
    requires range > 0
  {
    if count == Nowhere(range) then NPOS else count
  }

  /** How many characters `erase` and `substr` take from `start` on, once `count` has been
      clamped by a comparison whose sum may wrap. */
  function Clamped(length: nat, start: nat, count: nat, range: nat): nat
    requires start < length < range && count < range
  {
    if count == Nowhere(range) || (start + count) % range > length then length - start else count
  }

  lemma SumWraps(x: nat, range: nat)
    requires range > 0 && x < 2 * range
    ensures x % range == if x < range then x else x - range
  {
    if x >= range {
      assert x == range + (x - range);
    }
  }

  /** The clamp keeps within the text exactly when the sum does not wrap, or `count` is npos. */
  lemma ClampSafe(length: nat, start: nat, count: nat, range: nat)
    requires start < length < range && count < range
    ensures start + Clamped(length, start, count, range) <= length
      <==> count == Nowhere(range) || start + count < range
  {
    SumWraps(start + count, range);
  }

  /** The two ways the code writes the clamp. */
  lemma ClampSteps(length: nat, start: nat, count: nat, range: nat)
    requires start < length < range && count < range
    ensures var n := if count == Nowhere(range) then length - start else count;
      Clamped(length, start, count, range) == if (start + n) % range > length then length - start else n
    ensures Clamped(length, start, count, range)
         == if count == Nowhere(range) || (start + count) % range > length then length - start else count
  {
    SumWraps(length, range);
  }

  /** What is left when the clamped part is taken out. */
  lemma EraseIs(text: string, start: nat, count: nat, range: nat)
    requires start < |text| < range && count < range
    requires count == Nowhere(range) || start + count < range
    ensures var n := Clamped(|text|, start, count, range);
      start + n <= |text| && Text.Erase(text, start, Count(count, range)) == text[..start] + text[start + n..]
  {
    SumWraps(start + count, range);
    assert text[..start] + text[|text|..] == text[..start];
  }

  /** What is handed out when the clamped part is copied. */
  lemma SubstrIs(text: string, pos: nat, count: nat, range: nat)
    requires pos < |text| < range && count < range
    requires count == Nowhere(range) || pos + count < range
    ensures var n := Clamped(|text|, pos, count, range);
      pos + n <= |text| && Text.Substr(text, pos, Count(count, range)) == text[pos..pos + n]
  {
    SumWraps(pos + count, range);
  }

  lemma SubstrNothing(text: string, pos: nat, count: nat, range: nat)
    requires |text| <= pos && range > 0
    ensures Text.Substr(text, pos, Count(count, range)) == ""
  {
  }

  /** What has been moved down place by place. */
  lemma MovedDown(before: string, after: string, startPos: nat, n: nat)
    requires startPos + n <= |before| && |after| == |before| - n
    requires forall k :: 0 <= k < startPos ==> after[k] == before[k]
    requires forall k :: startPos <= k < |after| ==> after[k] == before[k + n]
    ensures after == before[..startPos] + before[startPos + n..]
  {
  }

  lemma EraseNothing(text: string, start: nat, count: nat, range: nat)
    requires |text| <= start && range > 0
    ensures Text.Erase(text, start, Count(count, range)) == text
  {
  }

  /** `strchr` finds the character, or the terminating NUL of the set. */
  predicate InSet(set_: string, c: char) {
    c == '\0' || c in CStr(set_)
  }

  lemma InSetIs(chars: string, c: char)
    requires Free(chars, '\0')
    ensures InSet(chars, c) <==> c == '\0' || exists k :: 0 <= k < |chars| && chars[k] == c
  {
  }

  /** `strncpy` of as many characters as there are: up to the first NUL, then NULs only. */
  function StrNCpy(s: string): (r: string)
    ensures |r| == |s|
  {
    CStr(s) + seq(|s| - |CStr(s)|, _ => '\0')
  }

  /** Nothing is lost exactly when there is no NUL, or only NULs behind the first. */
  lemma StrNCpyKeeps(s: string)
    ensures StrNCpy(s) == s <==> forall i, j :: 0 <= i < j < |s| && s[i] == '\0' ==> s[j] == '\0'
    ensures Free(s, '\0') ==> StrNCpy(s) == s
  {
    var p := IndexOf(s, '\0');
    if p != NPOS {
      assert forall k :: 0 <= k < p ==> StrNCpy(s)[k] == s[k];
      assert forall k :: p <= k < |s| ==> StrNCpy(s)[k] == '\0';
    }
  }

  class TrkString {
    var data: array<char>
    var length: nat

    ghost predicate Valid()
      reads this, data
    {
      length < data.Length && length < SIZE_RANGE / 2 && data[length] == '\0'
    }

    ghost function Value(): string
      reads this, data
      requires Valid()
    {
      data[..length]
    }

    /** `TrkString(const char* Start, const char* End)`. */
    constructor (text: string)
      requires |text| < SIZE_RANGE / 2
      ensures Valid() && Value() == text && fresh(data)
    {
      length := |text|;
      data := new char[|text| + 1](i requires 0 <= i <= |text| => if i < |text| then text[i] else '\0');
    }

    /** `erase`: shift the rest down, blank what is left over. */
    method Erase(startPos: nat, count: nat)
      requires Valid() && startPos < SIZE_RANGE && count < SIZE_RANGE
      requires count == Nowhere(SIZE_RANGE) || startPos + count < SIZE_RANGE
      modifies this`length, data
      ensures Valid() && data == old(data)
      ensures Value() == Text.Erase(old(Value()), startPos, Count(count, SIZE_RANGE))
    {
      hide Text.Erase, Clamped, Nowhere, Count;
      if startPos >= length {
        EraseNothing(data[..length], startPos, count, SIZE_RANGE);
        return;
      }
      ClampSteps(length, startPos, count, SIZE_RANGE);
      var n := count;
      if n == Nowhere(SIZE_RANGE) {
        n := length - startPos;
      }
      if (startPos + n) % SIZE_RANGE > length {
        n := length - startPos;
      }
      EraseIs(data[..length], startPos, count, SIZE_RANGE);
      CutOut(startPos, n);
    }

    /** The part of `erase` behind the clamp. */
    method CutOut(startPos: nat, n: nat)
      requires Valid() && startPos + n <= length
      modifies this`length, data
      ensures Valid() && data == old(data)
      ensures Value() == old(Value())[..startPos] + old(Value())[startPos + n..]
    {
      ShiftDown(startPos, n);
      Blank(n);
      length := length - n;
    }

    /** The first loop of `erase`. */
    method ShiftDown(startPos: nat, n: nat)
      requires length < data.Length && startPos + n <= length
      modifies data
      ensures data[..length - n] == old(data[..length])[..startPos] + old(data[..length])[startPos + n..]
      ensures data[length] == old(data[length])
    {
      ghost var before := data[..length];
      var i := startPos;
      while i < length - n
        invariant startPos <= i <= length - n
        invariant forall k :: 0 <= k < startPos ==> data[k] == before[k]
        invariant forall k :: startPos <= k < i ==> data[k] == before[k + n]
        invariant forall k :: i <= k < length ==> data[k] == before[k]
        invariant data[length] == old(data[length])
      {
        data[i] := data[i + n];
        i := i + 1;
      }
      MovedDown(before, data[..length - n], startPos, n);
    }

    /** The second loop of `erase`. */
    method Blank(n: nat)
      requires n <= length < data.Length && data[length] == '\0'
      modifies data
      ensures data[..length - n] == old(data[..length - n])
      ensures data[length - n] == '\0'
    {
      var i := length - n;
      while i < length
        invariant length - n <= i <= length
        invariant forall k :: 0 <= k < length - n ==> data[k] == old(data[k])
        invariant forall k :: length - n <= k < i ==> data[k] == '\0'
        invariant data[length] == '\0'
      {
        data[i] := '\0';
        i := i + 1;
      }
    }

    /** `substr`: a new string, filled by `strncpy`; the text itself is not touched. */
    method Substr(pos: nat, count: nat) returns (result: TrkString)
      requires Valid() && pos < SIZE_RANGE && count < SIZE_RANGE
      requires count == Nowhere(SIZE_RANGE) || pos + count < SIZE_RANGE
      ensures fresh(result) && result.Valid()
      ensures result.Value() == StrNCpy(Text.Substr(Value(), pos, Count(count, SIZE_RANGE)))
      ensures Free(Value(), '\0') ==> result.Value() == Text.Substr(Value(), pos, Count(count, SIZE_RANGE))
    {
      hide Text.Substr, Clamped, Nowhere, Count, StrNCpy;
      if pos >= length {
        SubstrNothing(data[..length], pos, count, SIZE_RANGE);
        StrNCpyKeeps("");
        result := new TrkString("");
        return;
      }
      ClampSteps(length, pos, count, SIZE_RANGE);
      SubstrIs(data[..length], pos, count, SIZE_RANGE);
      var n := count;
      if n == Nowhere(SIZE_RANGE) || (pos + n) % SIZE_RANGE > length {
        n := length - pos;
      }
      var part := data[pos..pos + n];
      assert part == data[..length][pos..pos + n];
      StrNCpyKeeps(part);
      result := new TrkString(StrNCpy(part));
    }

    /** The least position whose character is not in the set. */
    method FindFirstNotOf(chars: string) returns (r: nat)
      requires Valid()
      ensures r == Nowhere(SIZE_RANGE) || r < length
      ensures r == Nowhere(SIZE_RANGE) ==> forall k :: 0 <= k < length ==> InSet(chars, Value()[k])
      ensures r != Nowhere(SIZE_RANGE) ==> !InSet(chars, Value()[r]) && forall k :: 0 <= k < r ==> InSet(chars, Value()[k])
    {
      r := 0;
      while r < length
        invariant 0 <= r <= length
        invariant forall k :: 0 <= k < r ==> InSet(chars, data[k])
      {
        if !InSet(chars, data[r]) {
          return;
        }
        r := r + 1;
      }
      r := Nowhere(SIZE_RANGE);
    }

    /** The greatest; the scan starts at `length - 1`, which for an empty text is npos, and
        ends when stepping below 0 gives npos. */
    method FindLastNotOf(chars: string) returns (r: nat)
      requires Valid()
      ensures r == Nowhere(SIZE_RANGE) || r < length
      ensures r == Nowhere(SIZE_RANGE) ==> forall k :: 0 <= k < length ==> InSet(chars, Value()[k])
      ensures r != Nowhere(SIZE_RANGE) ==> !InSet(chars, Value()[r]) && forall k :: r < k < length ==> InSet(chars, Value()[k])
    {
      r := (length + SIZE_RANGE - 1) % SIZE_RANGE;
      ghost var left := length;
      while r != Nowhere(SIZE_RANGE)
        invariant 0 <= left <= length
        invariant r == if left == 0 then Nowhere(SIZE_RANGE) else left - 1
        invariant forall k :: left <= k < length ==> InSet(chars, data[k])
        decreases left
      {
        if !InSet(chars, data[r]) {
          return;
        }
        r := (r + SIZE_RANGE - 1) % SIZE_RANGE;
        left := left - 1;
      }
    }

    /** `operator<<`: the C strings joined, in a new buffer. */
    method Append(value: string)
      requires Valid() && |Text.Append(Value(), value)| < SIZE_RANGE / 2
      modifies this
      ensures Valid() && fresh(data)
      ensures Value() == Text.Append(old(Value()), value)
    {
      var joined := Text.Append(data[..length], value);
      length := |joined|;
      data := new char[|joined| + 1](i requires 0 <= i <= |joined| => if i < |joined| then joined[i] else '\0');
    }
  }

  // ----- The C structure, whose positions are 32 bits wide

  class CString {
    var data: array<char>
    var length: nat

    ghost predicate Valid()
      reads this, data
    {
      length < data.Length && length < UINT_RANGE && data[length] == '\0'
    }

    ghost function Value(): string
      reads this, data
      requires Valid()
    {
      data[..length]
    }

    /** `trk_string_erase`: one `memmove`, then the NUL at the new end. */
    method Erase(startPos: nat, count: nat)
      requires Valid() && startPos < UINT_RANGE && count < UINT_RANGE
      requires count == Nowhere(UINT_RANGE) || startPos + count < UINT_RANGE
      modifies this`length, data
      ensures Valid() && data == old(data)
      ensures Value() == Text.Erase(old(Value()), startPos, Count(count, UINT_RANGE))
    {
      hide Text.Erase, Clamped, Nowhere, Count;
      if startPos >= length {
        EraseNothing(data[..length], startPos, count, UINT_RANGE);
        return;
      }
      ClampSteps(length, startPos, count, UINT_RANGE);
      EraseIs(data[..length], startPos, count, UINT_RANGE);
      var n := count;
      if n == Nowhere(UINT_RANGE) || (startPos + n) % UINT_RANGE > length {
        n := length - startPos;
      }
      MoveDown(startPos, n);
    }

    /** The part of `trk_string_erase` behind the clamp. */
    method MoveDown(startPos: nat, n: nat)
      requires Valid() && startPos + n <= length
      modifies this`length, data
      ensures Valid() && data == old(data)
      ensures Value() == old(Value())[..startPos] + old(Value())[startPos + n..]
    {
      ghost var before := data[..length];
      ghost var m := length - n;
      forall i | startPos <= i < length - n {
        data[i] := data[i + n];
      }
      MovedDown(before, data[..m], startPos, n);
      ghost var moved := data[..m];
      length := length - n;
      data[length] := '\0';
      assert data[..m] == moved;
    }

    /** `trk_string_append_cstr`: grow the buffer and `strncpy` the suffix behind the text. */
    method AppendCStr(suffix: string)
      requires Valid() && length + |suffix| < UINT_RANGE
      modifies this
      ensures Valid() && fresh(data) && Value() == old(Value()) + StrNCpy(suffix)
    {
      var newLength := (length + |suffix|) % UINT_RANGE;
      var text := data[..length];
      var grown := new char[newLength + 1](i requires 0 <= i <= newLength => if i < |text| then text[i] else '\0');
      var copied := StrNCpy(suffix);
      forall i | 0 <= i < |suffix| {
        grown[length + i] := copied[i];
      }
      grown[newLength] := '\0';
      assert grown[..newLength] == text + copied;
      data := grown;
      length := newLength;
    }
  }
}
