/**
 Formatting of integers into a log buffer. Digits are produced from the least significant one with
 truncated division, so that negative numbers need no special case, and the range is then reversed
 in place.
 */
module Decimal {

  /** C++ division and remainder by ten: the quotient is truncated toward zero. */
  function Quot(n: int): int {
    if n >= 0 then n / 10 else -(-n / 10)
  }

  function Rem(n: int): (r: int)
    ensures -9 <= r <= 9 && n == 10 * Quot(n) + r
  {
    n - 10 * Quot(n)
  }

  function Abs(n: int): nat {
    if n >= 0 then n else -n
  }

  /** The table of the source; its middle element stands for zero. */
  const DIGITS: string := "9876543210123456789"

  function DigitChar(r: int): char
    requires -9 <= r <= 9
  {
    DIGITS[9 + r]
  }

  /** The digits in the order in which the loop stores them, last one first. */
  function Emit(n: int): string
    decreases Abs(n)
  {
    [DigitChar(Rem(n))] + if Quot(n) == 0 then [] else Emit(Quot(n))
  }

  function Reverse(s: string): (r: string)
    ensures |r| == |s|
  {
    if s == [] then [] else Reverse(s[1..]) + [s[0]]
  }

  /** The text that ends up in the buffer. */
  function Text(n: int): string {
    Reverse(Emit(n) + if n < 0 then "-" else "")
  }

  // ---------------------------------------------------------------- reading decimals

  predicate IsDigit(c: char) {
    '0' <= c <= '9'
  }

  function DigitValue(c: char): int {
    c as int - '0' as int
  }

  function ReadDigits(s: string): int {
    if s == [] then 0 else 10 * ReadDigits(s[..|s| - 1]) + DigitValue(s[|s| - 1])
  }

  function Read(s: string): int {
    if s != [] && s[0] == '-' then -ReadDigits(s[1..]) else ReadDigits(s)
  }

  /** At least one digit, no superfluous leading zero. */
  predicate Canonical(s: string) {
    |s| > 0 && (forall i :: 0 <= i < |s| ==> IsDigit(s[i])) && (|s| > 1 ==> s[0] != '0')
  }

  lemma DigitChars(r: int)
    requires -9 <= r <= 9
    ensures IsDigit(DigitChar(r)) && DigitValue(DigitChar(r)) == Abs(r)
  {
    assert DIGITS[..9] == "987654321" && DIGITS[9..] == "0123456789";
    if r < 0 { assert DigitChar(r) == DIGITS[..9][9 + r]; } else { assert DigitChar(r) == DIGITS[9..][r]; }
  }

  lemma {:induction false} ReverseSum(a: string, b: string)
    ensures Reverse(a + b) == Reverse(b) + Reverse(a)
  {
    if a == [] {
      assert a + b == b;
    } else {
      assert (a + b)[1..] == a[1..] + b;
      ReverseSum(a[1..], b);
    }
  }

  lemma {:induction false} ReverseAt(s: string, k: nat)
    requires k < |s|
    ensures Reverse(s)[k] == s[|s| - 1 - k]
  {
    if k < |s| - 1 { ReverseAt(s[1..], k); }
  }

  lemma ReverseOne(c: char)
    ensures Reverse([c]) == [c]
  {
  }

  /** The digits stored for `n`, read in reverse, are the absolute value of `n`, canonically. */
  lemma {:induction false} EmitReadsBack(n: int)
    ensures Canonical(Reverse(Emit(n))) && ReadDigits(Reverse(Emit(n))) == Abs(n)
    ensures n != 0 ==> Reverse(Emit(n))[0] != '0'
    decreases Abs(n)
  {
    var d := DigitChar(Rem(n));
    DigitChars(Rem(n));
    ReverseOne(d);
    if Quot(n) == 0 {
      assert Emit(n) == [d];
      assert [d][..0] == [];
    } else {
      EmitReadsBack(Quot(n));
      ReverseSum([d], Emit(Quot(n)));
      var high := Reverse(Emit(Quot(n)));
      assert Reverse(Emit(n)) == high + [d];
      assert (high + [d])[..|high|] == high;
    }
  }

  /** Reading the text of a number gives the number back, whatever its sign and size. */
  lemma TextReadsBack(n: int)
    ensures Read(Text(n)) == n
    ensures Canonical(if n < 0 then Text(n)[1..] else Text(n)) && (n < 0 ==> Text(n)[0] == '-')
  {
    hide Emit, Reverse, ReadDigits, Canonical, Quot;
    EmitReadsBack(n);
    var digits := Reverse(Emit(n));
    CanonicalHead(digits);
    if n < 0 {
      ReverseSum(Emit(n), "-");
      ReverseOne('-');
      assert Text(n) == "-" + digits;
      assert Text(n)[1..] == digits;
    } else {
      assert Emit(n) + "" == Emit(n);
    }
  }

  lemma CanonicalHead(s: string)
    requires Canonical(s)
    ensures |s| > 0 && s[0] != '-'
  {
    assert IsDigit(s[0]);
  }

  /** Different numbers have different texts. */
  lemma TextInjective(m: int, n: int)
    requires Text(m) == Text(n)
    ensures m == n
  {
    TextReadsBack(m);
    TextReadsBack(n);
  }

  function Power10(k: nat): nat {
    if k == 0 then 1 else 10 * Power10(k - 1)
  }

  lemma {:induction false} EmitLength(n: int, k: nat)
    requires k > 0 && Abs(n) < Power10(k)
    ensures |Emit(n)| <= k
    decreases k
  {
    assert Power10(k) == 10 * Power10(k - 1) && Power10(0) == 1;
    if Quot(n) != 0 {
      EmitLength(Quot(n), k - 1);
    }
  }

  const MIN_INT64: int := -0x8000_0000_0000_0000
  const MAX_UINT64: int := 0xffff_ffff_ffff_ffff

  /** Every signed or unsigned 64-bit number, the smallest included, takes at most 20 characters. */
  lemma TextLength(n: int)
    requires MIN_INT64 <= n <= MAX_UINT64
    ensures |Text(n)| <= 20 && |Emit(n)| <= 20 && |Emit(n)| >= 1
    ensures |Text(n)| == |Emit(n)| + if n < 0 then 1 else 0
  {
    assert Power10(5) == 100000;
    assert Power10(10) == 10000000000;
    assert Power10(15) == 1000000000000000;
    assert Power10(19) == 10000000000000000000;
    EmitLength(n, if n < 0 then 19 else 20);
  }

}

/** The fixed-size log buffer and the stream that formats into it. */
module LogStream {
  import opened Decimal

  const MAX_NUMERIC_SIZE: nat := 48

  class FixedBuffer {
    const data: array<char>
    var cur: nat

    ghost predicate Valid()
      reads this
    {
      cur <= data.Length
    }

    /** The characters before the write position. */
    ghost function Payload(): string
      requires Valid()
      reads this, data
    {
      data[..cur]
    }

    constructor (size: nat)
      ensures Valid() && Payload() == "" && data.Length == size && fresh(data)
    {
      data := new char[size](_ => '\0');
      cur := 0;
    }

    method Reset()
      modifies `cur
      ensures Valid() && Payload() == ""
    {
      cur := 0;
    }

    /** Text that would fill the buffer to its last byte is refused. */
    method Append(text: string)
      requires Valid()
      modifies this, data
      ensures Valid()
      ensures Payload() == if data.Length - old(cur) > |text| then old(Payload()) + text else old(Payload())
    {
      if data.Length - cur > |text| {
        var i := 0;
        while i < |text|
          invariant i <= |text| && cur == old(cur)
          invariant data[..cur] == old(data[..cur]) && data[cur..cur + i] == text[..i]
        {
          data[cur + i] := text[i];
          i := i + 1;
        }
        assert data[..cur + |text|] == data[..cur] + data[cur..cur + |text|];
        cur := cur + |text|;
      }
    }

    /** `std::reverse(data + lo, data + hi)`. */
    method ReverseRange(lo: nat, hi: nat)
      requires lo <= hi <= data.Length
      modifies data
      ensures data[..lo] == old(data[..lo]) && data[lo..hi] == Reverse(old(data[lo..hi]))
    {
      ghost var was := data[lo..hi];
      var first, last := lo, hi;
      while first + 1 < last
        invariant lo <= first <= last <= hi && first - lo == hi - last
        invariant data[..lo] == old(data[..lo])
        invariant forall k :: lo <= k < first || last <= k < hi ==> data[k] == was[hi - 1 - k]
        invariant forall k :: first <= k < last ==> data[k] == was[k - lo]
      {
        data[first], data[last - 1] := data[last - 1], data[first];
        first, last := first + 1, last - 1;
      }
      forall k | 0 <= k < |was|
        ensures data[lo..hi][k] == Reverse(was)[k]
      {
        ReverseAt(was, k);
      }
    }

    /** The digit loop of `formatInteger`, storing from the write position on. */
    method StoreDigits(num: int) returns (at: nat)
      requires Valid() && cur + |Emit(num)| <= data.Length
      modifies data
      ensures at == cur + |Emit(num)|
      ensures data[..cur] == old(data[..cur]) && data[cur..at] == Emit(num)
    {
      hide Emit, Quot, Rem, DigitChar;
      at := cur;
      var n := num;
      while true
        invariant cur <= at && at - cur + |Emit(n)| == |Emit(num)|
        invariant data[..cur] == old(data[..cur]) && data[cur..at] + Emit(n) == Emit(num)
        decreases Abs(n)
      {
        EmitStep(n);
        ghost var before := data[cur..at];
        data[at] := DigitChar(Rem(n));
        assert data[cur..at + 1] == before + [DigitChar(Rem(n))];
        at := at + 1;
        n := Quot(n);
        if n == 0 {
          break;
        }
      }
    }

    /** `LogStream::formatInteger` on this buffer, which asks for 48 free characters. */
    method FormatInteger(num: int)
      requires Valid() && MIN_INT64 <= num <= MAX_UINT64
      modifies this, data
      ensures Valid()
      ensures Payload() == if data.Length - old(cur) >= MAX_NUMERIC_SIZE then old(Payload()) + Text(num) else old(Payload())
    {
      hide Emit, Reverse;
      if data.Length - cur >= MAX_NUMERIC_SIZE {
        TextLength(num);
        var start := cur;
        var at := StoreDigits(num);
        if num < 0 {
          data[at] := '-';
          assert data[start..at + 1] == data[start..at] + "-";
          at := at + 1;
        }
        ghost var stored := data[start..at];
        assert stored == Emit(num) + if num < 0 then "-" else "";
        data[at] := '\0';
        assert data[start..at] == stored;
        ReverseRange(start, at);
        cur := at;
        assert data[..cur] == data[..start] + data[start..cur];
      }
    }
  }

  lemma EmitStep(n: int)
    ensures Emit(n) == [DigitChar(Rem(n))] + if Quot(n) == 0 then [] else Emit(Quot(n))
    ensures Quot(n) != 0 ==> Abs(Quot(n)) < Abs(n)
  {
  }

}
