/** Base58btc encoding of proof values (handlers/integrityProofs.ts). */
module Base58 {
  import opened Bytes
  import opened Positional

  const NUMERALS: string := "123456789"
  const CAPITALS: string := "ABCDEFGHJKLMNPQRSTUVWXYZ"
  const SMALLS: string := "abcdefghijkmnopqrstuvwxyz"
  const ALPHABET: string := NUMERALS + CAPITALS + SMALLS

  // ---------------------------------------------------------------- specification

  function Letters(digits: seq<int>): (s: string)
    requires AreDigits(digits, 58)
  {
    seq(|digits|, i requires 0 <= i < |digits| => ALPHABET[digits[i]])
  }

  /** One '1' per leading zero byte, then the bytes as one number in shortest base 58. */
  function Encoded(bytes: seq<Byte>): string {
    Letters(Rebase(bytes, 256, 58))
  }

  predicate IsLetter(c: char) {
    '1' <= c <= '9' || ('A' <= c <= 'Z' && c !in "IO") || ('a' <= c <= 'z' && c != 'l')
  }

  ghost predicate IsBase58(s: string) {
    forall i :: 0 <= i < |s| ==> IsLetter(s[i])
  }

  function DigitOf(c: char): (d: int)
    requires IsLetter(c)
    ensures 0 <= d < 58
  {
    var code := c as int;
    if c <= '9' then code - 49
    else if c < 'I' then code - 56
    else if c < 'O' then code - 57
    else if c <= 'Z' then code - 58
    else if c < 'l' then code - 64
    else code - 65
  }

  function Digits(s: string): (ds: seq<int>)
    requires IsBase58(s)
    ensures AreDigits(ds, 58)
  {
    seq(|s|, i requires 0 <= i < |s| => DigitOf(s[i]))
  }

  /** The decoder of the base58btc format, as a reference for the encoder. */
  function Decoded(s: string): seq<Byte>
    requires IsBase58(s)
  {
    Rebase(Digits(s), 58, 256)
  }

  lemma LetterOfDigit(d: int)
    requires 0 <= d < 58
    ensures IsLetter(ALPHABET[d]) && DigitOf(ALPHABET[d]) == d
  {
    if d < 9 {
      assert ALPHABET[d] == NUMERALS[d];
      NumeralCodes(d);
    } else if d < 33 {
      assert ALPHABET[d] == CAPITALS[d - 9];
      CapitalCodes(d - 9);
    } else {
      assert ALPHABET[d] == SMALLS[d - 33];
      SmallCodes(d - 33);
    }
  }

  lemma NumeralCodes(i: int)
    requires 0 <= i < 9
    ensures NUMERALS[i] as int == 49 + i
  {
  }

  lemma CapitalCodes(i: int)
    requires 0 <= i < 24
    ensures CAPITALS[i] as int == if i < 8 then 65 + i else if i < 13 then 66 + i else 67 + i
  {
  }

  lemma SmallCodes(i: int)
    requires 0 <= i < 25
    ensures SMALLS[i] as int == if i < 11 then 97 + i else 98 + i
  {
  }

  lemma DigitOfLetter(c: char)
    requires IsLetter(c)
    ensures ALPHABET[DigitOf(c)] == c
  {
    LetterOfDigit(DigitOf(c));
    DigitsDiffer(c, ALPHABET[DigitOf(c)]);
  }

  lemma DigitsDiffer(c: char, c': char)
    requires IsLetter(c) && IsLetter(c') && DigitOf(c) == DigitOf(c')
    ensures c == c'
  {
  }

  /** Decoding recovers the exact bytes, leading zero bytes included. */
  lemma DecodeEncoded(bytes: seq<Byte>)
    ensures IsBase58(Encoded(bytes)) && Decoded(Encoded(bytes)) == bytes
  {
    var digits := Rebase(bytes, 256, 58);
    forall i | 0 <= i < |digits|
      ensures IsLetter(ALPHABET[digits[i]]) && DigitOf(ALPHABET[digits[i]]) == digits[i]
    {
      LetterOfDigit(digits[i]);
    }
    assert Digits(Encoded(bytes)) == digits;
    RebaseRoundTrip(bytes, 256, 58);
  }

  /** Every base 58 string is the encoding of the bytes it decodes to. */
  lemma EncodeDecoded(s: string)
    requires IsBase58(s)
    ensures Encoded(Decoded(s)) == s
  {
    RebaseRoundTrip(Digits(s), 58, 256);
    forall i | 0 <= i < |s|
      ensures ALPHABET[DigitOf(s[i])] == s[i]
    {
      DigitOfLetter(s[i]);
    }
    assert Letters(Digits(s)) == s;
  }

  // ---------------------------------------------------------------- the buffer size

  /** `Math.ceil(n * 138 / 100) + 1`. */
  function BufferSize(n: nat): nat {
    (n * 138 + 99) / 100 + 1
  }

  /** The buffer holds every number of `n` bytes. */
  lemma {:induction false} BufferFits(n: nat)
    ensures Pow(256, n) <= Pow(58, BufferSize(n))
  {
    if n < 8 {
      SmallBufferFits(n);
    } else {
      var m := n - 8;
      BufferFits(m);
      PowAdd(256, m, 8);
      PowAdd(58, BufferSize(m), 11);
      EightBytesFitElevenDigits();
      ProductMono(Pow(256, m), Pow(58, BufferSize(m)), Pow(256, 8), Pow(58, 11));
      PowMonotone(58, BufferSize(m) + 11, BufferSize(n));
    }
  }

  lemma ProductMono(x: nat, y: nat, u: nat, v: nat)
    requires x <= y && u <= v
    ensures x * u <= y * v
  {
    MulMono(x, y, u);
    MulMono(u, v, y);
  }

  lemma EightBytesFitElevenDigits()
    ensures 0 <= Pow(256, 8) <= Pow(58, 11)
  {
    assert Pow(256, 8) == 18446744073709551616;
    assert Pow(58, 11) == 24986644000165537792;
  }

  lemma SmallBufferFits(n: nat)
    requires n < 8
    ensures Pow(256, n) <= Pow(58, BufferSize(n))
  {
    var (digits, small, large) :=
      [(1, 1, 58), (3, 256, 195112), (4, 65536, 11316496), (6, 16777216, 38068692544),
       (7, 4294967296, 2207984167552), (8, 1099511627776, 128063081718016),
       (10, 281474976710656, 430804206899405824), (11, 72057594037927936, 24986644000165537792)][n];
    assert Pow(256, n) == small by { assert n in {0, 1, 2, 3, 4, 5, 6, 7}; }
    assert BufferSize(n) == digits;
    assert Pow(58, digits) == large by { assert digits in {1, 3, 4, 6, 7, 8, 10, 11}; }
  }

  // ---------------------------------------------------------------- the encoder

  /**
   * One round of the outer loop: multiply the number in the last `length` cells by 256 and
   * add `byte`. No carry is lost at the front of the buffer, although the inner loop stops
   * at `j == length` once the carry is gone.
   */
  method PushByte(b58: array<int>, length: nat, byte: Byte) returns (newLength: nat)
    requires length <= b58.Length
    requires AreDigits(b58[..], 58) && AllZero(b58[..b58.Length - length])
    requires 256 * Value(b58[..], 58) + byte < Pow(58, b58.Length)
    modifies b58
    ensures newLength <= b58.Length
    ensures AreDigits(b58[..], 58) && AllZero(b58[..b58.Length - newLength])
    ensures Value(b58[..], 58) == 256 * Value(old(b58[..]), 58) + byte
  {
    hide Value, Pow, InRound, AreDigits, AllZero;
    var size := b58.Length;
    ghost var prev := b58[..];
    var carry: int := byte;
    var j: nat, k := 0, size - 1;
    RoundStart(prev, byte);
    while (carry != 0 || j < length) && k >= 0
      invariant -1 <= k < size && j == size - 1 - k
      invariant InRound(prev, b58[..], k + 1, carry, byte)
    {
      ghost var cells, oldCarry := b58[..], carry;
      carry := carry + 256 * b58[k];
      b58[k] := carry % 58;
      carry := carry / 58;
      RoundStep(prev, cells, k, oldCarry, byte, b58[..], carry);
      k, j := k - 1, j + 1;
    }
    RoundEnd(prev, b58[..], length, k + 1, carry, byte);
    newLength := j;
  }

  /**
   * Cells from `from` on have been multiplied by 256 and hold, together with the carry,
   * what they should; cells before `from` are untouched.
   */
  ghost predicate InRound(prev: seq<int>, cells: seq<int>, from: nat, carry: int, byte: int) {
    && |cells| == |prev| && from <= |cells|
    && AreDigits(cells, 58)
    && 0 <= carry <= 255
    && cells[..from] == prev[..from]
    && Value(cells[from..], 58) + carry * Pow(58, |cells| - from) == 256 * Value(prev[from..], 58) + byte
  }

  lemma RoundStart(cells: seq<int>, byte: Byte)
    requires AreDigits(cells, 58)
    ensures InRound(cells, cells, |cells|, byte, byte)
  {
  }

  lemma RoundStep(prev: seq<int>, cells: seq<int>, k: nat, carry: int, byte: int, cells': seq<int>, carry': int)
    requires k < |cells| && InRound(prev, cells, k + 1, carry, byte)
    requires cells' == cells[k := (carry + 256 * cells[k]) % 58]
    requires carry' == (carry + 256 * cells[k]) / 58
    ensures InRound(prev, cells', k, carry', byte)
  {
    var cell, digit, weight := cells[k], cells'[k], Pow(58, |cells| - k - 1);
    assert cell == prev[..k + 1][k] by { assert cells[..k + 1][k] == cell; }
    assert cells'[..k] == prev[..k] by {
      assert cells'[..k] == cells[..k + 1][..k] && prev[..k] == prev[..k + 1][..k];
    }
    assert cells'[k..] == [digit] + cells[k + 1..];
    assert prev[k..] == [cell] + prev[k + 1..];
    ValuePrepend(digit, cells[k + 1..], 58);
    ValuePrepend(cell, prev[k + 1..], 58);
    CarryStep(carry, cell, carry', digit, weight);
  }

  lemma RoundEnd(prev: seq<int>, cells: seq<int>, length: nat, from: nat, carry: int, byte: int)
    requires InRound(prev, cells, from, carry, byte)
    requires length <= |prev| && AllZero(prev[..|prev| - length])
    requires from == 0 || (carry == 0 && |cells| - from >= length)
    requires 256 * Value(prev, 58) + byte < Pow(58, |prev|)
    ensures |cells| == |prev| && from <= |cells| && AreDigits(cells, 58)
    ensures carry == 0 && AllZero(cells[..from])
    ensures Value(cells, 58) == 256 * Value(prev, 58) + byte
  {
    if from == 0 {
      assert cells[0..] == cells && prev[0..] == prev;
      ValueBound(cells, 58);
      CarryIsGone(Value(cells, 58), carry, Pow(58, |cells|));
    } else {
      assert prev[..|prev| - length][..from] == prev[..from];
      assert prev == prev[..from] + prev[from..] && cells == cells[..from] + cells[from..];
      LeadingZerosDenoteNothing(prev[..from], prev[from..], 58);
      LeadingZerosDenoteNothing(cells[..from], cells[from..], 58);
    }
  }

  lemma CarryStep(carryIn: int, cell: int, carryOut: int, digit: int, weight: int)
    requires carryIn + 256 * cell == 58 * carryOut + digit
    ensures digit * weight + carryOut * (58 * weight) == 256 * (cell * weight) + carryIn * weight
  {
    assert (carryIn + 256 * cell) * weight == (58 * carryOut + digit) * weight;
  }

  lemma CarryIsGone(value: nat, carry: nat, bound: nat)
    requires value + carry * bound < bound
    ensures carry == 0
  {
    if carry >= 1 { MulMono(1, carry, bound); }
  }

  method CountLeadingZeros(bytes: seq<Byte>) returns (zeroes: nat)
    ensures zeroes == LeadingZeros(bytes)
  {
    zeroes := 0;
    while zeroes < |bytes| && bytes[zeroes] == 0
      invariant zeroes <= |bytes| && AllZero(bytes[..zeroes])
      invariant LeadingZeros(bytes) == zeroes + LeadingZeros(bytes[zeroes..])
    {
      zeroes := zeroes + 1;
    }
  }

  /** The outer loop: fill the buffer with the base 58 digits of the bytes. */
  method FillBuffer(bytes: seq<Byte>, zeroes: nat) returns (b58: array<int>, length: nat)
    requires zeroes <= |bytes| && AllZero(bytes[..zeroes])
    ensures fresh(b58) && length <= b58.Length
    ensures AreDigits(b58[..], 58) && AllZero(b58[..b58.Length - length])
    ensures Value(b58[..], 58) == Value(bytes, 256)
  {
    hide Value, Pow;
    var size := BufferSize(|bytes|);
    b58 := new int[size](_ => 0);
    length := 0;
    ZeroValue(b58[..], 58);
    ZeroValue(bytes[..zeroes], 256);
    for i := zeroes to |bytes|
      invariant fresh(b58) && length <= size && b58.Length == size
      invariant AreDigits(b58[..], 58) && AllZero(b58[..size - length])
      invariant Value(b58[..], 58) == Value(bytes[..i], 256)
    {
      PushFits(bytes, i);
      length := PushByte(b58, length, bytes[i]);
    }
    assert bytes[..|bytes|] == bytes;
  }

  /** Print the digits of the buffer from its first nonzero one. */
  method PrintDigits(b58: array<int>, length: nat, zeroes: nat) returns (result: string)
    requires length <= b58.Length
    requires AreDigits(b58[..], 58) && AllZero(b58[..b58.Length - length])
    ensures Value(b58[..], 58) >= 0 && AreDigits(Zeros(zeroes) + ToDigits(Value(b58[..], 58), 58), 58)
    ensures result == Letters(Zeros(zeroes) + ToDigits(Value(b58[..], 58), 58))
  {
    hide Value;
    var size := b58.Length;
    var startIdx := size - length;
    while startIdx < size && b58[startIdx] == 0
      invariant startIdx <= size && AllZero(b58[..startIdx])
    {
      startIdx := startIdx + 1;
    }
    ghost var digits := b58[..][startIdx..];
    SkippedZeros(b58[..], startIdx);
    result := "";
    for i := 0 to zeroes
      invariant result == Letters(Zeros(i))
    {
      result := result + ['1'];
      assert ALPHABET[0] == '1' && Letters(Zeros(i + 1)) == Letters(Zeros(i)) + [ALPHABET[0]];
    }
    for i := startIdx to size
      invariant result == Letters(Zeros(zeroes)) + Letters(digits)[..i - startIdx]
    {
      assert b58[i] == digits[i - startIdx];
      result := result + [ALPHABET[b58[i]]];
    }
    assert result == Letters(Zeros(zeroes) + digits);
  }

  /** Zero digits skipped at the front change nothing. */
  lemma SkippedZeros(cells: seq<int>, start: nat)
    requires start <= |cells| && AreDigits(cells, 58) && AllZero(cells[..start])
    requires start < |cells| ==> cells[start] != 0
    ensures AreDigits(cells[start..], 58) && Value(cells, 58) >= 0
    ensures ToDigits(Value(cells, 58), 58) == cells[start..]
  {
    assert cells == cells[..start] + cells[start..];
    LeadingZerosDenoteNothing(cells[..start], cells[start..], 58);
    CanonicalDigits(cells[start..], 58);
  }

  method Base58btcEncode(bytes: seq<Byte>) returns (result: string)
    ensures result == Encoded(bytes)
  {
    if |bytes| == 0 { return ""; }
    var zeroes := CountLeadingZeros(bytes);
    var b58, length := FillBuffer(bytes, zeroes);
    result := PrintDigits(b58, length, zeroes);
  }

  lemma PushFits(bytes: seq<Byte>, i: nat)
    requires i < |bytes|
    ensures Value(bytes[..i + 1], 256) == 256 * Value(bytes[..i], 256) + bytes[i]
    ensures Value(bytes[..i + 1], 256) < Pow(58, BufferSize(|bytes|))
  {
    assert bytes[..i + 1][..i] == bytes[..i];
    ValueBound(bytes[..i + 1], 256);
    PowMonotone(256, i + 1, |bytes|);
    BufferFits(|bytes|);
  }
}
