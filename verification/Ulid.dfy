/** Time-ordered identifiers (packages/shared/utils/ulid.ts). */
module Ulid {
  import opened Wrappers
  import opened Strings
  import opened Bytes
  import opened Positional

  const DIGITS: string := "0123456789"
  const A_TO_K: string := "ABCDEFGHJK"
  const M_TO_Z: string := "MNPQRST" + "VWXYZ"
  const ALPHABET: string := DIGITS + A_TO_K + M_TO_Z

  /** Crockford's alphabet is in the order of its character codes. */
  lemma AlphabetAscends(i: nat, j: nat)
    requires i < j < 32
    ensures |ALPHABET| == 32 && ALPHABET[i] < ALPHABET[j]
  {
  }

  lemma AlphabetIndex(d: nat)
    requires d < 32
    ensures |ALPHABET| == 32 && IndexOf(ALPHABET, [ALPHABET[d]]) == d && UpperChar(ALPHABET[d]) == ALPHABET[d]
  {
    AlphabetIsUpper(d);
    forall i | 0 <= i < d ensures ALPHABET[i] != ALPHABET[d] { AlphabetAscends(i, d); }
    FirstFrom(ALPHABET, ALPHABET[d], 0, d);
  }

  lemma AlphabetIsUpper(d: nat)
    requires d < 32
    ensures |ALPHABET| == 32 && UpperChar(ALPHABET[d]) == ALPHABET[d]
  {
  }

  function Letters(ds: seq<int>): (s: string)
    requires AreDigits(ds, 32)
    ensures |s| == |ds|
  {
    seq(|ds|, i requires 0 <= i < |ds| => ALPHABET[ds[i]])
  }

  // ---------------------------------------------------------------- numerals of fixed width

  /** The last `width` digits of `n`. */
  function Fixed(n: nat, width: nat, b: nat): (ds: seq<int>)
    requires b >= 2
    ensures |ds| == width && forall i :: 0 <= i < width ==> 0 <= ds[i] < b
  {
    if width == 0 then [] else Fixed(n / b, width - 1, b) + [n % b]
  }

  /** What is left of `n` without its last `width` digits. */
  function Rest(n: nat, width: nat, b: nat): nat
    requires b >= 2
  {
    if width == 0 then n else Rest(n / b, width - 1, b)
  }

  lemma Recombine(n: int, q: int, r: int, rest: int, p: int, v: int, b: int)
    requires n == q * b + r && q == rest * p + v
    ensures n == rest * (b * p) + (v * b + r)
  {
    Distribute(rest, p, v, b);
  }

  lemma DivMod(n: nat, b: nat)
    requires b >= 2
    ensures n / b >= 0 && n == n / b * b + n % b
  {
  }

  lemma FixedStep(n: nat, width: nat, b: nat)
    requires b >= 2 && width > 0
    ensures Rest(n, width, b) == Rest(n / b, width - 1, b) && Pow(b, width) == b * Pow(b, width - 1)
    ensures Value(Fixed(n, width, b), b) == Value(Fixed(n / b, width - 1, b), b) * b + n % b
  {
    AppendDigit(Fixed(n / b, width - 1, b), n % b, b);
  }

  lemma {:induction false} FixedAndRest(n: nat, width: nat, b: nat)
    requires b >= 2
    ensures n == Rest(n, width, b) * Pow(b, width) + Value(Fixed(n, width, b), b)
    decreases width
  {
    if width > 0 {
      DivMod(n, b);
      FixedAndRest(n / b, width - 1, b);
      FixedStep(n, width, b);
      hide *;
      var q, r, v := n / b, n % b, Value(Fixed(n / b, width - 1, b), b);
      Recombine(n, q, r, Rest(q, width - 1, b), Pow(b, width - 1), v, b);
    } else {
      assert Value([], b) == 0;
    }
  }

  lemma FixedValue(n: nat, width: nat, b: nat)
    requires b >= 2
    ensures Pow(b, width) >= 1 && Value(Fixed(n, width, b), b) == n % Pow(b, width)
  {
    PowMonotone(b, 0, width);
    FixedAndRest(n, width, b);
    ValueBound(Fixed(n, width, b), b);
    DivModUnique(Rest(n, width, b), Value(Fixed(n, width, b), b), Pow(b, width));
  }

  lemma {:induction false} FixedOfValue(ds: seq<int>, b: nat)
    requires b >= 2 && AreDigits(ds, b)
    ensures Value(ds, b) >= 0 && Fixed(Value(ds, b), |ds|, b) == ds
  {
    ValueBound(ds, b);
    if ds != [] {
      var n := |ds| - 1;
      ValueBound(ds[..n], b);
      FixedOfValue(ds[..n], b);
      DivModUnique(Value(ds[..n], b), ds[n], b);
      assert ds == ds[..n] + [ds[n]];
    }
  }

  // ---------------------------------------------------------------- generating

  ghost function Number(bytes: seq<Byte>): nat {
    ValueBound(bytes, 256);
    Value(bytes, 256)
  }

  function TimeDigits(now: nat): (ds: seq<int>)
    ensures |ds| == 10 && AreDigits(ds, 32)
  {
    Fixed(now, 10, 32)
  }

  ghost function RandomDigits(bytes: seq<Byte>): (ds: seq<int>)
    ensures |ds| == 16 && AreDigits(ds, 32)
  {
    Fixed(Number(bytes), 16, 32)
  }

  /** Ten digits of time, then the random bytes as sixteen digits. */
  ghost function UlidOf(now: nat, bytes: seq<Byte>): (id: string)
    ensures |id| == 26 && id[..10] == Letters(TimeDigits(now)) && id[10..] == Letters(RandomDigits(bytes))
  {
    hide TimeDigits, RandomDigits, Letters;
    Letters(TimeDigits(now)) + Letters(RandomDigits(bytes))
  }

  method TimePart(now: nat) returns (part: string)
    ensures part == Letters(TimeDigits(now))
  {
    var ts: nat := now;
    var timePart := new char[10];
    ghost var tail: seq<int> := [];
    var i := 9;
    while i >= 0
      invariant -1 <= i <= 9
      invariant AreDigits(tail, 32) && |tail| == 9 - i
      invariant Fixed(ts, i + 1, 32) + tail == Fixed(now, 10, 32)
      invariant timePart[i + 1..] == Letters(tail)
    {
      AlphabetIndex(ts % 32);
      timePart[i] := ALPHABET[ts % 32];
      assert Fixed(ts, i + 1, 32) + tail == Fixed(ts / 32, i, 32) + ([ts % 32] + tail);
      assert timePart[i..] == [timePart[i]] + timePart[i + 1..];
      tail := [ts % 32] + tail;
      ts := ts / 32;
      i := i - 1;
    }
    assert Fixed(ts, 0, 32) + tail == tail;
    part := timePart[..];
  }

  function Pow2(n: nat): nat {
    Pow(2, n)
  }

  lemma Powers()
    ensures Pow2(0) == 1 && Pow2(1) == 2 && Pow2(2) == 4 && Pow2(3) == 8
    ensures Pow2(4) == 16 && Pow2(5) == 32 && Pow2(6) == 64 && Pow2(7) == 128 && Pow2(8) == 256
    ensures Pow2(9) == 512 && Pow2(10) == 1024 && Pow2(11) == 2048 && Pow2(12) == 4096 && Pow2(13) == 8192
    ensures Pow2(14) == 16384 && Pow2(15) == 32768 && Pow2(16) == 65536
  {
    assert Pow(2, 4) == 16;
    assert Pow(2, 8) == 256;
    assert Pow(2, 12) == 4096;
  }

  /** `x >> n` of a number of at most 32 bits */
  function ShiftRight(x: nat, n: nat): nat {
    PowMonotone(2, 0, n);
    x / Pow2(n)
  }

  /** The bytes with zeros behind them. */
  function Padded(bytes: seq<Byte>): seq<int> {
    bytes + [0, 0]
  }

  /** The number formed by the first `k` bits of the bytes. */
  function TopBits(bytes: seq<Byte>, k: nat): int
    requires |bytes| == 10 && k <= 80
  {
    PowMonotone(2, 0, 16 - k % 8);
    Value(Padded(bytes)[..k / 8 + 2], 256) / Pow2(16 - k % 8)
  }

  /** The two bytes at the cursor. */
  function TwoBytes(bytes: seq<Byte>, m: nat): nat
    requires |bytes| == 10 && m < 10
  {
    var high: int := bytes[m];
    var low: int := if m + 1 < |bytes| then bytes[m + 1] else 0;
    high * 256 + low
  }

  lemma NextDigit(ds: seq<int>, n: nat, b: int)
    requires n < |ds|
    ensures Value(ds[..n + 1], b) == Value(ds[..n], b) * b + ds[n]
  {
    assert ds[..n + 1] == ds[..n] + [ds[n]];
    AppendDigit(ds[..n], ds[n], b);
  }

  lemma DivideTwice(x: nat, e: nat)
    requires e >= 1
    ensures x / (32 * e) == x / e / 32
  {
    var q, r := x / e, x % e;
    var s, t := q / 32, q % 32;
    MulMono(t + 1, 32, e);
    MulMono(0, t, e);
    assert (t + 1) * e == t * e + e;
    assert x == q * e + r && q * e == s * (32 * e) + t * e;
    DivModUnique(s, t * e + r, 32 * e);
  }

  lemma ShiftOut(p: nat, two: nat, e: nat, c: nat)
    requires e >= 1 && e * c == 65536
    ensures (p * 65536 + two) / e == p * c + two / e
  {
    var q, r := two / e, two % e;
    assert p * c >= 0 by { MulMono(0, p, c); }
    assert p * 65536 + two == (p * c + q) * e + r by { assert p * (e * c) == (p * c) * e; }
    DivModUnique(p * c + q, r, e);
  }

  /** Five bits of a window are the next five bits of the number it ends. */
  lemma FiveBits(p: nat, two: nat, e: nat, c: nat)
    requires e >= 1 && e * (32 * c) == 65536
    ensures (p * 65536 + two) / e == 32 * ((p * 65536 + two) / (32 * e)) + two / e % 32
  {
    var x := p * 65536 + two;
    ShiftOut(p, two, e, 32 * c);
    DivideTwice(x, e);
    var z := p * c;
    assert p * (32 * c) == 32 * z;
    assert (32 * z + two / e) % 32 == two / e % 32;
  }

  lemma MoreBitsSame(w: nat, b: Byte, e: nat)
    requires e in {16, 32, 64, 128, 256}
    ensures (w * 256 + b) / (256 * e) == w / e
  {
  }

  lemma PowersMeet(off: nat)
    requires off < 8
    ensures Pow2(11 - off) in {16, 32, 64, 128, 256, 512, 1024, 2048}
    ensures Pow2(11 - off) * (32 * Pow2(off)) == 65536 && Pow2(16 - off) == 32 * Pow2(11 - off)
    ensures off >= 3 ==> Pow2(11 - off) <= 256 && Pow2(19 - off) == 256 * Pow2(11 - off)
  {
    Powers();
    hide Pow2;
  }

  /** The window at the cursor is the number of the bytes so far times 65536, plus the two bytes. */
  lemma WindowValue(bytes: seq<Byte>, m: nat) returns (p: nat)
    requires |bytes| == 10 && m < 10
    ensures Value(Padded(bytes)[..m + 2], 256) == p * 65536 + TwoBytes(bytes, m) && TwoBytes(bytes, m) < 65536
  {
    var ds := Padded(bytes);
    NextDigit(ds, m, 256);
    NextDigit(ds, m + 1, 256);
    ValueBound(ds[..m], 256);
    p := Value(ds[..m], 256);
  }

  /** The window at the cursor also holds the five bits to come. */
  lemma WindowTops(bytes: seq<Byte>, k: nat)
    requires |bytes| == 10 && k <= 75
    ensures var w, e := Value(Padded(bytes)[..k / 8 + 2], 256), Pow2(11 - k % 8);
            e >= 1 && TopBits(bytes, k) == w / (32 * e) && TopBits(bytes, k + 5) == w / e
  {
    var m, off, ds := k / 8, k % 8, Padded(bytes);
    PowersMeet(off);
    var p := WindowValue(bytes, m);
    NextCursor(k);
    if off > 2 {
      NextDigit(ds, m + 2, 256);
      assert 0 <= ds[m + 2] < 256;
      MoreBitsSame(Value(ds[..m + 2], 256), ds[m + 2], Pow2(11 - off));
    }
    hide Value, Pow2, TwoBytes, Padded;
  }

  /** The cursor step: each digit is the next five bits. */
  lemma CursorStep(bytes: seq<Byte>, k: nat)
    requires |bytes| == 10 && k <= 75
    ensures TopBits(bytes, k + 5)
            == 32 * TopBits(bytes, k) + ShiftRight(TwoBytes(bytes, k / 8), 11 - k % 8) % 32
  {
    hide Value, Pow2, TwoBytes, Padded, TopBits;
    WindowTops(bytes, k);
    PowersMeet(k % 8);
    var p := WindowValue(bytes, k / 8);
    FiveBits(p, TwoBytes(bytes, k / 8), Pow2(11 - k % 8), Pow2(k % 8));
  }

  lemma NextCursor(k: nat)
    ensures k % 8 <= 2 ==> (k + 5) / 8 == k / 8 && (k + 5) % 8 == k % 8 + 5
    ensures k % 8 > 2 ==> (k + 5) / 8 == k / 8 + 1 && (k + 5) % 8 == k % 8 - 3
  {
  }

  /** The loop that walks the bit cursor over the bytes. */
  method RandomPart(bytes: seq<Byte>) returns (part: string)
    requires |bytes| == 10
    ensures part == Letters(RandomDigits(bytes))
  {
    var randPart := new char[16];
    var bitCursor := 0;
    ghost var digits: seq<int> := [];
    TopBitsStart(bytes);
    for i := 0 to 16
      invariant bitCursor == 5 * i
      invariant AreDigits(digits, 32) && |digits| == i && Value(digits, 32) == TopBits(bytes, bitCursor)
      invariant randPart[..i] == Letters(digits)
    {
      hide TopBits, TwoBytes, ShiftRight, Value, Letters, RandomDigits, IndexOf, UpperChar;
      var byteIdx, bitOffset := bitCursor / 8, bitCursor % 8;
      var value := ShiftRight(TwoBytes(bytes, byteIdx), 11 - bitOffset) % 32;
      AlphabetIndex(value);
      randPart[i] := ALPHABET[value];
      DigitStep(bytes, digits, bitCursor);
      assert randPart[..i + 1] == randPart[..i] + [randPart[i]];
      digits := digits + [value];
      bitCursor := bitCursor + 5;
    }
    DigitsDone(bytes, digits);
    part := randPart[..];
    assert randPart[..16] == randPart[..];
  }

  lemma DigitStep(bytes: seq<Byte>, digits: seq<int>, k: nat)
    requires |bytes| == 10 && k <= 75 && Value(digits, 32) == TopBits(bytes, k)
    ensures Value(digits + [ShiftRight(TwoBytes(bytes, k / 8), 11 - k % 8) % 32], 32) == TopBits(bytes, k + 5)
  {
    CursorStep(bytes, k);
    AppendDigit(digits, ShiftRight(TwoBytes(bytes, k / 8), 11 - k % 8) % 32, 32);
    hide *;
  }

  lemma DigitsDone(bytes: seq<Byte>, digits: seq<int>)
    requires |bytes| == 10 && |digits| == 16 && AreDigits(digits, 32) && Value(digits, 32) == TopBits(bytes, 80)
    ensures digits == RandomDigits(bytes)
  {
    TopBitsEnd(bytes);
    FixedOfValue(digits, 32);
  }

  lemma TopBitsStart(bytes: seq<Byte>)
    requires |bytes| == 10
    ensures TopBits(bytes, 0) == 0
  {
    Powers();
    ValueBound(Padded(bytes)[..2], 256);
    assert Pow(256, 2) == 65536;
  }

  lemma TopBitsEnd(bytes: seq<Byte>)
    requires |bytes| == 10
    ensures TopBits(bytes, 80) == Value(bytes, 256) >= 0
  {
    Powers();
    ValueBound(bytes, 256);
    var ds := Padded(bytes);
    NextDigit(ds, 10, 256);
    NextDigit(ds, 11, 256);
    assert ds[..10] == bytes && ds[10] == 0 && ds[11] == 0;
    var v := Value(bytes, 256);
    assert Value(ds[..12], 256) == v * 65536;
  }

  /** `generateUlid` at a given time with given random bytes. */
  method GenerateUlid(now: nat, randomBytes: seq<Byte>) returns (id: string)
    requires |randomBytes| == 10
    ensures id == UlidOf(now, randomBytes)
  {
    var timePart := TimePart(now);
    var randPart := RandomPart(randomBytes);
    id := timePart + randPart;
  }

  // ---------------------------------------------------------------- reading

  predicate IsLetter(c: char) {
    IndexOf(ALPHABET, [c]) != -1
  }

  /** 26 characters of the alphabet, in either case. */
  predicate IsValidUlid(id: string) {
    |id| == 26 && forall i :: 0 <= i < 26 ==> IsLetter(Upper(id)[i])
  }

  function Indices(s: string): (ds: seq<int>)
    ensures |ds| == |s|
  {
    seq(|s|, i requires 0 <= i < |s| => IndexOf(ALPHABET, [s[i]]))
  }

  /** The time in the first ten characters; nothing stands for the exception of an invalid or missing one. */
  function DateOf(id: string): Option<int> {
    var upper := Upper(id);
    if |upper| < 10 || exists i :: 0 <= i < 10 && !IsLetter(upper[i]) then None
    else Some(Value(Indices(upper[..10]), 32))
  }

  lemma IndicesAppend(s: string, i: nat)
    requires i < |s|
    ensures Indices(s[..i + 1]) == Indices(s[..i]) + [IndexOf(ALPHABET, [s[i]])]
  {
    hide IndexOf;
  }

  /** `ulidToDate` */
  method UlidToDate(id: string) returns (date: Option<int>)
    ensures date == DateOf(id)
  {
    hide Upper, IndexOf, Value, Indices;
    var time: int := 0;
    var upper := Upper(id);
    assert Value(Indices(upper[..0]), 32) == 0 by { NoIndices(upper[..0]); }
    for i := 0 to 10
      invariant i <= |upper| && forall j :: 0 <= j < i ==> IsLetter(upper[j])
      invariant time == Value(Indices(upper[..i]), 32)
    {
      if i >= |upper| { return None; }
      var idx := IndexOf(ALPHABET, [upper[i]]);
      if idx == -1 { return None; }
      time := time * 32 + idx;
      AppendDigit(Indices(upper[..i]), idx, 32);
      IndicesAppend(upper, i);
    }
    date := Some(time);
  }

  /** The letters are the digits and the capitals but I, L, O and U. */
  lemma CrockfordLetters(c: char)
    ensures c in ALPHABET <==> '0' <= c <= '9' || ('A' <= c <= 'Z' && c !in "ILOU")
  {
    forall i | 0 <= i < 10 ensures ALPHABET[i] == DIGITS[i] && ALPHABET[i + 10] == A_TO_K[i] {}
    forall i | 0 <= i < 12 ensures ALPHABET[i + 20] == M_TO_Z[i] {}
    InDigits(c);
    InAToK(c);
    InMToZ(c);
    assert c in ALPHABET <==> c in DIGITS || c in A_TO_K || c in M_TO_Z;
  }

  lemma InDigits(c: char)
    ensures c in DIGITS <==> '0' <= c <= '9'
  {
    if '0' <= c <= '9' { assert DIGITS[c as int - 48] == c; }
  }

  lemma InAToK(c: char)
    ensures c in A_TO_K <==> 'A' <= c <= 'K' && c != 'I'
  {
    if 'A' <= c <= 'H' { assert A_TO_K[c as int - 65] == c; }
  }

  lemma InMToZ(c: char)
    ensures c in M_TO_Z <==> 'M' <= c <= 'Z' && c != 'O' && c != 'U'
  {
    if 'P' <= c <= 'T' { assert M_TO_Z[c as int - 78] == c; }
    if 'V' <= c <= 'Z' { assert M_TO_Z[c as int - 79] == c; }
  }

  /**
   * A text has a date exactly when its first ten characters are letters of the alphabet, in either case; it is valid
   * when it has 26 and all are.
   */
  lemma DateExactlyWhen(id: string)
    ensures DateOf(id).Some?
            <==> |id| >= 10 && forall i :: 0 <= i < 10 ==>
                   var c := UpperChar(id[i]); '0' <= c <= '9' || ('A' <= c <= 'Z' && c !in "ILOU")
    ensures IsValidUlid(id)
            <==> |id| == 26 && forall i :: 0 <= i < 26 ==>
                   var c := UpperChar(id[i]); '0' <= c <= '9' || ('A' <= c <= 'Z' && c !in "ILOU")
  {
    forall i | 0 <= i < |id| ensures IsLetter(Upper(id)[i]) <==> UpperChar(id[i]) in ALPHABET {
      IndexOfChar(ALPHABET, Upper(id)[i]);
    }
    forall i | 0 <= i < |id|
      ensures var c := UpperChar(id[i]); c in ALPHABET <==> '0' <= c <= '9' || ('A' <= c <= 'Z' && c !in "ILOU")
    {
      CrockfordLetters(UpperChar(id[i]));
    }
    hide IsLetter, UpperChar;
  }

  lemma NoIndices(s: string)
    requires s == ""
    ensures Value(Indices(s), 32) == 0
  {
  }

  lemma IndicesOfLetters(ds: seq<int>)
    requires AreDigits(ds, 32)
    ensures Upper(Letters(ds)) == Letters(ds) && Indices(Letters(ds)) == ds
    ensures forall i :: 0 <= i < |ds| ==> IsLetter(Letters(ds)[i])
  {
    hide IndexOf;
    forall i | 0 <= i < |ds|
      ensures IndexOf(ALPHABET, [Letters(ds)[i]]) == ds[i] && UpperChar(Letters(ds)[i]) == Letters(ds)[i]
    {
      AlphabetIndex(ds[i]);
    }
  }

  const TIMES := 0x4_0000_0000_0000

  lemma TenDigits()
    ensures Pow(32, 10) == TIMES && Pow(32, 16) == Pow(256, 10)
  {
    assert Pow(32, 5) == 0x200_0000;
    PowAdd(32, 5, 5);
    assert Pow(32, 8) == 0x100_0000_0000 && Pow(256, 5) == 0x100_0000_0000;
    PowAdd(32, 8, 8);
    PowAdd(256, 5, 5);
  }

  lemma TimeDigitsValue(now: nat)
    ensures Value(TimeDigits(now), 32) == now % TIMES
  {
    FixedValue(now, 10, 32);
    TenDigits();
  }

  lemma RandomDigitsValue(bytes: seq<Byte>)
    requires |bytes| == 10
    ensures Value(RandomDigits(bytes), 32) == Value(bytes, 256) == Number(bytes)
  {
    var n := Number(bytes);
    ValueBound(bytes, 256);
    FixedValue(n, 16, 32);
    TenDigits();
    hide *;
    ModSmall(n, Pow(32, 16));
  }

  lemma GeneratedIsValid(now: nat, bytes: seq<Byte>)
    ensures IsValidUlid(UlidOf(now, bytes))
  {
    var time, random := TimeDigits(now), RandomDigits(bytes);
    IndicesOfLetters(time);
    IndicesOfLetters(random);
    hide IsLetter, Letters, Indices, TimeDigits, RandomDigits, UlidOf, Upper;
    UpperParts(UlidOf(now, bytes), 10);
  }

  lemma DateOfDigits(id: string, ds: seq<int>)
    requires |ds| == 10 && AreDigits(ds, 32) && |id| >= 10 && id[..10] == Letters(ds)
    ensures DateOf(id) == Some(Value(ds, 32))
  {
    IndicesOfLetters(ds);
    UpperParts(id, 10);
    hide IsLetter, Letters, Indices, Value, Upper;
    assert Upper(id)[..10] == Letters(ds);
    assert forall i :: 0 <= i < 10 ==> Upper(id)[i] == Letters(ds)[i];
  }

  /** A generated identifier is valid and gives its time back, exactly when it is below 2^50. */
  lemma TimeReadsBack(now: nat, bytes: seq<Byte>)
    ensures IsValidUlid(UlidOf(now, bytes))
    ensures DateOf(UlidOf(now, bytes)) == Some(now % TIMES)
    ensures DateOf(UlidOf(now, bytes)) == Some(now) <==> now < TIMES
  {
    GeneratedIsValid(now, bytes);
    DateOfDigits(UlidOf(now, bytes), TimeDigits(now));
    TimeDigitsValue(now);
    hide *;
    assert now % TIMES == now <==> now < TIMES;
  }

  /** The first time that does not come back reads as the epoch. */
  lemma FirstTimeLost(bytes: seq<Byte>)
    ensures DateOf(UlidOf(TIMES, bytes)) == Some(0)
  {
    TimeReadsBack(TIMES, bytes);
  }

  lemma UpperParts(id: string, n: nat)
    requires n <= |id|
    ensures Upper(id) == Upper(id[..n]) + Upper(id[n..])
  {
    hide UpperChar;
  }

  /** The sixteen random digits are the ten bytes in another base, so no two byte strings share them. */
  lemma RandomPartIsBijective(bytes: seq<Byte>, other: seq<Byte>, now: nat)
    requires |bytes| == 10 && |other| == 10
    ensures Value(Indices(UlidOf(now, bytes)[10..]), 32) == Value(bytes, 256)
    ensures UlidOf(now, bytes)[10..] == UlidOf(now, other)[10..] ==> bytes == other
  {
    IndicesOfLetters(RandomDigits(bytes));
    IndicesOfLetters(RandomDigits(other));
    RandomDigitsValue(bytes);
    RandomDigitsValue(other);
    FixedOfValue(bytes, 256);
    FixedOfValue(other, 256);
    hide *;
  }

  /** Every sixteen digits are the random part of some ten bytes. */
  lemma EveryRandomPartOccurs(digits: seq<int>, now: nat) returns (bytes: seq<Byte>)
    requires |digits| == 16 && AreDigits(digits, 32)
    ensures |bytes| == 10 && UlidOf(now, bytes)[10..] == Letters(digits)
  {
    ValueBound(digits, 32);
    var v := Value(digits, 32);
    FixedValue(v, 10, 256);
    TenDigits();
    bytes := TenBytes(v);
    ModSmall(v, Pow(256, 10));
    RandomDigitsValue(bytes);
    FixedOfValue(digits, 32);
    FixedOfValue(RandomDigits(bytes), 32);
    hide *;
    assert RandomDigits(bytes) == digits;
  }

  lemma ModSmall(v: nat, p: nat)
    requires v < p
    ensures v % p == v
  {
  }

  function TenBytes(v: nat): (bytes: seq<Byte>)
    ensures |bytes| == 10 && bytes == Fixed(v, 10, 256)
  {
    Fixed(v, 10, 256)
  }

  // ---------------------------------------------------------------- order

  /** Lexicographic order by character codes. */
  ghost predicate Before(s: string, t: string) {
    exists k :: 0 <= k < |s| && k < |t| && s[..k] == t[..k] && s[k] < t[k]
  }

  /** A smaller number of the same width differs first in a smaller digit. */
  lemma {:induction false} SmallerDiffersFirst(a: seq<int>, b: seq<int>) returns (k: nat)
    requires |a| == |b| && AreDigits(a, 32) && AreDigits(b, 32) && Value(a, 32) < Value(b, 32)
    ensures k < |a| && a[..k] == b[..k] && a[k] < b[k]
  {
    var n := |a| - 1;
    if a[..n] == b[..n] {
      k := n;
    } else if Value(a[..n], 32) < Value(b[..n], 32) {
      k := SmallerDiffersFirst(a[..n], b[..n]);
      assert a[..n][..k] == a[..k] && b[..n][..k] == b[..k];
    } else {
      FixedOfValue(a[..n], 32);
      FixedOfValue(b[..n], 32);
      assert false;
    }
  }

  /** An earlier time sorts first, whatever the random parts. */
  lemma EarlierSortsFirst(now: nat, later: nat, bytes: seq<Byte>, other: seq<Byte>)
    requires now < later < TIMES
    ensures Before(UlidOf(now, bytes), UlidOf(later, other))
  {
    var a, b := TimeDigits(now), TimeDigits(later);
    TimeDigitsValue(now);
    TimeDigitsValue(later);
    ModSmall(now, TIMES);
    ModSmall(later, TIMES);
    hide TimeDigits, Value;
    var k := SmallerDiffersFirst(a, b);
    LettersDifferFirst(a, b, k);
    hide Letters, UlidOf;
    var s, t := UlidOf(now, bytes), UlidOf(later, other);
    assert s[..10][..k] == s[..k] && t[..10][..k] == t[..k];
    assert s[..10][k] == s[k] && t[..10][k] == t[k];
  }

  lemma LettersDifferFirst(a: seq<int>, b: seq<int>, k: nat)
    requires AreDigits(a, 32) && AreDigits(b, 32) && k < |a| == |b| && a[..k] == b[..k] && a[k] < b[k]
    ensures Letters(a)[..k] == Letters(b)[..k] && Letters(a)[k] < Letters(b)[k]
  {
    AlphabetAscends(a[k], b[k]);
    forall i | 0 <= i < k ensures a[i] == b[i] { assert a[..k][i] == b[..k][i]; }
  }
}
