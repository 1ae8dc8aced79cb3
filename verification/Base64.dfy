/**
 * Base64 (section 4 of RFC 4648) as `btoa` writes it and `atob` reads it back
 * (packages/shared/crypto/digest.ts and packages/shared/crypto/verify.ts).
 */
module Base64 {
  import opened Wrappers
  import opened Bytes

  type Sextet = x: int | 0 <= x < 64

  function Letter(d: Sextet): char {
    if d < 26 then 'A' + d as char
    else if d < 52 then 'a' + (d - 26) as char
    else if d < 62 then '0' + (d - 52) as char
    else if d == 62 then '+'
    else '/'
  }

  function Digit(c: char): Option<Sextet> {
    if 'A' <= c <= 'Z' then Some(c as int - 'A' as int)
    else if 'a' <= c <= 'z' then Some(c as int - 'a' as int + 26)
    else if '0' <= c <= '9' then Some(c as int - '0' as int + 52)
    else if c == '+' then Some(62)
    else if c == '/' then Some(63)
    else None
  }

  /** Three octets make four sextets; a shorter rest is filled up with zero bits. */
  function Sextets(bytes: seq<Byte>): (digits: seq<Sextet>)
    ensures |digits| == |bytes| / 3 * 4 + if |bytes| % 3 == 0 then 0 else |bytes| % 3 + 1
  {
    if bytes == [] then []
    else if |bytes| == 1 then [bytes[0] / 4, bytes[0] % 4 * 16]
    else if |bytes| == 2 then [bytes[0] / 4, bytes[0] % 4 * 16 + bytes[1] / 16, bytes[1] % 16 * 4]
    else
      [bytes[0] / 4, bytes[0] % 4 * 16 + bytes[1] / 16, bytes[1] % 16 * 4 + bytes[2] / 64, bytes[2] % 64]
      + Sextets(bytes[3..])
  }

  function First(a: int, b: int): Byte
    requires 0 <= a < 64 && 0 <= b < 64
  {
    a * 4 + b / 16
  }

  function Second(b: int, c: int): Byte
    requires 0 <= b < 64 && 0 <= c < 64
  {
    b % 16 * 16 + c / 4
  }

  function Third(c: int, d: int): Byte
    requires 0 <= c < 64 && 0 <= d < 64
  {
    c % 4 * 64 + d
  }

  /** The octets of a digit sequence, the bits of an incomplete octet dropped. */
  function Octets(digits: seq<Sextet>): seq<Byte> {
    if |digits| <= 1 then []
    else if |digits| == 2 then [First(digits[0], digits[1])]
    else if |digits| == 3 then [First(digits[0], digits[1]), Second(digits[1], digits[2])]
    else
      [First(digits[0], digits[1]), Second(digits[1], digits[2]), Third(digits[2], digits[3])] + Octets(digits[4..])
  }

  function Letters(digits: seq<Sextet>): (s: string)
    ensures |s| == |digits|
  {
    seq(|digits|, i requires 0 <= i < |digits| => Letter(digits[i]))
  }

  function Padding(n: nat): string {
    if n % 3 == 0 then "" else if n % 3 == 1 then "==" else "="
  }

  /** `btoa` */
  function Encode(bytes: seq<Byte>): string {
    Letters(Sextets(bytes)) + Padding(|bytes|)
  }

  predicate IsSpace(c: char) {
    c == '\t' || c == '\n' || c as int == 12 || c == '\r' || c == ' '
  }

  function Spaceless(s: string): string {
    if s == "" then "" else (if IsSpace(s[0]) then "" else [s[0]]) + Spaceless(s[1..])
  }

  /** In a text of a multiple of four characters, up to two '=' at the end carry nothing. */
  function Unpadded(s: string): string {
    if |s| == 0 || |s| % 4 != 0 || s[|s| - 1] != '=' then s
    else if s[|s| - 2] == '=' then s[..|s| - 2]
    else s[..|s| - 1]
  }

  function Digits(s: string): Option<seq<Sextet>> {
    if s == "" then Some([])
    else
      var first, rest := Digit(s[0]), Digits(s[1..]);
      if first.Some? && rest.Some? then Some([first.value] + rest.value) else None
  }

  /** `atob`; no result stands for its exception. */
  function Decode(s: string): Option<seq<Byte>> {
    var text := Unpadded(Spaceless(s));
    if |text| % 4 == 1 then None
    else
      match Digits(text)
      case Some(digits) => Some(Octets(digits))
      case None => None
  }

  lemma FirstBits(x: Byte, y: Byte)
    ensures First(x / 4, x % 4 * 16 + y / 16) == x && First(x / 4, x % 4 * 16) == x
  {
  }

  lemma SecondBits(x: Byte, y: Byte, z: Byte)
    ensures Second(x % 4 * 16 + y / 16, y % 16 * 4 + z / 64) == y && Second(x % 4 * 16 + y / 16, y % 16 * 4) == y
  {
  }

  lemma ThirdBits(y: Byte, z: Byte)
    ensures Third(y % 16 * 4 + z / 64, z % 64) == z
  {
  }

  lemma {:induction false} OctetsOfSextets(bytes: seq<Byte>)
    ensures Octets(Sextets(bytes)) == bytes
  {
    hide First, Second, Third;
    if |bytes| == 1 {
      FirstBits(bytes[0], 0);
    } else if |bytes| == 2 {
      FirstBits(bytes[0], bytes[1]);
      SecondBits(bytes[0], bytes[1], 0);
    } else if bytes != [] {
      FirstBits(bytes[0], bytes[1]);
      SecondBits(bytes[0], bytes[1], bytes[2]);
      ThirdBits(bytes[1], bytes[2]);
      OctetsOfSextets(bytes[3..]);
      assert Sextets(bytes)[4..] == Sextets(bytes[3..]);
      assert bytes == [bytes[0], bytes[1], bytes[2]] + bytes[3..];
    }
  }

  lemma {:induction false} DigitsOfLetters(digits: seq<Sextet>)
    ensures Digits(Letters(digits)) == Some(digits)
  {
    if digits != [] {
      assert Letters(digits)[1..] == Letters(digits[1..]);
      DigitsOfLetters(digits[1..]);
      assert digits == [digits[0]] + digits[1..];
    }
  }

  lemma {:induction false} SpacelessAlready(s: string)
    requires forall i :: 0 <= i < |s| ==> !IsSpace(s[i])
    ensures Spaceless(s) == s
  {
    if s != "" {
      SpacelessAlready(s[1..]);
      assert s == [s[0]] + s[1..];
    }
  }

  /** No encoding holds a character that the header syntax gives a meaning to, except '=' at the end. */
  lemma EncodingIsPlain(bytes: seq<Byte>, i: nat)
    requires i < |Encode(bytes)|
    ensures Digit(Encode(bytes)[i]).Some? || Encode(bytes)[i] == '='
    ensures Encode(bytes)[i] != ':' && !IsSpace(Encode(bytes)[i])
  {
  }

  lemma UnpaddedEncoding(bytes: seq<Byte>)
    ensures Unpadded(Encode(bytes)) == Letters(Sextets(bytes))
    ensures |Sextets(bytes)| % 4 != 1
  {
    hide Sextets;
    var digits := Sextets(bytes);
    var letters, pad := Letters(digits), Padding(|bytes|);
    assert forall i :: 0 <= i < |letters| ==> letters[i] != '=';
    assert (letters + pad)[..|letters|] == letters;
  }

  /** Every byte string survives `btoa` and `atob`. */
  lemma DecodeEncoded(bytes: seq<Byte>)
    ensures Decode(Encode(bytes)) == Some(bytes)
  {
    hide Sextets, Octets, Padding, Letters, Unpadded, Digits;
    var s := Encode(bytes);
    forall i | 0 <= i < |s| ensures !IsSpace(s[i]) { EncodingIsPlain(bytes, i); }
    SpacelessAlready(s);
    UnpaddedEncoding(bytes);
    DigitsOfLetters(Sextets(bytes));
    OctetsOfSextets(bytes);
  }

  lemma {:induction false} SpacelessSkips(a: string, c: char, b: string)
    requires IsSpace(c)
    ensures Spaceless(a + [c] + b) == Spaceless(a + b)
  {
    if a == "" {
      assert a + [c] + b == [c] + b && a + b == b;
    } else {
      assert (a + [c] + b)[1..] == a[1..] + [c] + b && (a + b)[1..] == a[1..] + b;
      SpacelessSkips(a[1..], c, b);
    }
  }

  /** White space in a text makes no difference to what it decodes to. */
  lemma SpacesIgnored(a: string, c: char, b: string)
    requires IsSpace(c)
    ensures Decode(a + [c] + b) == Decode(a + b)
  {
    SpacelessSkips(a, c, b);
  }

  /** The letters of the table of RFC 4648, section 4. */
  lemma TheAlphabet(d: Sextet)
    ensures Letter(d) == (("ABCDEFGHIJKLM" + "NOPQRSTUVWXYZ") + ("abcdefghijklm" + "nopqrstuvwxyz") + ("0123456789" + "+/"))[d]
  {
  }

  /** Test vectors of RFC 4648, section 10: "f", "fo", "foo" and "foob". */
  lemma TestVectors()
    ensures Encode([0x66]) == "Zg==" && Encode([0x66, 0x6f]) == "Zm8=" && Encode([0x66, 0x6f, 0x6f]) == "Zm9v"
    ensures Encode([0x66, 0x6f, 0x6f, 0x62]) == "Zm9vYg=="
  {
    assert Sextets([0x66, 0x6f, 0x6f, 0x62]) == [0x19, 0x26, 0x3d, 0x2f] + Sextets([0x62]);
  }
}
