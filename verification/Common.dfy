/** Small datatypes shared by the components. */
module Wrappers {
  datatype Option<+T> = None | Some(value: T)

  datatype Result<+T, +E> = Success(value: T) | Failure(error: E)
}

/** The part of a status that prefetch predicates look at. */
module Statuses {
  import opened Wrappers

  datatype Status = Status(id: string, reblog: Option<string>)

  type Predicate = Status -> bool

  /** One of the predicates holds of one of the statuses. */
  predicate SomeMatch(predicates: seq<Predicate>, statuses: seq<Status>) {
    exists i, j :: 0 <= i < |predicates| && 0 <= j < |statuses| && predicates[i](statuses[j])
  }
}

/** The string operations of JavaScript the components use, on ASCII letters. */
module Strings {
  /** JavaScript white space and line terminators. */
  predicate IsWhite(c: char) {
    var u := c as int;
    9 <= u <= 13 || u == 32 || u == 0xa0 || u == 0x1680 || 0x2000 <= u <= 0x200a
    || u == 0x2028 || u == 0x2029 || u == 0x202f || u == 0x205f || u == 0x3000 || u == 0xfeff
  }

  function TrimStart(s: string): string {
    if s != "" && IsWhite(s[0]) then TrimStart(s[1..]) else s
  }

  function TrimEnd(s: string): string {
    if s != "" && IsWhite(s[|s| - 1]) then TrimEnd(s[..|s| - 1]) else s
  }

  function LowerChar(c: char): char {
    if 'A' <= c <= 'Z' then (c as int + 32) as char else c
  }

  function Lower(s: string): (r: string)
    ensures |r| == |s|
  {
    seq(|s|, i requires 0 <= i < |s| => LowerChar(s[i]))
  }

  function UpperChar(c: char): char {
    if 'a' <= c <= 'z' then (c as int - 32) as char else c
  }

  function Upper(s: string): (r: string)
    ensures |r| == |s|
  {
    seq(|s|, i requires 0 <= i < |s| => UpperChar(s[i]))
  }

  /** Of each letter the two cases are brought to one, and nothing else is touched. */
  lemma CasesFold(s: string, i: nat)
    requires i < |s|
    ensures Lower("AZ") == "az" && Upper("az") == "AZ"
    ensures !('A' <= Lower(s)[i] <= 'Z') && !('a' <= Upper(s)[i] <= 'z')
    ensures Lower(Upper(s))[i] == Lower(s)[i] && Upper(Lower(s))[i] == Upper(s)[i]
    ensures !('A' <= s[i] <= 'Z') ==> Lower(s)[i] == s[i]
    ensures !('a' <= s[i] <= 'z') ==> Upper(s)[i] == s[i]
  {
  }

  predicate IsDigit(c: char) {
    '0' <= c <= '9'
  }

  function DigitChar(d: nat): char
    requires d < 10
  {
    '0' + d as char
  }

  function Decimal(n: nat): (s: string)
    ensures s != "" && forall i :: 0 <= i < |s| ==> IsDigit(s[i])
  {
    if n < 10 then [DigitChar(n)] else Decimal(n / 10) + [DigitChar(n % 10)]
  }

  /** Where `part` first occurs in `s` from position `i` on, or -1. */
  function IndexFrom(s: string, part: string, i: nat): (k: int)
    ensures k == -1 || (i <= k && k + |part| <= |s|)
    decreases |s| - i
  {
    if i + |part| > |s| then -1 else if s[i..i + |part|] == part then i else IndexFrom(s, part, i + 1)
  }

  /** `indexOf` */
  function IndexOf(s: string, part: string): (k: int)
    ensures k == -1 || (0 <= k && k + |part| <= |s|)
  {
    IndexFrom(s, part, 0)
  }

  lemma IndexOfPrefix(s: string, part: string)
    requires part <= s
    ensures IndexOf(s, part) == 0
  {
    assert s[0..|part|] == part;
  }

  lemma {:induction false} FirstFrom(s: string, c: char, i: nat, n: nat)
    requires i <= n < |s| && s[n] == c && forall j :: i <= j < n ==> s[j] != c
    ensures IndexFrom(s, [c], i) == n
    decreases n - i
  {
    assert s[i..i + 1] == [s[i]];
    if i < n { FirstFrom(s, c, i + 1, n); }
  }

  /** The first occurrence of a character. */
  lemma IndexOfFirst(before: string, c: char, after: string)
    requires c !in before
    ensures IndexOf(before + [c] + after, [c]) == |before|
  {
    FirstFrom(before + [c] + after, c, 0, |before|);
  }

  lemma {:induction false} CharFrom(s: string, c: char, i: nat)
    requires i <= |s|
    ensures IndexFrom(s, [c], i) == -1 ==> forall j :: i <= j < |s| ==> s[j] != c
    ensures var k := IndexFrom(s, [c], i); k != -1 ==> s[k] == c && forall j :: i <= j < k ==> s[j] != c
    decreases |s| - i
  {
    if i < |s| {
      assert s[i..i + 1] == [s[i]];
      if s[i] != c { CharFrom(s, c, i + 1); }
    }
  }

  lemma IndexOfChar(s: string, c: char)
    ensures IndexOf(s, [c]) == -1 <==> c !in s
    ensures var k := IndexOf(s, [c]); k != -1 ==> k < |s| && s[k] == c && c !in s[..k]
  {
    CharFrom(s, c, 0);
    hide IndexFrom;
  }

  /** A character in front moves every occurrence by one. */
  lemma {:induction false} ShiftedFrom(x: char, s: string, part: string, i: nat)
    requires part != ""
    ensures var k := IndexFrom(s, part, i); IndexFrom([x] + s, part, i + 1) == if k == -1 then -1 else k + 1
    decreases |s| - i
  {
    if i + |part| <= |s| {
      assert ([x] + s)[i + 1..i + 1 + |part|] == s[i..i + |part|];
      if s[i..i + |part|] != part { ShiftedFrom(x, s, part, i + 1); }
    }
  }
}

module Bytes {
  type Byte = x: int | 0 <= x < 256
}
