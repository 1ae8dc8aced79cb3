/**
 * The Signature-Input and Signature fields of RFC 9421 (sections 2.5, 4.1 and 4.2), as
 * packages/shared/crypto/sign-rfc9421.ts prints them and packages/shared/crypto/verify.ts reads them.
 */
module SignatureSyntax {
  import opened Wrappers
  import opened Strings
  import opened Bytes
  import Base64

  const QUOTE: char := 34 as char

  // ---------------------------------------------------------------- numbers

  /** `parseInt` of a digit string */
  function NumberOf(s: string): nat
    requires forall i :: 0 <= i < |s| ==> IsDigit(s[i])
  {
    if s == "" then 0
    else
      assert IsDigit(s[|s| - 1]);
      10 * NumberOf(s[..|s| - 1]) + (s[|s| - 1] as int - '0' as int)
  }

  lemma {:induction false} NumberOfDecimal(n: nat)
    ensures NumberOf(Decimal(n)) == n
  {
    var s := Decimal(n);
    if n >= 10 {
      NumberOfDecimal(n / 10);
      assert s[..|s| - 1] == Decimal(n / 10);
    } else {
      assert NumberOf(s[..0]) == 0;
    }
  }

  // ---------------------------------------------------------------- regular expressions

  function DigitRun(s: string): (r: string)
    ensures r <= s && forall i :: 0 <= i < |r| ==> IsDigit(r[i])
  {
    if s != "" && IsDigit(s[0]) then [s[0]] + DigitRun(s[1..]) else ""
  }

  /** The number after the first occurrence of `key` that digits follow: /key(\d+)/. */
  function MatchNumber(s: string, key: string): Option<nat> {
    if s == "" then None
    else if key <= s && DigitRun(s[|key|..]) != "" then Some(NumberOf(DigitRun(s[|key|..])))
    else MatchNumber(s[1..], key)
  }

  /** What stands between the first occurrence of `key` and the next quote. */
  function MatchQuoted(s: string, key: string): Option<string> {
    if s == "" then None
    else if key <= s && QUOTE in s[|key|..] then Some(UpToQuote(s[|key|..]))
    else MatchQuoted(s[1..], key)
  }

  function UpToQuote(s: string): string
    requires QUOTE in s
  {
    IndexOfChar(s, QUOTE);
    s[..IndexOf(s, "\"")]
  }

  /** All stretches between two quotes, from left to right. */
  function Quoted(s: string): seq<string>
    decreases |s|
  {
    var open := IndexOf(s, "\"");
    if open == -1 then []
    else
      var rest := s[open + 1..];
      var close := IndexOf(rest, "\"");
      if close == -1 then [] else [rest[..close]] + Quoted(rest[close + 1..])
  }

  /** What comes before the first comma and the white space around it. */
  function FirstItem(s: string): string {
    var comma := IndexOf(s, ",");
    if comma == -1 then s else TrimEnd(s[..comma])
  }

  predicate IsWord(c: char) {
    'a' <= c <= 'z' || 'A' <= c <= 'Z' || IsDigit(c) || c == '_'
  }

  function WordRun(s: string): (n: nat)
    ensures n <= |s|
  {
    if s != "" && IsWord(s[0]) then 1 + WordRun(s[1..]) else 0
  }

  /** /^(\w+)=/ */
  function LabelOf(header: string): Option<string> {
    var n := WordRun(header);
    if 0 < n < |header| && header[n] == '=' then Some(header[..n]) else None
  }

  // ---------------------------------------------------------------- reading

  datatype Parsed = Parsed(components: seq<string>, params: string, created: Option<nat>, keyId: Option<string>)

  function ParseSignatureInput(header: string, name: string): Option<Parsed> {
    var start := IndexOf(header, name + "=");
    if start == -1 then None
    else
      var rest := header[start + |name| + 1..];
      var open, close := IndexOf(rest, "("), IndexOf(rest, ")");
      if open == -1 || close == -1 then None
      else
        var inner := if open + 1 <= close then rest[open + 1..close] else "";
        var params := FirstItem(rest[close + 1..]);
        Some(Parsed(Quoted(inner), FirstItem(rest[open..]), MatchNumber(params, "created="),
                    MatchQuoted(params, "keyid=\"")))
  }

  lemma QuotedNext(s: string)
    ensures var open := IndexOf(s, "\"");
            if open == -1 then Quoted(s) == []
            else
              var rest := s[open + 1..];
              var close := IndexOf(rest, "\"");
              Quoted(s) == if close == -1 then [] else [rest[..close]] + Quoted(rest[close + 1..])
  {
    hide IndexOf;
  }

  /** The loop that collects the component names; the expression resumes where its last match ended. */
  method CollectComponents(innerList: string) returns (components: seq<string>)
    ensures components == Quoted(innerList)
  {
    hide Quoted, IndexOf;
    components := [];
    var rest := innerList;
    while true
      invariant components + Quoted(rest) == Quoted(innerList)
      decreases |rest|
    {
      QuotedNext(rest);
      var open := IndexOf(rest, "\"");
      if open == -1 { return; }
      var after := rest[open + 1..];
      var close := IndexOf(after, "\"");
      if close == -1 { return; }
      ghost var found := components;
      components := components + [after[..close]];
      rest := after[close + 1..];
    }
  }

  method ParseInput(header: string, name: string) returns (parsed: Option<Parsed>)
    ensures parsed == ParseSignatureInput(header, name)
  {
    hide IndexOf, FirstItem, MatchNumber, MatchQuoted, Quoted;
    var start := IndexOf(header, name + "=");
    if start == -1 { return None; }
    var rest := header[start + |name| + 1..];
    var open, close := IndexOf(rest, "("), IndexOf(rest, ")");
    if open == -1 || close == -1 { return None; }
    var components := CollectComponents(if open + 1 <= close then rest[open + 1..close] else "");
    var paramsStr := FirstItem(rest[close + 1..]);
    var keyId := MatchQuoted(paramsStr, "keyid=\"");
    var created := MatchNumber(paramsStr, "created=");
    parsed := Some(Parsed(components, FirstItem(rest[open..]), created, keyId));
  }

  function ExtractSignatureBytes(header: string, name: string): Option<seq<Byte>> {
    var start := IndexOf(header, name + "=:");
    if start == -1 then None
    else
      var after := header[start + |name| + 2..];
      var end := IndexOf(after, ":");
      if end == -1 then None else Base64.Decode(after[..end])
  }

  // ---------------------------------------------------------------- printing

  /** Each component in quotes, separated by spaces. */
  function ComponentList(components: seq<string>): string {
    if components == [] then ""
    else if |components| == 1 then "\"" + (components[0] + "\"")
    else "\"" + (components[0] + ("\" " + ComponentList(components[1..])))
  }

  const ALGORITHM: string := "\";alg=\"" + "rsa-v1_5" + "-sha256\""

  /** Everything up to the key id's opening quote. */
  function BeforeKeyId(created: nat): string {
    ";created=" + Decimal(created) + ";keyid=\""
  }

  function Parameters(created: nat, keyId: string): string {
    BeforeKeyId(created) + keyId + ALGORITHM
  }

  function SignatureParams(components: seq<string>, created: nat, keyId: string): string {
    "(" + ComponentList(components) + ")" + Parameters(created, keyId)
  }

  // ---------------------------------------------------------------- reading what was printed

  lemma {:induction false} TrimEndPrefix(s: string)
    ensures TrimEnd(s) <= s
  {
    if s != "" && IsWhite(s[|s| - 1]) { TrimEndPrefix(s[..|s| - 1]); }
  }

  lemma {:induction false} TrimEndKeeps(solid: string, s: string)
    requires solid != "" && !IsWhite(solid[|solid| - 1])
    ensures TrimEnd(solid + s) == solid + TrimEnd(s)
  {
    if s == "" {
      assert solid + s == solid;
    } else if IsWhite(s[|s| - 1]) {
      assert (solid + s)[..|solid + s| - 1] == solid + s[..|s| - 1];
      TrimEndKeeps(solid, s[..|s| - 1]);
    }
  }

  /** The first item of a list is the whole text exactly when there is no comma. */
  lemma FirstItemWhole(s: string)
    ensures FirstItem(s) == s <==> ',' !in s
    ensures FirstItem(s) == s || |FirstItem(s)| < |s|
  {
    IndexOfChar(s, ',');
    var comma := IndexOf(s, ",");
    if comma != -1 { TrimEndPrefix(s[..comma]); }
  }

  lemma {:induction false} SkipToNumber(before: string, s: string, key: string)
    requires key != "" && key[0] !in before
    ensures MatchNumber(before + s, key) == MatchNumber(s, key)
  {
    if before == "" {
      assert before + s == s;
    } else {
      assert (before + s)[0] == before[0];
      assert (before + s)[1..] == before[1..] + s;
      SkipToNumber(before[1..], s, key);
    }
  }

  lemma {:induction false} SkipToQuoted(before: string, s: string, key: string)
    requires key != "" && key[0] !in before
    ensures MatchQuoted(before + s, key) == MatchQuoted(s, key)
  {
    if before == "" {
      assert before + s == s;
    } else {
      assert (before + s)[0] == before[0];
      assert (before + s)[1..] == before[1..] + s;
      SkipToQuoted(before[1..], s, key);
    }
  }

  lemma {:induction false} NoQuoteNoMatch(s: string, key: string)
    requires QUOTE !in s
    ensures MatchQuoted(s, key) == None
  {
    if s != "" { NoQuoteNoMatch(s[1..], key); }
  }

  lemma {:induction false} DigitRunStops(digits: string, s: string)
    requires forall i :: 0 <= i < |digits| ==> IsDigit(digits[i])
    requires s == "" || !IsDigit(s[0])
    ensures DigitRun(digits + s) == digits
  {
    if digits == "" {
      assert digits + s == s;
    } else {
      assert (digits + s)[1..] == digits[1..] + s;
      DigitRunStops(digits[1..], s);
      assert digits == [digits[0]] + digits[1..];
    }
  }

  /** The creation time is read back whatever follows it. */
  lemma CreatedAt(created: nat, after: string)
    ensures MatchNumber(BeforeKeyId(created) + after, "created=") == Some(created)
  {
    var key, tail := "created=", ";keyid=\"" + after;
    var s := key + (Decimal(created) + tail);
    assert BeforeKeyId(created) + after == ";" + s;
    SkipToNumber(";", s, key);
    assert key <= s && s[|key|..] == Decimal(created) + tail;
    DigitRunStops(Decimal(created), tail);
    NumberOfDecimal(created);
  }

  /** The key id is what stands before the first quote after `keyid="`, if there is one. */
  lemma KeyIdAt(created: nat, after: string)
    ensures MatchQuoted(BeforeKeyId(created) + after, "keyid=\"")
            == if QUOTE in after then Some(UpToQuote(after)) else None
  {
    hide IndexOf, Decimal, UpToQuote;
    var key := "keyid=\"";
    var before, s := ";created=" + Decimal(created) + ";", key + after;
    assert BeforeKeyId(created) + after == before + s;
    assert 'k' !in Decimal(created);
    assert 'k' !in before;
    SkipToQuoted(before, s, key);
    assert key <= s && s[|key|..] == after;
    if QUOTE !in after {
      assert s[1..] == "eyid=\"" + after;
      SkipToQuoted("eyid=\"", after, key);
      NoQuoteNoMatch(after, key);
    }
  }

  lemma UpToFirstQuote(keyId: string, after: string)
    ensures QUOTE in keyId + "\"" + after
    ensures UpToQuote(keyId + "\"" + after) == keyId <==> QUOTE !in keyId
  {
    var s := keyId + "\"" + after;
    assert s[|keyId|] == QUOTE;
    IndexOfChar(s, QUOTE);
    var k := IndexOf(s, "\"");
    if QUOTE !in keyId { IndexOfFirst(keyId, QUOTE, after); }
    if k >= |keyId| { assert keyId == s[..k][..|keyId|]; }
  }

  lemma NoCommaAround(created: nat)
    ensures ',' !in BeforeKeyId(created) && ',' !in ALGORITHM
  {
  }

  /** Where the parameters are cut when the key id holds a comma. */
  lemma CutAtComma(created: nat, keyId: string) returns (left: string)
    requires ',' in keyId
    ensures |left| < |keyId|
    ensures FirstItem(Parameters(created, keyId)) == BeforeKeyId(created) + left
  {
    IndexOfChar(keyId, ',');
    var k := IndexOf(keyId, ",");
    var head, before := keyId[..k], BeforeKeyId(created);
    NoCommaAround(created);
    assert Parameters(created, keyId) == (before + head) + [','] + (keyId[k + 1..] + ALGORITHM);
    IndexOfFirst(before + head, ',', keyId[k + 1..] + ALGORITHM);
    assert Parameters(created, keyId)[..|before + head|] == before + head;
    TrimEndKeeps(before, head);
    TrimEndPrefix(head);
    left := TrimEnd(head);
  }

  /** What the parser makes of the parameters: always the time, and the key id unless a comma or quote is in it. */
  lemma ParametersReadBack(created: nat, keyId: string)
    ensures var params := FirstItem(Parameters(created, keyId));
            && MatchNumber(params, "created=") == Some(created)
            && (MatchQuoted(params, "keyid=\"") == Some(keyId) <==> ',' !in keyId && QUOTE !in keyId)
  {
    hide BeforeKeyId;
    var s := Parameters(created, keyId);
    if ',' in keyId {
      var left := CutAtComma(created, keyId);
      CreatedAt(created, left);
      KeyIdAt(created, left);
      if QUOTE in left { IndexOfChar(left, QUOTE); }
    } else {
      NoCommaAround(created);
      FirstItemWhole(s);
      var after := "\";alg=\""[1..] + "rsa-v1_5" + "-sha256\"";
      assert ALGORITHM == "\"" + after;
      assert s == BeforeKeyId(created) + (keyId + "\"" + after);
      CreatedAt(created, keyId + "\"" + after);
      KeyIdAt(created, keyId + "\"" + after);
      UpToFirstQuote(keyId, after);
    }
  }

  ghost predicate PlainNames(components: seq<string>) {
    forall c :: c in components ==> QUOTE !in c && '(' !in c && ')' !in c && ',' !in c
  }

  lemma QuotedFirst(c: string, after: string)
    requires QUOTE !in c
    ensures Quoted("\"" + (c + "\"" + after)) == [c] + Quoted(after)
  {
    hide IndexOf;
    var rest := c + "\"" + after;
    var s := "\"" + rest;
    assert "\"" <= s && s[1..] == rest;
    IndexOfPrefix(s, "\"");
    IndexOfFirst(c, QUOTE, after);
    assert rest[|c| + 1..] == after && rest[..|c|] == c;
  }

  /** What follows the first name of a list. */
  function AfterFirst(components: seq<string>): string
    requires components != []
  {
    if |components| == 1 then "" else " " + ComponentList(components[1..])
  }

  lemma ListFirst(components: seq<string>)
    ensures components == [] ==> ComponentList(components) == ""
    ensures components != [] ==> ComponentList(components) == "\"" + (components[0] + "\"" + AfterFirst(components))
  {
    if |components| == 1 {
      assert components[0] + "\"" + "" == components[0] + "\"";
    } else if components != [] {
      var c, more := components[0], ComponentList(components[1..]);
      assert ComponentList(components) == "\"" + (c + ("\" " + more));
      hide ComponentList;
      assert "\"" + " " == "\" ";
    }
  }

  lemma QuotedAfterFirst(components: seq<string>)
    requires components != []
    ensures Quoted(AfterFirst(components)) == Quoted(ComponentList(components[1..]))
  {
    hide ComponentList, Quoted, IndexOf;
    ListFirst(components[1..]);
    if |components| > 1 { SpaceQuoted(ComponentList(components[1..])); }
  }

  lemma {:induction false} QuotedList(components: seq<string>)
    requires forall c :: c in components ==> QUOTE !in c
    ensures Quoted(ComponentList(components)) == components
  {
    hide ComponentList, Quoted, IndexOf, AfterFirst;
    ListFirst(components);
    if components == [] {
      QuotedNext("");
    } else {
      QuotedList(components[1..]);
      QuotedFirst(components[0], AfterFirst(components));
      QuotedAfterFirst(components);
      assert components == [components[0]] + components[1..];
    }
  }

  lemma {:induction false} ListOmits(components: seq<string>, x: char)
    requires x != QUOTE && x != ' '
    requires forall c :: c in components ==> x !in c
    ensures x !in ComponentList(components)
  {
    if |components| > 1 {
      assert components[0] in components;
      ListOmits(components[1..], x);
    }
  }

  lemma QuoteAfterSpace(s: string)
    ensures var k := IndexOf(s, "\""); IndexOf(" " + s, "\"") == if k == -1 then -1 else k + 1
  {
    ShiftedFrom(' ', s, "\"", 0);
    assert |s| > 0 ==> (" " + s)[0..1] == " ";
  }

  lemma SpaceQuoted(s: string)
    ensures Quoted(" " + s) == Quoted(s)
  {
    hide Quoted, IndexOf;
    var t, open := " " + s, IndexOf(s, "\"");
    QuoteAfterSpace(s);
    QuotedNext(t);
    QuotedNext(s);
    if open != -1 { assert t[open + 2..] == s[open + 1..]; }
  }

  /**
   * Reading back a printed Signature-Input: the component list and the creation time always come back;
   * the parameter string exactly when the key id holds no comma; the key id exactly when it holds
   * neither comma nor quote.
   */
  lemma InputReadsBack(components: seq<string>, created: nat, keyId: string)
    requires PlainNames(components)
    ensures var printed := SignatureParams(components, created, keyId);
            var parsed := ParseSignatureInput("sig1=" + printed, "sig1");
            && parsed.Some?
            && parsed.value.components == components
            && parsed.value.created == Some(created)
            && (parsed.value.params == printed <==> ',' !in keyId)
            && (parsed.value.keyId == Some(keyId) <==> ',' !in keyId && QUOTE !in keyId)
  {
    hide ParseSignatureInput, Parameters, ComponentList, FirstItem, MatchNumber, MatchQuoted, Quoted;
    var list, tail := ComponentList(components), Parameters(created, keyId);
    var printed := SignatureParams(components, created, keyId);
    QuotedList(components);
    ListOmits(components, ')');
    ListOmits(components, ',');
    ParseShape(list, tail);
    ParametersReadBack(created, keyId);
    FirstItemWhole(printed);
    CommaOnlyInKeyId(created, keyId);
  }

  /** When the parameters do not come back, they come back shorter. */
  lemma ReadParamsShorter(components: seq<string>, created: nat, keyId: string)
    requires PlainNames(components)
    ensures var printed := SignatureParams(components, created, keyId);
            var parsed := ParseSignatureInput("sig1=" + printed, "sig1");
            parsed.Some? && (parsed.value.params == printed || |parsed.value.params| < |printed|)
  {
    hide ParseSignatureInput, Parameters, ComponentList, FirstItem, MatchNumber, MatchQuoted, Quoted;
    ListOmits(components, ')');
    ParseShape(ComponentList(components), Parameters(created, keyId));
    FirstItemWhole(SignatureParams(components, created, keyId));
  }

  lemma ParseShape(list: string, tail: string)
    requires ')' !in list
    ensures var printed := "(" + list + ")" + tail;
            ParseSignatureInput("sig1=" + printed, "sig1")
            == Some(Parsed(Quoted(list), FirstItem(printed), MatchNumber(FirstItem(tail), "created="),
                           MatchQuoted(FirstItem(tail), "keyid=\"")))
  {
    hide FirstItem, MatchNumber, MatchQuoted, Quoted, IndexOf;
    var printed := "(" + list + ")" + tail;
    var header := "sig1=" + printed;
    assert "sig1" + "=" <= header && header[5..] == printed;
    IndexOfPrefix(header, "sig1" + "=");
    IndexOfPrefix(printed, "(");
    IndexOfFirst("(" + list, ')', tail);
    assert printed[1..1 + |list|] == list && printed[1 + |list| + 1..] == tail;
    assert printed[0..] == printed;
  }

  /** Two key ids that do not come back: one with a comma, and one with a quote. */
  lemma KeyIdsThatChange()
    ensures var comma, quote := SignatureParams(["@method"], 0, "k,1"), SignatureParams(["@method"], 0, "k\"1");
            var p, q := ParseSignatureInput("sig1=" + comma, "sig1"), ParseSignatureInput("sig1=" + quote, "sig1");
            && p.Some? && p.value.params != comma && p.value.keyId != Some("k,1")
            && q.Some? && q.value.params == quote && q.value.keyId != Some("k\"1")
  {
    hide ParseSignatureInput, SignatureParams;
    var comma, quote := "k,1", "k\"1";
    assert comma[1] == ',' && quote[1] == QUOTE;
    assert ',' !in quote;
    InputReadsBack(["@method"], 0, comma);
    InputReadsBack(["@method"], 0, quote);
  }

  lemma CommaOnlyInKeyId(created: nat, keyId: string)
    ensures ',' in Parameters(created, keyId) <==> ',' in keyId
  {
    NoCommaAround(created);
  }

  /** The label is found at the front of what was printed. */
  lemma LabelReadsBack(printed: string)
    ensures LabelOf("sig1=" + printed) == Some("sig1")
  {
    var s := "sig1=" + printed;
    assert s[1..] == "ig1=" + printed;
    assert s[1..][1..] == "g1=" + printed;
    assert s[1..][1..][1..] == "1=" + printed;
    assert s[1..][1..][1..][1..] == "=" + printed;
    assert WordRun("=" + printed) == 0;
    assert WordRun("1=" + printed) == 1;
    assert WordRun("g1=" + printed) == 2;
    assert WordRun("ig1=" + printed) == 3;
    assert WordRun(s) == 4;
    assert s[..4] == "sig1";
  }

  function SignatureField(bytes: seq<Byte>): string {
    "sig1=:" + Base64.Encode(bytes) + ":"
  }

  /** The signature bytes come back. */
  lemma SignatureReadsBack(bytes: seq<Byte>)
    ensures ExtractSignatureBytes(SignatureField(bytes), "sig1") == Some(bytes)
  {
    hide Base64.Encode, Base64.Decode;
    var text := Base64.Encode(bytes);
    var header := SignatureField(bytes);
    assert "sig1" + "=:" <= header && header[6..] == text + ":" + "";
    forall i | 0 <= i < |text| ensures text[i] != ':' { Base64.EncodingIsPlain(bytes, i); }
    IndexOfFirst(text, ':', "");
    assert (text + ":" + "")[..|text|] == text;
    Base64.DecodeEncoded(bytes);
  }
}
