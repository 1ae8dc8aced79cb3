/**
 * The JSON canonicalizer of integrity proofs (handlers/integrityProofs.ts), sections 3.2.2.2
 * and 3.2.3 of RFC 8785, with a parser that undoes it.
 */
module Jcs {
  import opened Wrappers

  /** JavaScript strings are sequences of UTF-16 code units. */
  type Unit = x: int | 0 <= x < 0x10000
  type Text = seq<Unit>

  predicate IsNumberUnit(u: Unit) {
    48 <= u <= 57 || u == 43 || u == 45 || u == 46 || u == 69 || u == 101
  }

  predicate IsNumberToken(t: Text) {
    t != [] && (t[0] == 45 || 48 <= t[0] <= 57) && forall u <- t :: IsNumberUnit(u)
  }

  /** What `JSON.stringify` prints for a finite number. */
  type Token = t: Text | IsNumberToken(t) witness [48]

  datatype Member = Member(key: Text, value: Value)

  /** A value as the canonicalizer sees it; an object is the list of its property assignments. */
  datatype Value =
    | Undefined
    | Null
    | Boolean(b: bool)
    | Number(token: Token)
    | NonFinite
    | String(s: Text)
    | Array(items: seq<Value>)
    | Object(members: seq<Member>)
    | Unsupported

  datatype Error = InfinityOrNaN | UnsupportedType

  // ---------------------------------------------------------------- property order

  /** The order of the default sort: by code units. */
  predicate Before(a: Text, b: Text) {
    b != [] && (a == [] || a[0] < b[0] || (a[0] == b[0] && Before(a[1..], b[1..])))
  }

  function Insert(k: Text, ks: seq<Text>): seq<Text> {
    if ks == [] || Before(k, ks[0]) then [k] + ks
    else if k == ks[0] then ks
    else [ks[0]] + Insert(k, ks[1..])
  }

  /** `Object.keys(obj).sort()` */
  function SortedKeys(members: seq<Member>): seq<Text> {
    if members == [] then [] else Insert(members[|members| - 1].key, SortedKeys(members[..|members| - 1]))
  }

  /** `obj[key]`: the last assignment counts. */
  function Get(members: seq<Member>, key: Text): (v: Value)
    ensures v.Undefined? || exists m :: m in members && m.value == v
  {
    if members == [] then Undefined
    else if members[|members| - 1].key == key then
      assert members[|members| - 1] in members;
      members[|members| - 1].value
    else Get(members[..|members| - 1], key)
  }

  // ---------------------------------------------------------------- printing

  const QUOTE: Unit := 0x22
  const BACKSLASH: Unit := 0x5c
  const COMMA: Unit := 0x2c
  const COLON: Unit := 0x3a
  const OPEN_BRACKET: Unit := 0x5b
  const CLOSE_BRACKET: Unit := 0x5d
  const OPEN_BRACE: Unit := 0x7b
  const CLOSE_BRACE: Unit := 0x7d
  const NULL: Text := [110, 117, 108, 108]
  const TRUE: Text := [116, 114, 117, 101]
  const FALSE: Text := [102, 97, 108, 115, 101]

  function HexDigit(d: int): Unit
    requires 0 <= d < 16
  {
    if d < 10 then 48 + d else 87 + d
  }

  /** `code.toString(16).padStart(4, '0')` */
  function Hex4(code: Unit): (t: Text)
    ensures |t| == 4
  {
    [HexDigit(code / 0x1000), HexDigit(code / 0x100 % 16), HexDigit(code / 16 % 16), HexDigit(code % 16)]
  }

  function Escape(code: Unit): Text {
    if code == 0x08 then [BACKSLASH, 98]
    else if code == 0x09 then [BACKSLASH, 116]
    else if code == 0x0a then [BACKSLASH, 110]
    else if code == 0x0c then [BACKSLASH, 102]
    else if code == 0x0d then [BACKSLASH, 114]
    else if code == QUOTE then [BACKSLASH, QUOTE]
    else if code == BACKSLASH then [BACKSLASH, BACKSLASH]
    else if code < 0x20 then [BACKSLASH, 117] + Hex4(code)
    else [code]
  }

  function Escaped(s: Text): Text {
    if s == [] then [] else Escaped(s[..|s| - 1]) + Escape(s[|s| - 1])
  }

  lemma NothingEscaped()
    ensures Escaped([]) == []
  {
  }

  lemma EscapedLast(s: Text)
    requires s != []
    ensures Escaped(s) == Escaped(s[..|s| - 1]) + Escape(s[|s| - 1])
  {
    hide Escape;
  }

  function SerializedString(s: Text): Text {
    [QUOTE] + Escaped(s) + [QUOTE]
  }

  method JcsSerializeString(str: Text) returns (result: Text)
    ensures result == SerializedString(str)
  {
    hide Hex4, Escaped;
    result := [QUOTE];
    NothingEscaped();
    for i := 0 to |str|
      invariant result == [QUOTE] + Escaped(str[..i])
    {
      assert str[..i + 1][..i] == str[..i];
      EscapedLast(str[..i + 1]);
      var code := str[i];
      ghost var before := result;
      if code == 0x08 { result := result + [BACKSLASH, 98]; }
      else if code == 0x09 { result := result + [BACKSLASH, 116]; }
      else if code == 0x0a { result := result + [BACKSLASH, 110]; }
      else if code == 0x0c { result := result + [BACKSLASH, 102]; }
      else if code == 0x0d { result := result + [BACKSLASH, 114]; }
      else if code == QUOTE { result := result + [BACKSLASH, QUOTE]; }
      else if code == BACKSLASH { result := result + [BACKSLASH, BACKSLASH]; }
      else if code < 0x20 { result := result + [BACKSLASH, 117] + Hex4(code); }
      else { result := result + [code]; }
      assert result == before + Escape(code);
    }
    assert str[..|str|] == str;
    result := result + [QUOTE];
  }

  function Join(parts: seq<Text>): Text {
    if parts == [] then []
    else if |parts| == 1 then parts[0]
    else parts[0] + [COMMA] + Join(parts[1..])
  }

  function Canonicalize(v: Value): Result<Text, Error>
    decreases v, 2, 0
  {
    match v
    case Undefined => Success(NULL)
    case Null => Success(NULL)
    case Boolean(b) => Success(if b then TRUE else FALSE)
    case Number(token) => Success(token)
    case NonFinite => Failure(InfinityOrNaN)
    case String(s) => Success(SerializedString(s))
    case Array(items) =>
      var parts := PrintItems(items);
      if parts.Failure? then Failure(parts.error)
      else Success([OPEN_BRACKET] + Join(parts.value) + [CLOSE_BRACKET])
    case Object(members) =>
      var parts := PrintMembers(v, SortedKeys(members));
      if parts.Failure? then Failure(parts.error)
      else Success([OPEN_BRACE] + Join(parts.value) + [CLOSE_BRACE])
    case Unsupported => Failure(UnsupportedType)
  }

  function PrintItems(items: seq<Value>): (r: Result<seq<Text>, Error>)
    ensures r.Success? ==> |r.value| == |items|
    decreases items, 1, 0
  {
    if items == [] then Success([])
    else
      var first := Canonicalize(items[0]);
      if first.Failure? then Failure(first.error)
      else
        var rest := PrintItems(items[1..]);
        if rest.Failure? then rest else Success([first.value] + rest.value)
  }

  function PrintMembers(o: Value, keys: seq<Text>): Result<seq<Text>, Error>
    requires o.Object?
    decreases o, 1, |keys|
  {
    if keys == [] then Success([])
    else
      var value := Get(o.members, keys[0]);
      if value.Undefined? then PrintMembers(o, keys[1..])
      else
        var first := Canonicalize(value);
        if first.Failure? then Failure(first.error)
        else
          var rest := PrintMembers(o, keys[1..]);
          if rest.Failure? then rest
          else Success([SerializedString(keys[0]) + [COLON] + first.value] + rest.value)
  }

  // ---------------------------------------------------------------- meaning

  /** A JSON value: objects are unordered. */
  datatype Json =
    | JNull
    | JBoolean(b: bool)
    | JNumber(token: Text)
    | JString(s: Text)
    | JArray(items: seq<Json>)
    | JObject(fields: map<Text, Json>)

  function DefinedKeys(members: seq<Member>): set<Text> {
    set i | 0 <= i < |members| && !Get(members, members[i].key).Undefined? :: members[i].key
  }

  /** The value up to member order, with undefined members dropped; other undefined values are null. */
  function Meaning(v: Value): Json
    decreases v, 1
  {
    match v
    case Boolean(b) => JBoolean(b)
    case Number(token) => JNumber(token)
    case String(s) => JString(s)
    case Array(items) => JArray(Meanings(items))
    case Object(members) => JObject(map k | k in DefinedKeys(members) :: Meaning(Get(members, k)))
    case _ => JNull
  }

  function Meanings(items: seq<Value>): (r: seq<Json>)
    ensures |r| == |items|
    decreases items, 0
  {
    if items == [] then [] else [Meaning(items[0])] + Meanings(items[1..])
  }

  /** No infinite, NaN or unsupported value in an array or a defined member. */
  ghost predicate Serializable(v: Value) {
    match v
    case NonFinite => false
    case Unsupported => false
    case Array(items) => forall i | 0 <= i < |items| :: Serializable(items[i])
    case Object(members) => forall k | k in DefinedKeys(members) :: Serializable(Get(members, k))
    case _ => true
  }

  // ---------------------------------------------------------------- parsing

  predicate StartsWith(s: Text, prefix: Text) {
    |prefix| <= |s| && s[..|prefix|] == prefix
  }

  function HexValue(u: Unit): Option<int> {
    if 48 <= u <= 57 then Some(u - 48)
    else if 97 <= u <= 102 then Some(u - 87)
    else if 65 <= u <= 70 then Some(u - 55)
    else None
  }

  function ReadHex4(u: Unit, v: Unit, w: Unit, x: Unit): Option<Unit> {
    var (a, b, c, d) := (HexValue(u), HexValue(v), HexValue(w), HexValue(x));
    if a.Some? && b.Some? && c.Some? && d.Some? then Some(((a.value * 16 + b.value) * 16 + c.value) * 16 + d.value) else None
  }

  /** One possibly escaped code unit; control characters have to be escaped (section 7 of RFC 8259). */
  function ParseUnit(s: Text): (r: Option<(Unit, Text)>)
    ensures r.Some? ==> |r.value.1| < |s|
  {
    if s == [] || s[0] < 0x20 then None
    else if s[0] != BACKSLASH then Some((s[0], s[1..]))
    else if |s| == 1 then None
    else if s[1] == 98 then Some((0x08, s[2..]))
    else if s[1] == 116 then Some((0x09, s[2..]))
    else if s[1] == 110 then Some((0x0a, s[2..]))
    else if s[1] == 102 then Some((0x0c, s[2..]))
    else if s[1] == 114 then Some((0x0d, s[2..]))
    else if s[1] == QUOTE || s[1] == BACKSLASH || s[1] == 47 then Some((s[1], s[2..]))
    else if s[1] == 117 && |s| >= 6 then
      var code := ReadHex4(s[2], s[3], s[4], s[5]);
      if code.None? then None else Some((code.value, s[6..]))
    else None
  }

  /** A string after its opening quote. */
  function ParseString(s: Text): (r: Option<(Text, Text)>)
    ensures r.Some? ==> |r.value.1| < |s|
    decreases |s|
  {
    if s == [] then None
    else if s[0] == QUOTE then Some(([], s[1..]))
    else
      var first := ParseUnit(s);
      if first.None? then None
      else
        var rest := ParseString(first.value.1);
        if rest.None? then None else Some(([first.value.0] + rest.value.0, rest.value.1))
  }

  function NumberPrefix(s: Text): (n: nat)
    ensures n <= |s|
  {
    if s == [] || !IsNumberUnit(s[0]) then 0 else 1 + NumberPrefix(s[1..])
  }

  function ParseValue(s: Text): (r: Option<(Json, Text)>)
    ensures r.Some? ==> |r.value.1| < |s|
    decreases |s|, 1
  {
    if s == [] then None
    else if StartsWith(s, NULL) then Some((JNull, s[4..]))
    else if StartsWith(s, TRUE) then Some((JBoolean(true), s[4..]))
    else if StartsWith(s, FALSE) then Some((JBoolean(false), s[5..]))
    else if s[0] == QUOTE then
      var r := ParseString(s[1..]);
      if r.None? then None else Some((JString(r.value.0), r.value.1))
    else if s[0] == OPEN_BRACKET then
      if StartsWith(s[1..], [CLOSE_BRACKET]) then Some((JArray([]), s[2..]))
      else
        var r := ParseItems(s[1..]);
        if r.None? then None else Some((JArray(r.value.0), r.value.1))
    else if s[0] == OPEN_BRACE then
      if StartsWith(s[1..], [CLOSE_BRACE]) then Some((JObject(map[]), s[2..]))
      else
        var r := ParseFields(s[1..], None);
        if r.None? then None else Some((JObject(r.value.0), r.value.1))
    else
      var n := NumberPrefix(s);
      if n == 0 then None else Some((JNumber(s[..n]), s[n..]))
  }

  /** The items of an array and its closing bracket. */
  function ParseItems(s: Text): (r: Option<(seq<Json>, Text)>)
    ensures r.Some? ==> |r.value.1| < |s|
    decreases |s|, 2
  {
    var first := ParseValue(s);
    if first.None? || first.value.1 == [] then None
    else
      var after := first.value.1;
      if after[0] == CLOSE_BRACKET then Some(([first.value.0], after[1..]))
      else if after[0] == COMMA then
        var rest := ParseItems(after[1..]);
        if rest.None? then None else Some(([first.value.0] + rest.value.0, rest.value.1))
      else None
  }

  /** The members of an object, each key after the one before it, and its closing brace. */
  function ParseFields(s: Text, last: Option<Text>): (r: Option<(map<Text, Json>, Text)>)
    ensures r.Some? ==> |r.value.1| < |s|
    decreases |s|, 2
  {
    if s == [] || s[0] != QUOTE then None
    else
      var key := ParseString(s[1..]);
      if key.None? || !StartsWith(key.value.1, [COLON]) then None
      else if last.Some? && !Before(last.value, key.value.0) then None
      else
        var value := ParseValue(key.value.1[1..]);
        if value.None? || value.value.1 == [] then None
        else
          var after := value.value.1;
          var field := map[key.value.0 := value.value.0];
          if after[0] == CLOSE_BRACE then Some((field, after[1..]))
          else if after[0] == COMMA then
            var rest := ParseFields(after[1..], Some(key.value.0));
            if rest.None? then None else Some((field + rest.value.0, rest.value.1))
          else None
  }

  /** A whole document. */
  function Parse(s: Text): Option<Json> {
    var r := ParseValue(s);
    if r.Some? && r.value.1 == [] then Some(r.value.0) else None
  }

  // ---------------------------------------------------------------- property order, proofs

  ghost predicate StrictlySorted(ks: seq<Text>) {
    forall i, j :: 0 <= i < j < |ks| ==> Before(ks[i], ks[j])
  }

  /** A proper prefix comes before; otherwise the first units that differ decide. */
  lemma {:induction false} BeforeSpelled(a: Text, b: Text, n: nat)
    requires n <= |a| && n <= |b| && a[..n] == b[..n] && (n < |a| && n < |b| ==> a[n] != b[n])
    ensures Before(a, b) == (n < |b| && (n == |a| || a[n] < b[n]))
    decreases n
  {
    if n > 0 {
      assert a[0] == a[..n][0] == b[..n][0] == b[0];
      assert a[1..][..n - 1] == a[..n][1..] && b[1..][..n - 1] == b[..n][1..];
      BeforeSpelled(a[1..], b[1..], n - 1);
    }
  }

  lemma {:induction false} BeforeIrreflexive(a: Text)
    ensures !Before(a, a)
  {
    if a != [] { BeforeIrreflexive(a[1..]); }
  }

  lemma {:induction false} BeforeTransitive(a: Text, b: Text, c: Text)
    requires Before(a, b) && Before(b, c)
    ensures Before(a, c)
  {
    if a != [] && a[0] == b[0] == c[0] { BeforeTransitive(a[1..], b[1..], c[1..]); }
  }

  lemma {:induction false} BeforeTotal(a: Text, b: Text)
    ensures a == b || Before(a, b) || Before(b, a)
  {
    if a != [] && b != [] && a[0] == b[0] {
      BeforeTotal(a[1..], b[1..]);
      assert a == [a[0]] + a[1..] && b == [b[0]] + b[1..];
    }
  }

  lemma {:induction false} InsertSorted(k: Text, ks: seq<Text>)
    requires StrictlySorted(ks)
    ensures StrictlySorted(Insert(k, ks))
    ensures forall x :: x in Insert(k, ks) <==> x == k || x in ks
  {
    if ks == [] || k == ks[0] {
    } else if Before(k, ks[0]) {
      forall j | 0 <= j < |ks| ensures Before(k, ks[j]) {
        if j > 0 { BeforeTransitive(k, ks[0], ks[j]); }
      }
    } else {
      BeforeTotal(k, ks[0]);
      var rest := Insert(k, ks[1..]);
      InsertSorted(k, ks[1..]);
      forall j | 0 <= j < |rest| ensures Before(ks[0], rest[j]) {
        assert rest[j] in rest;
      }
      assert forall x :: x in ks <==> x == ks[0] || x in ks[1..];
    }
  }

  lemma {:induction false} KeysSorted(members: seq<Member>)
    ensures StrictlySorted(SortedKeys(members))
    ensures forall k :: k in SortedKeys(members) <==> exists m :: m in members && m.key == k
  {
    if members != [] {
      var front, last := members[..|members| - 1], members[|members| - 1];
      KeysSorted(front);
      InsertSorted(last.key, SortedKeys(front));
      assert members == front + [last];
    }
  }

  /** Sorted sequences with the same elements are the same. */
  lemma {:induction false} SortedUnique(xs: seq<Text>, ys: seq<Text>)
    requires StrictlySorted(xs) && StrictlySorted(ys) && forall k :: k in xs <==> k in ys
    ensures xs == ys
  {
    if xs + ys == [] {
    } else {
      var some := (xs + ys)[0];
      assert some in xs <==> some in ys;
      assert xs[0] in xs && xs[0] in ys;
      assert ys[0] in ys && ys[0] in xs;
      if xs[0] != ys[0] {
        var i :| 0 <= i < |ys| && ys[i] == xs[0];
        var j :| 0 <= j < |xs| && xs[j] == ys[0];
        BeforeTransitive(ys[0], xs[0], ys[0]);
        BeforeIrreflexive(ys[0]);
      }
      forall k ensures k in xs[1..] <==> k in ys[1..] {
        BeforeIrreflexive(xs[0]);
        assert k in xs <==> k == xs[0] || k in xs[1..];
        assert k in ys <==> k == ys[0] || k in ys[1..];
      }
      SortedUnique(xs[1..], ys[1..]);
    }
  }

  // ---------------------------------------------------------------- parsing undoes printing

  /** What may follow a printed value: nothing, or a separator. */
  ghost predicate Ends(rest: Text) {
    rest == [] || rest[0] == COMMA || rest[0] == CLOSE_BRACKET || rest[0] == CLOSE_BRACE
  }

  lemma HexInverse(d: int)
    requires 0 <= d < 16
    ensures HexValue(HexDigit(d)) == Some(d)
  {
  }

  lemma UnitParses(u: Unit, rest: Text)
    ensures |Escape(u)| > 0 && Escape(u)[0] != QUOTE
    ensures ParseUnit(Escape(u) + rest) == Some((u, rest))
  {
    var s := Escape(u) + rest;
    if |Escape(u)| == 1 {
      assert s[1..] == rest;
    } else if |Escape(u)| == 2 {
      assert s[2..] == rest;
    } else {
      HexInverse(u / 16);
      HexInverse(u % 16);
      assert s[6..] == rest;
    }
  }

  lemma {:induction false} EscapedFront(s: Text)
    requires s != []
    ensures Escaped(s) == Escape(s[0]) + Escaped(s[1..])
  {
    hide Escape;
    if |s| == 1 {
      assert Escaped(s[..0]) == [] && s[1..] == [];
    } else {
      var front, tail, last := s[..|s| - 1], s[1..], s[|s| - 1];
      EscapedLast(s);
      EscapedLast(tail);
      hide Escaped;
      EscapedFront(front);
      assert tail[..|tail| - 1] == front[1..];
      assert Escape(s[0]) + Escaped(front[1..]) + Escape(last) == Escape(s[0]) + (Escaped(front[1..]) + Escape(last));
    }
  }

  lemma {:induction false} StringParses(s: Text, rest: Text)
    ensures ParseString(Escaped(s) + [QUOTE] + rest) == Some((s, rest))
    decreases |s|
  {
    hide Escape, ParseUnit;
    var input := Escaped(s) + [QUOTE] + rest;
    if s == [] {
      assert input[1..] == rest;
    } else {
      EscapedFront(s);
      var tail := Escaped(s[1..]) + [QUOTE] + rest;
      assert input == Escape(s[0]) + tail;
      UnitParses(s[0], tail);
      StringParses(s[1..], rest);
      assert s == [s[0]] + s[1..];
    }
  }

  lemma {:induction false} NumberEnds(digits: Text, rest: Text)
    requires (forall u <- digits :: IsNumberUnit(u)) && Ends(rest)
    ensures NumberPrefix(digits + rest) == |digits|
  {
    if digits == [] {
      assert digits + rest == rest;
    } else {
      assert (digits + rest)[1..] == digits[1..] + rest;
      NumberEnds(digits[1..], rest);
    }
  }

  /** Printed values start with none of the separators. */
  lemma PrintedStart(v: Value)
    requires Canonicalize(v).Success?
    ensures var t := Canonicalize(v).value;
      t != [] && t[0] != CLOSE_BRACKET && t[0] != CLOSE_BRACE && t[0] != COMMA
  {
  }

  function FieldsOf(o: Value, keys: seq<Text>): map<Text, Json>
    requires o.Object?
    decreases |keys|
  {
    if keys == [] then map[]
    else if Get(o.members, keys[0]).Undefined? then FieldsOf(o, keys[1..])
    else map[keys[0] := Meaning(Get(o.members, keys[0]))] + FieldsOf(o, keys[1..])
  }

  lemma {:induction false} FieldsLookup(o: Value, keys: seq<Text>)
    requires o.Object?
    ensures forall k :: k in FieldsOf(o, keys) <==> k in keys && !Get(o.members, k).Undefined?
    ensures forall k :: k in FieldsOf(o, keys) ==> FieldsOf(o, keys)[k] == Meaning(Get(o.members, k))
    decreases |keys|
  {
    if keys != [] {
      FieldsLookup(o, keys[1..]);
      assert forall k :: k in keys <==> k == keys[0] || k in keys[1..];
    }
  }

  lemma {:induction false} Assigned(members: seq<Member>, k: Text)
    ensures !Get(members, k).Undefined? ==> exists i :: 0 <= i < |members| && members[i].key == k
  {
    if members != [] && members[|members| - 1].key != k {
      Assigned(members[..|members| - 1], k);
    }
  }

  lemma SortedFieldsAreMeaning(o: Value)
    requires o.Object?
    ensures JObject(FieldsOf(o, SortedKeys(o.members))) == Meaning(o)
  {
    var keys := SortedKeys(o.members);
    FieldsLookup(o, keys);
    KeysSorted(o.members);
    forall k ensures k in FieldsOf(o, keys) <==> k in DefinedKeys(o.members) {
      Assigned(o.members, k);
      if i :| 0 <= i < |o.members| && o.members[i].key == k { assert o.members[i] in o.members; }
    }
    assert FieldsOf(o, keys) == Meaning(o).fields;
  }

  lemma {:induction false} NothingPrinted(o: Value, keys: seq<Text>)
    requires o.Object? && PrintMembers(o, keys) == Success([])
    ensures FieldsOf(o, keys) == map[]
    decreases |keys|
  {
    if keys != [] { NothingPrinted(o, keys[1..]); }
  }

  lemma NoKeyword(s: Text)
    requires s != [] && s[0] != 110 && s[0] != 116 && s[0] != 102
    ensures !StartsWith(s, NULL) && !StartsWith(s, TRUE) && !StartsWith(s, FALSE)
  {
    if |s| >= 4 { assert s[..4][0] == s[0]; }
    if |s| >= 5 { assert s[..5][0] == s[0]; }
  }

  lemma KeywordsParse(rest: Text)
    ensures ParseValue(NULL + rest) == Some((JNull, rest))
    ensures ParseValue(TRUE + rest) == Some((JBoolean(true), rest))
    ensures ParseValue(FALSE + rest) == Some((JBoolean(false), rest))
  {
    assert (NULL + rest)[..4] == NULL && (NULL + rest)[4..] == rest;
    var t, f := TRUE + rest, FALSE + rest;
    assert t[..4] == TRUE && t[4..] == rest;
    assert f[..5] == FALSE && f[5..] == rest && f[..4][0] == 102;
  }

  lemma StringValueParses(str: Text, rest: Text)
    ensures ParseValue(SerializedString(str) + rest) == Some((JString(str), rest))
  {
    hide ParseString, Escaped, ParseItems, ParseFields, NumberPrefix, StartsWith;
    var s := SerializedString(str) + rest;
    NoKeyword(s);
    StringParses(str, rest);
    assert s[1..] == Escaped(str) + [QUOTE] + rest;
  }

  lemma NumberParses(token: Token, rest: Text)
    requires Ends(rest)
    ensures ParseValue(token + rest) == Some((JNumber(token), rest))
  {
    var s := token + rest;
    NoKeyword(s);
    NumberEnds(token, rest);
    assert s[..|token|] == token && s[|token|..] == rest;
  }

  lemma ArrayStarts(inner: Text)
    requires inner != []
    ensures ParseValue([OPEN_BRACKET] + inner) ==
      if inner[0] == CLOSE_BRACKET then Some((JArray([]), inner[1..]))
      else var r := ParseItems(inner); if r.None? then None else Some((JArray(r.value.0), r.value.1))
  {
    var s := [OPEN_BRACKET] + inner;
    NoKeyword(s);
    assert s[1..] == inner && s[2..] == inner[1..] && inner[..1] == [inner[0]];
  }

  lemma ObjectStarts(inner: Text)
    requires inner != []
    ensures ParseValue([OPEN_BRACE] + inner) ==
      if inner[0] == CLOSE_BRACE then Some((JObject(map[]), inner[1..]))
      else var r := ParseFields(inner, None); if r.None? then None else Some((JObject(r.value.0), r.value.1))
  {
    var s := [OPEN_BRACE] + inner;
    NoKeyword(s);
    assert s[1..] == inner && s[2..] == inner[1..] && inner[..1] == [inner[0]];
  }

  lemma {:induction false} ValueParses(v: Value, rest: Text)
    requires Canonicalize(v).Success? && Ends(rest)
    ensures ParseValue(Canonicalize(v).value + rest) == Some((Meaning(v), rest))
    decreases v, 2, 0
  {
    hide ParseValue;
    match v
    case Undefined => KeywordsParse(rest);
    case Null => KeywordsParse(rest);
    case Boolean(b) => KeywordsParse(rest);
    case Number(token) => NumberParses(token, rest);
    case String(str) => StringValueParses(str, rest);
    case Array(items) => ArrayParses(v, rest);
    case Object(members) => ObjectParses(v, rest);
  }

  lemma {:induction false} ArrayParses(v: Value, rest: Text)
    requires v.Array? && Canonicalize(v).Success? && Ends(rest)
    ensures ParseValue(Canonicalize(v).value + rest) == Some((Meaning(v), rest))
    decreases v, 1, 1
  {
    hide ParseValue, ParseItems;
    var parts := PrintItems(v.items).value;
    var inner := Join(parts) + [CLOSE_BRACKET] + rest;
    assert Canonicalize(v).value + rest == [OPEN_BRACKET] + inner;
    ArrayStarts(inner);
    if v.items == [] {
      assert inner[1..] == rest;
    } else {
      PrintedStart(v.items[0]);
      ItemsParse(v.items, parts, rest);
      assert inner[0] == parts[0][0];
    }
  }

  lemma {:induction false} ItemsParse(items: seq<Value>, parts: seq<Text>, rest: Text)
    requires items != [] && PrintItems(items) == Success(parts)
    ensures ParseItems(Join(parts) + [CLOSE_BRACKET] + rest) == Some((Meanings(items), rest))
    decreases items, 1, 0
  {
    hide ParseValue;
    var s := Join(parts) + [CLOSE_BRACKET] + rest;
    if |items| == 1 {
      var tail := [CLOSE_BRACKET] + rest;
      assert s == parts[0] + tail;
      ValueParses(items[0], tail);
      assert tail[1..] == rest;
      assert items[1..] == [] && Meanings(items) == [Meaning(items[0])];
    } else {
      var more := Join(parts[1..]) + [CLOSE_BRACKET] + rest;
      var tail := [COMMA] + more;
      assert s == parts[0] + tail;
      ValueParses(items[0], tail);
      ItemsParse(items[1..], parts[1..], rest);
      assert tail[1..] == more;
    }
  }

  lemma {:induction false} ObjectParses(v: Value, rest: Text)
    requires v.Object? && Canonicalize(v).Success? && Ends(rest)
    ensures ParseValue(Canonicalize(v).value + rest) == Some((Meaning(v), rest))
    decreases v, 1, 2 * |SortedKeys(v.members)| + 2
  {
    hide ParseValue, ParseFields, SortedKeys, FieldsOf;
    var keys := SortedKeys(v.members);
    var parts := PrintMembers(v, keys).value;
    var inner := Join(parts) + [CLOSE_BRACE] + rest;
    assert Canonicalize(v).value + rest == [OPEN_BRACE] + inner;
    ObjectStarts(inner);
    SortedFieldsAreMeaning(v);
    if parts == [] {
      NothingPrinted(v, keys);
      assert inner[1..] == rest;
    } else {
      KeysSorted(v.members);
      MembersParse(v, keys, parts, None, rest);
    }
  }

  /** All keys come after the last one read. */
  ghost predicate After(last: Option<Text>, keys: seq<Text>) {
    last.Some? ==> forall k :: k in keys ==> Before(last.value, k)
  }

  lemma {:induction false} MembersParse(o: Value, keys: seq<Text>, parts: seq<Text>, last: Option<Text>, rest: Text)
    requires o.Object? && PrintMembers(o, keys) == Success(parts) && parts != []
    requires StrictlySorted(keys) && After(last, keys)
    ensures var s := Join(parts) + [CLOSE_BRACE] + rest;
      s[0] == QUOTE && ParseFields(s, last) == Some((FieldsOf(o, keys), rest))
    decreases o, 1, 2 * |keys| + 1
  {
    hide ParseFields, Before;
    if Get(o.members, keys[0]).Undefined? {
      assert forall k :: k in keys[1..] ==> k in keys;
      MembersParse(o, keys[1..], parts, last, rest);
    } else {
      MemberParses(o, keys, parts, last, rest);
    }
  }

  lemma {:induction false} MemberParses(o: Value, keys: seq<Text>, parts: seq<Text>, last: Option<Text>, rest: Text)
    requires o.Object? && PrintMembers(o, keys) == Success(parts) && parts != []
    requires !Get(o.members, keys[0]).Undefined?
    requires StrictlySorted(keys) && After(last, keys)
    ensures var s := Join(parts) + [CLOSE_BRACE] + rest;
      s[0] == QUOTE && ParseFields(s, last) == Some((FieldsOf(o, keys), rest))
    decreases o, 1, 2 * |keys|
  {
    hide ParseFields, ParseValue, ParseString, Get, SerializedString, Before;
    assert keys[0] in keys;
    var value := Get(o.members, keys[0]);
    var text := Canonicalize(value).value;
    var more := parts[1..];
    var head := SerializedString(keys[0]) + [COLON];
    var s := Join(parts) + [CLOSE_BRACE] + rest;
    assert parts[0] == head + text;
    if more == [] {
      NothingPrinted(o, keys[1..]);
      var tail := [CLOSE_BRACE] + rest;
      assert s == head + (text + tail);
      ValueParses(value, tail);
      FieldParses(keys[0], text + tail, Meaning(value), tail, last);
      assert tail[1..] == rest;
      assert map[keys[0] := Meaning(value)] + map[] == map[keys[0] := Meaning(value)];
    } else {
      var after := Join(more) + [CLOSE_BRACE] + rest;
      var tail := [COMMA] + after;
      assert s == head + (text + tail);
      ValueParses(value, tail);
      FieldParses(keys[0], text + tail, Meaning(value), tail, last);
      FirstBeforeRest(keys);
      MembersParse(o, keys[1..], more, Some(keys[0]), rest);
      assert tail[1..] == after;
    }
  }

  lemma FirstBeforeRest(keys: seq<Text>)
    requires StrictlySorted(keys) && keys != []
    ensures StrictlySorted(keys[1..]) && After(Some(keys[0]), keys[1..])
  {
    hide Before;
    forall k | k in keys[1..] ensures Before(keys[0], k) {
      var i :| 0 <= i < |keys[1..]| && keys[1..][i] == k;
      assert k == keys[i + 1];
    }
  }

  lemma FieldParses(key: Text, input: Text, json: Json, tail: Text, last: Option<Text>)
    requires last.Some? ==> Before(last.value, key)
    requires ParseValue(input) == Some((json, tail)) && tail != []
    ensures var s := SerializedString(key) + [COLON] + input;
      && s[0] == QUOTE
      && ParseFields(s, last) ==
        (if tail[0] == CLOSE_BRACE then Some((map[key := json], tail[1..]))
         else if tail[0] == COMMA then
           var more := ParseFields(tail[1..], Some(key));
           if more.None? then None else Some((map[key := json] + more.value.0, more.value.1))
         else None)
  {
    hide ParseValue, ParseString, Before;
    FieldStart(key, input, SerializedString(key) + [COLON] + input);
  }

  lemma FieldStart(key: Text, tail: Text, s: Text)
    requires s == SerializedString(key) + [COLON] + tail
    ensures s[0] == QUOTE && ParseString(s[1..]) == Some((key, [COLON] + tail))
    ensures StartsWith([COLON] + tail, [COLON]) && ([COLON] + tail)[1..] == tail
  {
    assert s[1..] == Escaped(key) + [QUOTE] + ([COLON] + tail);
    StringParses(key, [COLON] + tail);
  }

  /**
   * Parsing what was printed gives the value back, up to member order and undefined members; the parser refuses members
   * that are out of order, at every depth, and blanks.
   */
  lemma ParseUndoesPrint(v: Value)
    requires Canonicalize(v).Success?
    ensures Parse(Canonicalize(v).value) == Some(Meaning(v))
  {
    ValueParses(v, []);
    assert Canonicalize(v).value + [] == Canonicalize(v).value;
  }

  // ---------------------------------------------------------------- the canonical form of a string

  /** No escape of the text has an upper-case hexadecimal digit. */
  ghost predicate LowerHex(t: Text)
    decreases |t|
  {
    t != [] && t[0] != QUOTE && ParseUnit(t).Some? ==>
      var rest := ParseUnit(t).value.1;
      && (|t| - |rest| == 6 ==> forall i :: 2 <= i < 6 ==> t[i] < 65 || t[i] > 70)
      && LowerHex(rest)
  }

  lemma HexDigitOf(u: Unit)
    requires HexValue(u).Some?
    ensures 0 <= HexValue(u).value < 16
    ensures u < 65 || u > 70 ==> HexDigit(HexValue(u).value) == u
  {
  }

  lemma DigitsOfSum(a: int, b: int, c: int, d: int)
    requires 0 <= a < 16 && 0 <= b < 16 && 0 <= c < 16 && 0 <= d < 16
    ensures var code := ((a * 16 + b) * 16 + c) * 16 + d;
      && 0 <= code < 0x10000
      && code / 0x1000 == a && code / 0x100 % 16 == b && code / 16 % 16 == c && code % 16 == d
  {
  }

  /** An escape with four lower-case digits is the one printed, if the printer uses four digits for its unit at all. */
  lemma FourDigits(t: Text, u: Unit, rest: Text)
    requires |t| >= 6 && t[0] == BACKSLASH && t[1] == 117 && ParseUnit(t) == Some((u, rest))
    ensures rest == t[6..]
    ensures (forall i :: 2 <= i < 6 ==> t[i] < 65 || t[i] > 70) ==> t[2..6] == Hex4(u)
  {
    var (a, b, c, d) := (HexValue(t[2]), HexValue(t[3]), HexValue(t[4]), HexValue(t[5]));
    HexDigitOf(t[2]);
    HexDigitOf(t[3]);
    HexDigitOf(t[4]);
    HexDigitOf(t[5]);
    hide HexDigit, HexValue;
    DigitsOfSum(a.value, b.value, c.value, d.value);
    if forall i :: 2 <= i < 6 ==> t[i] < 65 || t[i] > 70 {
      assert t[2..6] == [t[2], t[3], t[4], t[5]];
    }
  }

  /** No text of a unit is shorter than the one printed, and no other one in lower case is as short. */
  lemma UnitIsShortest(t: Text, u: Unit, rest: Text)
    requires ParseUnit(t) == Some((u, rest)) && t[0] != QUOTE
    ensures |Escape(u)| + |rest| <= |t|
    ensures |Escape(u)| + |rest| == |t| && (|t| - |rest| == 6 ==> forall i :: 2 <= i < 6 ==> t[i] < 65 || t[i] > 70) ==>
      t == Escape(u) + rest
  {
    if t[0] != BACKSLASH {
      assert t == [t[0]] + t[1..];
    } else if t[1] == 117 {
      FourDigits(t, u, rest);
      hide Hex4, HexValue;
      assert t == [t[0], t[1]] + t[2..6] + t[6..];
    } else {
      assert t == [t[0], t[1]] + t[2..];
    }
  }

  lemma PrintedUnitIsLower(u: Unit, rest: Text)
    requires LowerHex(rest)
    ensures LowerHex(Escape(u) + rest)
  {
    UnitParses(u, rest);
    var t := Escape(u) + rest;
    assert |Escape(u)| == 6 ==> forall i :: 2 <= i < 6 ==> t[i] == Hex4(u)[i - 2];
    hide ParseUnit;
  }

  /**
   * The canonical form (section 3.2.2.2 of RFC 8785): of all JSON texts of a string, the printed one is the only shortest
   * one whose escapes have lower-case digits. So every unit that may stand as itself does, and every short escape is used.
   */
  lemma {:induction false} PrintedStringIsCanonical(s: Text, t: Text, rest: Text)
    requires ParseString(t) == Some((s, rest))
    ensures |SerializedString(s)| + |rest| <= 1 + |t|
    ensures |SerializedString(s)| + |rest| == 1 + |t| && LowerHex(t) <==> SerializedString(s) + rest == [QUOTE] + t
    decreases |t|
  {
    hide Escape, ParseUnit;
    if t[0] == QUOTE {
      assert t == [QUOTE] + t[1..];
      assert SerializedString(s) == [QUOTE] + [QUOTE];
    } else {
      var (u, after) := ParseUnit(t).value;
      PrintedStringIsCanonical(s[1..], after, rest);
      EscapedFront(s);
      UnitIsShortest(t, u, after);
      var tail := Escaped(s[1..]) + [QUOTE] + rest;
      assert SerializedString(s[1..]) + rest == [QUOTE] + tail;
      assert SerializedString(s) + rest == [QUOTE] + (Escape(u) + tail);
      if |SerializedString(s)| + |rest| == 1 + |t| && LowerHex(t) {
        assert t == Escape(u) + after;
        assert ([QUOTE] + after)[1..] == after == ([QUOTE] + tail)[1..] == tail;
      }
      if SerializedString(s) + rest == [QUOTE] + t {
        assert t == ([QUOTE] + t)[1..] == Escape(u) + tail;
        UnitParses(u, tail);
        PrintedUnitIsLower(u, tail);
      }
    }
  }

  /** A line break is printed as a backslash and an n, a bell as six units, and a slash as itself. */
  lemma SomeStrings()
    ensures SerializedString([0x0a]) == [QUOTE, BACKSLASH, 110, QUOTE]
    ensures SerializedString([0x07]) == [QUOTE, BACKSLASH, 117, 48, 48, 48, 55, QUOTE]
    ensures SerializedString([0x2f]) == [QUOTE, 0x2f, QUOTE]
  {
    assert Escaped([]) == [];
    assert [0x0a][..0] == [] && [0x07][..0] == [] && [0x2f][..0] == [];
  }

  // ---------------------------------------------------------------- printing decides meaning

  /** The keys that are printed. */
  function Printed(o: Value, keys: seq<Text>): seq<Text>
    requires o.Object?
  {
    if keys == [] then []
    else if Get(o.members, keys[0]).Undefined? then Printed(o, keys[1..])
    else [keys[0]] + Printed(o, keys[1..])
  }

  lemma {:induction false} PrintedIsEnough(o: Value, keys: seq<Text>)
    requires o.Object? && StrictlySorted(keys)
    ensures StrictlySorted(Printed(o, keys))
    ensures forall k :: k in Printed(o, keys) <==> k in keys && !Get(o.members, k).Undefined?
    ensures PrintMembers(o, Printed(o, keys)) == PrintMembers(o, keys)
  {
    if keys != [] {
      PrintedIsEnough(o, keys[1..]);
      assert forall k :: k in keys <==> k == keys[0] || k in keys[1..];
      var rest := Printed(o, keys[1..]);
      forall j | 0 <= j < |rest| ensures Before(keys[0], rest[j]) {
        assert rest[j] in rest && rest[j] in keys[1..];
      }
      assert ([keys[0]] + rest)[1..] == rest;
    }
  }

  lemma SameFieldsSameKeys(v: Value, w: Value)
    requires v.Object? && w.Object? && Meaning(v) == Meaning(w)
    ensures Printed(v, SortedKeys(v.members)) == Printed(w, SortedKeys(w.members))
  {
    var (vs, ws) := (SortedKeys(v.members), SortedKeys(w.members));
    KeysSorted(v.members);
    KeysSorted(w.members);
    PrintedIsEnough(v, vs);
    PrintedIsEnough(w, ws);
    SortedFieldsAreMeaning(v);
    SortedFieldsAreMeaning(w);
    FieldsLookup(v, vs);
    FieldsLookup(w, ws);
    SortedUnique(Printed(v, vs), Printed(w, ws));
  }

  lemma {:induction false} SameMeaningSamePrint(v: Value, w: Value)
    requires Serializable(v) && Serializable(w) && Meaning(v) == Meaning(w)
    ensures Canonicalize(v) == Canonicalize(w)
    decreases v, 2
  {
    if v.Array? {
      SameMeaningsSamePrint(v.items, w.items);
    } else if v.Object? {
      SameFieldsSameKeys(v, w);
      var keys := Printed(v, SortedKeys(v.members));
      KeysSorted(v.members);
      KeysSorted(w.members);
      PrintedIsEnough(v, SortedKeys(v.members));
      PrintedIsEnough(w, SortedKeys(w.members));
      SameMembersSamePrint(v, w, keys);
    }
  }

  lemma {:induction false} SameMeaningsSamePrint(vs: seq<Value>, ws: seq<Value>)
    requires Meanings(vs) == Meanings(ws)
    requires (forall i | 0 <= i < |vs| :: Serializable(vs[i])) && (forall i | 0 <= i < |ws| :: Serializable(ws[i]))
    ensures PrintItems(vs) == PrintItems(ws)
    decreases vs, 1
  {
    if vs != [] {
      assert Meanings(vs)[0] == Meaning(vs[0]) && Meanings(ws)[0] == Meaning(ws[0]);
      assert Meanings(vs)[1..] == Meanings(vs[1..]) && Meanings(ws)[1..] == Meanings(ws[1..]);
      SameMeaningSamePrint(vs[0], ws[0]);
      SameMeaningsSamePrint(vs[1..], ws[1..]);
    }
  }

  lemma {:induction false} SameMembersSamePrint(v: Value, w: Value, keys: seq<Text>)
    requires v.Object? && w.Object? && Meaning(v) == Meaning(w)
    requires Serializable(v) && Serializable(w)
    requires forall k <- keys :: k in DefinedKeys(v.members)
    ensures PrintMembers(v, keys) == PrintMembers(w, keys)
    decreases v, 1, |keys|
  {
    if keys != [] {
      var k := keys[0];
      assert k in DefinedKeys(v.members) && k in Meaning(v).fields && k in Meaning(w).fields;
      SameMeaningSamePrint(Get(v.members, k), Get(w.members, k));
      SameMembersSamePrint(v, w, keys[1..]);
    }
  }

  /** A value prints exactly when nothing unprintable is reachable through what is printed. */
  lemma {:induction false} PrintsIffSerializable(v: Value)
    ensures Canonicalize(v).Success? <==> Serializable(v)
    decreases v, 2
  {
    if v.Array? {
      ItemsPrintIff(v.items);
    } else if v.Object? {
      MembersPrintIff(v, SortedKeys(v.members));
      KeysSorted(v.members);
      assert Canonicalize(v).Success? <==> PrintMembers(v, SortedKeys(v.members)).Success?;
      forall k ensures k in DefinedKeys(v.members) <==> k in SortedKeys(v.members) && !Get(v.members, k).Undefined? {
        if i :| 0 <= i < |v.members| && v.members[i].key == k { assert v.members[i] in v.members; }
      }
    }
  }

  lemma {:induction false} ItemsPrintIff(items: seq<Value>)
    ensures PrintItems(items).Success? <==> forall i | 0 <= i < |items| :: Serializable(items[i])
    decreases items, 1
  {
    if items != [] {
      PrintsIffSerializable(items[0]);
      ItemsPrintIff(items[1..]);
      assert forall i | 1 <= i < |items| :: items[i] == items[1..][i - 1];
    }
  }

  ghost predicate Prints(o: Value, k: Text)
    requires o.Object?
  {
    Get(o.members, k).Undefined? || Serializable(Get(o.members, k))
  }

  lemma {:induction false} MembersPrintIff(o: Value, keys: seq<Text>)
    requires o.Object?
    ensures PrintMembers(o, keys).Success? <==> forall k :: k in keys ==> Prints(o, k)
    decreases o, 1, |keys|
  {
    if keys != [] {
      if !Get(o.members, keys[0]).Undefined? { PrintsIffSerializable(Get(o.members, keys[0])); }
      MembersPrintIff(o, keys[1..]);
      assert forall k :: k in keys <==> k == keys[0] || k in keys[1..];
      assert PrintMembers(o, keys).Success? <==> Prints(o, keys[0]) && PrintMembers(o, keys[1..]).Success?;
    }
  }

  /** Two values print the same exactly when they are the same JSON value. */
  lemma PrintsSameIffSameMeaning(v: Value, w: Value)
    requires Canonicalize(v).Success? && Canonicalize(w).Success?
    ensures Canonicalize(v) == Canonicalize(w) <==> Meaning(v) == Meaning(w)
  {
    ParseUndoesPrint(v);
    ParseUndoesPrint(w);
    if Meaning(v) == Meaning(w) {
      PrintsIffSerializable(v);
      PrintsIffSerializable(w);
      SameMeaningSamePrint(v, w);
    }
  }
}
