/**
 * Signing a request and checking its signature, RFC 9421
 * (packages/shared/crypto/sign-rfc9421.ts and packages/shared/crypto/verify.ts).
 */
module HttpSignature {
  import opened Wrappers
  import opened Strings
  import opened Bytes
  import opened SignatureSyntax
  import Base64

  /** A parsed URL; `href` is its serialised form without the fragment, which is what a request carries. */
  datatype Url = Url(href: string, host: string, pathname: string, search: string, protocol: string)

  /** URL parsing, SHA-256, and the two ends of the key pair. */
  datatype Platform = Platform(
    parse: string -> Option<Url>,
    sha256: string -> seq<Byte>,
    sign: string -> seq<Byte>,
    check: (seq<Byte>, string) -> bool)

  /** `computeContentDigest` */
  function ContentDigest(p: Platform, body: string): (digest: string)
    ensures digest != ""
  {
    "sha-256=:" + Base64.Encode(p.sha256(body)) + ":"
  }

  // ---------------------------------------------------------------- the signature base

  function JoinLines(lines: seq<string>): string {
    if lines == [] then "" else if |lines| == 1 then lines[0] else lines[0] + ("\n" + JoinLines(lines[1..]))
  }

  function Line(component: string, value: string): string {
    "\"" + component + "\": " + value
  }

  function LinesOf(components: seq<string>, values: map<string, string>): (lines: seq<string>)
    requires forall c :: c in components ==> c in values
    ensures |lines| == |components|
  {
    seq(|components|, i requires 0 <= i < |components| => Line(components[i], values[components[i]]))
  }

  function SignatureBase(components: seq<string>, values: map<string, string>, params: string): string
    requires forall c :: c in components ==> c in values
  {
    JoinLines(LinesOf(components, values) + [Line("@signature-params", params)])
  }

  /** `buildSignatureBase`; it fails with the first component that has no value. */
  method BuildSignatureBase(components: seq<string>, values: map<string, string>, params: string)
    returns (base: Result<string, string>)
    ensures base.Success? <==> forall c :: c in components ==> c in values
    ensures base.Success? ==> base.value == SignatureBase(components, values, params)
    ensures base.Failure? ==> base.error in components && base.error !in values
  {
    var lines := [];
    for i := 0 to |components|
      invariant forall c :: c in components[..i] ==> c in values
      invariant lines == LinesOf(components[..i], values)
    {
      var component := components[i];
      if component !in values { return Failure(component); }
      assert components[..i + 1] == components[..i] + [component];
      lines := lines + [Line(component, values[component])];
    }
    assert components[..|components|] == components;
    lines := lines + [Line("@signature-params", params)];
    base := Success(JoinLines(lines));
  }

  lemma {:induction false} LastLine(lines: seq<string>, last: string, other: string)
    requires |last| != |other|
    ensures |JoinLines(lines + [last])| - |last| == |JoinLines(lines + [other])| - |other|
  {
    if lines != [] {
      LastLine(lines[1..], last, other);
      assert (lines + [last])[1..] == lines[1..] + [last];
      assert (lines + [other])[1..] == lines[1..] + [other];
    }
  }

  /** Nothing hides a change of length of the parameters. */
  lemma BaseShowsParams(components: seq<string>, values: map<string, string>, params: string, other: string)
    requires forall c :: c in components ==> c in values
    requires |params| != |other|
    ensures SignatureBase(components, values, params) != SignatureBase(components, values, other)
  {
    hide JoinLines;
    var lines := LinesOf(components, values);
    LastLine(lines, Line("@signature-params", params), Line("@signature-params", other));
  }

  // ---------------------------------------------------------------- signing

  const JSON_TYPE: string := "application" + "/activity" + "+json"

  datatype Headers = Headers(
    host: string, contentDigest: Option<string>, contentType: Option<string>, signatureInput: string, signature: string)

  function SignedComponents(withBody: bool): seq<string> {
    ["@method", "@target-uri", "@authority"] + if withBody then ["content-digest", "content-type"] else []
  }

  /** The values of the signed components. */
  function SignedValues(host: string, url: string, verb: string, digest: Option<string>): map<string, string> {
    map["@method" := Upper(verb), "@target-uri" := url, "@authority" := host]
    + match digest
      case Some(value) => map["content-digest" := value, "content-type" := JSON_TYPE]
      case None => map[]
  }

  /** The text that is signed. */
  function SignedBase(host: string, url: string, verb: string, digest: Option<string>, created: nat, keyId: string): string {
    SignatureBase(SignedComponents(digest.Some?), SignedValues(host, url, verb, digest),
                  SignatureParams(SignedComponents(digest.Some?), created, keyId))
  }

  /** An empty body is no body. */
  function DigestOf(p: Platform, body: string): Option<string> {
    if body == "" then None else Some(ContentDigest(p, body))
  }

  /** `signRequestRFC9421`; no result stands for the exception of a URL that does not parse. */
  method SignRequest(p: Platform, keyId: string, url: string, verb: string, body: string, created: nat)
    returns (headers: Option<Headers>)
    ensures headers.Some? <==> p.parse(url).Some?
    ensures headers.Some? ==> headers.value == SignedHeaders(p, keyId, url, verb, body, created)
  {
    if p.parse(url).None? { return None; }
    var host := p.parse(url).value.host;
    var contentDigest, contentType := None, None;
    var components := ["@method", "@target-uri", "@authority"];
    var values := map["@method" := Upper(verb), "@target-uri" := url, "@authority" := host];
    if body != "" {
      contentDigest, contentType := Some(ContentDigest(p, body)), Some(JSON_TYPE);
      components := components + ["content-digest", "content-type"];
      values := values["content-digest" := contentDigest.value]["content-type" := JSON_TYPE];
    }
    assert components == SignedComponents(body != "");
    assert values == SignedValues(host, url, verb, contentDigest);
    hide SignatureParams;
    var params := SignatureParams(components, created, keyId);
    var base := BuildSignatureBase(components, values, params);
    headers := Some(Headers(host, contentDigest, contentType, "sig1=" + params, SignatureField(p.sign(base.value))));
  }

  function SignedHeaders(p: Platform, keyId: string, url: string, verb: string, body: string, created: nat): Headers
    requires p.parse(url).Some?
  {
    var host, digest := p.parse(url).value.host, DigestOf(p, body);
    Headers(host, digest, if digest.Some? then Some(JSON_TYPE) else None,
            "sig1=" + SignatureParams(SignedComponents(digest.Some?), created, keyId),
            SignatureField(p.sign(SignedBase(host, url, verb, digest, created, keyId))))
  }

  // ---------------------------------------------------------------- checking

  /** A request as it arrives: header names in lower case. */
  datatype Request = Request(verb: string, url: string, headers: map<string, string>)

  function Header(r: Request, name: string): Option<string> {
    if Lower(name) in r.headers then Some(r.headers[Lower(name)]) else None
  }

  /** `search || '?'` and the scheme without its colon */
  function DerivedComponent(r: Request, parsed: Url, component: string): Option<string> {
    if component == "@method" then Some(Upper(r.verb))
    else if component == "@target-uri" then Some(r.url)
    else if component == "@authority" then Some(parsed.host)
    else if component == "@path" then Some(parsed.pathname)
    else if component == "@query" then Some(if parsed.search == "" then "?" else parsed.search)
    else if component == "@scheme" then Some(WithoutColon(parsed.protocol))
    else None
  }

  function WithoutColon(protocol: string): string {
    var k := IndexOf(protocol, ":");
    if k == -1 then protocol else protocol[..k] + protocol[k + 1..]
  }

  function ComponentValue(r: Request, parsed: Url, component: string): Option<string> {
    var derived := DerivedComponent(r, parsed, component);
    if derived.Some? then derived else Header(r, component)
  }

  /** Milliseconds a signature may be off. */
  const TOLERANCE := 300 * 1000

  predicate Fresh(created: Option<nat>, now: int) {
    created.None? || -TOLERANCE <= now - created.value * 1000 <= TOLERANCE
  }

  predicate DigestMatches(p: Platform, r: Request, components: seq<string>, body: string) {
    "content-digest" in components ==>
      && Header(r, "content-digest").Some? && Header(r, "content-digest").value != ""
      && Header(r, "content-digest").value == ContentDigest(p, body)
  }

  /** The values of all components, when each has one. */
  function ComponentValues(r: Request, parsed: Url, components: seq<string>): Option<map<string, string>> {
    if forall c :: c in components ==> ComponentValue(r, parsed, c).Some? then
      Some(map c | c in components :: ComponentValue(r, parsed, c).value)
    else None
  }

  method ResolveComponents(r: Request, parsed: Url, components: seq<string>) returns (values: Option<map<string, string>>)
    ensures values == ComponentValues(r, parsed, components)
  {
    var found: map<string, string> := map[];
    for i := 0 to |components|
      invariant forall c :: c in components[..i] ==> ComponentValue(r, parsed, c).Some?
      invariant found == map c | c in components[..i] :: ComponentValue(r, parsed, c).value
    {
      hide ComponentValue;
      var component := components[i];
      var value := ComponentValue(r, parsed, component);
      if value.None? { return None; }
      assert components[..i + 1] == components[..i] + [component];
      found := found[component := value.value];
    }
    assert components[..|components|] == components;
    values := Some(found);
  }

  /** What is handed to the key: signature bytes and the text they should sign. Nothing if the request is refused before. */
  function Checked(p: Platform, r: Request, body: string, now: int): Option<(seq<Byte>, string)> {
    var input, signature := Header(r, "signature-input"), Header(r, "signature");
    if input.None? || signature.None? || input.value == "" || signature.value == "" then None
    else
      match LabelOf(input.value)
      case None => None
      case Some(name) =>
        match ParseSignatureInput(input.value, name)
        case None => None
        case Some(parsed) =>
          if parsed.components == [] || !Fresh(parsed.created, now) || !DigestMatches(p, r, parsed.components, body) then None
          else if p.parse(r.url).None? then None
          else
            match ComponentValues(r, p.parse(r.url).value, parsed.components)
            case None => None
            case Some(values) =>
              match ExtractSignatureBytes(signature.value, name)
              case None => None
              case Some(bytes) => Some((bytes, SignatureBase(parsed.components, values, parsed.params)))
  }

  /**
   * Which requests are not refused: both signature headers are there, the list of components is not empty, a creation
   * time is at most five minutes off, a listed digest is that of the received body, and every other listed header is there.
   */
  ghost predicate Acceptable(p: Platform, r: Request, body: string, now: int) {
    && "signature-input" in r.headers && "signature" in r.headers
    && var input, signature := r.headers["signature-input"], r.headers["signature"];
    && input != "" && signature != ""
    && LabelOf(input).Some? && ParseSignatureInput(input, LabelOf(input).value).Some?
    && var read := ParseSignatureInput(input, LabelOf(input).value).value;
    && read.components != []
    && (read.created.Some? ==> now - 300_000 <= 1000 * read.created.value <= now + 300_000)
    && ("content-digest" in read.components ==>
          && "content-digest" in r.headers
          && r.headers["content-digest"] == "sha-256=:" + Base64.Encode(p.sha256(body)) + ":")
    && p.parse(r.url).Some?
    && (forall c :: c in read.components ==>
          || c in {"@method", "@target-uri", "@authority", "@path", "@query", "@scheme"}
          || Lower(c) in r.headers)
    && ExtractSignatureBytes(signature, LabelOf(input).value).Some?
  }

  lemma PassesIffAcceptable(p: Platform, r: Request, body: string, now: int)
    ensures Checked(p, r, body, now).Some? <==> Acceptable(p, r, body, now)
  {
    hide Lower, LabelOf, ParseSignatureInput, ExtractSignatureBytes, Base64.Encode, SignatureBase, Upper, WithoutColon;
    HeaderNames();
  }

  /** `verifySignatureRFC9421` */
  method VerifySignature(p: Platform, r: Request, body: string, now: int) returns (valid: bool)
    ensures valid <==> Checked(p, r, body, now).Some?
                       && p.check(Checked(p, r, body, now).value.0, Checked(p, r, body, now).value.1)
    ensures valid ==> Acceptable(p, r, body, now)
  {
    PassesIffAcceptable(p, r, body, now);
    hide Acceptable, LabelOf, ParseSignatureInput, ComponentValues, ExtractSignatureBytes, SignatureBase, Header, Fresh;
    var input, signature := Header(r, "signature-input"), Header(r, "signature");
    if input.None? || signature.None? || input.value == "" || signature.value == "" { return false; }
    var name := LabelOf(input.value);
    if name.None? { return false; }
    var parsed := ParseInput(input.value, name.value);
    if parsed.None? || parsed.value.components == [] { return false; }
    var components := parsed.value.components;
    if !Fresh(parsed.value.created, now) { return false; }
    if "content-digest" in components {
      var header := Header(r, "content-digest");
      if header.None? || header.value == "" { return false; }
      if header.value != ContentDigest(p, body) { return false; }
    }
    if p.parse(r.url).None? { return false; }
    var values := ResolveComponents(r, p.parse(r.url).value, components);
    if values.None? { return false; }
    AllResolved(r, p.parse(r.url).value, components);
    var base := BuildSignatureBase(components, values.value, parsed.value.params);
    var bytes := ExtractSignatureBytes(signature.value, name.value);
    if bytes.None? { return false; }
    valid := p.check(bytes.value, base.value);
  }

  lemma AllResolved(r: Request, parsed: Url, components: seq<string>)
    ensures var values := ComponentValues(r, parsed, components);
            values.Some? ==> forall c :: c in components ==> c in values.value
  {
  }

  // ---------------------------------------------------------------- a signed request is checked against what was signed

  /** The signed request as the other side receives it, addressed by the serialised URL. */
  function Delivered(verb: string, href: string, h: Headers): Request {
    Request(verb, href,
            map["host" := h.host, "signature-input" := h.signatureInput, "signature" := h.signature]
            + (if h.contentDigest.Some? then map["content-digest" := h.contentDigest.value] else map[])
            + (if h.contentType.Some? then map["content-type" := h.contentType.value] else map[]))
  }

  /** Serialised URLs parse to themselves and hold no line break. */
  ghost predicate Serialises(p: Platform, url: string) {
    p.parse(url).Some?
    && var parsed := p.parse(url).value; p.parse(parsed.href) == Some(parsed) && '\n' !in parsed.href
  }

  lemma HeaderNames()
    ensures Lower("signature-input") == "signature-input" && Lower("signature") == "signature"
    ensures Lower("content-digest") == "content-digest" && Lower("content-type") == "content-type"
  {
  }

  lemma SignedNamesArePlain(withBody: bool)
    ensures PlainNames(SignedComponents(withBody)) && SignedComponents(withBody) != []
  {
  }

  lemma DeliveredHeaders(verb: string, href: string, h: Headers)
    ensures var r := Delivered(verb, href, h);
            && r.verb == verb && r.url == href
            && Header(r, "signature-input") == Some(h.signatureInput)
            && Header(r, "signature") == Some(h.signature)
            && Header(r, "content-digest") == h.contentDigest
            && Header(r, "content-type") == h.contentType
  {
    hide Lower;
    HeaderNames();
  }

  /** The verifier gives the components the values the signer would have given them for the serialised URL. */
  lemma SameValues(p: Platform, keyId: string, url: string, verb: string, body: string, created: nat)
    requires p.parse(url).Some?
    ensures var parsed, digest := p.parse(url).value, DigestOf(p, body);
            var r := Delivered(verb, parsed.href, SignedHeaders(p, keyId, url, verb, body, created));
            ComponentValues(r, parsed, SignedComponents(digest.Some?))
            == Some(SignedValues(parsed.host, parsed.href, verb, digest))
  {
    hide SignatureParams, SignedBase, SignatureField, ContentDigest, Delivered, Header, Upper, Lower, WithoutColon;
    var parsed, digest := p.parse(url).value, DigestOf(p, body);
    var h := SignedHeaders(p, keyId, url, verb, body, created);
    var r := Delivered(verb, parsed.href, h);
    DeliveredHeaders(verb, parsed.href, h);
    var components, values := SignedComponents(digest.Some?), SignedValues(parsed.host, parsed.href, verb, digest);
    assert values.Keys == set c | c in components;
    assert h.contentDigest == digest && (digest.Some? ==> h.contentType == Some(JSON_TYPE));
    hide SignedHeaders;
    forall c | c in components ensures ComponentValue(r, parsed, c) == Some(values[c]) {}
    hide ComponentValue, SignedComponents, SignedValues;
    assert (map c | c in components :: ComponentValue(r, parsed, c).value) == values;
  }

  // ---------------------------------------------------------------- texts that differ

  /** The lines with a line break after each. */
  function Ended(lines: seq<string>): string {
    if lines == [] then "" else lines[0] + "\n" + Ended(lines[1..])
  }

  lemma {:induction false} JoinEndsLines(lines: seq<string>, last: string)
    ensures JoinLines(lines + [last]) == Ended(lines) + last
  {
    if lines == [] {
      assert [] + [last] == [last];
    } else {
      assert (lines + [last])[1..] == lines[1..] + [last];
      JoinEndsLines(lines[1..], last);
      assert lines[0] + ("\n" + (Ended(lines[1..]) + last)) == lines[0] + "\n" + Ended(lines[1..]) + last;
    }
  }

  /** The lines of the host and of the digest, if there is one. */
  function LaterLines(host: string, digest: Option<string>): seq<string> {
    [Line("@authority", host)]
    + if digest.Some? then [Line("content-digest", digest.value), Line("content-type", JSON_TYPE)] else []
  }

  function BeforeUrl(verb: string): string {
    Line("@method", Upper(verb)) + "\n" + Line("@target-uri", "")
  }

  /** What stands between the URL and the parameters in the signed text. */
  function AfterUrl(host: string, digest: Option<string>): string {
    "\n" + Ended(LaterLines(host, digest)) + Line("@signature-params", "")
  }

  lemma SignedLines(host: string, url: string, verb: string, digest: Option<string>)
    ensures LinesOf(SignedComponents(digest.Some?), SignedValues(host, url, verb, digest))
            == [Line("@method", Upper(verb))] + ([Line("@target-uri", url)] + LaterLines(host, digest))
  {
    hide Upper, Line;
  }

  lemma EndedPrefix(m: string, u: string, later: seq<string>)
    ensures Ended([m] + ([u] + later)) == m + "\n" + (u + "\n" + Ended(later))
  {
    assert ([m] + ([u] + later))[1..] == [u] + later;
    assert ([u] + later)[1..] == later;
  }

  /** The signed text around its two parts that can come back changed. */
  lemma BaseShape(host: string, url: string, verb: string, digest: Option<string>, params: string)
    ensures SignatureBase(SignedComponents(digest.Some?), SignedValues(host, url, verb, digest), params)
            == BeforeUrl(verb) + url + AfterUrl(host, digest) + params
  {
    var m, u, p := Line("@method", Upper(verb)), Line("@target-uri", url), Line("@signature-params", params);
    var later := LaterLines(host, digest);
    SignedLines(host, url, verb, digest);
    JoinEndsLines([m] + ([u] + later), p);
    EndedPrefix(m, u, later);
    Regroup(m, Line("@target-uri", ""), url, Ended(later), Line("@signature-params", ""), params);
    assert u == Line("@target-uri", "") + url && p == Line("@signature-params", "") + params;
    hide SignedComponents, SignedValues, LinesOf, LaterLines, Line, Ended, Upper, JoinLines;
  }

  lemma Regroup(m: string, t: string, url: string, later: string, s: string, params: string)
    ensures m + "\n" + (t + url + "\n" + later) + (s + params) == (m + "\n" + t) + url + ("\n" + later + s) + params
  {
    var mt := m + "\n" + t;
    assert m + "\n" + (t + url + "\n" + later) == mt + url + ("\n" + later);
  }

  /** The parameters, written out: section 2.5 of RFC 9421, with the parameters in the order they are given there. */
  lemma ParametersSpelled(components: seq<string>, created: nat, keyId: string, c: string, d: string)
    ensures SignatureParams(components, created, keyId)
            == "(" + ComponentList(components) + ")" + ";created=" + Decimal(created)
               + ";keyid=" + "\"" + keyId + "\"" + ";alg=" + "\"" + "rsa-v1_5-sha256" + "\""
    ensures ComponentList([c]) == "\"" + c + "\""
    ensures ComponentList([c, d]) == "\"" + c + "\"" + " " + "\"" + d + "\""
  {
    hide Decimal;
    assert ALGORITHM == "\"" + ";alg=" + "\"" + "rsa-v1_5-sha256" + "\"";
    assert [c, d][1..] == [d];
  }

  /** The headers of a signed request with a body, written out. */
  lemma HeadersSpelled(p: Platform, keyId: string, url: string, verb: string, body: string, created: nat)
    requires p.parse(url).Some? && body != ""
    ensures
      var h := SignedHeaders(p, keyId, url, verb, body, created);
      && h.host == p.parse(url).value.host
      && h.contentDigest == Some("sha-256=:" + Base64.Encode(p.sha256(body)) + ":")
      && h.contentType == Some("application/activity+json")
      && h.signatureInput == "sig1=" + SignatureParams(SignedComponents(true), created, keyId)
      && h.signature == "sig1=:" + Base64.Encode(p.sign(SignedBase(h.host, url, verb, h.contentDigest, created, keyId))) + ":"
  {
    hide SignatureParams, SignedBase, Base64.Encode;
    assert JSON_TYPE == "application/activity+json";
  }

  /**
   * The signed text, written out line by line: each component in quotes, a colon, a space, its value and a line break,
   * and last, without one, the parameters (section 2.5 of RFC 9421).
   */
  lemma BaseSpelled(components: seq<string>, values: map<string, string>, params: string)
    requires forall c :: c in components ==> c in values
    ensures SignatureBase(components, values, params)
            == if components == [] then "\"" + "@signature-params" + "\"" + ": " + params
               else "\"" + components[0] + "\"" + ": " + values[components[0]] + "\n"
                    + SignatureBase(components[1..], values, params)
  {
    var last := Line("@signature-params", params);
    var lines := LinesOf(components, values) + [last];
    assert last == "\"" + "@signature-params" + "\"" + ": " + params;
    if components != [] {
      assert lines[1..] == LinesOf(components[1..], values) + [last];
      assert lines[0] == "\"" + components[0] + "\"" + ": " + values[components[0]];
    }
  }

  /** What the verifier takes the derived components to be (section 2.2 of RFC 9421). */
  lemma DerivedSpelled(r: Request, parsed: Url, scheme: string)
    requires ':' !in scheme && parsed.protocol == scheme + ":"
    ensures ComponentValue(r, parsed, "@path") == Some(parsed.pathname)
    ensures ComponentValue(r, parsed, "@query") == Some(if parsed.search == "" then "?" else parsed.search)
    ensures ComponentValue(r, parsed, "@scheme") == Some(scheme)
    ensures ComponentValue(r, parsed, "@method") == Some(Upper(r.verb))
    ensures ComponentValue(r, parsed, "@target-uri") == Some(r.url) && ComponentValue(r, parsed, "@authority") == Some(parsed.host)
  {
    hide IndexOf, Upper;
    IndexOfFirst(scheme, ':', "");
    var protocol := scheme + ":";
    assert scheme + [':'] + "" == protocol && [':'] == ":";
    assert protocol[..|scheme|] == scheme && protocol[|scheme| + 1..] == "";
    assert WithoutColon(protocol) == scheme + "" == scheme;
    assert "@scheme"[1] != "@method"[1];
  }

  /** A received URL without line breaks and parameters no longer than those signed give the signed text only if both are those signed. */
  lemma TextsDiffer(before: string, url: string, href: string, after: string, params: string, read: string)
    requires '\n' !in href && "\n" <= after && (read == params || |read| < |params|)
    ensures before + href + after + read == before + url + after + params <==> href == url && read == params
  {
    var s, t := before + url + after + params, before + href + after + read;
    if |url| < |href| {
      assert s[|before| + |url|] == after[0] == '\n';
      assert t[|before| + |url|] == href[|url|] != '\n';
    } else {
      assert s[|before|..|before| + |url|] == url;
      assert t[|before|..|before| + |href|] == href;
      assert |url| == |href| ==> s[|before| + |url| + |after|..] == params && t[|before| + |url| + |after|..] == read;
    }
  }

  // ---------------------------------------------------------------- the round trip

  /** What the verifier reads and rebuilds of a delivered request. */
  lemma VerifierChecks(p: Platform, keyId: string, url: string, verb: string, body: string, created: nat, now: int)
    requires Serialises(p, url) && Fresh(Some(created), now)
    ensures var parsed, digest := p.parse(url).value, DigestOf(p, body);
            var components := SignedComponents(digest.Some?);
            var read := ParseSignatureInput("sig1=" + SignatureParams(components, created, keyId), "sig1");
            var r := Delivered(verb, parsed.href, SignedHeaders(p, keyId, url, verb, body, created));
            && read.Some?
            && Checked(p, r, body, now)
               == Some((p.sign(SignedBase(parsed.host, url, verb, digest, created, keyId)),
                        SignatureBase(components, SignedValues(parsed.host, parsed.href, verb, digest), read.value.params)))
  {
    hide Fresh, SignatureField, SignatureBase, SignatureParams, LabelOf, ParseSignatureInput, ExtractSignatureBytes;
    hide ComponentValues, PlainNames, ContentDigest, Delivered, Header;
    var parsed, digest := p.parse(url).value, DigestOf(p, body);
    var components := SignedComponents(digest.Some?);
    var params := SignatureParams(components, created, keyId);
    var h := SignedHeaders(p, keyId, url, verb, body, created);
    var r := Delivered(verb, parsed.href, h);
    DeliveredHeaders(verb, parsed.href, h);
    SignedNamesArePlain(digest.Some?);
    LabelReadsBack(params);
    InputReadsBack(components, created, keyId);
    SignatureReadsBack(p.sign(SignedBase(parsed.host, url, verb, digest, created, keyId)));
    SameValues(p, keyId, url, verb, body, created);
    FieldNotEmpty(p.sign(SignedBase(parsed.host, url, verb, digest, created, keyId)));
    assert DigestMatches(p, r, components, body);
  }

  /**
   * The round trip. A fresh request reaches the key check with the very bytes that were signed, and with the very
   * text that was signed exactly when the key id holds no comma and the URL was signed in its serialised form.
   */
  lemma VerifierRebuildsSignedText(p: Platform, keyId: string, url: string, verb: string, body: string, created: nat, now: int)
    requires Serialises(p, url) && Fresh(Some(created), now)
    ensures var parsed := p.parse(url).value;
            var signed := SignedBase(parsed.host, url, verb, DigestOf(p, body), created, keyId);
            var r := Delivered(verb, parsed.href, SignedHeaders(p, keyId, url, verb, body, created));
            && Checked(p, r, body, now).Some?
            && Checked(p, r, body, now).value.0 == p.sign(signed)
            && (Checked(p, r, body, now).value.1 == signed <==> ',' !in keyId && parsed.href == url)
  {
    hide Fresh, SignatureBase, SignatureParams, ParseSignatureInput, Checked, SignedHeaders, Delivered, AfterUrl, BeforeUrl;
    hide SignedComponents, SignedValues;
    var parsed, digest := p.parse(url).value, DigestOf(p, body);
    var components := SignedComponents(digest.Some?);
    var params := SignatureParams(components, created, keyId);
    SignedNamesArePlain(digest.Some?);
    VerifierChecks(p, keyId, url, verb, body, created, now);
    InputReadsBack(components, created, keyId);
    ReadParamsShorter(components, created, keyId);
    var read := ParseSignatureInput("sig1=" + params, "sig1").value.params;
    BaseShape(parsed.host, url, verb, digest, params);
    BaseShape(parsed.host, parsed.href, verb, digest, read);
    AfterUrlStartsLine(parsed.host, digest);
    TextsDiffer(BeforeUrl(verb), url, parsed.href, AfterUrl(parsed.host, digest), params, read);
  }

  lemma DigestsDiffer(p: Platform, body: string, other: string)
    ensures ContentDigest(p, body) == ContentDigest(p, other) <==> p.sha256(body) == p.sha256(other)
  {
    hide Base64.Encode, Base64.Decode;
    var x, y := Base64.Encode(p.sha256(body)), Base64.Encode(p.sha256(other));
    var prefix := "sha-256=:";
    assert ContentDigest(p, body) == prefix + (x + ":") && ContentDigest(p, other) == prefix + (y + ":");
    assert (prefix + (x + ":"))[|prefix|..] == x + ":" && (prefix + (y + ":"))[|prefix|..] == y + ":";
    assert (x + ":")[..|x|] == x && (y + ":")[..|y|] == y;
    Base64.DecodeEncoded(p.sha256(body));
    Base64.DecodeEncoded(p.sha256(other));
  }

  /**
   * A signed request delivered under any URL, with any body: it is refused when the body's hash is not the one signed,
   * and when it was signed more than five minutes before or after.
   */
  lemma TamperedOrStaleRefused(
      p: Platform, keyId: string, url: string, href: string, verb: string, body: string, received: string, created: nat, now: int)
    requires p.parse(url).Some?
    requires (body != "" && p.sha256(received) != p.sha256(body)) || !(now - 300_000 <= 1000 * created <= now + 300_000)
    ensures Checked(p, Delivered(verb, href, SignedHeaders(p, keyId, url, verb, body, created)), received, now).None?
  {
    DigestsDiffer(p, body, received);
    hide SignatureBase, SignatureParams, LabelOf, ParseSignatureInput, ExtractSignatureBytes, SignatureField;
    hide ComponentValues, PlainNames, ContentDigest, Delivered, Header;
    var components := SignedComponents(body != "");
    var h := SignedHeaders(p, keyId, url, verb, body, created);
    DeliveredHeaders(verb, href, h);
    SignedNamesArePlain(body != "");
    LabelReadsBack(SignatureParams(components, created, keyId));
    InputReadsBack(components, created, keyId);
    assert body != "" ==> "content-digest" in components;
  }

  /** Delivered under its serialised URL, it is refused in no other case. */
  lemma DeliveredPassesExactlyWhen(
      p: Platform, keyId: string, url: string, verb: string, body: string, received: string, created: nat, now: int)
    requires Serialises(p, url)
    ensures Checked(p, Delivered(verb, p.parse(url).value.href, SignedHeaders(p, keyId, url, verb, body, created)), received, now).Some?
            <==> now - 300_000 <= 1000 * created <= now + 300_000 && (body == "" || p.sha256(received) == p.sha256(body))
  {
    var h := SignedHeaders(p, keyId, url, verb, body, created);
    var href := p.parse(url).value.href;
    if now - 300_000 <= 1000 * created <= now + 300_000 && (body == "" || p.sha256(received) == p.sha256(body)) {
      VerifierChecks(p, keyId, url, verb, body, created, now);
      DigestsDiffer(p, body, received);
      SameDigestSameCheck(p, keyId, url, verb, body, received, created, now);
    } else {
      TamperedOrStaleRefused(p, keyId, url, href, verb, body, received, created, now);
    }
  }

  lemma SameDigestSameCheck(
      p: Platform, keyId: string, url: string, verb: string, body: string, received: string, created: nat, now: int)
    requires p.parse(url).Some?
    requires body == "" || ContentDigest(p, received) == ContentDigest(p, body)
    ensures var r := Delivered(verb, p.parse(url).value.href, SignedHeaders(p, keyId, url, verb, body, created));
            Checked(p, r, received, now) == Checked(p, r, body, now)
  {
    hide SignatureBase, SignatureParams, LabelOf, ParseSignatureInput, ExtractSignatureBytes, SignatureField;
    hide ComponentValues, PlainNames, ContentDigest, Delivered, Header, Fresh;
    var components := SignedComponents(body != "");
    DeliveredHeaders(verb, p.parse(url).value.href, SignedHeaders(p, keyId, url, verb, body, created));
    SignedNamesArePlain(body != "");
    LabelReadsBack(SignatureParams(components, created, keyId));
    InputReadsBack(components, created, keyId);
    assert body == "" ==> "content-digest" !in components;
  }

  const EXAMPLE_URL := Url("https://b.io/", "b.io", "/", "", "https:")
  const EXAMPLE_PLATFORM :=
    Platform((url: string) => Some(EXAMPLE_URL), (text: string) => [], (text: string) => [], (bytes: seq<Byte>, text: string) => true)

  /** Two requests whose text comes back changed: a host written with a capital, and a key id with a comma. */
  lemma TextsThatChange()
    ensures
      var p, capital, plain := EXAMPLE_PLATFORM, "https://B.io/", "https://b.io/";
      var r, r' := Delivered("POST", plain, SignedHeaders(p, "k", capital, "POST", "", 0)),
                   Delivered("POST", plain, SignedHeaders(p, "k,1", plain, "POST", "", 0));
      && Serialises(p, capital) && Serialises(p, plain)
      && Checked(p, r, "", 0).Some? && Checked(p, r, "", 0).value.1 != SignedBase("b.io", capital, "POST", None, 0, "k")
      && Checked(p, r', "", 0).Some? && Checked(p, r', "", 0).value.1 != SignedBase("b.io", plain, "POST", None, 0, "k,1")
  {
    hide Checked, SignedBase, SignedHeaders, Delivered;
    var capital, plain := "https://B.io/", "https://b.io/";
    assert capital[8] != plain[8];
    assert "k,1"[1] == ',';
    VerifierRebuildsSignedText(EXAMPLE_PLATFORM, "k", capital, "POST", "", 0, 0);
    VerifierRebuildsSignedText(EXAMPLE_PLATFORM, "k,1", plain, "POST", "", 0, 0);
  }

  lemma AfterUrlStartsLine(host: string, digest: Option<string>)
    ensures "\n" <= AfterUrl(host, digest)
  {
  }

  lemma FieldNotEmpty(bytes: seq<Byte>)
    ensures SignatureField(bytes) != ""
  {
  }
}
