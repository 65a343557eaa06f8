/** The HTTP Digest client: from a 401 challenge to an Authorization header, and
    the server's side of the same exchange.  The hash and the random cnonce are
    parameters. */
module Digest {
  import opened Basics
  import opened GoStrings
  import opened DigestParams

  datatype Error = NotDigest | Incomplete | UnsupportedAlgorithm(name: string) | NoRandomness

  datatype Result<+T> = Ok(value: T) | Err(error: Error)

  /** The lower-case hexadecimal digest of a text under a named algorithm. */
  type Hash = (string, string) -> string

  predicate IsHex(s: string) {
    s != "" && forall i :: 0 <= i < |s| ==> '0' <= s[i] <= '9' || 'a' <= s[i] <= 'f'
  }

  ghost predicate HexHash(h: Hash) {
    forall algorithm, text :: IsHex(h(algorithm, text))
  }

  datatype Request = Request(verb: string, uri: string)

  datatype Credentials = Credentials(username: string, password: string)

  // ------------------------------------------------------------------- client

  const NC := "00000001"

  function Get(values: map<string, string>, key: string): string {
    if key in values then values[key] else ""
  }

  /** Whether trimming and lower-casing would leave "digest " in front.  The dotted
      capital I (two bytes) is the only other character that lower-cases into it. */
  predicate OffersDigest(challenge: string): (r: bool)
    ensures r ==> |challenge| >= 7
  {
    var t := TrimSpace(challenge);
    var n := if |t| >= 3 && t[1] == '\U{C4}' && t[2] == '\U{B0}' then 3 else 2;
    && |t| >= n + 5
    && LowerChar(t[0]) == 'd' && (n == 3 || LowerChar(t[1]) == 'i')
    && LowerChar(t[n]) == 'g' && LowerChar(t[n + 1]) == 'e' && LowerChar(t[n + 2]) == 's' && LowerChar(t[n + 3]) == 't'
    && t[n + 4] == ' '
  }

  /** For an ASCII challenge this is the prefix test on the trimmed, lower-cased text. */
  lemma OffersDigestIsPrefixTest(f: Fold, challenge: string)
    requires Ascii(TrimSpace(challenge))
    ensures OffersDigest(challenge) <==> StartsWith(ToLower(f, TrimSpace(challenge)), "digest ")
  {
    var t := TrimSpace(challenge);
    var lower := ToLower(f, t);
    if |t| >= 7 {
      assert AsciiChar(t[1]) && AsciiChar(t[6]);
      assert LowerChar(t[6]) == ' ' <==> t[6] == ' ';
      assert lower[..7] == [LowerChar(t[0]), LowerChar(t[1]), LowerChar(t[2]), LowerChar(t[3]), LowerChar(t[4]),
                            LowerChar(t[5]), LowerChar(t[6])];
    }
  }

  ghost predicate Lists(candidates: seq<string>, qop: string) {
    exists i :: 0 <= i < |candidates| && TrimSpace(candidates[i]) == qop
  }

  /** The one quality of protection the client supports, if the challenge lists it. */
  function SelectQop(value: string): (qop: string)
    ensures qop == "auth" || qop == ""
    ensures qop == "auth" <==> Lists(Split(value, ','), "auth")
  {
    FirstAuth(Split(value, ','))
  }

  function FirstAuth(candidates: seq<string>): (qop: string)
    ensures qop == "auth" || qop == ""
    ensures qop == "auth" <==> Lists(candidates, "auth")
  {
    if candidates == [] then ""
    else if TrimSpace(candidates[0]) == "auth" then "auth"
    else
      var rest := FirstAuth(candidates[1..]);
      assert forall i :: 0 < i < |candidates| ==> candidates[i] == candidates[1..][i - 1];
      rest
  }

  /** What a challenge settles: the fields to answer with. */
  datatype Terms = Terms(realm: string, nonce: string, opaqueValue: string, algorithm: string, qop: string)

  function TermsOf(f: Fold, values: map<string, string>): Result<Terms> {
    var realm, nonce := Get(values, "realm"), Get(values, "nonce");
    if realm == "" || nonce == "" then Err(Incomplete)
    else
      var named := ToUpper(f, Get(values, "algorithm"));
      var algorithm := if named == "" then "MD5" else named;
      if algorithm != "MD5" && algorithm != "SHA-256" then Err(UnsupportedAlgorithm(algorithm))
      else Ok(Terms(realm, nonce, Get(values, "opaque"), algorithm, SelectQop(Get(values, "qop"))))
  }

  function ReadChallenge(f: Fold, challenge: string): Result<Terms> {
    if !OffersDigest(challenge) then Err(NotDigest)
    else TermsOf(f, ReadParams(f, TrimSpace(challenge[7..]), map[]))
  }

  function Colons(parts: seq<string>): string {
    Join(parts, ":")
  }

  function Response(h: Hash, t: Terms, request: Request, who: Credentials, cnonce: string): string {
    var ha1 := h(t.algorithm, who.username + ":" + t.realm + ":" + who.password);
    var ha2 := h(t.algorithm, request.verb + ":" + request.uri);
    if t.qop == "" then h(t.algorithm, ha1 + ":" + t.nonce + ":" + ha2)
    else h(t.algorithm, Colons([ha1, t.nonce, NC, cnonce, t.qop, ha2]))
  }

  function Identity(t: Terms, request: Request, who: Credentials): seq<Param> {
    [Quoted("username", who.username), Quoted("realm", t.realm), Quoted("nonce", t.nonce), Quoted("uri", request.uri)]
  }

  function Opaque(t: Terms): seq<Param> {
    if t.opaqueValue == "" then [] else [Quoted("opaque", t.opaqueValue)]
  }

  /** The parameters that come only with a quality of protection. */
  function Session(t: Terms, cnonce: string): seq<Param> {
    if t.qop == "" then [] else [Token("qop", t.qop), Token("nc", NC), Verbatim("cnonce", cnonce)]
  }

  function Proof(h: Hash, t: Terms, request: Request, who: Credentials, cnonce: string): seq<Param> {
    [Verbatim("response", Response(h, t, request, who, cnonce)), Token("algorithm", t.algorithm)] + Session(t, cnonce)
  }

  /** The parameters of the answer, in the order they are sent. */
  function Answer(h: Hash, t: Terms, request: Request, who: Credentials, cnonce: string): seq<Param> {
    Identity(t, request, who) + Opaque(t) + Proof(h, t, request, who, cnonce)
  }

  /** The header for a challenge; a missing cnonce is a failure of the random source. */
  function Authorize(f: Fold, h: Hash, challenge: string, request: Request, who: Credentials,
                     cnonce: Option<string>): Result<string> {
    match ReadChallenge(f, challenge)
    case Err(e) => Err(e)
    case Ok(t) =>
      if t.qop != "" && cnonce.None? then Err(NoRandomness)
      else Ok("Digest " + Render(Answer(h, t, request, who, if cnonce.Some? then cnonce.value else "")))
  }

  function Texts(ps: seq<Param>): seq<string> {
    if ps == [] then [] else [Text(ps[0])] + Texts(ps[1..])
  }

  lemma JoinCons(first: string, rest: seq<string>, sep: string)
    ensures Join([first] + rest, sep) == if rest == [] then first else first + sep + Join(rest, sep)
  {
    assert ([first] + rest)[1..] == rest;
  }

  lemma {:induction false} JoinIsRender(ps: seq<Param>)
    ensures Join(Texts(ps), ", ") == Render(ps)
  {
    if ps != [] {
      var rest := ps[1..];
      JoinIsRender(rest);
      JoinCons(Text(ps[0]), Texts(rest), ", ");
    }
  }

  /** Appends the parts of the answer one by one. */
  method CollectParts(h: Hash, t: Terms, request: Request, who: Credentials, cnonce: string) returns (parts: seq<Param>)
    ensures parts == Answer(h, t, request, who, cnonce)
  {
    parts := [Quoted("username", who.username), Quoted("realm", t.realm), Quoted("nonce", t.nonce),
              Quoted("uri", request.uri)];
    if t.opaqueValue != "" {
      parts := parts + [Quoted("opaque", t.opaqueValue)];
    }
    ghost var before := parts;
    assert before == Identity(t, request, who) + Opaque(t);
    parts := parts + [Verbatim("response", Response(h, t, request, who, cnonce)), Token("algorithm", t.algorithm)];
    if t.qop != "" {
      parts := parts + [Token("qop", t.qop), Token("nc", NC), Verbatim("cnonce", cnonce)];
    }
    assert parts == before + Proof(h, t, request, who, cnonce);
  }

  /** Reads the challenge and answers it. */
  method DigestAuthorization(f: Fold, h: Hash, challenge: string, request: Request, who: Credentials,
                             cnonce: Option<string>)
    returns (r: Result<string>)
    ensures r == Authorize(f, h, challenge, request, who, cnonce)
  {
    if !OffersDigest(challenge) {
      return Err(NotDigest);
    }
    var values := ParseDigestValues(f, TrimSpace(challenge[7..]));
    var terms := TermsOf(f, values);
    if terms.Err? {
      return Err(terms.error);
    }
    if terms.value.qop != "" && cnonce.None? {
      return Err(NoRandomness);
    }
    var parts := CollectParts(h, terms.value, request, who, if cnonce.Some? then cnonce.value else "");
    JoinIsRender(parts);
    r := Ok("Digest " + Join(Texts(parts), ", "));
  }

  // ------------------------------------------------------------------- server

  /** KD of section 3.4.1 of RFC 7616. */
  function KD(h: Hash, algorithm: string, secret: string, data: string): string {
    h(algorithm, secret + ":" + data)
  }

  /** The digest a server computes under the algorithm of its own challenge, from the
      fields it received and the password it knows: section 3.4.1 of RFC 7616 with a
      quality of protection, and section 3.2.2.1 of RFC 2617 without one. */
  function Expected(h: Hash, algorithm: string, values: map<string, string>, verb: string, password: string): string {
    var a1 := Get(values, "username") + ":" + Get(values, "realm") + ":" + password;
    var a2 := verb + ":" + Get(values, "uri");
    if Get(values, "qop") == "" then
      KD(h, algorithm, h(algorithm, a1), Get(values, "nonce") + ":" + h(algorithm, a2))
    else
      KD(h, algorithm, h(algorithm, a1),
         Get(values, "nonce") + ":" + Get(values, "nc") + ":" + Get(values, "cnonce") + ":"
         + Get(values, "qop") + ":" + h(algorithm, a2))
  }

  lemma {:induction false} LastWinsConcat(a: seq<Param>, b: seq<Param>, values: map<string, string>)
    ensures LastWins(a + b, values) == LastWins(b, LastWins(a, values))
  {
    if a == [] {
      assert a + b == b;
    } else {
      assert (a + b)[1..] == a[1..] + b;
      LastWinsConcat(a[1..], b, values[a[0].key := ValueOf(a[0])]);
    }
  }

  function Put(values: map<string, string>, p: Param): map<string, string> {
    values[p.key := ValueOf(p)]
  }

  lemma LastWinsOne(p: Param, values: map<string, string>)
    ensures LastWins([p], values) == Put(values, p)
  {
    assert [p][1..] == [];
  }

  lemma LastWinsTwo(p: Param, q: Param, values: map<string, string>)
    ensures LastWins([p, q], values) == Put(Put(values, p), q)
  {
    assert [p, q] == [p] + [q];
    LastWinsConcat([p], [q], values);
    LastWinsOne(p, values);
    LastWinsOne(q, Put(values, p));
  }

  lemma LastWinsThree(p: Param, q: Param, r: Param, values: map<string, string>)
    ensures LastWins([p, q, r], values) == Put(Put(Put(values, p), q), r)
  {
    assert [p, q, r] == [p, q] + [r];
    LastWinsConcat([p, q], [r], values);
    LastWinsTwo(p, q, values);
    LastWinsOne(r, Put(Put(values, p), q));
  }

  lemma LastWinsFour(p: Param, q: Param, r: Param, s: Param, values: map<string, string>)
    ensures LastWins([p, q, r, s], values) == Put(Put(Put(Put(values, p), q), r), s)
  {
    assert [p, q, r, s] == [p, q] + [r, s];
    LastWinsConcat([p, q], [r, s], values);
    LastWinsTwo(p, q, values);
    LastWinsTwo(r, s, Put(Put(values, p), q));
  }

  /** What the reader gives a server for an answer. */
  function Received(f: Fold, header: string): map<string, string>
    requires |header| >= 7
  {
    ReadParams(f, header[7..], map[])
  }

  lemma IdentityRead(t: Terms, request: Request, who: Credentials, values: map<string, string>)
    ensures
      var v := LastWins(Identity(t, request, who), values);
      && Get(v, "username") == Reencode(who.username) && Get(v, "realm") == Reencode(t.realm)
      && Get(v, "nonce") == Reencode(t.nonce) && Get(v, "uri") == Reencode(request.uri)
      && forall key :: key != "username" && key != "realm" && key != "nonce" && key != "uri"
          ==> Get(v, key) == Get(values, key)
  {
    LastWinsFour(Quoted("username", who.username), Quoted("realm", t.realm), Quoted("nonce", t.nonce),
                 Quoted("uri", request.uri), values);
  }

  lemma OpaqueRead(t: Terms, values: map<string, string>)
    ensures
      var v := LastWins(Opaque(t), values);
      && Get(v, "opaque") == (if t.opaqueValue == "" then Get(values, "opaque") else Reencode(t.opaqueValue))
      && forall key :: key != "opaque" ==> Get(v, key) == Get(values, key)
  {
    LastWinsOne(Quoted("opaque", t.opaqueValue), values);
  }

  lemma SessionRead(t: Terms, cnonce: string, values: map<string, string>)
    requires t.qop != ""
    ensures
      var v := LastWins(Session(t, cnonce), values);
      && Get(v, "qop") == t.qop && Get(v, "nc") == "00000001" && Get(v, "cnonce") == Reencode(cnonce)
      && forall key :: key != "qop" && key != "nc" && key != "cnonce" ==> Get(v, key) == Get(values, key)
  {
    LastWinsThree(Token("qop", t.qop), Token("nc", NC), Verbatim("cnonce", cnonce), values);
  }

  lemma SealRead(response: string, algorithm: string, values: map<string, string>)
    ensures
      var v := LastWins([Verbatim("response", response), Token("algorithm", algorithm)], values);
      && Get(v, "response") == Reencode(response) && Get(v, "algorithm") == algorithm
      && forall key :: key != "response" && key != "algorithm" ==> Get(v, key) == Get(values, key)
  {
    LastWinsTwo(Verbatim("response", response), Token("algorithm", algorithm), values);
  }

  /** The fields of an answer, as a server finds them. */
  ghost predicate Carries(v: map<string, string>, t: Terms, request: Request, who: Credentials, response: string,
                          cnonce: string) {
    && Get(v, "username") == Reencode(who.username) && Get(v, "realm") == Reencode(t.realm)
    && Get(v, "nonce") == Reencode(t.nonce) && Get(v, "uri") == Reencode(request.uri)
    && Get(v, "opaque") == Reencode(t.opaqueValue)
    && Get(v, "response") == Reencode(response) && Get(v, "algorithm") == t.algorithm
    && Get(v, "qop") == t.qop
    && (t.qop != "" ==> Get(v, "nc") == "00000001" && Get(v, "cnonce") == Reencode(cnonce))
  }

  /** The fields before the digest, and those after the first of them. */
  lemma HeadRead(t: Terms, request: Request, who: Credentials)
    ensures
      var v := LastWins(Identity(t, request, who) + Opaque(t), map[]);
      && Get(v, "username") == Reencode(who.username) && Get(v, "realm") == Reencode(t.realm)
      && Get(v, "nonce") == Reencode(t.nonce) && Get(v, "uri") == Reencode(request.uri)
      && Get(v, "opaque") == Reencode(t.opaqueValue) && Get(v, "qop") == ""
  {
    LastWinsConcat(Identity(t, request, who), Opaque(t), map[]);
    IdentityRead(t, request, who, map[]);
    OpaqueRead(t, LastWins(Identity(t, request, who), map[]));
  }

  /** Nothing that comes before the digest is lost by what comes after it. */
  ghost predicate KeepsHead(v: map<string, string>, values: map<string, string>) {
    && Get(v, "username") == Get(values, "username") && Get(v, "realm") == Get(values, "realm")
    && Get(v, "nonce") == Get(values, "nonce") && Get(v, "uri") == Get(values, "uri")
    && Get(v, "opaque") == Get(values, "opaque")
  }

  lemma SealTail(response: string, algorithm: string, values: map<string, string>)
    requires Get(values, "qop") == ""
    ensures
      var v := LastWins([Verbatim("response", response), Token("algorithm", algorithm)], values);
      && Get(v, "response") == Reencode(response) && Get(v, "algorithm") == algorithm && Get(v, "qop") == ""
      && KeepsHead(v, values)
  {
    SealRead(response, algorithm, values);
  }

  lemma SessionTail(t: Terms, cnonce: string, values: map<string, string>)
    requires t.qop != ""
    ensures
      var v := LastWins(Session(t, cnonce), values);
      && Get(v, "qop") == t.qop && Get(v, "nc") == "00000001" && Get(v, "cnonce") == Reencode(cnonce)
      && Get(v, "response") == Get(values, "response") && Get(v, "algorithm") == Get(values, "algorithm")
      && KeepsHead(v, values)
  {
    SessionRead(t, cnonce, values);
  }

  lemma TailRead(response: string, t: Terms, cnonce: string, values: map<string, string>)
    requires Get(values, "qop") == ""
    ensures
      var v := LastWins([Verbatim("response", response), Token("algorithm", t.algorithm)] + Session(t, cnonce), values);
      && Get(v, "response") == Reencode(response) && Get(v, "algorithm") == t.algorithm && Get(v, "qop") == t.qop
      && (t.qop != "" ==> Get(v, "nc") == "00000001" && Get(v, "cnonce") == Reencode(cnonce))
      && KeepsHead(v, values)
  {
    var seal := [Verbatim("response", response), Token("algorithm", t.algorithm)];
    LastWinsConcat(seal, Session(t, cnonce), values);
    SealTail(response, t.algorithm, values);
    if t.qop != "" {
      SessionTail(t, cnonce, LastWins(seal, values));
    }
  }

  lemma AnswerRead(h: Hash, t: Terms, request: Request, who: Credentials, cnonce: string)
    ensures Carries(LastWins(Answer(h, t, request, who, cnonce), map[]), t, request, who,
                    Response(h, t, request, who, cnonce), cnonce)
  {
    var response := Response(h, t, request, who, cnonce);
    var head := Identity(t, request, who) + Opaque(t);
    LastWinsConcat(head, Proof(h, t, request, who, cnonce), map[]);
    HeadRead(t, request, who);
    TailRead(response, t, cnonce, LastWins(head, map[]));
  }

  // ------------------------------------------------------------ well-formedness

  lemma WellFormedConcat(a: seq<Param>, b: seq<Param>)
    requires AllWellFormed(a) && AllWellFormed(b)
    ensures AllWellFormed(a + b)
  {
  }

  lemma HexIsVerbatim(s: string)
    requires IsHex(s)
    ensures '"' !in s && '\\' !in s && Ascii(s)
  {
  }

  lemma IdentityKeys()
    ensures IsKey("username") && IsKey("realm") && IsKey("nonce") && IsKey("uri") && IsKey("opaque")
  {
  }

  lemma SealKeys()
    ensures IsKey("response") && IsKey("algorithm") && IsToken("MD5") && IsToken("SHA-256")
  {
  }

  lemma SessionKeys()
    ensures IsKey("qop") && IsKey("nc") && IsKey("cnonce") && IsToken("auth") && IsToken(NC)
  {
  }

  lemma IdentityWellFormed(t: Terms, request: Request, who: Credentials)
    ensures AllWellFormed(Identity(t, request, who)) && AllWellFormed(Opaque(t))
  {
    IdentityKeys();
  }

  lemma SealWellFormed(response: string, algorithm: string)
    requires IsHex(response)
    requires algorithm == "MD5" || algorithm == "SHA-256"
    ensures AllWellFormed([Verbatim("response", response), Token("algorithm", algorithm)])
  {
    HexIsVerbatim(response);
    SealKeys();
  }

  lemma SessionWellFormed(t: Terms, cnonce: string)
    requires t.qop == "" || (t.qop == "auth" && IsHex(cnonce))
    ensures AllWellFormed(Session(t, cnonce))
  {
    if t.qop != "" {
      HexIsVerbatim(cnonce);
      SessionKeys();
    }
  }

  /** Terms taken from a challenge name one of two algorithms and at most "auth". */
  ghost predicate Settled(t: Terms) {
    && (t.algorithm == "MD5" || t.algorithm == "SHA-256")
    && (t.qop == "" || t.qop == "auth")
  }

  lemma AnswerWellFormed(h: Hash, t: Terms, request: Request, who: Credentials, cnonce: string)
    requires HexHash(h) && Settled(t) && (t.qop != "" ==> IsHex(cnonce))
    ensures AllWellFormed(Answer(h, t, request, who, cnonce))
  {
    var response := Response(h, t, request, who, cnonce);
    var seal := [Verbatim("response", response), Token("algorithm", t.algorithm)];
    IdentityWellFormed(t, request, who);
    SealWellFormed(response, t.algorithm);
    SessionWellFormed(t, cnonce);
    WellFormedConcat(seal, Session(t, cnonce));
    WellFormedConcat(Identity(t, request, who), Opaque(t));
    WellFormedConcat(Identity(t, request, who) + Opaque(t), Proof(h, t, request, who, cnonce));
  }

  /** Whatever the fields hold, a server reading the header finds each of them,
      re-encoded byte by byte. */
  lemma HeaderCarries(f: Fold, h: Hash, t: Terms, request: Request, who: Credentials, cnonce: string)
    requires HexHash(h) && Settled(t) && (t.qop != "" ==> IsHex(cnonce))
    ensures
      var header := "Digest " + Render(Answer(h, t, request, who, cnonce));
      Carries(Received(f, header), t, request, who, Response(h, t, request, who, cnonce), cnonce)
  {
    var answer := Answer(h, t, request, who, cnonce);
    var header := "Digest " + Render(answer);
    assert header[7..] == Render(answer);
    AnswerWellFormed(h, t, request, who, cnonce);
    ReadRender(f, answer, map[]);
    AnswerRead(h, t, request, who, cnonce);
  }

  lemma ColonsOfSix(a: string, b: string, c: string, d: string, e: string, g: string)
    ensures Colons([a, b, c, d, e, g]) == a + ":" + (b + ":" + c + ":" + d + ":" + e + ":" + g)
  {
    var all := [a, b, c, d, e, g];
    assert all[1..] == [b, c, d, e, g] && all[1..][1..] == [c, d, e, g];
    assert [c, d, e, g][1..] == [d, e, g] && [d, e, g][1..] == [e, g] && [e, g][1..] == [g];
    assert Colons(all) == a + ":" + Colons([b, c, d, e, g]);
    assert Colons([b, c, d, e, g]) == b + ":" + Colons([c, d, e, g]);
    assert Colons([c, d, e, g]) == c + ":" + Colons([d, e, g]);
    assert Colons([d, e, g]) == d + ":" + Colons([e, g]);
    assert Colons([e, g]) == e + ":" + Colons([g]) && Colons([g]) == g;
  }

  ghost predicate AsciiFields(t: Terms, request: Request, who: Credentials) {
    && Ascii(t.realm) && Ascii(t.nonce) && Ascii(t.opaqueValue)
    && Ascii(request.uri) && Ascii(who.username)
  }

  /** The same fields, read back exactly. */
  ghost predicate Recovered(v: map<string, string>, t: Terms, request: Request, who: Credentials, response: string,
                            cnonce: string) {
    && Get(v, "username") == who.username && Get(v, "realm") == t.realm && Get(v, "nonce") == t.nonce
    && Get(v, "uri") == request.uri && Get(v, "opaque") == t.opaqueValue
    && Get(v, "response") == response && Get(v, "algorithm") == t.algorithm && Get(v, "qop") == t.qop
    && (t.qop != "" ==> Get(v, "nc") == "00000001" && Get(v, "cnonce") == cnonce)
  }

  lemma AsciiIsRecovered(v: map<string, string>, t: Terms, request: Request, who: Credentials, response: string,
                         cnonce: string)
    requires Carries(v, t, request, who, response, cnonce)
    requires AsciiFields(t, request, who) && IsHex(response) && (t.qop != "" ==> IsHex(cnonce))
    ensures Recovered(v, t, request, who, response, cnonce)
  {
    HexIsVerbatim(response);
    ReencodeIff(response);
    ReencodeIff(who.username);
    ReencodeIff(t.realm);
    ReencodeIff(t.nonce);
    ReencodeIff(t.opaqueValue);
    ReencodeIff(request.uri);
    if t.qop != "" {
      HexIsVerbatim(cnonce);
      ReencodeIff(cnonce);
    }
  }

  /** The client's computation agrees with the one the standards give a server. */
  lemma ResponseIsExpected(h: Hash, v: map<string, string>, t: Terms, request: Request, who: Credentials,
                           response: string, cnonce: string)
    requires Recovered(v, t, request, who, response, cnonce)
    ensures Expected(h, t.algorithm, v, request.verb, who.password) == Response(h, t, request, who, cnonce)
  {
    var ha1 := h(t.algorithm, who.username + ":" + t.realm + ":" + who.password);
    var ha2 := h(t.algorithm, request.verb + ":" + request.uri);
    if t.qop == "" {
      assert ha1 + ":" + t.nonce + ":" + ha2 == ha1 + ":" + (t.nonce + ":" + ha2);
    } else {
      ColonsOfSix(ha1, t.nonce, NC, cnonce, t.qop, ha2);
    }
  }

  /** A server that holds the password accepts the answer: for ASCII fields and any
      password, with or without a quality of protection, it reads every field back
      and the digest it recomputes from them is the one that was sent. */
  lemma ServerAccepts(f: Fold, h: Hash, t: Terms, request: Request, who: Credentials, cnonce: string)
    requires HexHash(h) && Settled(t) && (t.qop != "" ==> IsHex(cnonce))
    requires AsciiFields(t, request, who)
    ensures
      var v := Received(f, "Digest " + Render(Answer(h, t, request, who, cnonce)));
      Recovered(v, t, request, who, Expected(h, t.algorithm, v, request.verb, who.password), cnonce)
  {
    var v := Received(f, "Digest " + Render(Answer(h, t, request, who, cnonce)));
    HeaderCarries(f, h, t, request, who, cnonce);
    FieldsAccepted(h, v, t, request, who, cnonce);
  }

  lemma FieldsAccepted(h: Hash, v: map<string, string>, t: Terms, request: Request, who: Credentials, cnonce: string)
    requires HexHash(h) && (t.qop != "" ==> IsHex(cnonce)) && AsciiFields(t, request, who)
    requires Carries(v, t, request, who, Response(h, t, request, who, cnonce), cnonce)
    ensures Recovered(v, t, request, who, Expected(h, t.algorithm, v, request.verb, who.password), cnonce)
  {
    var response := Response(h, t, request, who, cnonce);
    AsciiIsRecovered(v, t, request, who, response, cnonce);
    ResponseIsExpected(h, v, t, request, who, response, cnonce);
  }

  // ------------------------------------------------------------ whole exchange

  /** A challenge as a server writes it, with or without the name of an algorithm. */
  function ChallengeParams(realm: string, nonce: string, opaqueValue: string, algorithm: Option<string>,
                           qop: string): seq<Param> {
    [Quoted("realm", realm), Quoted("nonce", nonce), Quoted("opaque", opaqueValue), Quoted("qop", qop)]
    + (if algorithm.None? then [] else [Token("algorithm", algorithm.value)])
  }

  /** The algorithm a challenge means: the one it names, in whatever case, and MD5 if it
      names none. */
  function InForce(f: Fold, named: Option<string>): string {
    match named
    case None => "MD5"
    case Some(name) => ToUpper(f, name)
  }

  predicate Supported(algorithm: string) {
    algorithm == "MD5" || algorithm == "SHA-256"
  }

  lemma ChallengeRead(realm: string, nonce: string, opaqueValue: string, algorithm: Option<string>, qop: string)
    ensures
      var v := LastWins(ChallengeParams(realm, nonce, opaqueValue, algorithm, qop), map[]);
      && Get(v, "realm") == Reencode(realm) && Get(v, "nonce") == Reencode(nonce)
      && Get(v, "opaque") == Reencode(opaqueValue) && Get(v, "qop") == Reencode(qop)
      && Get(v, "algorithm") == if algorithm.None? then "" else algorithm.value
  {
    var four := [Quoted("realm", realm), Quoted("nonce", nonce), Quoted("opaque", opaqueValue), Quoted("qop", qop)];
    FourRead(realm, nonce, opaqueValue, qop, map[]);
    if algorithm.None? {
      assert four + [] == four;
    } else {
      LastWinsConcat(four, [Token("algorithm", algorithm.value)], map[]);
      AlgorithmRead(algorithm.value, LastWins(four, map[]));
    }
  }

  lemma FourRead(realm: string, nonce: string, opaqueValue: string, qop: string, values: map<string, string>)
    ensures
      var v := LastWins([Quoted("realm", realm), Quoted("nonce", nonce), Quoted("opaque", opaqueValue),
                         Quoted("qop", qop)], values);
      && Get(v, "realm") == Reencode(realm) && Get(v, "nonce") == Reencode(nonce)
      && Get(v, "opaque") == Reencode(opaqueValue) && Get(v, "qop") == Reencode(qop)
      && Get(v, "algorithm") == Get(values, "algorithm")
  {
    LastWinsFour(Quoted("realm", realm), Quoted("nonce", nonce), Quoted("opaque", opaqueValue), Quoted("qop", qop),
                 values);
  }

  lemma AlgorithmRead(algorithm: string, values: map<string, string>)
    ensures
      var v := LastWins([Token("algorithm", algorithm)], values);
      && Get(v, "algorithm") == algorithm
      && forall key :: key != "algorithm" ==> Get(v, key) == Get(values, key)
  {
    LastWinsOne(Token("algorithm", algorithm), values);
  }

  lemma ChallengeWellFormed(realm: string, nonce: string, opaqueValue: string, algorithm: Option<string>, qop: string)
    requires algorithm.Some? ==> IsToken(algorithm.value)
    ensures AllWellFormed(ChallengeParams(realm, nonce, opaqueValue, algorithm, qop))
  {
    IdentityKeys();
    SealKeys();
    SessionKeys();
  }

  lemma OffersWritten(text: string)
    requires text != "" && Solid(text[|text| - 1])
    ensures OffersDigest("Digest " + text)
  {
    TrimSpaceSolid("Digest " + text);
  }

  /** The client reads a written challenge as the list it was written from. */
  lemma ChallengeIsRead(f: Fold, ps: seq<Param>)
    requires ps != [] && AllWellFormed(ps)
    ensures ReadChallenge(f, "Digest " + Render(ps)) == TermsOf(f, LastWins(ps, map[]))
  {
    RenderEnds(ps);
    var text := Render(ps);
    var challenge := "Digest " + text;
    OffersWritten(text);
    assert challenge[7..] == text;
    TrimSpaceSolid(text);
    ReadRender(f, ps, map[]);
  }

  /** The client reads back the terms a server wrote, when they are ASCII. */
  lemma ChallengeUnderstood(f: Fold, realm: string, nonce: string, opaqueValue: string, algorithm: Option<string>,
                            qop: string)
    requires realm != "" && nonce != ""
    requires Ascii(realm) && Ascii(nonce) && Ascii(opaqueValue) && Ascii(qop)
    requires (algorithm.Some? ==> IsToken(algorithm.value)) && Supported(InForce(f, algorithm))
    ensures ReadChallenge(f, "Digest " + Render(ChallengeParams(realm, nonce, opaqueValue, algorithm, qop)))
         == Ok(Terms(realm, nonce, opaqueValue, InForce(f, algorithm), SelectQop(qop)))
  {
    var ps := ChallengeParams(realm, nonce, opaqueValue, algorithm, qop);
    ChallengeWellFormed(realm, nonce, opaqueValue, algorithm, qop);
    ChallengeIsRead(f, ps);
    ChallengeRead(realm, nonce, opaqueValue, algorithm, qop);
    ReencodeIff(realm);
    ReencodeIff(nonce);
    ReencodeIff(opaqueValue);
    ReencodeIff(qop);
  }

  /** The answer to any challenge the client understands is accepted. */
  lemma AnswerAccepted(f: Fold, h: Hash, challenge: string, t: Terms, request: Request, who: Credentials,
                       cnonce: string)
    requires HexHash(h) && IsHex(cnonce) && Settled(t) && AsciiFields(t, request, who)
    requires ReadChallenge(f, challenge) == Ok(t)
    ensures
      var r := Authorize(f, h, challenge, request, who, Some(cnonce));
      && r.Ok? && "Digest " <= r.value
      && Recovered(Received(f, r.value), t, request, who,
                   Expected(h, t.algorithm, Received(f, r.value), request.verb, who.password), cnonce)
  {
    ServerAccepts(f, h, t, request, who, cnonce);
  }

  /** End to end: a server writes a challenge with ASCII fields, naming a supported
      algorithm in any case or none, the client answers it, and the server reads every
      field back and finds the digest it computes under the algorithm it meant. */
  lemma ExchangeSucceeds(f: Fold, h: Hash, realm: string, nonce: string, opaqueValue: string,
                         algorithm: Option<string>, qop: string, request: Request, who: Credentials, cnonce: string)
    returns (challenge: string, t: Terms)
    requires HexHash(h) && IsHex(cnonce)
    requires realm != "" && nonce != ""
    requires Ascii(realm) && Ascii(nonce) && Ascii(opaqueValue) && Ascii(qop) && Ascii(request.uri)
    requires Ascii(who.username)
    requires (algorithm.Some? ==> IsToken(algorithm.value)) && Supported(InForce(f, algorithm))
    ensures challenge == "Digest " + Render(ChallengeParams(realm, nonce, opaqueValue, algorithm, qop))
    ensures t == Terms(realm, nonce, opaqueValue, InForce(f, algorithm), SelectQop(qop))
    ensures
      var r := Authorize(f, h, challenge, request, who, Some(cnonce));
      && r.Ok? && "Digest " <= r.value
      && Recovered(Received(f, r.value), t, request, who,
                   Expected(h, InForce(f, algorithm), Received(f, r.value), request.verb, who.password), cnonce)
  {
    challenge := "Digest " + Render(ChallengeParams(realm, nonce, opaqueValue, algorithm, qop));
    t := Terms(realm, nonce, opaqueValue, InForce(f, algorithm), SelectQop(qop));
    ChallengeUnderstood(f, realm, nonce, opaqueValue, algorithm, qop);
    AnswerAccepted(f, h, challenge, t, request, who, cnonce);
  }

  // ------------------------------------------------------------ refusals

  /** A parameter was written with some value for this key, the last of them not empty. */
  predicate Gives(ps: seq<Param>, key: string) {
    if ps == [] then false
    else
      var last := ps[|ps| - 1];
      if last.key == key then last.value != "" else Gives(ps[..|ps| - 1], key)
  }

  lemma {:induction false} GivesIff(ps: seq<Param>, key: string)
    ensures Gives(ps, key) <==> Get(LastWins(ps, map[]), key) != ""
  {
    if ps != [] {
      var n := |ps| - 1;
      GivesIff(ps[..n], key);
      assert ps == ps[..n] + [ps[n]];
      LastWinsConcat(ps[..n], [ps[n]], map[]);
      LastWinsOne(ps[n], LastWins(ps[..n], map[]));
      ReencodeEmpty(ps[n].value);
    }
  }

  lemma ReencodeEmpty(value: string)
    ensures Reencode(value) == "" <==> value == ""
  {
  }

  /** Why a written challenge is refused, whatever it lists and in whatever order: it is
      incomplete if and only if it gives no realm or no nonce; otherwise its algorithm is
      not supported if and only if it names one that is neither MD5 nor SHA-256 in any
      case; otherwise randomness is missing if and only if it lists auth and there is no
      cnonce; and otherwise it is answered. */
  lemma RefusalsExact(f: Fold, h: Hash, ps: seq<Param>, request: Request, who: Credentials, cnonce: Option<string>)
    requires ps != [] && AllWellFormed(ps)
    ensures
      var v := LastWins(ps, map[]);
      var r := Authorize(f, h, "Digest " + Render(ps), request, who, cnonce);
      var incomplete := !Gives(ps, "realm") || !Gives(ps, "nonce");
      var name := ToUpper(f, Get(v, "algorithm"));
      var unsupported := !incomplete && name != "" && !Supported(name);
      var unlucky := !incomplete && !unsupported && Lists(Split(Get(v, "qop"), ','), "auth") && cnonce.None?;
      && (r == Err(Incomplete) <==> incomplete)
      && (r == Err(UnsupportedAlgorithm(name)) <==> unsupported)
      && (r == Err(NoRandomness) <==> unlucky)
      && (r.Ok? <==> !incomplete && !unsupported && !unlucky)
  {
    ChallengeIsRead(f, ps);
    GivesIff(ps, "realm");
    GivesIff(ps, "nonce");
  }

  /** Any other challenge is refused if it does not offer Digest, and only then for that. */
  lemma NotDigestIff(f: Fold, h: Hash, challenge: string, request: Request, who: Credentials, cnonce: Option<string>)
    ensures Authorize(f, h, challenge, request, who, cnonce) == Err(NotDigest) <==> !OffersDigest(challenge)
  {
  }
}
