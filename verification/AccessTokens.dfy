/**
  Access tokens: a header and a payload in compact serialization (section 7.1 of RFC 7515) with an
  expiry time (section 4.1.4 of RFC 7519). The MAC, JSON and UUID text are parameters.
  */
module AccessTokens {
  import opened Wrappers
  import opened Base64Url

  type Id = nat

  /** Microseconds since 1970. */
  type Instant = int

  const SECOND := 1_000_000

  datatype Json =
    | Object(fields: map<string, Json>)
    | Text(text: string)
    | Number(number: int)
    | Boolean(value: bool)
    | Other

  datatype Codec = Codec(
    mac: (string, string) -> seq<Byte>,
    dumps: Json -> seq<Byte>,
    loads: seq<Byte> -> Option<Json>,
    showId: Id -> string,
    parseId: string -> Option<Id>)

  /** An object of texts and whole numbers. */
  predicate Flat(j: Json) {
    j.Object? && forall k :: k in j.fields ==> j.fields[k].Text? || j.fields[k].Number?
  }

  /** JSON and UUID text can be read back. Nothing is asked of the MAC. */
  ghost predicate Lawful(c: Codec) {
    && (forall j :: Flat(j) ==> c.loads(c.dumps(j)) == Some(j))
    && (forall id: Id :: c.parseId(c.showId(id)) == Some(id))
  }

  datatype Payload = Payload(subject: Id, expiresAt: int)

  /** Crashed: an exception that is neither of the two errors escapes. */
  datatype TokenError = Invalid | Expired | Crashed

  /** int() of a timestamp drops the fraction, towards zero. */
  function Seconds(t: Instant): int {
    if t >= 0 then t / SECOND else -((-t) / SECOND)
  }

  /** What datetime can hold: years 1 to 9999. */
  predicate Representable(seconds: int) {
    -62135596800 <= seconds <= 253402300799
  }

  function Header(): Json {
    Object(map["alg" := Text("HS256"), "typ" := Text("JWT")])
  }

  function PayloadOf(c: Codec, subject: Id, issuedAt: Instant, expiresAt: Instant): Json {
    Object(map[
      "sub" := Text(c.showId(subject)),
      "type" := Text("access"),
      "iat" := Number(Seconds(issuedAt)),
      "exp" := Number(Seconds(expiresAt))])
  }

  function SigningInput(header: string, payload: string): string {
    header + "." + payload
  }

  function CreateToken(c: Codec, subject: Id, secret: string, lifetime: int, now: Instant): string {
    var header := Encode(c.dumps(Header()));
    var payload := Encode(c.dumps(PayloadOf(c, subject, now, now + lifetime)));
    SigningInput(header, payload) + "." + Encode(c.mac(secret, SigningInput(header, payload)))
  }

  /** str.split("."): one part more than there are dots. */
  function Split(s: string): (r: seq<string>)
    ensures r != []
  {
    if s == "" then [""]
    else
      var rest := Split(s[1..]);
      if s[0] == '.' then [""] + rest else [[s[0]] + rest[0]] + rest[1..]
  }

  function Field(j: Json, key: string): Option<Json>
    requires j.Object?
  {
    Lookup(j.fields, key)
  }

  /** True is an int as well, and counts as one. */
  function AsInt(j: Option<Json>): Option<int> {
    match j
    case Some(Number(n)) => Some(n)
    case Some(Boolean(b)) => Some(if b then 1 else 0)
    case _ => None
  }

  function ReadClaims(c: Codec, header: Json, payload: Json, now: Instant): Result<Payload, TokenError> {
    if !header.Object? then Failure(Crashed)
    else if Field(header, "alg") != Some(Text("HS256")) then Failure(Invalid)
    else if !payload.Object? then Failure(Crashed)
    else if Field(payload, "type") != Some(Text("access")) then Failure(Invalid)
    else
      var exp, sub := AsInt(Field(payload, "exp")), Field(payload, "sub");
      if exp.None? || sub.None? || !sub.value.Text? then Failure(Invalid)
      else if !Representable(exp.value) then Failure(Crashed)
      else if exp.value * SECOND <= now then Failure(Expired)
      else match c.parseId(sub.value.text)
        case None => Failure(Invalid)
        case Some(id) => Success(Payload(id, exp.value))
  }

  function ReadJson(c: Codec, part: string): Option<Json> {
    match Decode(part)
    case None => None
    case Some(bytes) => c.loads(bytes)
  }

  function DecodeToken(c: Codec, token: string, secret: string, now: Instant): Result<Payload, TokenError> {
    var parts := Split(token);
    if |parts| != 3 then Failure(Invalid)
    else if !AllAscii(SigningInput(parts[0], parts[1])) then Failure(Crashed)
    else if Decode(parts[2]) != Some(c.mac(secret, SigningInput(parts[0], parts[1]))) then Failure(Invalid)
    else
      var header, payload := ReadJson(c, parts[0]), ReadJson(c, parts[1]);
      if header.None? || payload.None? then Failure(Invalid)
      else ReadClaims(c, header.value, payload.value, now)
  }

  // ----- three parts ---------------------------------------------------------------------------------

  function Dots(s: string): nat {
    if s == "" then 0 else (if s[0] == '.' then 1 else 0) + Dots(s[1..])
  }

  lemma {:induction false} DotsConcat(a: string, b: string)
    ensures Dots(a + b) == Dots(a) + Dots(b)
  {
    if a == "" {
      assert a + b == b;
    } else {
      assert (a + b)[1..] == a[1..] + b;
      DotsConcat(a[1..], b);
    }
  }

  lemma {:induction false} CleanHasNoDots(s: string)
    requires Clean(s)
    ensures Dots(s) == 0
  {
    if s != "" { CleanHasNoDots(s[1..]); }
  }

  lemma {:induction false} SplitCounts(s: string)
    ensures |Split(s)| == Dots(s) + 1
  {
    if s != "" { SplitCounts(s[1..]); }
  }

  lemma {:induction false} SplitFirst(part: string, rest: string)
    requires Dots(part) == 0
    ensures Split(part + "." + rest) == [part] + Split(rest)
    ensures Split(part) == [part]
  {
    var s := part + "." + rest;
    if part == "" {
      assert s == "." + rest && s[1..] == rest;
    } else {
      assert s[1..] == part[1..] + "." + rest;
      SplitFirst(part[1..], rest);
      assert part == [part[0]] + part[1..];
    }
  }

  /** Three texts without dots, joined by dots, come apart again. */
  lemma ThreeParts(a: string, b: string, c: string)
    requires Dots(a) == Dots(b) == Dots(c) == 0
    ensures Split(SigningInput(a, b) + "." + c) == [a, b, c]
  {
    assert SigningInput(a, b) + "." + c == a + "." + (b + "." + c);
    SplitFirst(a, b + "." + c);
    SplitFirst(b, c);
    SplitFirst(c, "");
  }

  lemma CleanIsAscii(a: string, b: string)
    requires Clean(a) && Clean(b)
    ensures AllAscii(SigningInput(a, b))
  {
  }

  // ----- decode after create ---------------------------------------------------------------------------

  lemma EncodedJsonReads(c: Codec, j: Json)
    requires Lawful(c) && Flat(j)
    ensures ReadJson(c, Encode(c.dumps(j))) == Some(j)
  {
    RoundTrip(c.dumps(j));
  }

  lemma ClaimsRead(c: Codec, subject: Id, issuedAt: Instant, expiresAt: Instant, now: Instant)
    requires Lawful(c) && Representable(Seconds(expiresAt))
    ensures ReadClaims(c, Header(), PayloadOf(c, subject, issuedAt, expiresAt), now)
         == if Seconds(expiresAt) * SECOND <= now then Failure(Expired)
            else Success(Payload(subject, Seconds(expiresAt)))
  {
  }

  /**
    What decoding makes of a created token, at any time and under any secret. Under another secret
    the token is invalid unless the two MACs of its signing input coincide; under the same secret it
    gives back its subject until the whole second in which it expires.
    */
  lemma DecodeAfterCreate(
    c: Codec, subject: Id, secret: string, lifetime: int, created: Instant, other: string, now: Instant)
    requires Lawful(c) && Representable(Seconds(created + lifetime))
    ensures var token := CreateToken(c, subject, secret, lifetime, created);
      && |Split(token)| == 3
      && var input := SigningInput(Split(token)[0], Split(token)[1]);
      DecodeToken(c, token, other, now)
      == if c.mac(other, input) != c.mac(secret, input) then Failure(Invalid)
         else if Seconds(created + lifetime) * SECOND <= now then Failure(Expired)
         else Success(Payload(subject, Seconds(created + lifetime)))
  {
    hide Encode, Split, ReadClaims, Decode;
    var header, payload := Header(), PayloadOf(c, subject, created, created + lifetime);
    var h, p := Encode(c.dumps(header)), Encode(c.dumps(payload));
    var signature := c.mac(secret, SigningInput(h, p));
    EncodedText(c.dumps(header));
    EncodedText(c.dumps(payload));
    EncodedText(signature);
    CleanHasNoDots(h);
    CleanHasNoDots(p);
    CleanHasNoDots(Encode(signature));
    ThreeParts(h, p, Encode(signature));
    CleanIsAscii(h, p);
    RoundTrip(signature);
    EncodedJsonReads(c, header);
    EncodedJsonReads(c, payload);
    ClaimsRead(c, subject, created, created + lifetime, now);
  }

  /** Equal tokens were created for the same subject, and for the same seconds. */
  lemma TokensAreUnambiguous(
    c: Codec, a: Id, b: Id, secret: string, other: string, lifetime: int, span: int, created: Instant, later: Instant)
    requires Lawful(c) && CreateToken(c, a, secret, lifetime, created) == CreateToken(c, b, other, span, later)
    ensures a == b && Seconds(created) == Seconds(later) && Seconds(created + lifetime) == Seconds(later + span)
  {
    var p, q := PayloadOf(c, a, created, created + lifetime), PayloadOf(c, b, later, later + span);
    PartsOfCreated(c, a, secret, lifetime, created);
    PartsOfCreated(c, b, other, span, later);
    EncodeIsInjective(c.dumps(p), c.dumps(q));
    SamePayload(c, a, b, created, created + lifetime, later, later + span);
  }

  lemma PartsOfCreated(c: Codec, subject: Id, secret: string, lifetime: int, created: Instant)
    ensures var parts := Split(CreateToken(c, subject, secret, lifetime, created));
      |parts| == 3 && parts[1] == Encode(c.dumps(PayloadOf(c, subject, created, created + lifetime)))
  {
    hide Encode, Split;
    var h, p := Encode(c.dumps(Header())), Encode(c.dumps(PayloadOf(c, subject, created, created + lifetime)));
    var signature := Encode(c.mac(secret, SigningInput(h, p)));
    EncodedText(c.dumps(Header()));
    EncodedText(c.dumps(PayloadOf(c, subject, created, created + lifetime)));
    EncodedText(c.mac(secret, SigningInput(h, p)));
    CleanHasNoDots(h);
    CleanHasNoDots(p);
    CleanHasNoDots(signature);
    ThreeParts(h, p, signature);
  }

  lemma SamePayload(c: Codec, a: Id, b: Id, issued: Instant, expires: Instant, issued': Instant, expires': Instant)
    requires Lawful(c) && c.dumps(PayloadOf(c, a, issued, expires)) == c.dumps(PayloadOf(c, b, issued', expires'))
    ensures a == b && Seconds(issued) == Seconds(issued') && Seconds(expires) == Seconds(expires')
  {
    hide Seconds;
    var p, q := PayloadOf(c, a, issued, expires), PayloadOf(c, b, issued', expires');
    assert Flat(p) && Flat(q);
    assert p == q;
    assert p.fields["sub"] == q.fields["sub"] && c.parseId(c.showId(a)) == c.parseId(c.showId(b));
    assert p.fields["iat"] == q.fields["iat"] && p.fields["exp"] == q.fields["exp"];
  }

  /**
    A signature made for one header and payload does not serve any other texts, unless the two MACs
    coincide.
    */
  lemma TamperingIsNoticed(
    c: Codec, h: string, p: string, header: string, payload: string, secret: string, now: Instant)
    requires c.mac(secret, SigningInput(h, p)) != c.mac(secret, SigningInput(header, payload))
    ensures var signature := Encode(c.mac(secret, SigningInput(h, p)));
      DecodeToken(c, SigningInput(header, payload) + "." + signature, secret, now)
      == Failure(
           if Dots(header) == Dots(payload) == 0 && !AllAscii(SigningInput(header, payload)) then Crashed else Invalid)
  {
    hide Encode, Split, ReadClaims, Decode, Dots;
    var signature := c.mac(secret, SigningInput(h, p));
    var token := SigningInput(header, payload) + "." + Encode(signature);
    EncodedText(signature);
    RoundTrip(signature);
    CleanHasNoDots(Encode(signature));
    if Dots(header) == Dots(payload) == 0 {
      ThreeParts(header, payload, Encode(signature));
    } else {
      JoinedDots(header, payload, Encode(signature));
      SplitCounts(token);
    }
  }

  lemma JoinedDots(a: string, b: string, c: string)
    ensures Dots(SigningInput(a, b) + "." + c) == Dots(a) + Dots(b) + Dots(c) + 2
  {
    DotsConcat(a, ".");
    DotsConcat(a + ".", b);
    DotsConcat(SigningInput(a, b), ".");
    DotsConcat(SigningInput(a, b) + ".", c);
  }

  /**
    Without a right signature a token is invalid, except that non-ASCII text in the first two of
    exactly three parts raises an error nobody handles, before the signature is looked at.
    */
  lemma UnsignedIsRefused(c: Codec, token: string, secret: string, now: Instant)
    requires var parts := Split(token);
      |parts| == 3 ==> Decode(parts[2]) != Some(c.mac(secret, SigningInput(parts[0], parts[1])))
    ensures var parts := Split(token);
      DecodeToken(c, token, secret, now)
      == Failure(if |parts| == 3 && !AllAscii(SigningInput(parts[0], parts[1])) then Crashed else Invalid)
  {
  }

  lemma WholeSeconds(t: Instant)
    ensures t - SECOND < Seconds(t) * SECOND
    ensures t >= 0 || t % SECOND == 0 ==> Seconds(t) * SECOND <= t
    ensures t < 0 && t % SECOND != 0 ==> t < Seconds(t) * SECOND
  {
    if t < 0 {
      assert t == -(-t / SECOND * SECOND) - (-t) % SECOND;
    }
  }

  /**
    Accepted at least until one second before its end of life, for any instants. Reported expired
    from its end of life on, and that fails for exactly the ends before 1970 that are not whole seconds.
    */
  lemma LivesUntilItsEnd(c: Codec, subject: Id, secret: string, lifetime: int, created: Instant)
    requires Lawful(c) && Representable(Seconds(created + lifetime))
    ensures forall now: Instant :: now <= created + lifetime - SECOND ==>
      DecodeToken(c, CreateToken(c, subject, secret, lifetime, created), secret, now)
      == Success(Payload(subject, Seconds(created + lifetime)))
    ensures (forall now: Instant :: now >= created + lifetime ==>
               DecodeToken(c, CreateToken(c, subject, secret, lifetime, created), secret, now) == Failure(Expired))
       <==> created + lifetime >= 0 || (created + lifetime) % SECOND == 0
  {
    hide DecodeToken, CreateToken, Seconds, Lawful;
    var token, end := CreateToken(c, subject, secret, lifetime, created), created + lifetime;
    WholeSeconds(end);
    forall now: Instant
      ensures DecodeToken(c, token, secret, now)
           == if Seconds(end) * SECOND <= now then Failure(Expired) else Success(Payload(subject, Seconds(end)))
    {
      DecodeAfterCreate(c, subject, secret, lifetime, created, secret, now);
    }
    if !(end >= 0 || end % SECOND == 0) {
      assert DecodeToken(c, token, secret, end) != Failure(Expired);
    }
  }

  /** A token of three parts, the first of them one letter outside ASCII: an error nobody handles. */
  lemma NonAsciiTextCrashes(c: Codec, secret: string, now: Instant)
    ensures DecodeToken(c, [0xE9 as char] + "." + "" + "." + "", secret, now) == Failure(Crashed)
  {
    var letter := [0xE9 as char];
    assert Dots(letter) == 0;
    ThreeParts(letter, "", "");
    assert SigningInput(letter, "")[0] == 0xE9 as char;
  }

  /** A token whose end lies one microsecond before 1970 is still accepted at that end. */
  lemma OutlivesItsEnd(c: Codec, subject: Id, secret: string)
    requires Lawful(c)
    ensures DecodeToken(c, CreateToken(c, subject, secret, 0, -1), secret, -1) == Success(Payload(subject, 0))
  {
    hide CreateToken, DecodeToken, Split, Lawful;
    DecodeAfterCreate(c, subject, secret, 0, -1, secret, -1);
  }


  // ----- what is accepted ----------------------------------------------------------------------------------

  /** The algorithm, the type, an expiry and the text of a subject are all there. */
  predicate HasClaims(header: Json, payload: Json, expiresAt: int) {
    && header.Object? && Field(header, "alg") == Some(Text("HS256"))
    && payload.Object? && Field(payload, "type") == Some(Text("access"))
    && (Field(payload, "exp") == Some(Number(expiresAt))
        || (Field(payload, "exp") == Some(Boolean(true)) && expiresAt == 1)
        || (Field(payload, "exp") == Some(Boolean(false)) && expiresAt == 0))
    && Field(payload, "sub").Some? && Field(payload, "sub").value.Text?
  }

  /** A header that names the algorithm, and claims of an access token with a subject and a time to expire. */
  predicate GoodClaims(c: Codec, header: Json, payload: Json, now: Instant, subject: Id, expiresAt: int) {
    && HasClaims(header, payload, expiresAt)
    && -62135596800 <= expiresAt <= 253402300799 && now < expiresAt * 1_000_000
    && c.parseId(Field(payload, "sub").value.text) == Some(subject)
  }

  lemma ClaimsAreExact(c: Codec, header: Json, payload: Json, now: Instant, subject: Id, expiresAt: int)
    ensures ReadClaims(c, header, payload, now) == Success(Payload(subject, expiresAt))
       <==> GoodClaims(c, header, payload, now, subject, expiresAt)
  {
  }

  /**
    Expired is the answer exactly for claims whose time has come, and the exceptions that escape come
    exactly from JSON that is no object where one is read, and from a time no datetime can hold.
    */
  lemma RefusedClaimsAreExact(c: Codec, header: Json, payload: Json, now: Instant)
    ensures ReadClaims(c, header, payload, now) == Failure(Expired) <==>
      exists n :: HasClaims(header, payload, n) && -62135596800 <= n <= 253402300799 && n * 1_000_000 <= now
    ensures ReadClaims(c, header, payload, now) == Failure(Crashed) <==>
      || !header.Object?
      || (Field(header, "alg") == Some(Text("HS256")) && !payload.Object?)
      || exists n :: HasClaims(header, payload, n) && !(-62135596800 <= n <= 253402300799)
  {
    if header.Object? && payload.Object? {
      var exp := AsInt(Field(payload, "exp"));
      if exp.Some? {
        OneExpiry(header, payload, exp.value);
        assert ReadClaims(c, header, payload, now).Failure? && ReadClaims(c, header, payload, now).error != Invalid
          ==> HasClaims(header, payload, exp.value);
      } else {
        assert forall n :: !HasClaims(header, payload, n);
      }
    }
  }

  lemma OneExpiry(header: Json, payload: Json, expiresAt: int)
    requires payload.Object? && AsInt(Field(payload, "exp")) == Some(expiresAt)
    ensures forall n :: HasClaims(header, payload, n) ==> n == expiresAt
  {
  }

  /**
    A token is accepted exactly if it has three parts, plain text in the first two, the MAC of these
    two as its third, and, as the first two, JSON with good claims.
    */
  lemma AcceptedExactly(c: Codec, token: string, secret: string, now: Instant, subject: Id, expiresAt: int)
    ensures DecodeToken(c, token, secret, now) == Success(Payload(subject, expiresAt)) <==>
      && |Split(token)| == 3
      && var parts := Split(token);
      && AllAscii(SigningInput(parts[0], parts[1]))
      && Decode(parts[2]) == Some(c.mac(secret, SigningInput(parts[0], parts[1])))
      && Decode(parts[0]).Some? && Decode(parts[1]).Some?
      && c.loads(Decode(parts[0]).value).Some? && c.loads(Decode(parts[1]).value).Some?
      && GoodClaims(
           c, c.loads(Decode(parts[0]).value).value, c.loads(Decode(parts[1]).value).value, now, subject, expiresAt)
  {
    hide ReadClaims, GoodClaims, Split, Decode;
    if |Split(token)| == 3 {
      var header, payload := ReadJson(c, Split(token)[0]), ReadJson(c, Split(token)[1]);
      if header.Some? && payload.Some? {
        ClaimsAreExact(c, header.value, payload.value, now, subject, expiresAt);
      }
    }
  }

  /** What a created token says: the algorithm and type, the subject, and when it was issued and ends. */
  lemma CreatedClaims(c: Codec, subject: Id, secret: string, lifetime: int, created: Instant)
    requires Lawful(c)
    ensures var parts := Split(CreateToken(c, subject, secret, lifetime, created));
      && |parts| == 3
      && ReadJson(c, parts[0]) == Some(Object(map["alg" := Text("HS256"), "typ" := Text("JWT")]))
      && ReadJson(c, parts[1]) == Some(Object(map[
           "sub" := Text(c.showId(subject)), "type" := Text("access"),
           "iat" := Number(Seconds(created)), "exp" := Number(Seconds(created + lifetime))]))
      && Decode(parts[2]) == Some(c.mac(secret, parts[0] + "." + parts[1]))
  {
    hide Encode, Split, Decode;
    var h, p := Encode(c.dumps(Header())), Encode(c.dumps(PayloadOf(c, subject, created, created + lifetime)));
    var signature := c.mac(secret, SigningInput(h, p));
    EncodedText(c.dumps(Header()));
    EncodedText(c.dumps(PayloadOf(c, subject, created, created + lifetime)));
    EncodedText(signature);
    CleanHasNoDots(h);
    CleanHasNoDots(p);
    CleanHasNoDots(Encode(signature));
    ThreeParts(h, p, Encode(signature));
    EncodedJsonReads(c, Header());
    EncodedJsonReads(c, PayloadOf(c, subject, created, created + lifetime));
    RoundTrip(signature);
  }
}
