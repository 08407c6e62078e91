/** Signed access tokens: three base64url parts joined by dots (RFC 7515, section 7.1). */
module Tokens {
  import opened Wrappers
  import opened Numbers
  import opened Json
  import opened Canonical
  import opened Base64
  import opened Claims

  datatype User = User(username: Characters, role: Characters)

  /**
    * The configured issuer, the keyed MAC of a text, and the library where it meets what the
    * service does not write itself: `json.loads` of other texts and `int` of other values.
    */
  datatype Setting = Setting(
    issuer: Characters,
    mac: string -> seq<byte>,
    loads: seq<byte> -> Option<Json>,
    toInt: Json -> Option<int>)

  const DOT := '.'

  function HeaderMember(name: string, value: string): (m: Member)
    requires IsAscii(name) && IsAscii(value)
    ensures Flat(m) && EncodableFlat(m)
  {
    AsciiIsEncodable(name);
    AsciiIsEncodable(value);
    Member(Ascii(name), Str(Ascii(value)))
  }

  function HeaderBytes(): seq<byte> { Dumps([HeaderMember("alg", "HS256"), HeaderMember("typ", "JWT")]) }

  /** `text.split(".", 1)`: what stands before and after the first dot. */
  function SplitAtDot(s: string): Option<(string, string)> {
    if s == "" then None
    else if s[0] == DOT then Some(("", s[1..]))
    else
      match SplitAtDot(s[1..])
      case None => None
      case Some((a, b)) => Some(([s[0]] + a, b))
  }

  // ----- Creating -----

  function SigningInput(header: string, payload: string): string { header + [DOT] + payload }

  function ClaimsOf(s: Setting, user: User, now: int, expires: int): (ms: seq<Member>)
    ensures AllFlat(ms)
  {
    PayloadIsFlat(s.issuer, user.username, user.role, now, expires);
    Payload(s.issuer, user.username, user.role, now, expires)
  }

  /** Header and payload with their signature. */
  function Signed(s: Setting, header: seq<byte>, payload: seq<byte>): string {
    var input := SigningInput(Encode(header), Encode(payload));
    input + [DOT] + Encode(s.mac(input))
  }

  function CreateToken(s: Setting, user: User, now: int, expires: int): string {
    Signed(s, HeaderBytes(), Dumps(ClaimsOf(s, user, now, expires)))
  }

  // ----- Decoding -----

  datatype Parts = Parts(header: string, payload: string, signature: string)

  /** The token is cut at its first two dots; more of them stay in the last part. */
  function PartsOf(token: string): Option<Parts> {
    match SplitAtDot(token)
    case None => None
    case Some((header, rest)) =>
      match SplitAtDot(rest)
      case None => None
      case Some((payload, signature)) => Some(Parts(header, payload, signature))
  }

  function LoadClaims(s: Setting, payload: string): Option<Json> {
    match Decode(payload)
    case None => None
    case Some(bytes) => Loads(s.loads, bytes)
  }

  function ToInt(s: Setting, v: Json): Option<int> {
    if v.Number? && IntOf(v.literal).Some? then IntOf(v.literal) else s.toInt(v)
  }

  /** `int(payload.get("exp", 0))`. */
  function ExpiryOf(s: Setting, ms: seq<Member>): Option<int> {
    match Lookup(ms, EXPIRES)
    case None => Some(0)
    case Some(v) => ToInt(s, v)
  }

  function CheckClaims(s: Setting, ms: seq<Member>, now: int): Result<seq<Member>> {
    if Lookup(ms, ISSUER) != Some(Str(s.issuer)) then Invalid
    else
      match ExpiryOf(s, ms)
      case None => Invalid
      case Some(expires) => if expires < now then Invalid else Ok(ms)
  }

  /** Every exception on the way is the same refusal. */
  function DecodeToken(s: Setting, token: string, now: int): Result<seq<Member>> {
    match PartsOf(token)
    case None => Invalid
    case Some(p) =>
      if !IsAscii(token) || Decode(p.signature) != Some(s.mac(SigningInput(p.header, p.payload))) then Invalid
      else
        match LoadClaims(s, p.payload)
        case Some(Obj(ms)) => CheckClaims(s, ms, now)
        case _ => Invalid
  }

  // ----- Laws -----

  lemma {:induction false} SplitFindsFirstDot(a: string, b: string)
    requires DOT !in a
    ensures SplitAtDot(a + [DOT] + b) == Some((a, b))
  {
    var s := a + [DOT] + b;
    if a == "" {
      assert s[1..] == b;
    } else {
      assert s[1..] == a[1..] + [DOT] + b;
      assert DOT !in a[1..];
      SplitFindsFirstDot(a[1..], b);
      assert [a[0]] + a[1..] == a;
    }
  }

  lemma {:induction false} SplitJoins(s: string)
    ensures
      var cut := SplitAtDot(s);
      cut.Some? ==> DOT !in cut.value.0 && s == cut.value.0 + [DOT] + cut.value.1
  {
    if s != "" && s[0] != DOT {
      SplitJoins(s[1..]);
    }
  }

  /** The parts of a token are found again, because no encoded part holds a dot. */
  lemma PartsOfSigned(s: Setting, header: seq<byte>, payload: seq<byte>)
    ensures
      var h, p := Encode(header), Encode(payload);
      PartsOf(Signed(s, header, payload)) == Some(Parts(h, p, Encode(s.mac(SigningInput(h, p)))))
    ensures IsAscii(Signed(s, header, payload))
  {
    var h, p := Encode(header), Encode(payload);
    var signature := Encode(s.mac(SigningInput(h, p)));
    StrippedPaddingComesBack(header);
    StrippedPaddingComesBack(payload);
    StrippedPaddingComesBack(s.mac(SigningInput(h, p)));
    assert Signed(s, header, payload) == h + [DOT] + (p + [DOT] + signature);
    SplitFindsFirstDot(h, p + [DOT] + signature);
    SplitFindsFirstDot(p, signature);
  }

  /** What is signed is what is decoded. */
  lemma SignedIsLoaded(s: Setting, header: seq<byte>, payload: seq<byte>, now: int)
    ensures DecodeToken(s, Signed(s, header, payload), now) ==
      match Loads(s.loads, payload)
      case Some(Obj(ms)) => CheckClaims(s, ms, now)
      case _ => Invalid
  {
    var h, p := Encode(header), Encode(payload);
    PartsOfSigned(s, header, payload);
    Base64.RoundTrip(payload);
    Base64.RoundTrip(s.mac(SigningInput(h, p)));
  }

  lemma ClaimsAreChecked(s: Setting, user: User, now: int, expires: int, later: int)
    ensures
      var ms := Joined(ClaimsOf(s, user, now, expires));
      CheckClaims(s, ms, later) ==
        if Points(Units(s.issuer)) == s.issuer && later <= expires then Ok(ms) else Invalid
  {
    JoinedPayload(s.issuer, user.username, user.role, now, expires);
    IntOfDecimal(expires);
  }

  /** A created token gives back its claims exactly until it expires, and to its own issuer. */
  lemma CreatedTokenDecodes(s: Setting, user: User, now: int, expires: int, later: int)
    ensures DecodeToken(s, CreateToken(s, user, now, expires), later) ==
      if Points(Units(s.issuer)) == s.issuer && later <= expires then Ok(Joined(ClaimsOf(s, user, now, expires)))
      else Invalid
  {
    var claims := ClaimsOf(s, user, now, expires);
    SignedIsLoaded(s, HeaderBytes(), Dumps(claims), later);
    JoinedPayload(s.issuer, user.username, user.role, now, expires);
    LoadsDumps(s.loads, claims);
    ClaimsAreChecked(s, user, now, expires, later);
  }

  /** They are the claims that were asked for, each under its own name. */
  lemma CreatedTokenTells(s: Setting, user: User, now: int, expires: int, later: int)
    requires DecodeToken(s, CreateToken(s, user, now, expires), later).Ok?
    ensures
      var ms := DecodeToken(s, CreateToken(s, user, now, expires), later).value;
      && Lookup(ms, Ascii("iss")) == Some(Str(s.issuer))
      && Lookup(ms, Ascii("sub")) == Some(Str(Points(Units(user.username))))
      && Lookup(ms, Ascii("role")) == Some(Str(Points(Units(user.role))))
      && Lookup(ms, Ascii("iat")) == Some(Number(Decimal(now)))
      && Lookup(ms, Ascii("exp")) == Some(Number(Decimal(expires)))
  {
    CreatedTokenDecodes(s, user, now, expires, later);
    JoinedPayload(s.issuer, user.username, user.role, now, expires);
  }

  predicate SignedAs(s: Setting, token: string, h: string, p: string, g: string) {
    token == h + "." + p + "." + g && '.' !in h && '.' !in p && Decode(g) == Some(s.mac(h + "." + p))
  }

  /** Whatever is accepted carries the service's MAC, names it as issuer and has not expired. */
  lemma AcceptedIsSigned(s: Setting, token: string, now: int)
    requires DecodeToken(s, token, now).Ok?
    ensures exists h, p, g :: SignedAs(s, token, h, p, g)
    ensures Lookup(DecodeToken(s, token, now).value, Ascii("iss")) == Some(Str(s.issuer))
    ensures forall n ::
      Lookup(DecodeToken(s, token, now).value, Ascii("exp")) == Some(Number(Decimal(n))) ==> now <= n
  {
    var parts := PartsOf(token).value;
    SplitJoins(token);
    SplitJoins(SplitAtDot(token).value.1);
    assert SignedAs(s, token, parts.header, parts.payload, parts.signature);
    var ms := DecodeToken(s, token, now).value;
    forall n | Lookup(ms, Ascii("exp")) == Some(Number(Decimal(n))) ensures now <= n {
      IntOfDecimal(n);
    }
  }

  /** The header names the algorithm and the kind of token. */
  lemma HeaderTells(s: Setting)
    ensures Loads(s.loads, HeaderBytes()) ==
      Some(Obj([Member(Ascii("alg"), Str(Ascii("HS256"))), Member(Ascii("typ"), Str(Ascii("JWT")))]))
  {
    var a, b := HeaderMember("alg", "HS256"), HeaderMember("typ", "JWT");
    assert a.key[0] == 'a' as int && b.key[0] == 't' as int;
    PairComesBack(s, a, b);
  }

  lemma PairComesBack(s: Setting, a: Member, b: Member)
    requires Flat(a) && Flat(b) && EncodableFlat(a) && EncodableFlat(b) && a.key != b.key
    ensures Loads(s.loads, Dumps([a, b])) == Some(Obj([a, b]))
  {
    JoinedEncodable([a, b]);
    LoadsDumps(s.loads, [a, b]);
  }

  /** Of encodable strings nothing is changed on the way. */
  lemma EncodableClaimsComeBack(s: Setting, user: User, now: int, expires: int, later: int)
    requires Encodable(s.issuer) && Encodable(user.username) && Encodable(user.role)
    ensures DecodeToken(s, CreateToken(s, user, now, expires), later) ==
      if later <= expires then Ok(ClaimsOf(s, user, now, expires)) else Invalid
  {
    CreatedTokenDecodes(s, user, now, expires, later);
    PointsOfUnits(s.issuer);
    PayloadComesBack(s.issuer, user.username, user.role, now, expires);
  }

  /** Tokens of one service are equal exactly when they say the same. */
  lemma TokensAreEqualExactly(s: Setting, u: User, now: int, expires: int, v: User, later: int, ends: int)
    requires Encodable(s.issuer)
    requires Encodable(u.username) && Encodable(u.role) && Encodable(v.username) && Encodable(v.role)
    ensures CreateToken(s, u, now, expires) == CreateToken(s, v, later, ends) <==>
      u == v && now == later && expires == ends
  {
    if CreateToken(s, u, now, expires) == CreateToken(s, v, later, ends) {
      var p, q := ClaimsOf(s, u, now, expires), ClaimsOf(s, v, later, ends);
      PartsOfSigned(s, HeaderBytes(), Dumps(p));
      PartsOfSigned(s, HeaderBytes(), Dumps(q));
      EncodeIsInjective(Dumps(p), Dumps(q));
      DumpsTell(p, q);
      PayloadComesBack(s.issuer, u.username, u.role, now, expires);
      PayloadComesBack(s.issuer, v.username, v.role, later, ends);
      PayloadTells(s.issuer, u.username, u.role, now, expires, v.username, v.role, later, ends);
    }
  }

  /**
    * Under an injective MAC a signature vouches for one text only: two accepted tokens whose
    * signatures decode alike carry the same header, the same payload and the same claims.
    */
  lemma SignatureBindsClaims(s: Setting, t: string, u: string, now: int, later: int)
    requires forall a, b :: s.mac(a) == s.mac(b) ==> a == b
    requires DecodeToken(s, t, now).Ok? && DecodeToken(s, u, later).Ok?
    requires Decode(PartsOf(t).value.signature) == Decode(PartsOf(u).value.signature)
    ensures PartsOf(t).value.header == PartsOf(u).value.header
    ensures PartsOf(t).value.payload == PartsOf(u).value.payload
    ensures DecodeToken(s, t, now) == DecodeToken(s, u, later)
  {
    var p, q := PartsOf(t).value, PartsOf(u).value;
    assert SigningInput(p.header, p.payload) == SigningInput(q.header, q.payload);
    SplitJoins(t);
    SplitJoins(u);
    SplitFindsFirstDot(p.header, p.payload);
    SplitFindsFirstDot(q.header, q.payload);
  }
}
