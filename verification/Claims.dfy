/** The JSON text of a token's claims, and how it is read back. */
module Claims {
  import opened Wrappers
  import opened Numbers
  import opened Json
  import opened JsonLaws
  import opened Canonical
  import opened Base64

  /** Any string of the program. */
  type Characters = t: Text | PythonText(t)

  const ISSUER: Text := Ascii("iss")
  const SUBJECT: Text := Ascii("sub")
  const ROLE: Text := Ascii("role")
  const ISSUED_AT: Text := Ascii("iat")
  const EXPIRES: Text := Ascii("exp")

  function Payload(issuer: Characters, subject: Characters, role: Characters, now: int, expires: int): seq<Member> {
    [ Member(ISSUER, Str(issuer)),
      Member(SUBJECT, Str(subject)),
      Member(ROLE, Str(role)),
      Member(ISSUED_AT, Number(Decimal(now))),
      Member(EXPIRES, Number(Decimal(expires))) ]
  }

  /** Each claim stands under its own name, and there are no others. */
  lemma PayloadHolds(issuer: Characters, subject: Characters, role: Characters, now: int, expires: int)
    ensures
      var ms := Payload(issuer, subject, role, now, expires);
      && |ms| == 5
      && Lookup(ms, Ascii("iss")) == Some(Str(issuer))
      && Lookup(ms, Ascii("sub")) == Some(Str(subject))
      && Lookup(ms, Ascii("role")) == Some(Str(role))
      && Lookup(ms, Ascii("iat")) == Some(Number(Decimal(now)))
      && Lookup(ms, Ascii("exp")) == Some(Number(Decimal(expires)))
  {
    var ms := Payload(issuer, subject, role, now, expires);
    FiveKeysDiffer(ms);
    forall i | 0 <= i < 5 ensures Lookup(ms, ms[i].key) == Some(ms[i].value) {
      LookupAt(ms, i);
    }
    assert ms[0].key == Ascii("iss") && ms[1].key == Ascii("sub") && ms[2].key == Ascii("role");
    assert ms[3].key == Ascii("iat") && ms[4].key == Ascii("exp");
  }

  // ----- Writing -----

  /** Claims whose values are strings and integers. */
  predicate Flat(m: Member) {
    && PythonText(m.key)
    && match m.value {
      case Str(t) => PythonText(t)
      case Number(s) => IntOf(s).Some? && s == Decimal(IntOf(s).value)
      case _ => false
    }
  }

  predicate AllFlat(ms: seq<Member>) { forall m | m in ms :: Flat(m) }

  /** The code units that are printed for a member. */
  function InUnits(m: Member): Member {
    Member(Units(m.key), if m.value.Str? then Str(Units(m.value.text)) else m.value)
  }

  function AllInUnits(ms: seq<Member>): (r: seq<Member>)
    ensures |r| == |ms| && forall i | 0 <= i < |ms| :: r[i] == InUnits(ms[i])
  {
    seq(|ms|, i requires 0 <= i < |ms| => InUnits(ms[i]))
  }

  lemma FlatIsPrintable(m: Member)
    requires Flat(m)
    ensures UnitsOnly(InUnits(m).key) && Printable(InUnits(m).value)
  {
    UnitsAreUnits(m.key);
    match m.value {
      case Str(t) => UnitsAreUnits(t);
      case Number(s) => DecimalIsLiteral(IntOf(s).value);
    }
  }

  lemma FlatArePrintable(ms: seq<Member>)
    requires AllFlat(ms)
    ensures Printable(Obj(AllInUnits(ms)))
  {
    forall i | 0 <= i < |ms| ensures UnitsOnly(InUnits(ms[i]).key) && Printable(InUnits(ms[i]).value) {
      FlatIsPrintable(ms[i]);
    }
  }

  function Bytes(s: string): (x: seq<byte>)
    requires IsAscii(s)
    ensures |x| == |s| && forall i | 0 <= i < |s| :: x[i] == s[i] as int
  {
    assert forall i | 0 <= i < |s| :: s[i] in s;
    seq<byte>(|s|, i requires 0 <= i < |s| && s[i] < 128 as char => s[i] as byte)
  }

  function Spelled(x: seq<byte>): (s: string)
    ensures |s| == |x| && forall i | 0 <= i < |x| :: s[i] as int == x[i]
  {
    seq(|x|, i requires 0 <= i < |x| => x[i] as char)
  }

  /** `json.dumps(claims, separators=(',', ':')).encode()`. */
  function Dumps(ms: seq<Member>): seq<byte>
    requires AllFlat(ms)
  {
    FlatArePrintable(ms);
    WriteIsAscii(Obj(AllInUnits(ms)));
    Bytes(Write(Obj(AllInUnits(ms))))
  }

  // ----- Reading -----

  function InPoints(m: Member): Member {
    Member(Points(m.key), if m.value.Str? then Str(Points(m.value.text)) else m.value)
  }

  function AllInPoints(ms: seq<Member>): (r: seq<Member>)
    ensures |r| == |ms| && forall i | 0 <= i < |ms| :: r[i] == InPoints(ms[i])
  {
    seq(|ms|, i requires 0 <= i < |ms| => InPoints(ms[i]))
  }

  /** The claims that a text of the service's own making holds: compact, no name twice. */
  function OwnClaims(x: seq<byte>): Option<seq<Member>> {
    match Read(Spelled(x))
    case Some((Obj(ns), "")) =>
      var ms := AllInPoints(ns);
      if AllFlat(ms) && DistinctKeys(ms) && Written(ns, x) then Some(ms) else None
    case _ => None
  }

  predicate Written(ns: seq<Member>, x: seq<byte>) { Printable(Obj(ns)) && Write(Obj(ns)) == Spelled(x) }

  /** `json.loads`, which is taken from the library for any other text. */
  function Loads(library: seq<byte> -> Option<Json>, x: seq<byte>): Option<Json> {
    match OwnClaims(x)
    case Some(ms) => Some(Obj(ms))
    case None => library(x)
  }

  // ----- Laws -----

  /** What claims come back as: a pair of surrogates has become its character. */
  function Joined(ms: seq<Member>): seq<Member> { AllInPoints(AllInUnits(ms)) }

  lemma JoinedCharacters(t: Text)
    requires PythonText(t)
    ensures PythonText(Points(Units(t)))
  {
    UnitsAreUnits(t);
    PointsOfUnitsOnly(Units(t));
  }

  lemma {:induction false} PointsOfUnitsOnly(u: Text)
    requires UnitsOnly(u)
    ensures PythonText(Points(u))
  {
    if |u| >= 2 && 0xD800 <= u[0] < 0xDC00 <= u[1] < 0xE000 {
      PointsOfUnitsOnly(u[2..]);
    } else if u != [] {
      assert IsUnit(u[0]);
      PointsOfUnitsOnly(u[1..]);
    }
  }

  lemma JoinedIsFlat(ms: seq<Member>)
    requires AllFlat(ms)
    ensures AllFlat(Joined(ms))
  {
    forall i | 0 <= i < |ms| ensures Flat(Joined(ms)[i]) {
      assert Flat(ms[i]);
      JoinedCharacters(ms[i].key);
      if ms[i].value.Str? {
        JoinedCharacters(ms[i].value.text);
      }
    }
  }

  /** Reading the bytes of any claims gives them back with their surrogates joined. */
  lemma LoadsDumps(library: seq<byte> -> Option<Json>, ms: seq<Member>)
    requires AllFlat(ms) && DistinctKeys(Joined(ms))
    ensures Loads(library, Dumps(ms)) == Some(Obj(Joined(ms)))
  {
    var v := Obj(AllInUnits(ms));
    FlatArePrintable(ms);
    JsonLaws.RoundTrip(v);
    WriteIsAscii(v);
    assert Spelled(Dumps(ms)) == Write(v);
    JoinedIsFlat(ms);
  }

  // ----- The five keys -----

  predicate Plainly(t: Text) { forall c | c in t :: 0 <= c < 128 }

  lemma {:induction false} PlainText(t: Text)
    requires Plainly(t)
    ensures Units(t) == t && Points(t) == t
  {
    if t != [] {
      assert t[0] in t && forall c | c in t[1..] :: c in t;
      PlainText(t[1..]);
    }
  }

  lemma KeysArePlain()
    ensures Plainly(ISSUER) && Plainly(SUBJECT) && Plainly(ROLE) && Plainly(ISSUED_AT) && Plainly(EXPIRES)
  {
  }

  lemma KeysDiffer()
    ensures ISSUER != SUBJECT && ISSUER != ROLE && ISSUER != ISSUED_AT && ISSUER != EXPIRES
    ensures SUBJECT != ROLE && SUBJECT != ISSUED_AT && SUBJECT != EXPIRES
    ensures ROLE != ISSUED_AT && ROLE != EXPIRES && ISSUED_AT != EXPIRES
  {
    assert |ROLE| == 4;
    assert ISSUER[1] == 's' as int && SUBJECT[1] == 'u' as int;
    assert ISSUED_AT[1] == 'a' as int && EXPIRES[1] == 'x' as int;
  }

  predicate HasFiveKeys(ms: seq<Member>) {
    && |ms| == 5
    && ms[0].key == ISSUER && ms[1].key == SUBJECT && ms[2].key == ROLE
    && ms[3].key == ISSUED_AT && ms[4].key == EXPIRES
  }

  lemma FiveKeysDiffer(ms: seq<Member>)
    requires HasFiveKeys(ms)
    ensures DistinctKeys(ms)
  {
    KeysDiffer();
  }

  lemma PlainKeyStays(ms: seq<Member>, i: nat)
    requires i < |ms| && Plainly(ms[i].key)
    ensures Joined(ms)[i].key == ms[i].key
  {
    PlainText(ms[i].key);
  }

  lemma FiveKeysArePlain(ms: seq<Member>, i: nat)
    requires HasFiveKeys(ms) && i < 5
    ensures Plainly(ms[i].key)
  {
    KeysArePlain();
  }

  lemma JoinedKeys(ms: seq<Member>)
    requires HasFiveKeys(ms)
    ensures HasFiveKeys(Joined(ms))
  {
    var after := Joined(ms);
    forall i | 0 <= i < 5 ensures after[i].key == ms[i].key {
      FiveKeysArePlain(ms, i);
      PlainKeyStays(ms, i);
    }
  }

  /** The keys of a payload come back as they are, the texts joined. */
  lemma JoinedPayload(issuer: Characters, subject: Characters, role: Characters, now: int, expires: int)
    ensures
      var ms := Joined(Payload(issuer, subject, role, now, expires));
      && DistinctKeys(ms)
      && Lookup(ms, ISSUER) == Some(Str(Points(Units(issuer))))
      && Lookup(ms, SUBJECT) == Some(Str(Points(Units(subject))))
      && Lookup(ms, ROLE) == Some(Str(Points(Units(role))))
      && Lookup(ms, ISSUED_AT) == Some(Number(Decimal(now)))
      && Lookup(ms, EXPIRES) == Some(Number(Decimal(expires)))
  {
    var p := Payload(issuer, subject, role, now, expires);
    var ms := Joined(p);
    JoinedKeys(p);
    FiveKeysDiffer(ms);
    forall i | 0 <= i < 5 ensures Lookup(ms, ms[i].key) == Some(InPoints(InUnits(p[i])).value) {
      LookupAt(ms, i);
    }
    assert ms[0].key == ISSUER && ms[1].key == SUBJECT && ms[2].key == ROLE;
    assert ms[3].key == ISSUED_AT && ms[4].key == EXPIRES;
  }

  /** A flat value, whatever its key. */
  predicate FlatValue(v: Json) { Flat(Member([], v)) }

  lemma NumbersAreFlat(n: int)
    ensures FlatValue(Number(Decimal(n)))
  {
    IntOfDecimal(n);
  }

  lemma PlainKey(m: Member)
    requires Plainly(m.key) && FlatValue(m.value)
    ensures Flat(m)
  {
  }

  lemma PayloadIsFlat(issuer: Characters, subject: Characters, role: Characters, now: int, expires: int)
    ensures AllFlat(Payload(issuer, subject, role, now, expires))
  {
    var ms := Payload(issuer, subject, role, now, expires);
    NumbersAreFlat(now);
    NumbersAreFlat(expires);
    forall i | 0 <= i < |ms| ensures Flat(ms[i]) {
      FiveKeysArePlain(ms, i);
      PlainKey(ms[i]);
    }
  }

  predicate EncodableFlat(m: Member) { Encodable(m.key) && (m.value.Str? ==> Encodable(m.value.text)) }

  /** Encodable claims come back unchanged. */
  lemma JoinedEncodable(ms: seq<Member>)
    requires forall i | 0 <= i < |ms| :: EncodableFlat(ms[i])
    ensures Joined(ms) == ms
  {
    forall i | 0 <= i < |ms| ensures Joined(ms)[i] == ms[i] {
      assert EncodableFlat(ms[i]);
      PointsOfUnits(ms[i].key);
      if ms[i].value.Str? {
        PointsOfUnits(ms[i].value.text);
      }
    }
  }

  lemma PayloadComesBack(issuer: Characters, subject: Characters, role: Characters, now: int, expires: int)
    requires Encodable(issuer) && Encodable(subject) && Encodable(role)
    ensures
      var ms := Payload(issuer, subject, role, now, expires);
      Joined(ms) == ms
  {
    var ms := Payload(issuer, subject, role, now, expires);
    forall i | 0 <= i < |ms| ensures EncodableFlat(ms[i]) {
      FiveKeysArePlain(ms, i);
    }
    JoinedEncodable(ms);
  }

  lemma PayloadTells(issuer: Characters, a: Characters, b: Characters, m: int, n: int,
                     c: Characters, d: Characters, k: int, l: int)
    requires Payload(issuer, a, b, m, n) == Payload(issuer, c, d, k, l)
    ensures a == c && b == d && m == k && n == l
  {
    var p, q := Payload(issuer, a, b, m, n), Payload(issuer, c, d, k, l);
    assert p[1] == q[1] && p[2] == q[2] && p[3] == q[3] && p[4] == q[4];
    DecimalTells(m, k);
    DecimalTells(n, l);
  }

  /** So equal bytes are of claims that come back alike. */
  lemma DumpsTell(ms: seq<Member>, ns: seq<Member>)
    requires AllFlat(ms) && AllFlat(ns) && Dumps(ms) == Dumps(ns)
    ensures Joined(ms) == Joined(ns)
  {
    FlatArePrintable(ms);
    FlatArePrintable(ns);
    var v, w := Obj(AllInUnits(ms)), Obj(AllInUnits(ns));
    assert Write(v) == Spelled(Dumps(ms)) by { WriteIsAscii(v); }
    assert Write(w) == Spelled(Dumps(ns)) by { WriteIsAscii(w); }
    WriteIsInjective(v, w);
  }
}
