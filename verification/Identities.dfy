/** Execution identity: which requests are the same execution. */
module Identities {
  import opened Wrappers
  import opened Json
  import opened JsonLaws
  import opened Canonical
  import Modes
  import opened Numbers

  /** The part of a request that its identity is computed from. */
  datatype Identity = Identity(
    policyId: Text,
    version: int,
    evaluationId: Option<Text>,
    actionType: Text,
    actionName: Text,
    target: seq<Member>,
    incidentId: Option<int>,
    decisionId: Text,
    approvalId: Option<Text>,
    authorizationMode: Option<Text>,
    agentKey: Option<Text>)

  /** Python's `text or default`. */
  function Or(t: Option<Text>, default: Text): Text {
    if t.Some? && t.value != [] then t.value else default
  }

  // ----- The fingerprint -----

  const KEYS: seq<string> := [
    "policy_id", "policy_version", "evaluation_id", "action_type", "action_name", "target_hash",
    "incident_id", "decision_id", "approval_id", "auth_binding", "authorization_mode", "agent_key"]

  const MANUAL: Text := Ascii(Modes.MANUAL)
  const PREAUTHORIZED: Text := Ascii(Modes.PREAUTHORIZED)

  /** The digest stands for a truncated SHA-256 in hexadecimal. */
  function TargetHash(digest: string -> Text, target: seq<Member>): Text
    requires EncodableValue(Obj(target))
  {
    EncodableIsPython(Obj(target));
    Ascii("tgt-") + digest(Print(Obj(target)))
  }

  function AuthBinding(r: Identity): Text {
    var approval := Or(r.approvalId, []);
    if Or(r.authorizationMode, []) != PREAUTHORIZED then approval
    else Ascii("preauth:") + if approval != [] then approval else Ascii("grant")
  }

  predicate Proper(r: Identity) {
    && Encodable(r.policyId) && Encodable(r.actionType) && Encodable(r.actionName) && Encodable(r.decisionId)
    && Encodable(Or(r.evaluationId, [])) && Encodable(Or(r.approvalId, []))
    && Encodable(Or(r.authorizationMode, [])) && Encodable(Or(r.agentKey, []))
    && EncodableValue(Obj(r.target))
  }

  function Values(digest: string -> Text, r: Identity): seq<Json>
    requires Proper(r)
  {
    [ Str(r.policyId),
      Number(Decimal(r.version)),
      Str(Or(r.evaluationId, [])),
      Str(r.actionType),
      Str(r.actionName),
      Str(TargetHash(digest, r.target)),
      if r.incidentId.Some? then Number(Decimal(r.incidentId.value)) else Null,
      Str(r.decisionId),
      Str(Or(r.approvalId, [])),
      Str(AuthBinding(r)),
      Str(Or(r.authorizationMode, MANUAL)),
      Str(Or(r.agentKey, [])) ]
  }

  function Members(keys: seq<string>, values: seq<Json>): seq<Member>
    requires |keys| == |values|
  {
    seq(|keys|, i requires 0 <= i < |keys| => Member(Ascii(keys[i]), values[i]))
  }

  lemma AsciiTells(a: string, b: string)
    requires Ascii(a) == Ascii(b)
    ensures a == b
  {
    forall i | 0 <= i < |a| ensures a[i] == b[i] {
      assert Ascii(a)[i] == Ascii(b)[i];
    }
  }

  predicate Distinct(keys: seq<string>) { forall i, k | 0 <= i < k < |keys| :: keys[i] != keys[k] }

  /** Length and a few letters tell all keys apart. */
  function Mark(s: string): (int, char, char, char)
    requires |s| > 7
  {
    (|s|, s[0], s[1], s[7])
  }

  lemma KeysAreDistinct()
    ensures Distinct(KEYS)
  {
    assert Mark(KEYS[0]) == (9, 'p', 'o', 'i');
    assert Mark(KEYS[1]) == (14, 'p', 'o', 'v');
    assert Mark(KEYS[2]) == (13, 'e', 'v', 'i');
    assert Mark(KEYS[3]) == (11, 'a', 'c', 't');
    assert Mark(KEYS[4]) == (11, 'a', 'c', 'n');
    assert Mark(KEYS[5]) == (11, 't', 'a', 'h');
    assert Mark(KEYS[6]) == (11, 'i', 'n', 't');
    assert Mark(KEYS[7]) == (11, 'd', 'e', 'n');
    assert Mark(KEYS[8]) == (11, 'a', 'p', 'l');
    assert Mark(KEYS[9]) == (12, 'a', 'u', 'n');
    assert Mark(KEYS[10]) == (18, 'a', 'u', 'z');
    assert Mark(KEYS[11]) == (9, 'a', 'g', 'e');
    forall i, k | 0 <= i < k < |KEYS| ensures KEYS[i] != KEYS[k] {
      assert Mark(KEYS[i]) != Mark(KEYS[k]);
    }
  }

  lemma MembersAreEncodable(keys: seq<string>, values: seq<Json>)
    requires |keys| == |values| && Distinct(keys) && (forall k | k in keys :: IsAscii(k))
    requires forall i | 0 <= i < |values| :: EncodableValue(values[i])
    ensures EncodableValue(Obj(Members(keys, values)))
  {
    var ms := Members(keys, values);
    forall i, k | 0 <= i < k < |ms| ensures ms[i].key != ms[k].key {
      if ms[i].key == ms[k].key { AsciiTells(keys[i], keys[k]); }
    }
    forall i | 0 <= i < |ms| ensures Encodable(ms[i].key) {
      forall c | c in ms[i].key ensures IsCodePoint(c) && !IsSurrogate(c) {
        var j :| 0 <= j < |keys[i]| && Ascii(keys[i])[j] == c;
        assert keys[i] in keys && keys[i][j] in keys[i];
      }
    }
  }

  /** Objects with the same distinct keys in the same places are equal when their values are. */
  lemma PlacedMembersSame(ms: seq<Member>, ns: seq<Member>)
    requires |ms| == |ns| && forall i | 0 <= i < |ms| :: SameMember(ms[i], ns[i])
    ensures Same(Obj(ms), Obj(ns))
  {
    forall i | 0 <= i < |ms| ensures FoundIn(ms[i], ns) && Finds(ms, ns[i]) {
      assert SameMember(ms[i], ns[i]);
    }
  }

  lemma MemberIsPlaced(m: Member, ns: seq<Member>, i: nat)
    requires i < |ns| && DistinctKeys(ns) && m.key == ns[i].key && FoundIn(m, ns)
    ensures SameMember(m, ns[i])
  {
    var k :| 0 <= k < |ns| && SameMember(m, ns[k]);
    assert ns[k].key == ns[i].key;
  }

  lemma SameFinds(ms: seq<Member>, ns: seq<Member>, i: nat)
    requires i < |ms| && Same(Obj(ms), Obj(ns))
    ensures FoundIn(ms[i], ns)
  {
  }

  lemma SameMembersPlaced(ms: seq<Member>, ns: seq<Member>, i: nat)
    requires |ms| == |ns| && DistinctKeys(ns) && (forall k | 0 <= k < |ms| :: ms[k].key == ns[k].key)
    requires i < |ms| && Same(Obj(ms), Obj(ns))
    ensures SameMember(ms[i], ns[i])
  {
    SameFinds(ms, ns, i);
    MemberIsPlaced(ms[i], ns, i);
  }

  lemma MembersSameExactly(keys: seq<string>, v: seq<Json>, w: seq<Json>)
    requires |keys| == |v| == |w| && DistinctKeys(Members(keys, w))
    ensures Same(Obj(Members(keys, v)), Obj(Members(keys, w))) <==> forall i | 0 <= i < |keys| :: Same(v[i], w[i])
  {
    var ms, ns := Members(keys, v), Members(keys, w);
    if forall i | 0 <= i < |keys| :: Same(v[i], w[i]) {
      PlacedMembersSame(ms, ns);
    }
    if Same(Obj(ms), Obj(ns)) {
      forall i | 0 <= i < |keys| ensures Same(v[i], w[i]) {
        SameMembersPlaced(ms, ns, i);
      }
    }
  }

  lemma FirstKeysAreAscii()
    ensures forall k | k in KEYS[..6] :: IsAscii(k)
  {
    assert KEYS[..6] ==
      ["policy_id", "policy_version", "evaluation_id", "action_type", "action_name", "target_hash"];
  }

  lemma LastKeysAreAscii()
    ensures forall k | k in KEYS[6..] :: IsAscii(k)
  {
    assert KEYS[6..] ==
      ["incident_id", "decision_id", "approval_id", "auth_binding", "authorization_mode", "agent_key"];
  }

  lemma KeysAreAscii()
    ensures forall k | k in KEYS :: IsAscii(k)
  {
    FirstKeysAreAscii();
    LastKeysAreAscii();
    forall i | 0 <= i < |KEYS| ensures IsAscii(KEYS[i]) {
      assert KEYS[i] in KEYS[..6] || KEYS[i] in KEYS[6..];
    }
  }

  // ----- Identity -----

  predicate EncodableDigest(digest: string -> Text, r: Identity)
    requires Proper(r)
  {
    EncodableIsPython(Obj(r.target));
    Encodable(digest(Print(Obj(r.target))))
  }

  lemma JoinedIsEncodable(a: Text, b: Text)
    requires Encodable(a) && Encodable(b)
    ensures Encodable(a + b)
  {
  }

  lemma BindingIsEncodable(r: Identity)
    requires Proper(r)
    ensures Encodable(AuthBinding(r))
  {
    AsciiIsEncodable("preauth:");
    AsciiIsEncodable("grant");
    JoinedIsEncodable(Ascii("preauth:"), Ascii("grant"));
    JoinedIsEncodable(Ascii("preauth:"), Or(r.approvalId, []));
  }

  lemma TargetHashIsEncodable(digest: string -> Text, r: Identity)
    requires Proper(r) && EncodableDigest(digest, r)
    ensures Encodable(TargetHash(digest, r.target))
  {
    AsciiIsEncodable("tgt-");
    EncodableIsPython(Obj(r.target));
    JoinedIsEncodable(Ascii("tgt-"), digest(Print(Obj(r.target))));
  }

  predicate EncodableScalar(v: Json) {
    v.Null? || (v.Str? && Encodable(v.text)) || (v.Number? && IsLiteral(v.literal))
  }

  lemma ScalarIsEncodable(v: Json)
    requires EncodableScalar(v)
    ensures EncodableValue(v)
  {
  }

  lemma ValuesAreEncodable(digest: string -> Text, r: Identity)
    requires Proper(r) && EncodableDigest(digest, r)
    ensures forall i | 0 <= i < |KEYS| :: EncodableValue(Values(digest, r)[i])
  {
    TargetHashIsEncodable(digest, r);
    BindingIsEncodable(r);
    AsciiIsEncodable(Modes.MANUAL);
    DecimalIsLiteral(r.version);
    if r.incidentId.Some? { DecimalIsLiteral(r.incidentId.value); }
    forall i | 0 <= i < |KEYS| ensures EncodableValue(Values(digest, r)[i]) {
      ScalarIsEncodable(Values(digest, r)[i]);
    }
  }

  function Fingerprint(digest: string -> Text, r: Identity): Json
    requires Proper(r)
  {
    Obj(Members(KEYS, Values(digest, r)))
  }

  lemma Named(digest: string -> Text, r: Identity, i: nat)
    requires Proper(r) && i < |KEYS|
    ensures Lookup(Members(KEYS, Values(digest, r)), Ascii(KEYS[i])) == Some(Values(digest, r)[i])
  {
    var ms := Members(KEYS, Values(digest, r));
    KeysAreDistinct();
    forall a, b | 0 <= a < b < |ms| ensures ms[a].key != ms[b].key {
      if ms[a].key == ms[b].key { AsciiTells(KEYS[a], KEYS[b]); }
    }
    LookupAt(ms, i);
  }

  /** What the fingerprint says of policy, evaluation and action. */
  lemma FingerprintNamesAction(digest: string -> Text, r: Identity)
    requires Proper(r)
    ensures
      var ms := Fingerprint(digest, r).members;
      && |ms| == 12
      && Lookup(ms, Ascii("policy_id")) == Some(Str(r.policyId))
      && Lookup(ms, Ascii("policy_version")) == Some(Number(Decimal(r.version)))
      && Lookup(ms, Ascii("evaluation_id")) == Some(Str(Or(r.evaluationId, [])))
      && Lookup(ms, Ascii("action_type")) == Some(Str(r.actionType))
      && Lookup(ms, Ascii("action_name")) == Some(Str(r.actionName))
      && Lookup(ms, Ascii("target_hash")) == Some(Str(TargetHash(digest, r.target)))
  {
    Named(digest, r, 0);
    Named(digest, r, 1);
    Named(digest, r, 2);
    Named(digest, r, 3);
    Named(digest, r, 4);
    Named(digest, r, 5);
  }

  /** And of incident, decision, authorisation and agent; a grant is told apart from an approval of the same id. */
  lemma FingerprintNamesAuthority(digest: string -> Text, r: Identity)
    requires Proper(r)
    ensures
      var ms := Fingerprint(digest, r).members;
      var approval := Or(r.approvalId, []);
      && Lookup(ms, Ascii("incident_id")) ==
           Some(if r.incidentId.Some? then Number(Decimal(r.incidentId.value)) else Null)
      && Lookup(ms, Ascii("decision_id")) == Some(Str(r.decisionId))
      && Lookup(ms, Ascii("approval_id")) == Some(Str(approval))
      && Lookup(ms, Ascii("auth_binding")) == Some(Str(
           if r.authorizationMode != Some(Ascii("preauthorized_bounded")) then approval
           else if approval == [] then Ascii("preauth:grant") else Ascii("preauth:") + approval))
      && Lookup(ms, Ascii("authorization_mode")) == Some(Str(Or(r.authorizationMode, Ascii("approved_manual"))))
      && Lookup(ms, Ascii("agent_key")) == Some(Str(Or(r.agentKey, [])))
  {
    Named(digest, r, 6);
    Named(digest, r, 7);
    Named(digest, r, 8);
    Named(digest, r, 9);
    Named(digest, r, 10);
    Named(digest, r, 11);
    assert |PREAUTHORIZED| > 0;
    assert Ascii("preauth:") + Ascii("grant") == Ascii("preauth:grant");
  }

  lemma FingerprintIsEncodable(digest: string -> Text, r: Identity)
    requires Proper(r) && EncodableDigest(digest, r)
    ensures EncodableValue(Fingerprint(digest, r)) && PythonValue(Fingerprint(digest, r))
  {
    KeysAreDistinct();
    KeysAreAscii();
    ValuesAreEncodable(digest, r);
    MembersAreEncodable(KEYS, Values(digest, r));
    EncodableIsPython(Fingerprint(digest, r));
  }

  function ExecutionId(digest: string -> Text, r: Identity): Text
    requires Proper(r) && EncodableDigest(digest, r)
  {
    FingerprintIsEncodable(digest, r);
    Ascii("exe-") + digest(Print(Fingerprint(digest, r)))
  }

  /** The dimensions of identity, after their defaults; targets are compared as dictionaries. */
  predicate SameIdentity(r: Identity, q: Identity) {
    && r.policyId == q.policyId
    && r.version == q.version
    && Or(r.evaluationId, []) == Or(q.evaluationId, [])
    && r.actionType == q.actionType
    && r.actionName == q.actionName
    && Same(Obj(r.target), Obj(q.target))
    && r.incidentId == q.incidentId
    && r.decisionId == q.decisionId
    && Or(r.approvalId, []) == Or(q.approvalId, [])
    && Or(r.authorizationMode, MANUAL) == Or(q.authorizationMode, MANUAL)
    && Or(r.agentKey, []) == Or(q.agentKey, [])
  }

  ghost predicate Injective(digest: string -> Text) { forall s, t :: digest(s) == digest(t) ==> s == t }

  lemma PrefixedTells(prefix: Text, a: Text, b: Text)
    ensures prefix + a == prefix + b <==> a == b
  {
    assert (prefix + a)[|prefix|..] == a && (prefix + b)[|prefix|..] == b;
  }

  lemma TargetHashTells(digest: string -> Text, a: seq<Member>, b: seq<Member>)
    requires Injective(digest) && EncodableValue(Obj(a)) && EncodableValue(Obj(b))
    ensures TargetHash(digest, a) == TargetHash(digest, b) <==> Same(Obj(a), Obj(b))
  {
    PrintsAlikeWhenSame(Obj(a), Obj(b));
    PrefixedTells(Ascii("tgt-"), digest(Print(Obj(a))), digest(Print(Obj(b))));
  }

  /** The mode's default is not the preauthorised mode, so the binding adds nothing to the rest. */
  lemma BindingFollows(r: Identity, q: Identity)
    requires Or(r.approvalId, []) == Or(q.approvalId, [])
    requires Or(r.authorizationMode, MANUAL) == Or(q.authorizationMode, MANUAL)
    ensures AuthBinding(r) == AuthBinding(q)
  {
    assert |MANUAL| != |PREAUTHORIZED| && PREAUTHORIZED != [];
  }

  lemma ValuesTell(digest: string -> Text, r: Identity, q: Identity)
    requires Injective(digest) && Proper(r) && Proper(q)
    ensures Values(digest, r) == Values(digest, q) <==> SameIdentity(r, q)
  {
    var v, w := Values(digest, r), Values(digest, q);
    TargetHashTells(digest, r.target, q.target);
    if SameIdentity(r, q) {
      BindingFollows(r, q);
    }
    if v == w {
      assert v[0] == w[0] && v[1] == w[1] && v[2] == w[2] && v[3] == w[3] && v[4] == w[4] && v[5] == w[5];
      assert v[6] == w[6] && v[7] == w[7] && v[8] == w[8] && v[10] == w[10] && v[11] == w[11];
      DecimalTells(r.version, q.version);
      if r.incidentId.Some? && q.incidentId.Some? { DecimalTells(r.incidentId.value, q.incidentId.value); }
    }
  }

  lemma ValuesAreScalars(digest: string -> Text, r: Identity)
    requires Proper(r)
    ensures |Values(digest, r)| == |KEYS|
    ensures forall i | 0 <= i < |KEYS| :: !Values(digest, r)[i].Arr? && !Values(digest, r)[i].Obj?
  {
  }

  /** Scalars are the same only when they are equal. */
  lemma ScalarsSameExactly(v: seq<Json>, w: seq<Json>)
    requires |v| == |w| && forall i | 0 <= i < |v| :: !v[i].Arr? && !v[i].Obj?
    ensures (forall i | 0 <= i < |v| :: Same(v[i], w[i])) <==> v == w
  {
    if forall i | 0 <= i < |v| :: Same(v[i], w[i]) {
      assert forall i | 0 <= i < |v| :: v[i] == w[i];
    }
  }

  lemma FingerprintsTell(digest: string -> Text, r: Identity, q: Identity)
    requires Injective(digest) && Proper(r) && Proper(q) && EncodableDigest(digest, r) && EncodableDigest(digest, q)
    ensures Same(Fingerprint(digest, r), Fingerprint(digest, q)) <==> SameIdentity(r, q)
  {
    FingerprintIsEncodable(digest, q);
    MembersSameExactly(KEYS, Values(digest, r), Values(digest, q));
    ValuesAreScalars(digest, r);
    ScalarsSameExactly(Values(digest, r), Values(digest, q));
    ValuesTell(digest, r, q);
  }

  /** Requests share an execution exactly when the dimensions of identity coincide. */
  lemma SameExecutionExactly(digest: string -> Text, r: Identity, q: Identity)
    requires Injective(digest) && Proper(r) && Proper(q) && EncodableDigest(digest, r) && EncodableDigest(digest, q)
    ensures ExecutionId(digest, r) == ExecutionId(digest, q) <==> SameIdentity(r, q)
  {
    FingerprintIsEncodable(digest, r);
    FingerprintIsEncodable(digest, q);
    var a, b := Print(Fingerprint(digest, r)), Print(Fingerprint(digest, q));
    PrefixedTells(Ascii("exe-"), digest(a), digest(b));
    PrintsAlikeWhenSame(Fingerprint(digest, r), Fingerprint(digest, q));
    FingerprintsTell(digest, r, q);
  }

  /** Whatever the digest is, the same identity always gives the same execution id. */
  lemma SameIdentitySameExecution(digest: string -> Text, r: Identity, q: Identity)
    requires Proper(r) && Proper(q) && EncodableDigest(digest, r) && EncodableDigest(digest, q)
    requires SameIdentity(r, q)
    ensures ExecutionId(digest, r) == ExecutionId(digest, q)
  {
    PrintsAlikeWhenSame(Obj(r.target), Obj(q.target));
    BindingFollows(r, q);
    assert Values(digest, r) == Values(digest, q);
    FingerprintIsEncodable(digest, r);
  }
}
