/** The canonical form that checksums and execution identities are computed from. */
module Canonical {
  import opened Wrappers
  import opened Ordering
  import opened Json
  import opened JsonLaws

  // ----- Texts -----

  predicate IsCodePoint(c: int) { 0 <= c < 0x110000 }

  predicate IsSurrogate(c: int) { 0xD800 <= c < 0xE000 }

  /** Python strings may hold any code point, even a lone surrogate. */
  predicate PythonText(t: Text) { forall c | c in t :: IsCodePoint(c) }

  /** Text that can be encoded as UTF-8. */
  predicate Encodable(t: Text) { forall c | c in t :: IsCodePoint(c) && !IsSurrogate(c) }

  lemma AsciiIsEncodable(s: string)
    requires IsAscii(s)
    ensures Encodable(Ascii(s))
  {
    forall c | c in Ascii(s) ensures IsCodePoint(c) && !IsSurrogate(c) {
      var j :| 0 <= j < |s| && Ascii(s)[j] == c;
      assert s[j] in s;
    }
  }

  function UnitsOf(c: int): Text {
    if c < 0x10000 then [c] else [0xD800 + (c - 0x10000) / 0x400, 0xDC00 + (c - 0x10000) % 0x400]
  }

  /** What is printed of a string: code points beyond the first plane become two escapes. */
  function Units(t: Text): Text {
    if t == [] then [] else UnitsOf(t[0]) + Units(t[1..])
  }

  /** Joins a high and a low surrogate that stand together. */
  function Points(u: Text): Text {
    if |u| >= 2 && 0xD800 <= u[0] < 0xDC00 <= u[1] < 0xE000 then
      [0x10000 + (u[0] - 0xD800) * 0x400 + (u[1] - 0xDC00)] + Points(u[2..])
    else if u != [] then [u[0]] + Points(u[1..])
    else []
  }

  lemma {:induction false} UnitsAreUnits(t: Text)
    requires PythonText(t)
    ensures UnitsOnly(Units(t))
  {
    if t != [] {
      UnitsAreUnits(t[1..]);
      assert IsCodePoint(t[0]);
      assert UnitsOnly(UnitsOf(t[0]));
    }
  }

  lemma PointsOfOne(c: int, rest: Text)
    requires IsCodePoint(c) && !IsSurrogate(c)
    ensures Points(UnitsOf(c) + rest) == [c] + Points(rest)
  {
    var u := UnitsOf(c) + rest;
    if c < 0x10000 {
      assert u[1..] == rest;
    } else {
      assert u[2..] == rest;
    }
  }

  lemma {:induction false} PointsOfUnits(t: Text)
    requires Encodable(t)
    ensures Points(Units(t)) == t
  {
    if t != [] {
      PointsOfUnits(t[1..]);
      PointsOfOne(t[0], Units(t[1..]));
      assert [t[0]] + t[1..] == t;
    }
  }

  lemma UnitsAreInjective(s: Text, t: Text)
    requires Encodable(s) && Encodable(t) && Units(s) == Units(t)
    ensures s == t
  {
    PointsOfUnits(s);
    PointsOfUnits(t);
  }

  // ----- Key order -----

  predicate CodeBefore(x: int, y: int) { x < y }

  /** Keys are compared by code point. */
  predicate TextLe(a: Text, b: Text) { LexLe(a, b, CodeBefore) }

  predicate KeyLe(m: Member, n: Member) { TextLe(m.key, n.key) }

  lemma KeyLeOrders()
    ensures TotalPreorder(KeyLe)
  {
    forall m: Member, n: Member ensures KeyLe(m, n) || KeyLe(n, m) {
      LexLeTotal(m.key, n.key, CodeBefore);
    }
    forall m: Member, n: Member, o: Member | KeyLe(m, n) && KeyLe(n, o) ensures KeyLe(m, o) {
      LexLeTransitive(m.key, n.key, o.key, CodeBefore);
    }
  }

  // ----- The canonical form -----

  predicate DistinctKeys(ms: seq<Member>) { forall i, k | 0 <= i < k < |ms| :: ms[i].key != ms[k].key }

  /** Under distinct keys every member is found. */
  lemma {:induction false} LookupAt(ms: seq<Member>, i: nat)
    requires DistinctKeys(ms) && i < |ms|
    ensures Lookup(ms, ms[i].key) == Some(ms[i].value)
  {
    if i > 0 {
      LookupAt(ms[1..], i - 1);
    }
  }

  /** A value that Python can hold: dictionaries do not repeat keys. */
  predicate PythonValue(v: Json) {
    match v
    case Number(s) => IsLiteral(s)
    case Str(t) => PythonText(t)
    case Arr(xs) => forall x | x in xs :: PythonValue(x)
    case Obj(ms) => DistinctKeys(ms) && forall m | m in ms :: PythonText(m.key) && PythonValue(m.value)
    case _ => true
  }

  predicate EncodableValue(v: Json) {
    match v
    case Number(s) => IsLiteral(s)
    case Str(t) => Encodable(t)
    case Arr(xs) => forall x | x in xs :: EncodableValue(x)
    case Obj(ms) => DistinctKeys(ms) && forall m | m in ms :: Encodable(m.key) && EncodableValue(m.value)
    case _ => true
  }

  /** Keys sorted at every level, texts as the code units that are printed. */
  function Canon(v: Json): Json
    decreases v
  {
    match v
    case Str(t) => Str(Units(t))
    case Arr(xs) => Arr(CanonItems(xs))
    case Obj(ms) => Obj(EncodeKeys(Sort(CanonMembers(ms), KeyLe)))
    case _ => v
  }

  function CanonItems(xs: seq<Json>): (r: seq<Json>)
    ensures |r| == |xs| && forall i | 0 <= i < |xs| :: r[i] == Canon(xs[i])
    decreases xs
  {
    if xs == [] then [] else [Canon(xs[0])] + CanonItems(xs[1..])
  }

  function CanonMember(m: Member): Member
    decreases m
  {
    Member(m.key, Canon(m.value))
  }

  function CanonMembers(ms: seq<Member>): (r: seq<Member>)
    ensures |r| == |ms| && forall i | 0 <= i < |ms| :: r[i] == CanonMember(ms[i])
    decreases ms
  {
    if ms == [] then [] else [CanonMember(ms[0])] + CanonMembers(ms[1..])
  }

  function EncodeKeys(ms: seq<Member>): seq<Member> {
    seq(|ms|, i requires 0 <= i < |ms| => Member(Units(ms[i].key), ms[i].value))
  }

  lemma {:induction false} CanonIsPrintable(v: Json)
    requires PythonValue(v)
    ensures Printable(Canon(v))
    decreases v
  {
    match v
    case Str(t) => UnitsAreUnits(t);
    case Arr(xs) =>
      forall x | x in Canon(v).items ensures Printable(x) {
        var i :| 0 <= i < |xs| && Canon(v).items[i] == x;
        CanonIsPrintable(xs[i]);
      }
    case Obj(ms) =>
      var sorted := Sort(CanonMembers(ms), KeyLe);
      SortKeeps(CanonMembers(ms), KeyLe);
      forall m | m in EncodeKeys(sorted) ensures UnitsOnly(m.key) && Printable(m.value) {
        var k :| 0 <= k < |sorted| && EncodeKeys(sorted)[k] == m;
        assert sorted[k] in CanonMembers(ms);
        var i :| 0 <= i < |ms| && CanonMembers(ms)[i] == sorted[k];
        CanonIsPrintable(ms[i].value);
        UnitsAreUnits(ms[i].key);
      }
    case _ =>
  }

  /** A key comes before another: it is a beginning of it, or has the smaller code point where they part. */
  ghost predicate ComesBefore(a: Text, b: Text) {
    a < b || exists k: nat :: k < |a| && k < |b| && a[..k] == b[..k] && a[k] < b[k]
  }

  lemma TextLeMeans(a: Text, b: Text)
    ensures TextLe(a, b) <==> a == b || ComesBefore(a, b)
  {
    LexLeMeans(a, b, CodeBefore);
    if k: nat :| LessAt(a, b, CodeBefore, k) {
      assert a[k] < b[k];
    }
    if k: nat :| k < |a| && k < |b| && a[..k] == b[..k] && a[k] < b[k] {
      assert LessAt(a, b, CodeBefore, k);
    }
  }

  /** A printed member is one of the originals: its key in code units and its value in canonical form. */
  predicate Stems(ms: seq<Member>, i: nat, printed: Member) {
    i < |ms| && printed == Member(Units(ms[i].key), Canon(ms[i].value))
  }

  /** Two printed members stem from members whose keys ascend. */
  ghost predicate InKeyOrder(ms: seq<Member>, m: Member, n: Member) {
    exists i: nat, k: nat :: Stems(ms, i, m) && Stems(ms, k, n) && ComesBefore(ms[i].key, ms[k].key)
  }

  /** The canonical form of a dictionary: all its members, in the order of their original keys. */
  lemma KeysAscend(ms: seq<Member>)
    requires DistinctKeys(ms)
    ensures Canon(Obj(ms)).Obj? && |Canon(Obj(ms)).members| == |ms|
    ensures
      var out := Canon(Obj(ms)).members;
      forall a, b | 0 <= a < b < |out| :: InKeyOrder(ms, out[a], out[b])
    ensures forall m | m in ms :: Member(Units(m.key), Canon(m.value)) in Canon(Obj(ms)).members
  {
    var forms := CanonMembers(ms);
    var sorted := Sort(forms, KeyLe);
    var out := Canon(Obj(ms)).members;
    CanonMembersKeepKeys(ms);
    SortedMembers(forms);
    forall a, b | 0 <= a < b < |out| ensures InKeyOrder(ms, out[a], out[b]) {
      assert sorted[a] in forms && sorted[b] in forms;
      var i :| 0 <= i < |forms| && forms[i] == sorted[a];
      var k :| 0 <= k < |forms| && forms[k] == sorted[b];
      TextLeMeans(sorted[a].key, sorted[b].key);
      assert Stems(ms, i, out[a]) && Stems(ms, k, out[b]);
    }
    forall m | m in ms ensures Member(Units(m.key), Canon(m.value)) in out {
      var i :| 0 <= i < |ms| && ms[i] == m;
      assert forms[i] in sorted;
      var a :| 0 <= a < |sorted| && sorted[a] == forms[i];
      assert out[a] == Member(Units(m.key), Canon(m.value));
    }
  }

  /** `json.dumps` with sorted keys, compact separators and ASCII escapes. */
  function Print(v: Json): string
    requires PythonValue(v)
  {
    CanonIsPrintable(v);
    Write(Canon(v))
  }

  /** Two values print alike exactly when they have the same canonical form. */
  lemma PrintsAlikeExactly(v: Json, w: Json)
    requires PythonValue(v) && PythonValue(w)
    ensures Print(v) == Print(w) <==> Canon(v) == Canon(w)
  {
    CanonIsPrintable(v);
    CanonIsPrintable(w);
    if Print(v) == Print(w) {
      WriteIsInjective(Canon(v), Canon(w));
    }
  }

  // ----- Equality of values -----

  /** Equal as Python compares them, where dictionaries have no order. */
  predicate Same(v: Json, w: Json)
    decreases v
  {
    match v
    case Arr(xs) => w.Arr? && |xs| == |w.items| && forall i | 0 <= i < |xs| :: Same(xs[i], w.items[i])
    case Obj(ms) =>
      && w.Obj?
      && (forall i | 0 <= i < |ms| :: FoundIn(ms[i], w.members))
      && (forall k | 0 <= k < |w.members| :: Finds(ms, w.members[k]))
    case _ => v == w
  }

  predicate SameMember(m: Member, n: Member)
    decreases m, 0
  {
    m.key == n.key && Same(m.value, n.value)
  }

  predicate FoundIn(m: Member, ns: seq<Member>)
    decreases m, 1
  {
    exists k | 0 <= k < |ns| :: SameMember(m, ns[k])
  }

  predicate Finds(ms: seq<Member>, n: Member)
    decreases ms
  {
    exists i | 0 <= i < |ms| :: SameMember(ms[i], n)
  }

  lemma {:induction false} SameIsReflexive(v: Json)
    ensures Same(v, v)
    decreases v
  {
    match v
    case Arr(xs) => forall i | 0 <= i < |xs| ensures Same(xs[i], xs[i]) { SameIsReflexive(xs[i]); }
    case Obj(ms) =>
      forall i | 0 <= i < |ms| ensures SameMember(ms[i], ms[i]) { SameIsReflexive(ms[i].value); }
      forall i | 0 <= i < |ms| ensures FoundIn(ms[i], ms) && Finds(ms, ms[i]) { assert SameMember(ms[i], ms[i]); }
    case _ =>
  }

  ghost predicate Strict(ms: seq<Member>) {
    forall i, k | 0 <= i < k < |ms| :: KeyLe(ms[i], ms[k]) && ms[i].key != ms[k].key
  }

  lemma MembersOfNone(a: seq<Member>)
    requires forall m :: m !in a
    ensures a == []
  {
    if a != [] {
      AnyMember(a);
      assert false;
    }
  }

  lemma AnyMember(a: seq<Member>)
    requires a != []
    ensures exists m :: m in a
  {
    assert a[0] in a;
  }

  /** Strictly sorted lists with the same members are the same list. */
  lemma {:induction false} StrictlySortedOnce(a: seq<Member>, b: seq<Member>)
    requires Strict(a) && Strict(b) && forall m :: m in a <==> m in b
    ensures a == b
  {
    if a == [] {
      MembersOfNone(b);
    } else if b == [] {
      MembersOfNone(a);
    } else {
      assert a[0] in b && b[0] in a;
      var k :| 0 <= k < |b| && b[k] == a[0];
      var i :| 0 <= i < |a| && a[i] == b[0];
      if a[0] != b[0] {
        assert KeyLe(a[0], a[i]) && KeyLe(b[0], b[k]);
        LexLeTotal(a[0].key, b[0].key, CodeBefore);
        assert false;
      }
      forall m ensures m in a[1..] <==> m in b[1..] {
        HeadIsAlone(a, m);
        HeadIsAlone(b, m);
      }
      StrictlySortedOnce(a[1..], b[1..]);
      assert a == [a[0]] + a[1..] && b == [b[0]] + b[1..];
    }
  }

  lemma HeadIsAlone(a: seq<Member>, m: Member)
    requires a != [] && Strict(a)
    ensures m in a[1..] <==> m in a && m != a[0]
  {
    assert a == [a[0]] + a[1..];
  }

  lemma SortedMembers(ms: seq<Member>)
    requires DistinctKeys(ms)
    ensures Strict(Sort(ms, KeyLe))
    ensures forall m :: m in Sort(ms, KeyLe) <==> m in ms
  {
    KeyLeOrders();
    SortOrders(ms, KeyLe);
    SortKeeps(ms, KeyLe);
    var s := Sort(ms, KeyLe);
    RearrangedStaysDistinct(ms, s, (m: Member) => m.key);
    forall i, k | 0 <= i < k < |s| ensures s[i].key != s[k].key {
      assert ((m: Member) => m.key)(s[i]) != ((m: Member) => m.key)(s[k]);
    }
  }

  predicate EncodableMember(m: Member) { Encodable(m.key) && EncodableValue(m.value) }

  lemma CanonMembersKeepKeys(ms: seq<Member>)
    requires DistinctKeys(ms)
    ensures DistinctKeys(CanonMembers(ms))
  {
  }

  lemma {:induction false} SameHasOneForm(v: Json, w: Json)
    requires EncodableValue(v) && EncodableValue(w) && Same(v, w)
    ensures Canon(v) == Canon(w)
    decreases v
  {
    match v
    case Arr(xs) =>
      forall i | 0 <= i < |xs| ensures Canon(xs[i]) == Canon(w.items[i]) {
        SameHasOneForm(xs[i], w.items[i]);
      }
    case Obj(ms) => SortsAlike(ms, w.members);
    case _ =>
  }

  lemma {:induction false} SameMemberOneForm(m: Member, n: Member)
    requires EncodableMember(m) && EncodableMember(n) && SameMember(m, n)
    ensures CanonMember(m) == CanonMember(n)
    decreases m
  {
    SameHasOneForm(m.value, n.value);
  }

  predicate EncodableMembers(ms: seq<Member>) { DistinctKeys(ms) && forall i | 0 <= i < |ms| :: EncodableMember(ms[i]) }

  /** Members that match each other one by one have the same canonical members. */
  lemma {:induction false} FormsFoundIn(ms: seq<Member>, ns: seq<Member>, i: nat)
    requires EncodableMembers(ms) && EncodableMembers(ns) && i < |ms| && FoundIn(ms[i], ns)
    ensures CanonMembers(ms)[i] in CanonMembers(ns)
    decreases ms, 0
  {
    var k :| 0 <= k < |ns| && SameMember(ms[i], ns[k]);
    SameMemberOneForm(ms[i], ns[k]);
    assert CanonMembers(ns)[k] == CanonMembers(ms)[i];
  }

  lemma {:induction false} FormsFindBack(ms: seq<Member>, ns: seq<Member>, k: nat)
    requires EncodableMembers(ms) && EncodableMembers(ns) && k < |ns| && Finds(ms, ns[k])
    ensures CanonMembers(ns)[k] in CanonMembers(ms)
    decreases ms, 0
  {
    var i :| 0 <= i < |ms| && SameMember(ms[i], ns[k]);
    SameMemberOneForm(ms[i], ns[k]);
    assert CanonMembers(ms)[i] == CanonMembers(ns)[k];
  }

  lemma {:induction false} SortsAlike(ms: seq<Member>, ns: seq<Member>)
    requires EncodableMembers(ms) && EncodableMembers(ns)
    requires forall i | 0 <= i < |ms| :: FoundIn(ms[i], ns)
    requires forall k | 0 <= k < |ns| :: Finds(ms, ns[k])
    ensures Sort(CanonMembers(ms), KeyLe) == Sort(CanonMembers(ns), KeyLe)
    decreases ms, 1
  {
    forall i | 0 <= i < |ms| ensures CanonMembers(ms)[i] in CanonMembers(ns) { FormsFoundIn(ms, ns, i); }
    forall k | 0 <= k < |ns| ensures CanonMembers(ns)[k] in CanonMembers(ms) { FormsFindBack(ms, ns, k); }
    CanonMembersKeepKeys(ms);
    CanonMembersKeepKeys(ns);
    SortedMembers(CanonMembers(ms));
    SortedMembers(CanonMembers(ns));
    StrictlySortedOnce(Sort(CanonMembers(ms), KeyLe), Sort(CanonMembers(ns), KeyLe));
  }

  /** Encoded keys tell members apart as well as the keys themselves. */
  lemma EncodedKeysTell(a: seq<Member>, b: seq<Member>)
    requires (forall m | m in a :: Encodable(m.key)) && (forall m | m in b :: Encodable(m.key))
    requires EncodeKeys(a) == EncodeKeys(b)
    ensures a == b
  {
    assert |a| == |EncodeKeys(a)| == |EncodeKeys(b)| == |b|;
    forall i | 0 <= i < |a| ensures a[i] == b[i] {
      assert EncodeKeys(a)[i] == EncodeKeys(b)[i];
      UnitsAreInjective(a[i].key, b[i].key);
    }
  }

  lemma SortedTell(a: seq<Member>, b: seq<Member>)
    requires (forall m | m in a :: Encodable(m.key)) && (forall m | m in b :: Encodable(m.key))
    requires EncodeKeys(Sort(a, KeyLe)) == EncodeKeys(Sort(b, KeyLe))
    ensures forall m :: m in a <==> m in b
  {
    SortKeeps(a, KeyLe);
    SortKeeps(b, KeyLe);
    EncodedKeysTell(Sort(a, KeyLe), Sort(b, KeyLe));
  }

  lemma {:induction false} OneFormIsSame(v: Json, w: Json)
    requires EncodableValue(v) && EncodableValue(w) && Canon(v) == Canon(w)
    ensures Same(v, w)
    decreases v
  {
    match v
    case Str(t) => UnitsAreInjective(t, w.text);
    case Arr(xs) =>
      forall i | 0 <= i < |xs| ensures Same(xs[i], w.items[i]) {
        assert Canon(xs[i]) == CanonItems(xs)[i] == CanonItems(w.items)[i];
        OneFormIsSame(xs[i], w.items[i]);
      }
    case Obj(ms) => OneFormSameMembers(ms, w.members);
    case _ =>
  }

  lemma {:induction false} OneFormSameMember(m: Member, n: Member)
    requires EncodableMember(m) && EncodableMember(n) && CanonMember(m) == CanonMember(n)
    ensures SameMember(m, n)
    decreases m
  {
    OneFormIsSame(m.value, n.value);
  }

  lemma {:induction false} OneFormSameMembers(ms: seq<Member>, ns: seq<Member>)
    requires EncodableMembers(ms) && EncodableMembers(ns)
    requires EncodeKeys(Sort(CanonMembers(ms), KeyLe)) == EncodeKeys(Sort(CanonMembers(ns), KeyLe))
    ensures forall i | 0 <= i < |ms| :: FoundIn(ms[i], ns)
    ensures forall k | 0 <= k < |ns| :: Finds(ms, ns[k])
    decreases ms
  {
    var a, b := CanonMembers(ms), CanonMembers(ns);
    SortedTell(a, b);
    forall i | 0 <= i < |ms| ensures FoundIn(ms[i], ns) {
      assert a[i] in b;
      var k :| 0 <= k < |b| && b[k] == a[i];
      OneFormSameMember(ms[i], ns[k]);
    }
    forall k | 0 <= k < |ns| ensures Finds(ms, ns[k]) {
      assert b[k] in a;
      var i :| 0 <= i < |a| && a[i] == b[k];
      OneFormSameMember(ms[i], ns[k]);
    }
  }

  lemma {:induction false} EncodableIsPython(v: Json)
    requires EncodableValue(v)
    ensures PythonValue(v)
    decreases v
  {
    match v
    case Arr(xs) => forall x | x in xs ensures PythonValue(x) { EncodableIsPython(x); }
    case Obj(ms) => forall m | m in ms ensures PythonValue(m.value) { EncodableIsPython(m.value); }
    case _ =>
  }

  /** Without surrogates, values print alike exactly when they are equal, whatever the order of keys. */
  lemma PrintsAlikeWhenSame(v: Json, w: Json)
    requires EncodableValue(v) && EncodableValue(w)
    ensures PythonValue(v) && PythonValue(w)
    ensures Print(v) == Print(w) <==> Same(v, w)
  {
    EncodableIsPython(v);
    EncodableIsPython(w);
    PrintsAlikeExactly(v, w);
    if Canon(v) == Canon(w) {
      OneFormIsSame(v, w);
    } else if Same(v, w) {
      SameHasOneForm(v, w);
    }
  }

  /** With surrogates they need not be: every code point beyond the first plane has such a double. */
  lemma SurrogatesPrintLikeTheirPoint(c: int)
    requires 0x10000 <= c < 0x110000
    ensures PythonValue(Str([c])) && PythonValue(Str(UnitsOf(c)))
    ensures Print(Str([c])) == Print(Str(UnitsOf(c))) && !Same(Str([c]), Str(UnitsOf(c)))
  {
    var u := UnitsOf(c);
    assert Units(u) == u by {
      assert u[1..] == [u[1]] && u[1..][1..] == [];
      assert Units(u[1..]) == [u[1]];
    }
    assert Units([c]) == u by { assert [c][1..] == []; }
    PrintsAlikeExactly(Str([c]), Str(u));
  }
}
