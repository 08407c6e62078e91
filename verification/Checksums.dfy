/** Report checksums: canonical text of everything but the checksum itself. */
module Checksums {
  import opened Wrappers
  import opened Json
  import opened Canonical

  const CHECKSUM: Text := Ascii("checksum")

  function Without(ms: seq<Member>, key: Text): seq<Member> {
    if ms == [] then []
    else if ms[0].key == key then Without(ms[1..], key)
    else [ms[0]] + Without(ms[1..], key)
  }

  /** `report[key] = value`: in place, or at the end. */
  function Store(ms: seq<Member>, key: Text, value: Json): seq<Member> {
    if ms == [] then [Member(key, value)]
    else if ms[0].key == key then [Member(key, value)] + ms[1..]
    else [ms[0]] + Store(ms[1..], key, value)
  }

  lemma {:induction false} FilteredMembers(ms: seq<Member>, key: Text)
    ensures forall m :: m in Without(ms, key) <==> m in ms && m.key != key
  {
    if ms != [] {
      FilteredMembers(ms[1..], key);
      assert ms == [ms[0]] + ms[1..];
    }
  }

  lemma {:induction false} FilteredKeysAreDistinct(ms: seq<Member>, key: Text)
    requires DistinctKeys(ms)
    ensures DistinctKeys(Without(ms, key))
  {
    if ms != [] {
      FilteredKeysAreDistinct(ms[1..], key);
      FilteredMembers(ms[1..], key);
      var rest := Without(ms[1..], key);
      forall k | 0 <= k < |rest| ensures rest[k].key != ms[0].key {
        assert rest[k] in ms[1..];
      }
    }
  }

  lemma WithoutMembers(ms: seq<Member>, key: Text)
    ensures forall m :: m in Without(ms, key) <==> m in ms && m.key != key
    ensures EncodableValue(Obj(ms)) ==> EncodableValue(Obj(Without(ms, key)))
  {
    FilteredMembers(ms, key);
    if EncodableValue(Obj(ms)) {
      FilteredKeysAreDistinct(ms, key);
    }
  }

  /** The text that is hashed. */
  function CanonicalText(report: seq<Member>): string
    requires EncodableValue(Obj(report))
  {
    WithoutMembers(report, CHECKSUM);
    EncodableIsPython(Obj(Without(report, CHECKSUM)));
    Print(Obj(Without(report, CHECKSUM)))
  }

  function ComputeChecksum(hash: string -> Text, report: seq<Member>): Text
    requires EncodableValue(Obj(report))
  {
    hash(CanonicalText(report))
  }

  predicate VerifyChecksum(hash: string -> Text, report: seq<Member>)
    requires EncodableValue(Obj(report))
  {
    (match Lookup(report, CHECKSUM) case Some(v) => v case None => Str([])) == Str(ComputeChecksum(hash, report))
  }

  /** The same members with the same values, apart from the checksum and from order. */
  ghost predicate AgreeApart(a: seq<Member>, b: seq<Member>) {
    && (forall m | m in a && m.key != Ascii("checksum") :: exists n :: n in b && SameMember(m, n))
    && (forall n | n in b && n.key != Ascii("checksum") :: exists m :: m in a && SameMember(m, n))
  }

  lemma ReportsSameExactly(a: seq<Member>, b: seq<Member>)
    ensures Same(Obj(Without(a, CHECKSUM)), Obj(Without(b, CHECKSUM))) <==> AgreeApart(a, b)
  {
    var p, q := Without(a, CHECKSUM), Without(b, CHECKSUM);
    WithoutMembers(a, CHECKSUM);
    WithoutMembers(b, CHECKSUM);
    if AgreeApart(a, b) {
      forall i | 0 <= i < |p| ensures FoundIn(p[i], q) {
        assert p[i] in p;
        var n :| n in b && SameMember(p[i], n);
        assert n in q;
      }
      forall k | 0 <= k < |q| ensures Finds(p, q[k]) {
        assert q[k] in q;
        var m :| m in a && SameMember(m, q[k]);
        assert m in p;
      }
    }
    if Same(Obj(p), Obj(q)) {
      forall m | m in a && m.key != CHECKSUM ensures exists n :: n in b && SameMember(m, n) {
        var i :| 0 <= i < |p| && p[i] == m;
        assert FoundIn(p[i], q);
        var k :| 0 <= k < |q| && SameMember(p[i], q[k]);
        assert q[k] in q;
      }
      forall n | n in b && n.key != CHECKSUM ensures exists m :: m in a && SameMember(m, n) {
        var k :| 0 <= k < |q| && q[k] == n;
        assert Finds(p, q[k]);
        var i :| 0 <= i < |p| && SameMember(p[i], q[k]);
        assert p[i] in p;
      }
    }
  }

  /** Two reports have the same canonical text exactly when they agree apart from the checksum. */
  lemma CanonicalTextExactly(a: seq<Member>, b: seq<Member>)
    requires EncodableValue(Obj(a)) && EncodableValue(Obj(b))
    ensures CanonicalText(a) == CanonicalText(b) <==> AgreeApart(a, b)
  {
    WithoutMembers(a, CHECKSUM);
    WithoutMembers(b, CHECKSUM);
    PrintsAlikeWhenSame(Obj(Without(a, CHECKSUM)), Obj(Without(b, CHECKSUM)));
    ReportsSameExactly(a, b);
  }

  lemma {:induction false} StoredMembers(ms: seq<Member>, key: Text, value: Json)
    ensures forall m :: m in Store(ms, key, value) ==> m in ms || m == Member(key, value)
  {
    if ms != [] && ms[0].key != key {
      StoredMembers(ms[1..], key, value);
    }
  }

  lemma {:induction false} StoredKeysAreDistinct(ms: seq<Member>, key: Text, value: Json)
    requires DistinctKeys(ms)
    ensures DistinctKeys(Store(ms, key, value))
  {
    if ms != [] && ms[0].key != key {
      StoredKeysAreDistinct(ms[1..], key, value);
      StoredMembers(ms[1..], key, value);
      var stored := Store(ms[1..], key, value);
      forall k | 0 <= k < |stored| ensures stored[k].key != ms[0].key {
        assert stored[k] in stored;
      }
    }
  }

  lemma {:induction false} StoredIsFound(ms: seq<Member>, key: Text, value: Json)
    ensures Lookup(Store(ms, key, value), key) == Some(value)
  {
    if ms != [] && ms[0].key != key {
      StoredIsFound(ms[1..], key, value);
      assert ([ms[0]] + Store(ms[1..], key, value))[1..] == Store(ms[1..], key, value);
    }
  }

  lemma {:induction false} StoreChangesNoOther(ms: seq<Member>, key: Text, value: Json)
    ensures Without(Store(ms, key, value), key) == Without(ms, key)
  {
    if ms == [] {
    } else if ms[0].key == key {
      assert ([Member(key, value)] + ms[1..])[1..] == ms[1..];
    } else {
      StoreChangesNoOther(ms[1..], key, value);
      assert ([ms[0]] + Store(ms[1..], key, value))[1..] == Store(ms[1..], key, value);
    }
  }

  lemma StoreFacts(ms: seq<Member>, key: Text, value: Json)
    requires EncodableValue(Obj(ms)) && Encodable(key) && EncodableValue(value)
    ensures EncodableValue(Obj(Store(ms, key, value)))
    ensures Lookup(Store(ms, key, value), key) == Some(value)
    ensures Without(Store(ms, key, value), key) == Without(ms, key)
  {
    StoredMembers(ms, key, value);
    StoredKeysAreDistinct(ms, key, value);
    StoredIsFound(ms, key, value);
    StoreChangesNoOther(ms, key, value);
  }

  lemma ChecksumIsEncodable()
    ensures Encodable(CHECKSUM)
  {
    forall c | c in CHECKSUM ensures IsCodePoint(c) && !IsSurrogate(c) {
      var i :| 0 <= i < |CHECKSUM| && CHECKSUM[i] == c;
      assert "checksum"[i] in "checksum";
    }
  }

  /** A report that its own checksum was stored in verifies, whatever checksum it had before. */
  lemma StampedReportVerifies(hash: string -> Text, report: seq<Member>)
    requires EncodableValue(Obj(report)) && forall s :: Encodable(hash(s))
    ensures
      var stamped := Store(report, CHECKSUM, Str(ComputeChecksum(hash, report)));
      EncodableValue(Obj(stamped)) && VerifyChecksum(hash, stamped)
  {
    ChecksumIsEncodable();
    StoreFacts(report, CHECKSUM, Str(ComputeChecksum(hash, report)));
  }

  /** Under an injective hash a stored checksum vouches for exactly the reports that agree with the original. */
  lemma VerifiesExactly(hash: string -> Text, report: seq<Member>, original: seq<Member>)
    requires forall s, t :: hash(s) == hash(t) ==> s == t
    requires EncodableValue(Obj(report)) && EncodableValue(Obj(original))
    requires Lookup(report, CHECKSUM) == Some(Str(ComputeChecksum(hash, original)))
    ensures VerifyChecksum(hash, report) <==> AgreeApart(report, original)
  {
    CanonicalTextExactly(report, original);
  }
}
