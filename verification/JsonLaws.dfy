/** Reading undoes writing, so writing is injective. */
module JsonLaws {
  import opened Wrappers
  import opened Json
  import opened Numbers

  // ----- Texts -----

  lemma DigitOfHex(n: int)
    requires 0 <= n < 16
    ensures Digit(Hex(n)) == Some(n)
  {
  }

  lemma HexDigitsSum(u: int)
    requires IsUnit(u)
    ensures u / 4096 * 4096 + u / 256 % 16 * 256 + u / 16 % 16 * 16 + u % 16 == u
    ensures 0 <= u / 4096 < 16
  {
  }

  lemma ReadsEscape(u: int, rest: string)
    requires IsUnit(u)
    ensures ReadUnit(Escape(u) + rest) == Some((u, rest))
    ensures Escape(u)[0] != '"'
  {
    var s := Escape(u) + rest;
    if |Escape(u)| == 6 {
      HexDigitsSum(u);
      DigitOfHex(u / 4096);
      DigitOfHex(u / 256 % 16);
      DigitOfHex(u / 16 % 16);
      DigitOfHex(u % 16);
      assert s[6..] == rest;
    } else if |Escape(u)| == 2 {
      assert s[2..] == rest;
    } else {
      assert s[1..] == rest;
    }
  }

  /** One escaped unit in front of a text that can be read. */
  lemma ReadsOneMore(u: int, t: Text, s: string, rest: string)
    requires IsUnit(u) && ReadText(s) == Some((t, rest))
    ensures ReadText(Escape(u) + s) == Some(([u] + t, rest))
  {
    ReadsEscape(u, s);
    assert (Escape(u) + s)[0] == Escape(u)[0];
  }

  lemma ReadsQuote(rest: string)
    ensures ReadText("\"" + rest) == Some(([], rest))
  {
    assert ("\"" + rest)[1..] == rest;
  }

  lemma Associate(a: string, b: string, c: string)
    ensures a + b + c == a + (b + c)
  {
  }

  lemma {:induction false} ReadsText(t: Text, rest: string)
    requires UnitsOnly(t)
    ensures ReadText(WriteText(t) + rest) == Some((t, rest))
  {
    if t == [] {
      ReadsQuote(rest);
    } else {
      Associate(Escape(t[0]), WriteText(t[1..]), rest);
      ReadsText(t[1..], rest);
      ReadsOneMore(t[0], t[1..], WriteText(t[1..]) + rest, rest);
      assert [t[0]] + t[1..] == t;
    }
  }

  // ----- Words -----

  /** What may follow a word without becoming part of it. */
  predicate Stops(rest: string) { rest != "" ==> !WordChar(rest[0]) }

  lemma {:induction false} ReadsWord(word: string, rest: string)
    requires (forall c | c in word :: WordChar(c)) && Stops(rest)
    ensures WordLength(word + rest) == |word|
  {
    var s := word + rest;
    if word == "" {
      assert s == rest;
    } else {
      assert s[1..] == word[1..] + rest;
      ReadsWord(word[1..], rest);
    }
  }

  /** A scalar that is not a text, found again by its word. */
  lemma ReadsScalar(v: Json, word: string, rest: string)
    requires word != "" && (forall c | c in word :: WordChar(c)) && Stops(rest) && WordValue(word) == Some(v)
    ensures Read(word + rest) == Some((v, rest))
  {
    var s := word + rest;
    ReadsWord(word, rest);
    assert s[..|word|] == word && s[|word|..] == rest;
    assert WordChar(s[0]);
  }

  lemma LiteralIsNumber(s: string)
    requires IsLiteral(s)
    ensures WordValue(s) == Some(Number(s))
  {
  }

  lemma DecimalIsLiteral(n: int)
    ensures IsLiteral(Decimal(n))
  {
    var s := Decimal(n);
    forall c | c in s ensures WordChar(c) {
      var i :| 0 <= i < |s| && s[i] == c;
      assert n < 0 ==> s[0] == '-' && s[1..] == Digits(-n);
      assert i > 0 || n >= 0 ==> IsDigit(c);
    }
  }

  // ----- Values -----

  lemma {:induction false} Reads(v: Json, rest: string)
    requires Printable(v) && Stops(rest)
    ensures Read(Write(v) + rest) == Some((v, rest))
    decreases v
  {
    match v
    case Null => ReadsScalar(v, "null", rest);
    case Bool(b) => ReadsScalar(v, if b then "true" else "false", rest);
    case Number(s) =>
      LiteralIsNumber(s);
      ReadsScalar(v, s, rest);
    case Str(t) =>
      assert (Write(v) + rest)[1..] == WriteText(t) + rest;
      ReadsText(t, rest);
    case Arr(xs) => ReadsArray(xs, rest);
    case Obj(ms) => ReadsObject(ms, rest);
  }

  lemma WritesVisibly(v: Json)
    requires Printable(v)
    ensures Write(v) != "" && Write(v)[0] != ']' && Write(v)[0] != '}'
  {
    if v.Number? {
      assert v.literal[0] in v.literal;
    }
  }

  lemma {:induction false} ReadsArray(xs: seq<Json>, rest: string)
    requires PrintableItems(xs)
    ensures Read(Write(Arr(xs)) + rest) == Some((Arr(xs), rest))
    decreases xs, 1
  {
    var s := Write(Arr(xs)) + rest;
    if xs == [] {
      assert s[2..] == rest;
    } else {
      var tail := WriteItems(xs[1..]) + rest;
      assert s == "[" + (Write(xs[0]) + tail);
      WritesVisibly(xs[0]);
      Reads(xs[0], tail);
      ReadsItems(xs[1..], rest);
      ReadsFilledArray(Write(xs[0]) + tail, xs[0], tail, xs[1..], rest);
      assert [xs[0]] + xs[1..] == xs;
    }
  }

  lemma ReadsFilledArray(s: string, x: Json, tail: string, xs: seq<Json>, rest: string)
    requires s != "" && s[0] != ']' && Read(s) == Some((x, tail)) && ReadItems(tail) == Some((xs, rest))
    ensures Read("[" + s) == Some((Arr([x] + xs), rest))
  {
    assert ("[" + s)[1..] == s;
  }

  lemma {:induction false} ReadsItems(xs: seq<Json>, rest: string)
    requires PrintableItems(xs)
    ensures ReadItems(WriteItems(xs) + rest) == Some((xs, rest))
    decreases xs, 0
  {
    var s := WriteItems(xs) + rest;
    if xs == [] {
      assert s[1..] == rest;
    } else {
      var tail := WriteItems(xs[1..]) + rest;
      assert s[1..] == Write(xs[0]) + tail;
      Reads(xs[0], tail);
      ReadsItems(xs[1..], rest);
      assert [xs[0]] + xs[1..] == xs;
    }
  }

  lemma Regroup(a: string, b: string, c: string, d: string, e: string)
    ensures a + b + c + d + e == a + (b + (c + (d + e)))
  {
  }

  /** A key in front of anything that reads as a value. */
  lemma ReadsKey(key: Text, body: string, v: Json, rest: string)
    requires UnitsOnly(key) && Read(body) == Some((v, rest))
    ensures ReadMember("\"" + (WriteText(key) + (":" + body))) == Some((Member(key, v), rest))
  {
    var tail := ":" + body;
    var s := "\"" + (WriteText(key) + tail);
    assert s[1..] == WriteText(key) + tail;
    ReadsText(key, tail);
    assert tail[1..] == body;
  }

  lemma {:induction false} ReadsMember(m: Member, rest: string)
    requires UnitsOnly(m.key) && Printable(m.value) && Stops(rest)
    ensures ReadMember(WriteMember(m) + rest) == Some((m, rest))
    decreases m
  {
    var body := Write(m.value) + rest;
    Reads(m.value, rest);
    ReadsKey(m.key, body, m.value, rest);
    Regroup("\"", WriteText(m.key), ":", Write(m.value), rest);
  }

  lemma {:induction false} ReadsObject(ms: seq<Member>, rest: string)
    requires PrintableMembers(ms)
    ensures Read(Write(Obj(ms)) + rest) == Some((Obj(ms), rest))
    decreases ms, 1
  {
    var s := Write(Obj(ms)) + rest;
    if ms == [] {
      assert s[2..] == rest;
    } else {
      var tail := WriteMembers(ms[1..]) + rest;
      assert s == "{" + (WriteMember(ms[0]) + tail);
      ReadsMember(ms[0], tail);
      ReadsMembers(ms[1..], rest);
      ReadsFilledObject(WriteMember(ms[0]) + tail, ms[0], tail, ms[1..], rest);
      assert [ms[0]] + ms[1..] == ms;
    }
  }

  lemma ReadsFilledObject(s: string, m: Member, tail: string, ms: seq<Member>, rest: string)
    requires ReadMember(s) == Some((m, tail)) && ReadMembers(tail) == Some((ms, rest))
    ensures Read("{" + s) == Some((Obj([m] + ms), rest))
  {
    assert ("{" + s)[1..] == s;
    assert s[0] == '"';
  }

  lemma {:induction false} ReadsMembers(ms: seq<Member>, rest: string)
    requires PrintableMembers(ms)
    ensures ReadMembers(WriteMembers(ms) + rest) == Some((ms, rest))
    decreases ms, 0
  {
    var s := WriteMembers(ms) + rest;
    if ms == [] {
      assert s[1..] == rest;
    } else {
      var tail := WriteMembers(ms[1..]) + rest;
      assert s[1..] == WriteMember(ms[0]) + tail;
      ReadsMember(ms[0], tail);
      ReadsMembers(ms[1..], rest);
      assert [ms[0]] + ms[1..] == ms;
    }
  }

  /** Reading the whole of a printed value gives it back, so no two values print alike. */
  lemma RoundTrip(v: Json)
    requires Printable(v)
    ensures Read(Write(v)) == Some((v, ""))
  {
    Reads(v, "");
    assert Write(v) + "" == Write(v);
  }

  lemma WriteIsInjective(v: Json, w: Json)
    requires Printable(v) && Printable(w) && Write(v) == Write(w)
    ensures v == w
  {
    RoundTrip(v);
    RoundTrip(w);
  }

  // ----- ASCII -----

  lemma {:induction false} TextIsAscii(t: Text)
    requires UnitsOnly(t)
    ensures IsAscii(WriteText(t))
  {
    if t != [] {
      TextIsAscii(t[1..]);
      assert IsAscii(Escape(t[0]));
    }
  }

  /** Whatever the texts, what is printed is ASCII. */
  lemma {:induction false} WriteIsAscii(v: Json)
    requires Printable(v)
    ensures IsAscii(Write(v))
    decreases v
  {
    match v
    case Null =>
    case Bool(_) =>
    case Number(_) =>
    case Str(t) => TextIsAscii(t);
    case Arr(xs) =>
      if xs != [] {
        WriteIsAscii(xs[0]);
        ItemsAreAscii(xs[1..]);
      }
    case Obj(ms) =>
      if ms != [] {
        MemberIsAscii(ms[0]);
        MembersAreAscii(ms[1..]);
      }
  }

  lemma {:induction false} ItemsAreAscii(xs: seq<Json>)
    requires PrintableItems(xs)
    ensures IsAscii(WriteItems(xs))
    decreases xs
  {
    if xs != [] {
      WriteIsAscii(xs[0]);
      ItemsAreAscii(xs[1..]);
    }
  }

  lemma {:induction false} MemberIsAscii(m: Member)
    requires UnitsOnly(m.key) && Printable(m.value)
    ensures IsAscii(WriteMember(m))
    decreases m
  {
    TextIsAscii(m.key);
    WriteIsAscii(m.value);
  }

  lemma {:induction false} MembersAreAscii(ms: seq<Member>)
    requires PrintableMembers(ms)
    ensures IsAscii(WriteMembers(ms))
    decreases ms
  {
    if ms != [] {
      MemberIsAscii(ms[0]);
      MembersAreAscii(ms[1..]);
    }
  }

  // ----- The characters that are printed -----

  lemma HexExactly(n: int)
    requires 0 <= n < 16
    ensures Hex(n) == "0123456789abcdef"[n]
  {
  }

  /** Seven characters have short escapes, printable ASCII stands for itself, the rest is four lower-case digits. */
  lemma EscapeExactly(u: int)
    requires IsUnit(u)
    ensures Escape(u) ==
      match u
      case 0x22 => "\\\""
      case 0x5c => "\\\\"
      case 0x08 => "\\b"
      case 0x09 => "\\t"
      case 0x0a => "\\n"
      case 0x0c => "\\f"
      case 0x0d => "\\r"
      case _ =>
        var hex := "0123456789abcdef";
        if 0x20 <= u <= 0x7e then [u as char]
        else "\\u" + [hex[u / 4096], hex[u / 256 % 16], hex[u / 16 % 16], hex[u % 16]]
  {
    HexExactly(u / 4096);
    HexExactly(u / 256 % 16);
    HexExactly(u / 16 % 16);
    HexExactly(u % 16);
  }
}
