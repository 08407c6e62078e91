/** Unpadded base64url: RFC 4648, section 5, with the library decoder's leniency. */
module Base64 {
  import opened Wrappers

  type byte = b: int | 0 <= b < 256
  type sextet = n: int | 0 <= n < 64

  const PAD := '='

  function Symbol(n: sextet): char {
    if n < 26 then 'A' + n as char
    else if n < 52 then 'a' + (n - 26) as char
    else if n < 62 then '0' + (n - 52) as char
    else if n == 62 then '-' else '_'
  }

  /** The decoder knows both alphabets; any other character is skipped. */
  function Value(c: char): Option<sextet> {
    if 'A' <= c <= 'Z' then Some((c - 'A') as int)
    else if 'a' <= c <= 'z' then Some((c - 'a') as int + 26)
    else if '0' <= c <= '9' then Some((c - '0') as int + 52)
    else if c == '-' || c == '+' then Some(62)
    else if c == '_' || c == '/' then Some(63)
    else None
  }

  // ----- Encoding -----

  function Group(a: byte, b: byte, c: byte): string {
    [Symbol(a / 4), Symbol(a % 4 * 16 + b / 16), Symbol(b % 16 * 4 + c / 64), Symbol(c % 64)]
  }

  /** Four characters for every three bytes, padded at the end. */
  function Padded(x: seq<byte>): string {
    if |x| == 0 then ""
    else if |x| == 1 then [Symbol(x[0] / 4), Symbol(x[0] % 4 * 16), PAD, PAD]
    else if |x| == 2 then [Symbol(x[0] / 4), Symbol(x[0] % 4 * 16 + x[1] / 16), Symbol(x[1] % 16 * 4), PAD]
    else Group(x[0], x[1], x[2]) + Padded(x[3..])
  }

  function StripPadding(s: string): string {
    if s != "" && s[|s| - 1] == PAD then StripPadding(s[..|s| - 1]) else s
  }

  function Encode(x: seq<byte>): string { StripPadding(Padded(x)) }

  // ----- Decoding -----

  function Pads(n: nat): string { seq(n, _ => PAD) }

  /**
    * The decoder at position `quad` of a group of four with `left` bits of the group not yet
    * written and `pads` padding characters met in a row. Enough padding ends the input.
    */
  function Scan(s: string, quad: nat, left: nat, pads: nat): Option<seq<byte>>
    requires quad < 4
    requires left < (match quad case 1 => 64 case 2 => 16 case 3 => 4 case _ => 1)
  {
    if s == "" then
      if quad == 0 then Some([]) else None
    else if s[0] == PAD then
      if quad < 2 then Scan(s[1..], quad, left, pads)
      else if quad + pads + 1 >= 4 then Some([])
      else Scan(s[1..], quad, left, pads + 1)
    else
      match Value(s[0])
      case None => Scan(s[1..], quad, left, pads)
      case Some(v) =>
        if quad == 0 then Scan(s[1..], 1, v, 0)
        else if quad == 1 then Emit(left * 4 + v / 16, Scan(s[1..], 2, v % 16, 0))
        else if quad == 2 then Emit(left * 16 + v / 4, Scan(s[1..], 3, v % 4, 0))
        else Emit(left * 64 + v, Scan(s[1..], 0, 0, 0))
  }

  function Emit(b: byte, rest: Option<seq<byte>>): Option<seq<byte>> {
    if rest.Some? then Some([b] + rest.value) else None
  }

  /** Python's `-n % 4`. */
  function MissingPads(n: nat): nat { (4 - n % 4) % 4 }

  function Decode(s: string): Option<seq<byte>> { Scan(s + Pads(MissingPads(|s|)), 0, 0, 0) }

  // ----- Laws -----

  lemma ValueOfSymbol(n: sextet)
    ensures Value(Symbol(n)) == Some(n)
    ensures Symbol(n) != PAD && Symbol(n) != '.'
  {
  }

  lemma ScanSymbol(n: sextet, rest: string, quad: nat, left: nat, pads: nat)
    requires quad < 4
    requires left < (match quad case 1 => 64 case 2 => 16 case 3 => 4 case _ => 1)
    ensures Scan([Symbol(n)] + rest, quad, left, pads) ==
      if quad == 0 then Scan(rest, 1, n, 0)
      else if quad == 1 then Emit(left * 4 + n / 16, Scan(rest, 2, n % 16, 0))
      else if quad == 2 then Emit(left * 16 + n / 4, Scan(rest, 3, n % 4, 0))
      else Emit(left * 64 + n, Scan(rest, 0, 0, 0))
  {
    ValueOfSymbol(n);
    assert ([Symbol(n)] + rest)[1..] == rest;
  }

  /** The four sextets of three bytes hold all their bits. */
  lemma SextetsJoin(a: byte, b: byte, c: byte)
    ensures a / 4 * 4 + (a % 4 * 16 + b / 16) / 16 == a
    ensures (a % 4 * 16 + b / 16) % 16 * 16 + (b % 16 * 4 + c / 64) / 4 == b
    ensures (b % 16 * 4 + c / 64) % 4 * 64 + c % 64 == c
  {
  }

  lemma FourThen(w: char, x: char, y: char, z: char, rest: string)
    ensures [w, x, y, z] + rest == [w] + ([x] + ([y] + ([z] + rest)))
  {
  }

  /** The first two sextets of a group give its first byte and four bits. */
  lemma ScanFront(s0: sextet, s1: sextet, rest: string)
    ensures Scan([Symbol(s0)] + ([Symbol(s1)] + rest), 0, 0, 0) == Emit(s0 * 4 + s1 / 16, Scan(rest, 2, s1 % 16, 0))
  {
    ScanSymbol(s0, [Symbol(s1)] + rest, 0, 0, 0);
    ScanSymbol(s1, rest, 1, s0, 0);
  }

  /** The last two give the other two bytes. */
  lemma ScanBack(left: nat, s2: sextet, s3: sextet, rest: string)
    requires left < 16
    ensures Scan([Symbol(s2)] + ([Symbol(s3)] + rest), 2, left, 0) ==
      Emit(left * 16 + s2 / 4, Emit(s2 % 4 * 64 + s3, Scan(rest, 0, 0, 0)))
  {
    ScanSymbol(s2, [Symbol(s3)] + rest, 2, left, 0);
    ScanSymbol(s3, rest, 3, s2 % 4, 0);
  }

  lemma ScanFour(s0: sextet, s1: sextet, s2: sextet, s3: sextet, rest: string)
    ensures Scan([Symbol(s0), Symbol(s1), Symbol(s2), Symbol(s3)] + rest, 0, 0, 0) ==
      Emit(s0 * 4 + s1 / 16, Emit(s1 % 16 * 16 + s2 / 4, Emit(s2 % 4 * 64 + s3, Scan(rest, 0, 0, 0))))
  {
    FourThen(Symbol(s0), Symbol(s1), Symbol(s2), Symbol(s3), rest);
    ScanFront(s0, s1, [Symbol(s2)] + ([Symbol(s3)] + rest));
    ScanBack(s1 % 16, s2, s3, rest);
  }

  /** A full group of four gives back its three bytes. */
  lemma ScanGroup(a: byte, b: byte, c: byte, rest: string)
    ensures Scan(Group(a, b, c) + rest, 0, 0, 0) == Emit(a, Emit(b, Emit(c, Scan(rest, 0, 0, 0))))
  {
    ScanFour(a / 4, a % 4 * 16 + b / 16, b % 16 * 4 + c / 64, c % 64, rest);
    SextetsJoin(a, b, c);
  }

  lemma ScanPads(quad: nat, left: nat)
    requires 2 <= quad < 4 && left < (if quad == 2 then 16 else 4)
    ensures Scan(Pads(4 - quad), quad, left, 0) == Some([])
  {
    var end := Pads(4 - quad);
    if quad == 2 {
      assert end[1..] == [PAD];
      assert Scan([PAD], 2, left, 1) == Some([]);
    }
  }

  lemma ScanOne(a: byte)
    ensures Scan(Padded([a]), 0, 0, 0) == Some([a])
  {
    var s0, s1 := a / 4, a % 4 * 16;
    assert Padded([a]) == [Symbol(s0)] + ([Symbol(s1)] + Pads(2));
    ScanFront(s0, s1, Pads(2));
    ScanPads(2, s1 % 16);
    assert s0 * 4 + s1 / 16 == a;
    assert [a] + [] == [a];
  }

  lemma ScanTwo(a: byte, b: byte)
    ensures Scan(Padded([a, b]), 0, 0, 0) == Some([a, b])
  {
    var s0, s1, s2 := a / 4, a % 4 * 16 + b / 16, b % 16 * 4;
    assert Padded([a, b]) == [Symbol(s0)] + ([Symbol(s1)] + ([Symbol(s2)] + Pads(1)));
    ScanFront(s0, s1, [Symbol(s2)] + Pads(1));
    ScanSymbol(s2, Pads(1), 2, s1 % 16, 0);
    ScanPads(3, s2 % 4);
    assert s0 * 4 + s1 / 16 == a && s1 % 16 * 16 + s2 / 4 == b;
    assert [a] + ([b] + []) == [a, b];
  }

  lemma {:induction false} PaddedRoundTrip(x: seq<byte>)
    ensures Scan(Padded(x), 0, 0, 0) == Some(x)
  {
    if |x| == 0 {
    } else if |x| == 1 {
      ScanOne(x[0]);
      assert x == [x[0]];
    } else if |x| == 2 {
      ScanTwo(x[0], x[1]);
      assert x == [x[0], x[1]];
    } else {
      PaddedRoundTrip(x[3..]);
      ScanGroup(x[0], x[1], x[2], Padded(x[3..]));
      assert x == [x[0]] + ([x[1]] + ([x[2]] + x[3..]));
    }
  }

  /** Characters that neither padding nor a token's separator can be mistaken for. */
  /** Letters, digits, hyphen and underscore: what may stand in a URL or a file name. */
  predicate Plain(s: string) {
    forall c | c in s :: 'A' <= c <= 'Z' || 'a' <= c <= 'z' || '0' <= c <= '9' || c == '-' || c == '_'
  }

  lemma SymbolsArePlain(s: string, values: seq<sextet>)
    requires |s| == |values| && forall i | 0 <= i < |s| :: s[i] == Symbol(values[i])
    ensures Plain(s)
  {
    forall c | c in s ensures 'A' <= c <= 'Z' || 'a' <= c <= 'z' || '0' <= c <= '9' || c == '-' || c == '_' {
      var i :| 0 <= i < |s| && s[i] == c;
      ValueOfSymbol(values[i]);
    }
  }

  lemma GroupIsPlain(a: byte, b: byte, c: byte)
    ensures Plain(Group(a, b, c))
  {
    SymbolsArePlain(Group(a, b, c), [a / 4, a % 4 * 16 + b / 16, b % 16 * 4 + c / 64, c % 64]);
  }

  lemma OneIsPlain(a: byte)
    ensures Splits(Padded([a]), Padded([a])[..2], 2)
  {
    SymbolsArePlain(Padded([a])[..2], [a / 4, a % 4 * 16]);
  }

  lemma TwoArePlain(a: byte, b: byte)
    ensures Splits(Padded([a, b]), Padded([a, b])[..3], 1)
  {
    SymbolsArePlain(Padded([a, b])[..3], [a / 4, a % 4 * 16 + b / 16, b % 16 * 4]);
  }

  /** A padded text is plain characters followed by `n` pads, to a multiple of four. */
  ghost predicate Splits(padded: string, body: string, n: nat) {
    padded == body + Pads(n) && Plain(body) && |padded| % 4 == 0 && n <= 2
  }

  lemma {:induction false} PaddedSplits(x: seq<byte>) returns (body: string, n: nat)
    ensures Splits(Padded(x), body, n)
    ensures body == "" <==> x == []
  {
    if |x| == 0 {
      body, n := "", 0;
    } else if |x| == 1 {
      assert x == [x[0]];
      OneIsPlain(x[0]);
      body, n := Padded(x)[..2], 2;
    } else if |x| == 2 {
      assert x == [x[0], x[1]];
      TwoArePlain(x[0], x[1]);
      body, n := Padded(x)[..3], 1;
    } else {
      var rest;
      rest, n := PaddedSplits(x[3..]);
      GroupIsPlain(x[0], x[1], x[2]);
      body := Group(x[0], x[1], x[2]) + rest;
      assert Padded(x) == Group(x[0], x[1], x[2]) + (rest + Pads(n));
    }
  }

  lemma {:induction false} StripAfter(body: string, n: nat)
    requires PAD !in body
    ensures StripPadding(body + Pads(n)) == body
  {
    var s := body + Pads(n);
    if n > 0 {
      assert s[..|s| - 1] == body + Pads(n - 1);
      StripAfter(body, n - 1);
    } else {
      assert s == body;
      assert s != "" ==> s[|s| - 1] in body;
    }
  }

  lemma MissingPadsAre(length: nat, n: nat)
    requires n <= 2 && (length + n) % 4 == 0
    ensures MissingPads(length) == n
  {
  }

  /** Stripping takes only padding, and as much of it as decoding puts back. */
  lemma StrippedPaddingComesBack(x: seq<byte>)
    ensures Encode(x) + Pads(MissingPads(|Encode(x)|)) == Padded(x)
    ensures Plain(Encode(x)) && (Encode(x) == "" <==> x == [])
  {
    var body, n := PaddedSplits(x);
    StripAfter(body, n);
    MissingPadsAre(|body|, n);
  }

  /** Every byte string survives encoding and decoding. */
  lemma RoundTrip(x: seq<byte>)
    ensures Decode(Encode(x)) == Some(x)
  {
    StrippedPaddingComesBack(x);
    PaddedRoundTrip(x);
  }

  /** So the encoding is injective. */
  lemma EncodeIsInjective(x: seq<byte>, y: seq<byte>)
    requires Encode(x) == Encode(y)
    ensures x == y
  {
    RoundTrip(x);
    RoundTrip(y);
  }

  /** The two characters in which the alphabets differ. */
  function Standard(c: char): char { if c == '-' then '+' else if c == '_' then '/' else c }

  lemma {:induction false} ScansAlike(s: string, t: string, quad: nat, left: nat, pads: nat)
    requires quad < 4
    requires left < (match quad case 1 => 64 case 2 => 16 case 3 => 4 case _ => 1)
    requires |s| == |t| && forall i | 0 <= i < |s| :: t[i] == Standard(s[i])
    ensures Scan(t, quad, left, pads) == Scan(s, quad, left, pads)
    decreases |s|
  {
    if s != "" {
      assert t[0] == Standard(s[0]) && Value(t[0]) == Value(s[0]);
      if s[0] == PAD {
        if quad < 2 || quad + pads + 1 < 4 {
          ScansAlike(s[1..], t[1..], quad, left, if quad < 2 then pads else pads + 1);
        }
      } else {
        match Value(s[0])
        case None => ScansAlike(s[1..], t[1..], quad, left, pads);
        case Some(v) =>
          var bits := if quad == 0 then v else if quad == 1 then v % 16 else if quad == 2 then v % 4 else 0;
          ScansAlike(s[1..], t[1..], (quad + 1) % 4, bits, 0);
      }
    }
  }

  /** Text in the standard alphabet decodes as the same text in the URL-safe one. */
  lemma AlphabetsDecodeAlike(s: string, t: string)
    requires |s| == |t| && forall i | 0 <= i < |s| :: t[i] == Standard(s[i])
    ensures Decode(t) == Decode(s)
  {
    var pads := Pads(MissingPads(|s|));
    ScansAlike(s + pads, t + pads, 0, 0, 0);
  }
}
