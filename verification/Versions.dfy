/** Ordering of dotted version numbers. */
module Versions {
  import opened Numbers
  import opened Wrappers

  /** What `str.strip` removes: blanks, the controls from tab to return, and the four separators. */
  predicate IsSpace(c: char) { '\t' <= c <= '\r' || 0x1C <= c as int <= 0x20 }

  function Strip(s: string): string {
    if s != "" && IsSpace(s[0]) then Strip(s[1..])
    else if s != "" && IsSpace(s[|s| - 1]) then Strip(s[..|s| - 1])
    else s
  }

  function SplitDots(s: string): (r: seq<string>)
    ensures |r| >= 1
  {
    if s == "" then [""]
    else
      var rest := SplitDots(s[1..]);
      if s[0] == '.' then [""] + rest else [[s[0]] + rest[0]] + rest[1..]
  }

  predicate IsNumber(s: string) { s != "" && AllDigits(s) }

  /** Two to four numbers. */
  predicate Accepted(text: string) {
    var parts := SplitDots(Strip(text));
    2 <= |parts| <= 4 && forall p | p in parts :: IsNumber(p)
  }

  function Components(text: string): seq<nat>
    requires Accepted(text)
  {
    var parts := SplitDots(Strip(text));
    seq(|parts|, i requires 0 <= i < |parts| => assert parts[i] in parts; NumberOf(parts[i]))
  }

  method Parse(text: string) returns (r: Result<seq<nat>>)
    ensures r == if Accepted(text) then Ok(Components(text)) else Invalid
  {
    var parts := SplitDots(Strip(text));
    if !(2 <= |parts| <= 4) {
      return Invalid;
    }
    var numbers: seq<nat> := [];
    for i := 0 to |parts|
      invariant |numbers| == i
      invariant forall k | 0 <= k < i :: IsNumber(parts[k]) && numbers[k] == NumberOf(parts[k])
    {
      if !IsNumber(parts[i]) {
        return Invalid;
      }
      numbers := numbers + [NumberOf(parts[i])];
    }
    assert Accepted(text);
    assert numbers == Components(text);
    return Ok(numbers);
  }

  // ----- Reading back what is written -----

  function Dotted(parts: seq<nat>): string
    requires parts != []
  {
    if |parts| == 1 then Digits(parts[0]) else Digits(parts[0]) + "." + Dotted(parts[1..])
  }

  lemma {:induction false} SplitAtFirstDot(a: string, rest: string)
    requires AllDigits(a)
    ensures SplitDots(a + "." + rest) == [a] + SplitDots(rest)
  {
    var s := a + "." + rest;
    if a == "" {
      assert s[1..] == rest;
    } else {
      assert s[1..] == a[1..] + "." + rest;
      SplitAtFirstDot(a[1..], rest);
      assert [a[0]] + a[1..] == a;
    }
  }

  lemma {:induction false} SplitWithoutDot(a: string)
    requires AllDigits(a)
    ensures SplitDots(a) == [a]
  {
    if a != "" {
      SplitWithoutDot(a[1..]);
      assert [a[0]] + a[1..] == a;
    }
  }

  /** A written version begins and ends with a digit, and its pieces are the numbers' digits. */
  lemma {:induction false} SplitsIntoNumbers(parts: seq<nat>)
    requires parts != []
    ensures
      var s := Dotted(parts);
      && s != "" && IsDigit(s[0]) && IsDigit(s[|s| - 1])
      && |SplitDots(s)| == |parts|
      && forall i | 0 <= i < |parts| :: SplitDots(s)[i] == Digits(parts[i])
  {
    if |parts| == 1 {
      SplitWithoutDot(Digits(parts[0]));
    } else {
      SplitsIntoNumbers(parts[1..]);
      SplitAtFirstDot(Digits(parts[0]), Dotted(parts[1..]));
    }
  }

  /** Every version of two to four numbers is accepted as it is written, and read as those numbers. */
  lemma WrittenVersionsAreRead(parts: seq<nat>)
    requires 2 <= |parts| <= 4
    ensures Accepted(Dotted(parts)) && Components(Dotted(parts)) == parts
  {
    SplitsIntoNumbers(parts);
    NothingToStrip(Dotted(parts));
    ReadAs(Dotted(parts), parts);
  }

  lemma NothingToStrip(s: string)
    requires s != "" && IsDigit(s[0]) && IsDigit(s[|s| - 1])
    ensures Strip(s) == s
  {
  }

  lemma ReadAs(text: string, parts: seq<nat>)
    requires Strip(text) == text && 2 <= |parts| <= 4 && |SplitDots(text)| == |parts|
    requires forall i | 0 <= i < |parts| :: SplitDots(text)[i] == Digits(parts[i])
    ensures Accepted(text) && Components(text) == parts
  {
    forall p | p in SplitDots(text) ensures IsNumber(p) {
      var i :| 0 <= i < |parts| && SplitDots(text)[i] == p;
    }
    forall i | 0 <= i < |parts| ensures Components(text)[i] == parts[i] {
      NumberOfDigits(parts[i]);
    }
  }

  // ----- What is accepted -----

  function Joined(parts: seq<string>): string
    requires parts != []
  {
    if |parts| == 1 then parts[0] else parts[0] + "." + Joined(parts[1..])
  }

  predicate Blank(s: string) { forall c | c in s :: c as int in {9, 10, 11, 12, 13, 28, 29, 30, 31, 32} }

  /** Two to four nonempty runs of digits, joined by dots, with white space around them. */
  predicate WrittenAs(text: string, lead: string, parts: seq<string>, trail: string) {
    && 2 <= |parts| <= 4
    && (forall p | p in parts :: p != "" && AllDigits(p))
    && Blank(lead) && Blank(trail)
    && text == lead + Joined(parts) + trail
  }

  lemma {:induction false} StripTakesBlanks(s: string) returns (lead: string, trail: string)
    ensures Blank(lead) && Blank(trail) && s == lead + Strip(s) + trail
    decreases |s|
  {
    if s != "" && IsSpace(s[0]) {
      lead, trail := StripTakesBlanks(s[1..]);
      lead := [s[0]] + lead;
    } else if s != "" && IsSpace(s[|s| - 1]) {
      lead, trail := StripTakesBlanks(s[..|s| - 1]);
      trail := trail + [s[|s| - 1]];
    } else {
      lead, trail := "", "";
    }
  }

  lemma {:induction false} StripLeavesDigits(lead: string, body: string, trail: string)
    requires Blank(lead) && Blank(trail) && body != "" && IsDigit(body[0]) && IsDigit(body[|body| - 1])
    ensures Strip(lead + body + trail) == body
    decreases |lead| + |trail|
  {
    var s := lead + body + trail;
    if lead != "" {
      assert forall c | c in lead[1..] :: c in lead;
      assert s[0] == lead[0] && lead[0] in lead && s[1..] == lead[1..] + body + trail;
      StripLeavesDigits(lead[1..], body, trail);
    } else if trail != "" {
      var shorter := trail[..|trail| - 1];
      assert Blank(shorter) by { assert forall i | 0 <= i < |shorter| :: shorter[i] == trail[i] && trail[i] in trail; }
      assert s[0] == body[0] && s[|s| - 1] == trail[|trail| - 1] && s[|s| - 1] in trail;
      assert s[..|s| - 1] == lead + body + shorter;
      StripLeavesDigits(lead, body, shorter);
    } else {
      assert s == body;
    }
  }

  lemma {:induction false} SplitJoins(s: string)
    ensures Joined(SplitDots(s)) == s
  {
    if s != "" {
      var rest := SplitDots(s[1..]);
      SplitJoins(s[1..]);
      assert s == [s[0]] + s[1..];
      if s[0] == '.' {
        assert ([""] + rest)[1..] == rest;
        assert Joined([""] + rest) == "" + "." + Joined(rest);
      } else {
        var first := [s[0]] + rest[0];
        assert ([first] + rest[1..])[1..] == rest[1..];
        assert |rest| > 1 ==> Joined([first] + rest[1..]) == first + "." + Joined(rest[1..]);
      }
    }
  }

  lemma {:induction false} JoinedSplits(parts: seq<string>)
    requires parts != [] && forall p | p in parts :: p != "" && AllDigits(p)
    ensures SplitDots(Joined(parts)) == parts
    ensures Joined(parts) != "" && IsDigit(Joined(parts)[0]) && IsDigit(Joined(parts)[|Joined(parts)| - 1])
  {
    assert parts[0] in parts;
    if |parts| == 1 {
      SplitWithoutDot(parts[0]);
    } else {
      assert forall p | p in parts[1..] :: p in parts;
      JoinedSplits(parts[1..]);
      SplitAtFirstDot(parts[0], Joined(parts[1..]));
    }
  }

  lemma ReadAsWritten(text: string, lead: string, parts: seq<string>, trail: string)
    requires WrittenAs(text, lead, parts, trail)
    ensures Accepted(text) && |Components(text)| == |parts|
    ensures forall i | 0 <= i < |parts| :: AllDigits(parts[i]) && Components(text)[i] == NumberOf(parts[i])
  {
    JoinedSplits(parts);
    StripLeavesDigits(lead, Joined(parts), trail);
  }

  /** Exactly such texts are accepted. */
  lemma AcceptedExactly(text: string)
    ensures Accepted(text) <==> exists lead, parts, trail :: WrittenAs(text, lead, parts, trail)
  {
    if Accepted(text) {
      var lead, trail := StripTakesBlanks(text);
      SplitJoins(Strip(text));
      assert WrittenAs(text, lead, SplitDots(Strip(text)), trail);
    }
    if lead, parts, trail :| WrittenAs(text, lead, parts, trail) {
      ReadAsWritten(text, lead, parts, trail);
    }
  }

  // ----- Order -----

  /** Python's comparison of two lists, as -1, 0 or 1. */
  function Lex(a: seq<nat>, b: seq<nat>): int {
    if a == [] && b == [] then 0
    else if a == [] then -1
    else if b == [] then 1
    else if a[0] != b[0] then (if a[0] < b[0] then -1 else 1)
    else Lex(a[1..], b[1..])
  }

  /** Zeros appended up to a length. */
  function Extend(a: seq<nat>, n: nat): seq<nat> {
    a + seq(if n >= |a| then n - |a| else 0, _ => 0)
  }

  function Longer(a: seq<nat>, b: seq<nat>): nat { if |a| >= |b| then |a| else |b| }

  /** Each pair is padded to the longer of the two. */
  function Order(a: seq<nat>, b: seq<nat>): int { Lex(Extend(a, Longer(a, b)), Extend(b, Longer(a, b))) }

  method CompareVersions(left: string, right: string) returns (r: Result<int>)
    ensures r == if Accepted(left) && Accepted(right) then Ok(Order(Components(left), Components(right))) else Invalid
  {
    var leftParts := Parse(left);
    if leftParts.Invalid? {
      return Invalid;
    }
    var rightParts := Parse(right);
    if rightParts.Invalid? {
      return Invalid;
    }
    var length := Longer(leftParts.value, rightParts.value);
    return Ok(Lex(Extend(leftParts.value, length), Extend(rightParts.value, length)));
  }

  /** A component that is missing counts as zero. */
  function At(a: seq<nat>, k: nat): nat { if k < |a| then a[k] else 0 }

  /** The two versions agree up to component `k`, where the first has the lesser number. */
  ghost predicate OlderAt(a: seq<nat>, b: seq<nat>, k: nat) {
    At(a, k) < At(b, k) && forall j: nat | j < k :: At(a, j) == At(b, j)
  }

  lemma OlderInTail(a: seq<nat>, b: seq<nat>)
    requires |a| == |b| > 0 && a[0] == b[0]
    ensures (exists k: nat :: OlderAt(a, b, k)) <==> exists k: nat :: OlderAt(a[1..], b[1..], k)
  {
    assert forall k: nat :: At(a, k + 1) == At(a[1..], k) && At(b, k + 1) == At(b[1..], k);
    if k: nat :| OlderAt(a, b, k) {
      forall j: nat | j < k - 1 ensures At(a[1..], j) == At(b[1..], j) {
        assert At(a, j + 1) == At(b, j + 1);
      }
      assert OlderAt(a[1..], b[1..], k - 1);
    }
    if k: nat :| OlderAt(a[1..], b[1..], k) {
      forall j: nat | j < k + 1 ensures At(a, j) == At(b, j) {
        assert j > 0 ==> At(a[1..], j - 1) == At(b[1..], j - 1);
      }
      assert OlderAt(a, b, k + 1);
    }
  }

  lemma {:induction false} LexMeans(a: seq<nat>, b: seq<nat>)
    requires |a| == |b|
    ensures Lex(a, b) < 0 <==> exists k: nat :: OlderAt(a, b, k)
  {
    if a != [] {
      if a[0] == b[0] {
        LexMeans(a[1..], b[1..]);
        OlderInTail(a, b);
      } else if a[0] < b[0] {
        assert OlderAt(a, b, 0);
      } else {
        assert At(a, 0) != At(b, 0);
      }
    }
  }

  /** The first component in which two versions differ decides. */
  lemma OrderMeans(a: seq<nat>, b: seq<nat>)
    ensures Order(a, b) == -1 <==> exists k: nat :: OlderAt(a, b, k)
    ensures Order(a, b) == 1 <==> exists k: nat :: OlderAt(b, a, k)
    ensures Order(a, b) == 0 <==> forall k: nat :: At(a, k) == At(b, k)
  {
    var n := Longer(a, b);
    var x, y := Extend(a, n), Extend(b, n);
    assert forall k: nat :: At(x, k) == At(a, k) && At(y, k) == At(b, k);
    assert forall k: nat :: OlderAt(x, y, k) == OlderAt(a, b, k) && OlderAt(y, x, k) == OlderAt(b, a, k);
    LexMeans(x, y);
    LexMeans(y, x);
    LexOrders(x, y);
    if forall k: nat :: At(a, k) == At(b, k) {
      assert forall k: nat :: !OlderAt(a, b, k) && !OlderAt(b, a, k);
    }
  }

  lemma {:induction false} LexIgnoresTail(a: seq<nat>, b: seq<nat>, t: seq<nat>)
    requires |a| == |b|
    ensures Lex(a + t, b + t) == Lex(a, b)
  {
    if a == [] {
      assert a + t == t && b + t == t;
      LexReflexive(t);
    } else {
      assert (a + t)[1..] == a[1..] + t && (b + t)[1..] == b[1..] + t;
      LexIgnoresTail(a[1..], b[1..], t);
    }
  }

  lemma {:induction false} LexReflexive(a: seq<nat>)
    ensures Lex(a, a) == 0
  {
    if a != [] {
      LexReflexive(a[1..]);
    }
  }

  lemma {:induction false} LexOrders(a: seq<nat>, b: seq<nat>)
    requires |a| == |b|
    ensures Lex(a, b) == -Lex(b, a) && -1 <= Lex(a, b) <= 1
    ensures Lex(a, b) == 0 <==> a == b
  {
    if a != [] {
      LexOrders(a[1..], b[1..]);
      assert a == [a[0]] + a[1..] && b == [b[0]] + b[1..];
    }
  }

  lemma {:induction false} LexTransitive(a: seq<nat>, b: seq<nat>, c: seq<nat>)
    requires |a| == |b| == |c| && Lex(a, b) <= 0 && Lex(b, c) <= 0
    ensures Lex(a, c) <= 0
  {
    if a != [] && a[0] == b[0] == c[0] {
      LexTransitive(a[1..], b[1..], c[1..]);
    }
  }

  /** The padding of a pair does not matter: any common length gives the same answer. */
  lemma PaddingIsImmaterial(a: seq<nat>, b: seq<nat>, n: nat)
    requires n >= Longer(a, b)
    ensures Order(a, b) == Lex(Extend(a, n), Extend(b, n))
  {
    var m := Longer(a, b);
    var t: seq<nat> := seq(n - m, _ => 0);
    assert Extend(a, n) == Extend(a, m) + t && Extend(b, n) == Extend(b, m) + t;
    LexIgnoresTail(Extend(a, m), Extend(b, m), t);
  }

  /** Versions of any lengths are totally preordered; equal ones differ in trailing zeros only. */
  lemma OrderIsTotalPreorder(a: seq<nat>, b: seq<nat>, c: seq<nat>)
    ensures Order(a, b) == -Order(b, a) && -1 <= Order(a, b) <= 1
    ensures Order(a, b) == 0 <==> Extend(a, Longer(a, b)) == Extend(b, Longer(a, b))
    ensures Order(a, b) <= 0 && Order(b, c) <= 0 ==> Order(a, c) <= 0
  {
    var n := Longer(a, b);
    LexOrders(Extend(a, n), Extend(b, n));
    var m := if |c| >= n then |c| else n;
    PaddingIsImmaterial(a, b, m);
    PaddingIsImmaterial(b, c, m);
    PaddingIsImmaterial(a, c, m);
    if Order(a, b) <= 0 && Order(b, c) <= 0 {
      LexTransitive(Extend(a, m), Extend(b, m), Extend(c, m));
    }
  }
}
