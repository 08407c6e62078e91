/** Orders and the stable sort that the policy code relies on. */
module Ordering {

  ghost predicate TotalPreorder<T(!new)>(le: (T, T) -> bool) {
    && (forall x, y :: le(x, y) || le(y, x))
    && (forall x, y, z :: le(x, y) && le(y, z) ==> le(x, z))
  }

  ghost predicate SortedBy<T>(s: seq<T>, le: (T, T) -> bool) {
    forall i, j :: 0 <= i < j < |s| ==> le(s[i], s[j])
  }

  // ----- Lexicographic order -----

  ghost predicate StrictOrder<T(!new)>(lt: (T, T) -> bool) {
    && (forall x, y :: !(lt(x, y) && lt(y, x)))
    && (forall x, y :: lt(x, y) || lt(y, x) || x == y)
    && (forall x, y, z :: lt(x, y) && lt(y, z) ==> lt(x, z))
  }

  /** Python's order on sequences: the first difference decides, a proper prefix comes first. */
  predicate LexLe<T(==)>(a: seq<T>, b: seq<T>, lt: (T, T) -> bool) {
    if |a| == 0 then true
    else if |b| == 0 then false
    else if a[0] != b[0] then lt(a[0], b[0])
    else LexLe(a[1..], b[1..], lt)
  }

  lemma {:induction false} LexLeTotal<T(!new)>(a: seq<T>, b: seq<T>, lt: (T, T) -> bool)
    requires StrictOrder(lt)
    ensures LexLe(a, b, lt) || LexLe(b, a, lt)
    ensures LexLe(a, b, lt) && LexLe(b, a, lt) ==> a == b
  {
    if |a| > 0 && |b| > 0 && a[0] == b[0] {
      LexLeTotal(a[1..], b[1..], lt);
      assert a == [a[0]] + a[1..] && b == [b[0]] + b[1..];
    }
  }

  lemma {:induction false} LexLeTransitive<T(!new)>(a: seq<T>, b: seq<T>, c: seq<T>, lt: (T, T) -> bool)
    requires StrictOrder(lt) && LexLe(a, b, lt) && LexLe(b, c, lt)
    ensures LexLe(a, c, lt)
  {
    if |a| > 0 && a[0] == b[0] == c[0] {
      LexLeTransitive(a[1..], b[1..], c[1..], lt);
    }
  }

  /** The two sequences part at place `k`, where the first has the lesser element. */
  ghost predicate LessAt<T>(a: seq<T>, b: seq<T>, lt: (T, T) -> bool, k: nat) {
    k < |a| && k < |b| && a[..k] == b[..k] && a[k] != b[k] && lt(a[k], b[k])
  }

  /** So the order is about the first place where they differ. */
  lemma {:induction false} LexLeMeans<T>(a: seq<T>, b: seq<T>, lt: (T, T) -> bool)
    ensures LexLe(a, b, lt) <==> a <= b || exists k: nat :: LessAt(a, b, lt, k)
  {
    if |a| > 0 && |b| > 0 {
      assert a == [a[0]] + a[1..] && b == [b[0]] + b[1..];
      if a[0] == b[0] {
        LexLeMeans(a[1..], b[1..], lt);
        if k: nat :| LessAt(a[1..], b[1..], lt, k) {
          assert a[..k + 1] == [a[0]] + a[1..][..k] && b[..k + 1] == [b[0]] + b[1..][..k];
          assert LessAt(a, b, lt, k + 1);
        }
        if k: nat :| LessAt(a, b, lt, k) {
          assert a[1..][..k - 1] == a[..k][1..] && b[1..][..k - 1] == b[..k][1..];
          assert LessAt(a[1..], b[1..], lt, k - 1);
        }
      } else {
        if lt(a[0], b[0]) {
          assert LessAt(a, b, lt, 0);
        }
      }
    }
  }

  predicate CharBefore(x: char, y: char) { x < y }

  /** Python's order on strings, by code point. */
  predicate StringLe(a: string, b: string) { LexLe(a, b, CharBefore) }

  lemma StringLeTotal(a: string, b: string)
    ensures StringLe(a, b) || StringLe(b, a)
    ensures StringLe(a, b) && StringLe(b, a) ==> a == b
  {
    LexLeTotal(a, b, CharBefore);
  }

  lemma StringLeTransitive(a: string, b: string, c: string)
    requires StringLe(a, b) && StringLe(b, c)
    ensures StringLe(a, c)
  {
    LexLeTransitive(a, b, c, CharBefore);
  }

  /** A string comes before another: it is a beginning of it, or has the smaller character where they part. */
  ghost predicate Smaller(a: string, b: string) {
    a < b || exists k: nat :: k < |a| && k < |b| && a[..k] == b[..k] && a[k] < b[k]
  }

  lemma StringLeMeans(a: string, b: string)
    ensures StringLe(a, b) <==> a == b || Smaller(a, b)
  {
    LexLeMeans(a, b, CharBefore);
    if k: nat :| LessAt(a, b, CharBefore, k) {
      assert a[k] < b[k];
    }
    if k: nat :| k < |a| && k < |b| && a[..k] == b[..k] && a[k] < b[k] {
      assert LessAt(a, b, CharBefore, k);
    }
  }

  // ----- Sorting -----

  /** The least element met first: what `sort(key=...)` leaves at index 0. */
  function First<T>(s: seq<T>, le: (T, T) -> bool): (m: T)
    requires s != []
    ensures m in s
  {
    if |s| == 1 then s[0]
    else
      var rest := First(s[1..], le);
      if le(s[0], rest) then s[0] else rest
  }

  lemma {:induction false} FirstIsLeast<T(!new)>(s: seq<T>, le: (T, T) -> bool)
    requires s != [] && TotalPreorder(le)
    ensures forall x | x in s :: le(First(s, le), x)
  {
    if |s| > 1 {
      FirstIsLeast(s[1..], le);
      assert s == [s[0]] + s[1..];
    }
  }

  /** Stable insertion sort, standing for Python's `sorted` and `list.sort`. */
  function Sort<T>(s: seq<T>, le: (T, T) -> bool): (r: seq<T>)
    ensures |r| == |s|
  {
    if s == [] then [] else Insert(s[0], Sort(s[1..], le), le)
  }

  function Insert<T>(x: T, s: seq<T>, le: (T, T) -> bool): (r: seq<T>)
    ensures |r| == |s| + 1
  {
    if s == [] || le(x, s[0]) then [x] + s else [s[0]] + Insert(x, s[1..], le)
  }

  lemma {:induction false} InsertKeeps<T>(x: T, s: seq<T>, le: (T, T) -> bool)
    ensures multiset(Insert(x, s, le)) == multiset(s) + multiset{x}
  {
    if s != [] && !le(x, s[0]) {
      InsertKeeps(x, s[1..], le);
      assert s == [s[0]] + s[1..];
    }
  }

  /** Sorting only rearranges. */
  lemma {:induction false} SortKeeps<T>(s: seq<T>, le: (T, T) -> bool)
    ensures multiset(Sort(s, le)) == multiset(s)
    ensures forall x :: x in Sort(s, le) <==> x in s
  {
    if s != [] {
      SortKeeps(s[1..], le);
      InsertKeeps(s[0], Sort(s[1..], le), le);
      assert s == [s[0]] + s[1..];
    }
    forall x ensures x in Sort(s, le) <==> x in s {
      assert x in Sort(s, le) <==> x in multiset(Sort(s, le));
      assert x in s <==> x in multiset(s);
    }
  }

  lemma {:induction false} InsertOrders<T(!new)>(x: T, s: seq<T>, le: (T, T) -> bool)
    requires TotalPreorder(le) && SortedBy(s, le)
    ensures SortedBy(Insert(x, s, le), le)
  {
    if s != [] && !le(x, s[0]) {
      InsertOrders(x, s[1..], le);
      var r := Insert(x, s[1..], le);
      InsertKeeps(x, s[1..], le);
      forall y | y in r ensures le(s[0], y) {
        assert y in multiset(r);
      }
    } else if s != [] {
      forall j | 0 <= j < |s| ensures le(x, s[j]) { assert le(x, s[0]); }
    }
  }

  lemma {:induction false} SortOrders<T(!new)>(s: seq<T>, le: (T, T) -> bool)
    requires TotalPreorder(le)
    ensures SortedBy(Sort(s, le), le)
  {
    if s != [] {
      SortOrders(s[1..], le);
      InsertOrders(s[0], Sort(s[1..], le), le);
    }
  }

  /** Some `x` stands before some `y`. */
  ghost predicate Before<T>(s: seq<T>, x: T, y: T) {
    exists i, k :: 0 <= i < k < |s| && s[i] == x && s[k] == y
  }

  lemma BeforeInLonger<T>(s: seq<T>, t: seq<T>, u: seq<T>, x: T, y: T)
    requires Before(s, x, y)
    ensures Before(t + s + u, x, y)
  {
    var i, k :| 0 <= i < k < |s| && s[i] == x && s[k] == y;
    var longer := t + s + u;
    assert longer[|t| + i] == x && longer[|t| + k] == y;
  }

  /** Insertion puts the new element before what it is not greater than, and keeps the rest in order. */
  lemma {:induction false} InsertIsStable<T>(x: T, s: seq<T>, le: (T, T) -> bool, i: nat, k: nat)
    requires i < k < |Insert(x, s, le)|
    ensures
      var r := Insert(x, s, le);
      Before(s, r[i], r[k]) || (r[i] == x && r[k] in s) || (r[k] == x && !le(x, r[i]))
  {
    var r := Insert(x, s, le);
    if s == [] || le(x, s[0]) {
      assert i > 0 ==> r[i] == s[i - 1] && r[k] == s[k - 1];
    } else {
      var rest := Insert(x, s[1..], le);
      assert s == [s[0]] + s[1..] + [];
      if i == 0 {
        InsertKeeps(x, s[1..], le);
        assert r[k] == rest[k - 1] && rest[k - 1] in multiset(rest);
        if r[k] != x {
          var j :| 0 <= j < |s[1..]| && s[1..][j] == r[k];
          assert s[0] == r[i] && s[j + 1] == r[k];
        }
      } else {
        InsertIsStable(x, s[1..], le, i - 1, k - 1);
        if Before(s[1..], r[i], r[k]) {
          BeforeInLonger(s[1..], [s[0]], [], r[i], r[k]);
        }
      }
    }
  }

  /** Elements that compare equal keep their order. */
  lemma {:induction false} SortIsStable<T>(s: seq<T>, le: (T, T) -> bool, i: nat, k: nat)
    requires i < k < |Sort(s, le)| && le(Sort(s, le)[k], Sort(s, le)[i])
    ensures Before(s, Sort(s, le)[i], Sort(s, le)[k])
  {
    var r, rest := Sort(s, le), Sort(s[1..], le);
    InsertIsStable(s[0], rest, le, i, k);
    SortKeeps(s[1..], le);
    if Before(rest, r[i], r[k]) {
      var a, b :| 0 <= a < b < |rest| && rest[a] == r[i] && rest[b] == r[k];
      SortIsStable(s[1..], le, a, b);
      assert s == [s[0]] + s[1..] + [];
      BeforeInLonger(s[1..], [s[0]], [], r[i], r[k]);
    } else {
      var j :| 0 <= j < |s[1..]| && s[1..][j] == r[k];
      assert s[0] == r[i] && s[j + 1] == r[k];
    }
  }

  /** Sorting and taking the head is the same as picking the first least element. */
  lemma {:induction false} SortHead<T(!new)>(s: seq<T>, le: (T, T) -> bool)
    requires s != []
    ensures Sort(s, le) != [] && Sort(s, le)[0] == First(s, le)
  {
    if |s| > 1 {
      SortHead(s[1..], le);
    } else {
      assert Sort(s[1..], le) == [];
    }
  }

  /** A permutation has the same members. */
  lemma SameMembers<T>(s: seq<T>, t: seq<T>)
    requires multiset(s) == multiset(t)
    ensures forall x :: x in s <==> x in t
  {
    forall x ensures x in s <==> x in t {
      assert x in s <==> x in multiset(s);
      assert x in t <==> x in multiset(t);
    }
  }

  lemma RemoveAt<T>(s: seq<T>, j: nat)
    requires j < |s|
    ensures multiset(s[..j] + s[j + 1..]) == multiset(s) - multiset{s[j]}
    ensures s == s[..j] + [s[j]] + s[j + 1..]
  {
    assert s == s[..j] + [s[j]] + s[j + 1..];
  }

  ghost predicate DistinctBy<T, K>(s: seq<T>, key: T -> K) {
    forall i, j | 0 <= i < j < |s| :: key(s[i]) != key(s[j])
  }

  lemma CountAt<T>(s: seq<T>, i: nat)
    requires i < |s|
    ensures multiset(s)[s[i]] == 1 + multiset(s[..i])[s[i]] + multiset(s[i + 1..])[s[i]]
  {
    RemoveAt(s, i);
  }

  /** Distinct keys stay distinct when the elements are rearranged. */
  lemma RearrangedStaysDistinct<T, K>(a: seq<T>, b: seq<T>, key: T -> K)
    requires multiset(a) == multiset(b) && DistinctBy(a, key)
    ensures DistinctBy(b, key)
  {
    SameMembers(a, b);
    forall i, j | 0 <= i < j < |b| ensures key(b[i]) != key(b[j]) {
      assert b[i] in a && b[j] in a && b[j] in b[i + 1..];
      var x :| 0 <= x < |a| && a[x] == b[i];
      var y :| 0 <= y < |a| && a[y] == b[j];
      CountAt(b, i);
      CountAt(a, x);
    }
  }

  /** The concatenation of what each element contributes: a loop that grows a list. */
  function Gather<T, U>(s: seq<T>, f: T -> seq<U>): seq<U> {
    if s == [] then [] else Gather(s[..|s| - 1], f) + f(s[|s| - 1])
  }

  lemma GatherStep<T, U>(s: seq<T>, i: nat, f: T -> seq<U>)
    requires i < |s|
    ensures Gather(s[..i + 1], f) == Gather(s[..i], f) + f(s[i])
  {
    assert s[..i + 1][..i] == s[..i];
  }

  lemma {:induction false} GatherMembers<T, U>(s: seq<T>, f: T -> seq<U>, x: U)
    ensures x in Gather(s, f) <==> exists t :: t in s && x in f(t)
  {
    if s != [] {
      GatherMembers(s[..|s| - 1], f, x);
      assert s == s[..|s| - 1] + [s[|s| - 1]];
    }
  }

  /** The first `n` lists of a family, one after the other. */
  function Joined<T>(lists: nat -> seq<T>, n: nat): seq<T> {
    if n == 0 then [] else Joined(lists, n - 1) + lists(n - 1)
  }

  lemma {:induction false} JoinedMembers<T>(lists: nat -> seq<T>, n: nat, x: T)
    ensures x in Joined(lists, n) <==> exists h: nat :: h < n && x in lists(h)
  {
    if n > 0 {
      JoinedMembers(lists, n - 1, x);
    }
  }

  lemma {:induction false} GatherConcat<T, U>(a: seq<T>, b: seq<T>, f: T -> seq<U>)
    ensures Gather(a + b, f) == Gather(a, f) + Gather(b, f)
  {
    if b == [] {
      assert a + b == a;
    } else {
      assert (a + b)[..|a + b| - 1] == a + b[..|b| - 1];
      GatherConcat(a, b[..|b| - 1], f);
    }
  }

  /** Picking elements keeps their order. */
  lemma {:induction false} GatherKeepsOrder<T(!new)>(s: seq<T>, f: T -> seq<T>, x: T, y: T)
    requires Before(Gather(s, f), x, y) && forall t :: f(t) == [] || f(t) == [t]
    ensures Before(s, x, y)
  {
    var picked := Gather(s, f);
    var i, k :| 0 <= i < k < |picked| && picked[i] == x && picked[k] == y;
    var front, last := s[..|s| - 1], s[|s| - 1];
    var before := Gather(front, f);
    assert s == [] + front + [last];
    if k < |before| {
      GatherKeepsOrder(front, f, x, y);
      BeforeInLonger(front, [], [last], x, y);
    } else {
      GatherMembers(front, f, x);
      var t :| t in front && x in f(t);
      var j :| 0 <= j < |front| && front[j] == x;
      assert s[j] == x && s[|s| - 1] == y;
    }
  }

  lemma GatherWithout<T, U>(s: seq<T>, j: nat, f: T -> seq<U>)
    requires j < |s|
    ensures multiset(Gather(s, f)) == multiset(Gather(s[..j] + s[j + 1..], f)) + multiset(f(s[j]))
  {
    RemoveAt(s, j);
    GatherConcat(s[..j], s[j + 1..], f);
    GatherConcat(s[..j] + [s[j]], s[j + 1..], f);
    GatherStep(s, j, f);
    assert s[..j + 1] == s[..j] + [s[j]];
  }

  /** The contributions do not depend on the order in which the elements are met. */
  lemma {:induction false} GatherPermutes<T, U>(a: seq<T>, b: seq<T>, f: T -> seq<U>)
    requires multiset(a) == multiset(b)
    ensures multiset(Gather(a, f)) == multiset(Gather(b, f))
    decreases |a|
  {
    if a == [] {
      assert multiset(b) == multiset{};
      assert b == [];
    } else {
      assert a[0] in multiset(b);
      var j :| 0 <= j < |b| && b[j] == a[0];
      RemoveAt(b, j);
      RemoveAt(a, 0);
      GatherPermutes(a[..0] + a[0 + 1..], b[..j] + b[j + 1..], f);
      GatherWithout(a, 0, f);
      GatherWithout(b, j, f);
    }
  }
}
