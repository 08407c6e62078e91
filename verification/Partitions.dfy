/** Train, validation and test partitions of a dataset and the sequences built from them. */
module Partitions {
  import opened Wrappers
  import opened Ordering

  /** F is a row of feature values. Rows are known by their position. */
  datatype Dataset<F> = Dataset(
    features: seq<F>,
    labels: seq<int>,
    groups: seq<string>,
    timestamps: Option<seq<int>>,
    splitGroups: seq<string>,
    captureDays: Option<seq<string>>)

  predicate Aligned<F>(d: Dataset<F>) {
    && |d.labels| == |d.groups| == |d.features|
    && (d.timestamps.Some? ==> |d.timestamps.value| == |d.features|)
  }

  datatype Strategy = ByGroup | ByCaptureDay | ByTime | RandomDevOnly

  // ----- Sizes -----

  function Max(a: int, b: int): int { if a >= b then a else b }

  /** 60, 20 and 20 percent, with at least one row each; the correction for an empty test part is never needed. */
  method SplitSizes(size: nat) returns (r: Result<(int, int, int)>)
    ensures r.Ok? <==> size >= 3
    ensures r.Ok? ==>
      var (train, validation, test) := r.value;
      && train + validation + test == size
      && train >= 1 && validation >= 1 && test >= 1
      && train == size * 6 / 10
      && validation == if size < 5 then 1 else size * 2 / 10
  {
    if size < 3 {
      return Invalid;
    }
    var train := Max(1, size * 6 / 10);
    var validation := Max(1, size * 2 / 10);
    var test := size - train - validation;
    if test < 1 {
      test := 1;
      train := Max(1, train - 1);
    }
    return Ok((train, validation, test));
  }

  // ----- Splitting by time -----

  function TimeAt(ts: seq<int>, i: nat): int { if i < |ts| then ts[i] else 0 }

  function Earlier(ts: seq<int>): (nat, nat) -> bool { (i: nat, k: nat) => TimeAt(ts, i) <= TimeAt(ts, k) }

  function Upto(n: nat): seq<nat> { seq(n, i requires 0 <= i < n => i) }

  /** A stable argsort. */
  function TimeOrder(ts: seq<int>): seq<nat> { Sort(Upto(|ts|), Earlier(ts)) }

  function Cut(order: seq<nat>): seq<seq<nat>>
    requires |order| >= 3
  {
    var train, validation := |order| * 6 / 10, if |order| < 5 then 1 else |order| * 2 / 10;
    [order[..train], order[train..train + validation], order[train + validation..]]
  }

  method TimeSplit(timestamps: Option<seq<int>>) returns (r: Result<seq<seq<nat>>>)
    ensures r == if timestamps.Some? && |timestamps.value| >= 3 then Ok(Cut(TimeOrder(timestamps.value))) else Invalid
  {
    if timestamps.None? {
      return Invalid;
    }
    var order := TimeOrder(timestamps.value);
    var sizes := SplitSizes(|order|);
    if sizes.Invalid? {
      return Invalid;
    }
    var (train, validation, _) := sizes.value;
    return Ok([order[..train], order[train..train + validation], order[train + validation..]]);
  }

  lemma TimeOrderIsSorted(ts: seq<int>)
    ensures SortedBy(TimeOrder(ts), Earlier(ts))
    ensures multiset(TimeOrder(ts)) == multiset(Upto(|ts|))
  {
    SortKeeps(Upto(|ts|), Earlier(ts));
    assert TotalPreorder(Earlier(ts));
    SortOrders(Upto(|ts|), Earlier(ts));
  }

  /** Where part `p` of a cut starts. */
  function CutAt(n: nat, p: nat): nat
    requires p <= 3
  {
    if p == 0 then 0
    else if p == 1 then n * 6 / 10
    else if p == 2 then n * 6 / 10 + if n < 5 then 1 else n * 2 / 10
    else n
  }

  lemma PlaceInCut(order: seq<nat>, p: nat, i: nat) returns (a: nat)
    requires |order| >= 3 && p < 3 && i in Cut(order)[p]
    ensures CutAt(|order|, p) <= a < CutAt(|order|, p + 1) <= |order| && order[a] == i
  {
    var b :| 0 <= b < |Cut(order)[p]| && Cut(order)[p][b] == i;
    a := CutAt(|order|, p) + b;
  }

  lemma CutsAscend(n: nat, p: nat, q: nat)
    requires p <= q <= 3 && n >= 3
    ensures CutAt(n, p) <= CutAt(n, q)
  {
  }

  /**
    * Splitting by time never lets a partition look past the next one: no later row comes
    * first, nor a later position at the same time.
    */
  lemma TimeSplitLooksBack(ts: seq<int>, p: nat, q: nat, i: nat, k: nat)
    requires |ts| >= 3 && p < q < 3
    requires i in Cut(TimeOrder(ts))[p] && k in Cut(TimeOrder(ts))[q]
    ensures i < |ts| && k < |ts| && (ts[i] < ts[k] || (ts[i] == ts[k] && i < k))
  {
    var order := TimeOrder(ts);
    var a := PlaceInCut(order, p, i);
    var b := PlaceInCut(order, q, k);
    CutsAscend(|order|, p + 1, q);
    TimeOrderIsSorted(ts);
    SameMembers(order, Upto(|ts|));
    assert order[a] in order && order[b] in order;
    assert Earlier(ts)(order[a], order[b]);
    if ts[i] == ts[k] {
      SortIsStable(Upto(|ts|), Earlier(ts), a, b);
    }
  }

  // ----- Integrity -----

  predicate InRange(n: nat, part: seq<nat>) { forall i | i in part :: i < n }

  predicate Apart(a: seq<nat>, b: seq<nat>) { forall i | i in a :: i !in b }

  predicate GroupsApart(groups: seq<string>, a: seq<nat>, b: seq<nat>)
    requires InRange(|groups|, a) && InRange(|groups|, b)
  {
    forall i, k | i in a && k in b :: groups[i] != groups[k]
  }

  predicate Covered(parts: seq<seq<nat>>, i: nat) { exists p | 0 <= p < |parts| :: i in parts[p] }

  /** Nonempty partitions that cover all rows and share neither rows nor sequence groups. */
  ghost predicate Sound(groups: seq<string>, parts: seq<seq<nat>>) {
    && (forall p | 0 <= p < |parts| :: parts[p] != [] && InRange(|groups|, parts[p]))
    && (forall p, q | 0 <= p < q < |parts| :: Apart(parts[p], parts[q]) && GroupsApart(groups, parts[p], parts[q]))
    && (forall i: nat | i < |groups| :: Covered(parts, i))
  }

  function Rows(part: seq<nat>): set<nat> { set i | i in part }

  function AllRows(parts: seq<seq<nat>>): set<nat> {
    if parts == [] then {} else AllRows(parts[..|parts| - 1]) + Rows(parts[|parts| - 1])
  }

  lemma {:induction false} AllRowsMembers(parts: seq<seq<nat>>, i: nat)
    ensures i in AllRows(parts) <==> Covered(parts, i)
  {
    if parts != [] {
      var front := parts[..|parts| - 1];
      AllRowsMembers(front, i);
      if Covered(front, i) {
        var p :| 0 <= p < |front| && i in front[p];
        assert i in parts[p];
      }
      if Covered(parts, i) {
        var p :| 0 <= p < |parts| && i in parts[p];
        if p < |front| { assert i in front[p]; }
      }
    }
  }

  lemma {:induction false} UptoSize(n: nat)
    ensures |Rows(Upto(n))| == n
  {
    if n > 0 {
      UptoSize(n - 1);
      assert Upto(n) == Upto(n - 1) + [n - 1];
      assert Rows(Upto(n)) == Rows(Upto(n - 1)) + {n - 1};
    }
  }

  lemma SubsetSize<T>(a: set<T>, b: set<T>)
    requires a <= b
    ensures |a| <= |b| && (|a| == |b| ==> a == b)
  {
    assert b == a + (b - a);
  }

  lemma UptoMembers(n: nat, i: nat)
    ensures i in Rows(Upto(n)) <==> i < n
  {
    if i < n {
      assert Upto(n)[i] == i;
    }
  }

  /** As many distinct rows of the dataset as it has are all of them. */
  lemma FullCover(parts: seq<seq<nat>>, n: nat)
    requires forall p | 0 <= p < |parts| :: InRange(n, parts[p])
    ensures |AllRows(parts)| == n <==> forall i: nat | i < n :: Covered(parts, i)
  {
    var s, all := AllRows(parts), Rows(Upto(n));
    forall i: nat ensures i in s <==> Covered(parts, i) { AllRowsMembers(parts, i); }
    forall i: nat ensures i in all <==> i < n { UptoMembers(n, i); }
    UptoSize(n);
    SubsetSize(s, all);
    if forall i: nat | i < n :: Covered(parts, i) {
      assert s == all;
    }
  }

  /** First pass: nonempty, disjoint, as many rows as the dataset. */
  method CheckRows(n: nat, parts: seq<seq<nat>>) returns (ok: bool)
    ensures ok <==>
      && (forall p | 0 <= p < |parts| :: parts[p] != [])
      && (forall p, q | 0 <= p < q < |parts| :: Apart(parts[p], parts[q]))
      && |AllRows(parts)| == n
  {
    var seen: set<nat> := {};
    for i := 0 to |parts|
      invariant seen == AllRows(parts[..i])
      invariant forall p | 0 <= p < i :: parts[p] != []
      invariant forall p, q | 0 <= p < q < i :: Apart(parts[p], parts[q])
    {
      if parts[i] == [] {
        return false;
      }
      if overlap :| overlap in seen * Rows(parts[i]) {
        AllRowsMembers(parts[..i], overlap);
        var p :| 0 <= p < i && overlap in parts[..i][p];
        assert !Apart(parts[p], parts[i]);
        return false;
      }
      forall p, row | 0 <= p < i && row in parts[p] ensures row !in parts[i] {
        AllRowsMembers(parts[..i], row);
        assert row in parts[..i][p];
        assert row !in seen * Rows(parts[i]);
      }
      seen := seen + Rows(parts[i]);
      assert parts[..i + 1][..i] == parts[..i];
    }
    assert parts[..|parts|] == parts;
    return |seen| == n;
  }

  function GroupsIn(groups: seq<string>, part: seq<nat>): set<string>
    requires InRange(|groups|, part)
  {
    set i | i in part :: groups[i]
  }

  /** Second pass: no sequence group in two partitions. */
  method CheckGroups(groups: seq<string>, parts: seq<seq<nat>>) returns (ok: bool)
    requires forall p | 0 <= p < |parts| :: InRange(|groups|, parts[p])
    ensures ok <==> forall p, q | 0 <= p < q < |parts| :: GroupsApart(groups, parts[p], parts[q])
  {
    for i := 0 to |parts|
      invariant forall p, q | 0 <= p < i && p < q < |parts| :: GroupsApart(groups, parts[p], parts[q])
    {
      for k := i + 1 to |parts|
        invariant forall q | i < q < k :: GroupsApart(groups, parts[i], parts[q])
      {
        var shared := GroupsIn(groups, parts[i]) * GroupsIn(groups, parts[k]);
        if shared != {} {
          var g :| g in shared;
          assert !GroupsApart(groups, parts[i], parts[k]);
          return false;
        }
        forall a, b | a in parts[i] && b in parts[k] ensures groups[a] != groups[b] {
          assert groups[a] in GroupsIn(groups, parts[i]) && groups[b] in GroupsIn(groups, parts[k]);
          assert groups[a] !in shared;
        }
      }
    }
    return true;
  }

  /** A position outside the dataset raises when its group is looked up. */
  method AssertPartitionIntegrity(groups: seq<string>, parts: seq<seq<nat>>) returns (ok: bool)
    ensures ok <==> Sound(groups, parts)
  {
    var rowsOk := CheckRows(|groups|, parts);
    var inRange := forall p | 0 <= p < |parts| :: InRange(|groups|, parts[p]);
    if inRange {
      FullCover(parts, |groups|);
    }
    if !rowsOk || !inRange {
      return false;
    }
    ok := CheckGroups(groups, parts);
  }
}
