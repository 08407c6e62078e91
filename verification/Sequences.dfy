/** Sliding-window sequences inside partitions, and what may not leak into them. */
module Sequences {
  import opened Wrappers
  import opened Ordering
  import opened Partitions

  /** `length` consecutive rows of one group, their scaled values and the label of the last. */
  datatype Sequence<F> = Sequence(group: string, rows: seq<nat>, values: seq<F>, lastLabel: int)

  // ----- Rows of a group -----

  function IfGroup(groups: seq<string>, g: string): nat -> seq<nat> {
    (i: nat) => if i < |groups| && groups[i] == g then [i] else []
  }

  /** By timestamp when there is one, by position otherwise. */
  function RowOrder(timestamps: Option<seq<int>>): (nat, nat) -> bool {
    if timestamps.Some? then Earlier(timestamps.value) else (i: nat, k: nat) => i <= k
  }

  /** The rows of one group inside a partition, in order. */
  function GroupRows<F>(d: Dataset<F>, part: seq<nat>, g: string): seq<nat> {
    Sort(Gather(part, IfGroup(d.groups, g)), RowOrder(d.timestamps))
  }

  function Fresh(groups: seq<string>, seen: seq<string>, i: nat): seq<string> {
    if i < |groups| && groups[i] !in seen then seen + [groups[i]] else seen
  }

  /** The distinct groups of a partition, in the order they appear. */
  function GroupNames(groups: seq<string>, part: seq<nat>): seq<string> {
    if part == [] then [] else Fresh(groups, GroupNames(groups, part[..|part| - 1]), part[|part| - 1])
  }

  /** `groupby(sort=True)`. */
  function SortedGroups(groups: seq<string>, part: seq<nat>): seq<string> { Sort(GroupNames(groups, part), StringLe) }

  function WindowCount(size: nat, length: nat): nat { if size + 1 >= length then size + 1 - length else 0 }

  /** `length` rows from place `k` on. */
  function Block(rows: seq<nat>, k: nat, length: nat): (w: seq<nat>)
    requires k + length <= |rows|
    ensures |w| == length && forall i | 0 <= i < length :: w[i] == rows[k + i] && w[i] in rows
  {
    rows[k..k + length]
  }

  function Window<F>(d: Dataset<F>, scaled: seq<F>, g: string, rows: seq<nat>, length: nat, k: nat): Sequence<F>
    requires Aligned(d) && |scaled| == |d.features| && InRange(|d.features|, rows)
    requires 1 <= length && k + length <= |rows|
  {
    var w := Block(rows, k, length);
    Sequence(g, w, seq(length, i requires 0 <= i < length => scaled[w[i]]), d.labels[w[length - 1]])
  }

  /** Every window of `length` rows, from the first to the last. */
  function Windows<F>(d: Dataset<F>, scaled: seq<F>, g: string, rows: seq<nat>, length: nat): (r: seq<Sequence<F>>)
    requires Aligned(d) && |scaled| == |d.features| && InRange(|d.features|, rows) && 1 <= length
    ensures |r| == WindowCount(|rows|, length)
  {
    seq(WindowCount(|rows|, length),
      k requires 0 <= k < WindowCount(|rows|, length) => Window(d, scaled, g, rows, length, k))
  }

  lemma GroupRowsMembers<F>(d: Dataset<F>, part: seq<nat>, g: string)
    ensures forall i :: i in GroupRows(d, part, g) <==> i in part && i < |d.groups| && d.groups[i] == g
  {
    SortKeeps(Gather(part, IfGroup(d.groups, g)), RowOrder(d.timestamps));
    forall i: nat
      ensures i in Gather(part, IfGroup(d.groups, g)) <==> i in part && i < |d.groups| && d.groups[i] == g
    {
      GatherMembers(part, IfGroup(d.groups, g), i);
      assert i in IfGroup(d.groups, g)(i) <==> i < |d.groups| && d.groups[i] == g;
    }
  }

  /** The sequences of the groups named, one group after the other. */
  function SequencesOf<F>(d: Dataset<F>, scaled: seq<F>, part: seq<nat>, names: seq<string>,
                          length: nat): seq<Sequence<F>>
    requires Aligned(d) && |scaled| == |d.features| && InRange(|d.features|, part) && 1 <= length
  {
    if names == [] then []
    else
      var g := names[|names| - 1];
      GroupRowsMembers(d, part, g);
      SequencesOf(d, scaled, part, names[..|names| - 1], length) + Windows(d, scaled, g, GroupRows(d, part, g), length)
  }

  function PartitionSequences<F>(d: Dataset<F>, scaled: seq<F>, part: seq<nat>, length: nat): seq<Sequence<F>>
    requires Aligned(d) && |scaled| == |d.features| && InRange(|d.features|, part) && 1 <= length
  {
    SequencesOf(d, scaled, part, SortedGroups(d.groups, part), length)
  }

  lemma OneMoreGroup<F>(d: Dataset<F>, scaled: seq<F>, part: seq<nat>, names: seq<string>, length: nat, n: nat)
    requires Aligned(d) && |scaled| == |d.features| && InRange(|d.features|, part) && 1 <= length && n < |names|
    requires InRange(|d.features|, GroupRows(d, part, names[n]))
    ensures SequencesOf(d, scaled, part, names[..n + 1], length) ==
      SequencesOf(d, scaled, part, names[..n], length) +
        Windows(d, scaled, names[n], GroupRows(d, part, names[n]), length)
  {
    assert names[..n + 1][..n] == names[..n];
  }

  method AppendWindows<F>(d: Dataset<F>, scaled: seq<F>, g: string, rows: seq<nat>, length: nat,
                          before: seq<Sequence<F>>)
    returns (sequences: seq<Sequence<F>>)
    requires Aligned(d) && |scaled| == |d.features| && InRange(|d.features|, rows) && 1 <= length
    ensures sequences == before + Windows(d, scaled, g, rows, length)
  {
    sequences := before;
    var count := WindowCount(|rows|, length);
    for k := 0 to count
      invariant sequences == before + Windows(d, scaled, g, rows, length)[..k]
    {
      sequences := sequences + [Window(d, scaled, g, rows, length, k)];
    }
  }

  /** One group after the other; a partition without any sequence is an error. */
  method BuildSequences<F>(d: Dataset<F>, scaled: seq<F>, part: seq<nat>, length: nat)
    returns (r: Result<seq<Sequence<F>>>)
    requires Aligned(d) && |scaled| == |d.features| && InRange(|d.features|, part) && 1 <= length
    ensures r == if PartitionSequences(d, scaled, part, length) == [] then Invalid
      else Ok(PartitionSequences(d, scaled, part, length))
  {
    var names := SortedGroups(d.groups, part);
    var sequences: seq<Sequence<F>> := [];
    for n := 0 to |names|
      invariant sequences == SequencesOf(d, scaled, part, names[..n], length)
    {
      GroupRowsMembers(d, part, names[n]);
      sequences := AppendWindows(d, scaled, names[n], GroupRows(d, part, names[n]), length, sequences);
      OneMoreGroup(d, scaled, part, names, length, n);
    }
    assert names[..|names|] == names;
    return if sequences == [] then Invalid else Ok(sequences);
  }

  // ----- What a sequence is -----

  /** `length` consecutive rows of one group of the partition, with their values and last label. */
  ghost predicate IsWindow<F>(d: Dataset<F>, scaled: seq<F>, part: seq<nat>, length: nat, s: Sequence<F>)
    requires Aligned(d) && |scaled| == |d.features| && InRange(|d.features|, part)
  {
    var rows := GroupRows(d, part, s.group);
    && |s.rows| == |s.values| == length
    && (exists k: nat | k + length <= |rows| :: s.rows == Block(rows, k, length))
    && (forall i | 0 <= i < length ::
      s.rows[i] in part && d.groups[s.rows[i]] == s.group && s.values[i] == scaled[s.rows[i]])
    && (length > 0 ==> s.lastLabel == d.labels[s.rows[length - 1]])
  }

  lemma WindowIsWindow<F>(d: Dataset<F>, scaled: seq<F>, part: seq<nat>, g: string, length: nat, k: nat)
    requires Aligned(d) && |scaled| == |d.features| && InRange(|d.features|, part) && 1 <= length
    requires k + length <= |GroupRows(d, part, g)|
    requires InRange(|d.features|, GroupRows(d, part, g))
    ensures IsWindow(d, scaled, part, length, Window(d, scaled, g, GroupRows(d, part, g), length, k))
  {
    var rows := GroupRows(d, part, g);
    GroupRowsMembers(d, part, g);
    var w := Block(rows, k, length);
    forall i | 0 <= i < length ensures w[i] in part && d.groups[w[i]] == g {
    }
  }

  lemma {:induction false} SequencesAreWindows<F>(d: Dataset<F>, scaled: seq<F>, part: seq<nat>, names: seq<string>,
                                                  length: nat)
    requires Aligned(d) && |scaled| == |d.features| && InRange(|d.features|, part) && 1 <= length
    ensures forall s | s in SequencesOf(d, scaled, part, names, length) :: IsWindow(d, scaled, part, length, s)
  {
    if names != [] {
      var g := names[|names| - 1];
      SequencesAreWindows(d, scaled, part, names[..|names| - 1], length);
      GroupRowsMembers(d, part, g);
      var ws := Windows(d, scaled, g, GroupRows(d, part, g), length);
      forall s | s in ws ensures IsWindow(d, scaled, part, length, s) {
        var k :| 0 <= k < |ws| && ws[k] == s;
        WindowIsWindow(d, scaled, part, g, length, k);
      }
    }
  }

  /** How often a row occurs. */
  function Times(s: seq<nat>, r: nat): nat {
    if s == [] then 0 else Times(s[..|s| - 1], r) + if s[|s| - 1] == r then 1 else 0
  }

  lemma {:induction false} TimesIsMultiplicity(s: seq<nat>, r: nat)
    ensures Times(s, r) == multiset(s)[r]
  {
    if s != [] {
      TimesIsMultiplicity(s[..|s| - 1], r);
      assert s == s[..|s| - 1] + [s[|s| - 1]];
    }
  }

  predicate InGroup(groups: seq<string>, r: nat, g: string) { r < |groups| && groups[r] == g }

  lemma OneMoreTime(s: seq<nat>, x: nat, r: nat)
    ensures Times(s + [x], r) == Times(s, r) + if x == r then 1 else 0
  {
    assert (s + [x])[..|s|] == s;
  }

  lemma {:induction false} GatherCounts(groups: seq<string>, part: seq<nat>, g: string, r: nat)
    ensures Times(Gather(part, IfGroup(groups, g)), r) == if InGroup(groups, r, g) then Times(part, r) else 0
  {
    if part != [] {
      var front, last := part[..|part| - 1], part[|part| - 1];
      var picked := Gather(front, IfGroup(groups, g));
      GatherCounts(groups, front, g, r);
      OneMoreTime(front, last, r);
      assert part == front + [last];
      if InGroup(groups, last, g) {
        OneMoreTime(picked, last, r);
        assert Gather(part, IfGroup(groups, g)) == picked + [last];
      } else {
        assert Gather(part, IfGroup(groups, g)) == picked + [] == picked;
      }
    }
  }

  lemma RowOrderIsTotal(timestamps: Option<seq<int>>)
    ensures TotalPreorder(RowOrder(timestamps))
  {
  }

  /**
    * The rows of a group are all its rows in the partition: by time, and as they stand in the
    * partition at equal times, or by position when there are no timestamps.
    */
  lemma GroupRowsAreOrdered<F>(d: Dataset<F>, part: seq<nat>, g: string)
    ensures forall r: nat :: Times(GroupRows(d, part, g), r) == if InGroup(d.groups, r, g) then Times(part, r) else 0
    ensures
      var rows := GroupRows(d, part, g);
      forall i, k | 0 <= i < k < |rows| ::
        match d.timestamps
        case None => rows[i] <= rows[k]
        case Some(ts) =>
          rows[i] < |ts| && rows[k] < |ts| ==>
            ts[rows[i]] < ts[rows[k]] || (ts[rows[i]] == ts[rows[k]] && Before(part, rows[i], rows[k]))
  {
    var picked, rows := Gather(part, IfGroup(d.groups, g)), GroupRows(d, part, g);
    RowOrderIsTotal(d.timestamps);
    SortOrders(picked, RowOrder(d.timestamps));
    SortKeeps(picked, RowOrder(d.timestamps));
    forall r: nat ensures Times(rows, r) == if InGroup(d.groups, r, g) then Times(part, r) else 0 {
      GatherCounts(d.groups, part, g, r);
      TimesIsMultiplicity(picked, r);
      TimesIsMultiplicity(rows, r);
    }
    forall i, k | 0 <= i < k < |rows| && RowOrder(d.timestamps)(rows[k], rows[i])
      ensures Before(part, rows[i], rows[k])
    {
      SortIsStable(picked, RowOrder(d.timestamps), i, k);
      GatherKeepsOrder(part, IfGroup(d.groups, g), rows[i], rows[k]);
    }
  }

  /** No window is missing. */
  lemma {:induction false} SequencesAreComplete<F>(
    d: Dataset<F>, scaled: seq<F>, part: seq<nat>, names: seq<string>, length: nat, g: string, k: nat)
    requires Aligned(d) && |scaled| == |d.features| && InRange(|d.features|, part) && 1 <= length
    requires InRange(|d.features|, GroupRows(d, part, g))
    requires g in names && k + length <= |GroupRows(d, part, g)|
    ensures Window(d, scaled, g, GroupRows(d, part, g), length, k) in SequencesOf(d, scaled, part, names, length)
  {
    var last := names[|names| - 1];
    if g == last {
      var ws := Windows(d, scaled, g, GroupRows(d, part, g), length);
      assert ws[k] == Window(d, scaled, g, GroupRows(d, part, g), length, k);
    } else {
      assert g in names[..|names| - 1];
      SequencesAreComplete(d, scaled, part, names[..|names| - 1], length, g, k);
    }
  }

  // ----- Counting -----

  function SumWindows<F>(d: Dataset<F>, part: seq<nat>, names: seq<string>, length: nat): nat {
    if names == [] then 0
    else
      SumWindows(d, part, names[..|names| - 1], length)
      + WindowCount(GroupSize(d.groups, part, names[|names| - 1]), length)
  }

  /** How many rows of a partition belong to a group. */
  function GroupSize(groups: seq<string>, part: seq<nat>, g: string): nat {
    if part == [] then 0
    else
      GroupSize(groups, part[..|part| - 1], g)
      + if part[|part| - 1] < |groups| && groups[part[|part| - 1]] == g then 1 else 0
  }

  lemma {:induction false} GatherSize(groups: seq<string>, part: seq<nat>, g: string)
    ensures |Gather(part, IfGroup(groups, g))| == GroupSize(groups, part, g)
  {
    if part != [] {
      GatherSize(groups, part[..|part| - 1], g);
    }
  }

  lemma {:induction false} SequencesCounted<F>(d: Dataset<F>, scaled: seq<F>, part: seq<nat>, names: seq<string>,
                                               length: nat)
    requires Aligned(d) && |scaled| == |d.features| && InRange(|d.features|, part) && 1 <= length
    ensures |SequencesOf(d, scaled, part, names, length)| == SumWindows(d, part, names, length)
  {
    if names != [] {
      SequencesCounted(d, scaled, part, names[..|names| - 1], length);
      GatherSize(d.groups, part, names[|names| - 1]);
    }
  }

  /** Every group of the partition is named once. */
  lemma {:induction false} NamesAreTheGroups(groups: seq<string>, part: seq<nat>)
    requires InRange(|groups|, part)
    ensures forall g :: g in GroupNames(groups, part) <==> exists i :: i in part && groups[i] == g
    ensures forall i, k | 0 <= i < k < |GroupNames(groups, part)| ::
      GroupNames(groups, part)[i] != GroupNames(groups, part)[k]
  {
    if part != [] {
      var front, last := part[..|part| - 1], part[|part| - 1];
      assert part == front + [last];
      assert forall i | i in front :: i in part;
      NamesAreTheGroups(groups, front);
      forall g ensures g in GroupNames(groups, part) <==> exists i :: i in part && groups[i] == g {
        if i :| i in part && groups[i] == g {
          assert i in front || i == last;
        }
        if g in GroupNames(groups, front) {
          var i :| i in front && groups[i] == g;
          assert i in part;
        } else if g in GroupNames(groups, part) {
          assert last in part && groups[last] == g;
        }
      }
    }
  }
}
