/** Preparing a dataset for training: nothing leaks from one partition into another. */
module Leakage {
  import opened Wrappers
  import opened Ordering
  import opened Partitions
  import opened Sequences

  /** S is a fitted scaler. */
  datatype Prepared<F, S> = Prepared(parts: seq<seq<nat>>, scaler: S, sequences: seq<seq<Sequence<F>>>)

  /** The scaler, and the library's group splitter with its own refusals. */
  datatype Tools<!F, !S> = Tools(
    fit: seq<F> -> S,
    transform: (S, F) -> F,
    splitGroups: seq<string> -> Result<seq<seq<nat>>>)

  /** Which rows go where; feature values play no part in it. */
  function SplitBy<F, S>(t: Tools<F, S>, d: Dataset<F>, strategy: Strategy): Result<seq<seq<nat>>> {
    match strategy
    case ByGroup => t.splitGroups(d.splitGroups)
    case ByCaptureDay => if d.captureDays.Some? then t.splitGroups(d.captureDays.value) else Invalid
    case ByTime =>
      if d.timestamps.Some? && |d.timestamps.value| >= 3 then Ok(Cut(TimeOrder(d.timestamps.value))) else Invalid
    case RandomDevOnly => t.splitGroups(d.groups)
  }

  function Pick<F>(features: seq<F>, part: seq<nat>): seq<F>
    requires InRange(|features|, part)
  {
    seq(|part|, i requires 0 <= i < |part| => assert part[i] in part; features[part[i]])
  }

  /** Fitted on the training rows only. */
  function ScalerOf<F, S>(t: Tools<F, S>, features: seq<F>, train: seq<nat>): S
    requires InRange(|features|, train)
  {
    t.fit(Pick(features, train))
  }

  function Scaled<F, S>(t: Tools<F, S>, scaler: S, features: seq<F>): seq<F> {
    seq(|features|, i requires 0 <= i < |features| => t.transform(scaler, features[i]))
  }

  /** Everything that can be used: the partitions are sound and none of them lacks sequences. */
  ghost predicate Usable<F, S>(t: Tools<F, S>, d: Dataset<F>, parts: seq<seq<nat>>, length: int)
    requires Aligned(d)
  {
    && |parts| == 3 && length >= 1 && Sound(d.groups, parts)
    && var scaled := Scaled(t, ScalerOf(t, d.features, parts[0]), d.features);
    && forall p | 0 <= p < 3 :: PartitionSequences(d, scaled, parts[p], length) != []
  }

  ghost function Preparation<F, S>(t: Tools<F, S>, d: Dataset<F>, parts: seq<seq<nat>>, length: int): Prepared<F, S>
    requires Aligned(d) && Usable(t, d, parts, length)
  {
    var scaler := ScalerOf(t, d.features, parts[0]);
    var scaled := Scaled(t, scaler, d.features);
    Prepared(parts, scaler, seq(3, p requires 0 <= p < 3 => PartitionSequences(d, scaled, parts[p], length)))
  }

  ghost predicate Built<F>(d: Dataset<F>, scaled: seq<F>, part: seq<nat>, length: int, s: seq<Sequence<F>>)
    requires Aligned(d) && |scaled| == |d.features| && length >= 1 && InRange(|d.features|, part)
  {
    s == PartitionSequences(d, scaled, part, length) && s != []
  }

  method BuildAll<F>(d: Dataset<F>, scaled: seq<F>, parts: seq<seq<nat>>, length: int)
    returns (r: Result<seq<seq<Sequence<F>>>>)
    requires Aligned(d) && |scaled| == |d.features| && length >= 1
    requires forall p | 0 <= p < |parts| :: InRange(|d.features|, parts[p])
    ensures r.Ok? <==> forall p | 0 <= p < |parts| :: PartitionSequences(d, scaled, parts[p], length) != []
    ensures r.Ok? ==>
      |r.value| == |parts| &&
        forall p | 0 <= p < |parts| :: r.value[p] == PartitionSequences(d, scaled, parts[p], length)
  {
    var sequences: seq<seq<Sequence<F>>> := [];
    for p := 0 to |parts|
      invariant |sequences| == p
      invariant forall q | 0 <= q < p :: Built(d, scaled, parts[q], length, sequences[q])
    {
      var built := BuildSequences(d, scaled, parts[p], length);
      if built.Invalid? {
        return Invalid;
      }
      assert Built(d, scaled, parts[p], length, built.value);
      sequences := sequences + [built.value];
    }
    return Ok(sequences);
  }

  method PreparePartitions<F, S>(t: Tools<F, S>, d: Dataset<F>, strategy: Strategy, length: int)
    returns (r: Result<Prepared<F, S>>)
    requires Aligned(d)
    requires SplitBy(t, d, strategy).Ok? ==> |SplitBy(t, d, strategy).value| == 3
    ensures r.Ok? <==> SplitBy(t, d, strategy).Ok? && Usable(t, d, SplitBy(t, d, strategy).value, length)
    ensures r.Ok? ==> r.value == Preparation(t, d, SplitBy(t, d, strategy).value, length)
  {
    if length < 1 {
      return Invalid;
    }
    var split;
    match strategy {
      case ByGroup => split := t.splitGroups(d.splitGroups);
      case ByCaptureDay => split := if d.captureDays.Some? then t.splitGroups(d.captureDays.value) else Invalid;
      case ByTime => split := TimeSplit(d.timestamps);
      case RandomDevOnly => split := t.splitGroups(d.groups);
    }
    if split.Invalid? {
      return Invalid;
    }
    var parts := split.value;
    var sound := AssertPartitionIntegrity(d.groups, parts);
    if !sound {
      return Invalid;
    }
    var scaler := ScalerOf(t, d.features, parts[0]);
    var scaled := Scaled(t, scaler, d.features);
    var sequences := BuildAll(d, scaled, parts, length);
    if sequences.Invalid? {
      return Invalid;
    }
    return Ok(Prepared(parts, scaler, sequences.value));
  }

  // ----- Nothing leaks -----

  /** Every sequence is a window of consecutive rows of one group inside its partition. */
  lemma SequencesStayInside<F, S>(t: Tools<F, S>, d: Dataset<F>, parts: seq<seq<nat>>, length: int, p: nat)
    requires Aligned(d) && Usable(t, d, parts, length) && p < 3
    ensures
      var prepared := Preparation(t, d, parts, length);
      forall s | s in prepared.sequences[p] ::
        IsWindow(d, Scaled(t, prepared.scaler, d.features), parts[p], length, s)
  {
    var scaled := Scaled(t, ScalerOf(t, d.features, parts[0]), d.features);
    SequencesAreWindows(d, scaled, parts[p], SortedGroups(d.groups, parts[p]), length);
  }

  /** Sequences of different partitions share neither a row nor a group. */
  lemma NoLeakage<F, S>(t: Tools<F, S>, d: Dataset<F>, parts: seq<seq<nat>>, length: int, p: nat, q: nat,
                        s: Sequence<F>, u: Sequence<F>)
    requires Aligned(d) && Usable(t, d, parts, length) && p < q < 3
    requires s in Preparation(t, d, parts, length).sequences[p] && u in Preparation(t, d, parts, length).sequences[q]
    ensures s.group != u.group
    ensures forall row | row in s.rows :: row !in u.rows
  {
    var scaled := Scaled(t, ScalerOf(t, d.features, parts[0]), d.features);
    SequencesStayInside(t, d, parts, length, p);
    SequencesStayInside(t, d, parts, length, q);
    assert IsWindow(d, scaled, parts[p], length, s) && IsWindow(d, scaled, parts[q], length, u);
    InsideApart(d, scaled, parts[p], parts[q], length, s, u);
  }

  lemma InsideApart<F>(d: Dataset<F>, scaled: seq<F>, a: seq<nat>, b: seq<nat>, length: nat, s: Sequence<F>,
                       u: Sequence<F>)
    requires Aligned(d) && |scaled| == |d.features| && InRange(|d.features|, a) && InRange(|d.features|, b) &&
      length >= 1
    requires IsWindow(d, scaled, a, length, s) && IsWindow(d, scaled, b, length, u)
    requires Apart(a, b) && GroupsApart(d.groups, a, b)
    ensures s.group != u.group
    ensures forall row | row in s.rows :: row !in u.rows
  {
    assert s.rows[0] in a && u.rows[0] in b;
    forall row | row in s.rows ensures row !in b {
      var i :| 0 <= i < length && s.rows[i] == row;
    }
    forall row | row in u.rows ensures row in b {
      var i :| 0 <= i < length && u.rows[i] == row;
    }
  }

  /** A partition has, for each of its groups, one sequence for each place a window can start. */
  lemma SequencesAreCounted<F, S>(t: Tools<F, S>, d: Dataset<F>, parts: seq<seq<nat>>, length: int, p: nat)
    requires Aligned(d) && Usable(t, d, parts, length) && p < 3
    ensures |Preparation(t, d, parts, length).sequences[p]| ==
      SumWindows(d, parts[p], SortedGroups(d.groups, parts[p]), length)
    ensures forall g :: g in SortedGroups(d.groups, parts[p]) <==> exists i :: i in parts[p] && d.groups[i] == g
    ensures DistinctBy(SortedGroups(d.groups, parts[p]), (g: string) => g)
  {
    var scaled := Scaled(t, ScalerOf(t, d.features, parts[0]), d.features);
    var names := GroupNames(d.groups, parts[p]);
    SequencesCounted(d, scaled, parts[p], SortedGroups(d.groups, parts[p]), length);
    NamesAreTheGroups(d.groups, parts[p]);
    SortKeeps(names, StringLe);
    RearrangedStaysDistinct(names, SortedGroups(d.groups, parts[p]), (g: string) => g);
  }

  // ----- Non-interference -----

  /** The same dataset but for the feature values of rows outside `part`. */
  ghost predicate AgreeOn<F>(d: Dataset<F>, e: Dataset<F>, part: seq<nat>)
    requires InRange(|d.features|, part)
  {
    && |e.features| == |d.features|
    && d == e.(features := d.features)
    && forall i | i in part :: d.features[i] == e.features[i]
  }

  lemma SameScaler<F, S>(t: Tools<F, S>, d: Dataset<F>, e: Dataset<F>, train: seq<nat>)
    requires InRange(|d.features|, train) && AgreeOn(d, e, train)
    ensures ScalerOf(t, d.features, train) == ScalerOf(t, e.features, train)
  {
    assert Pick(d.features, train) == Pick(e.features, train);
  }

  lemma {:induction false} SequencesSeePartOnly<F>(
    d: Dataset<F>, e: Dataset<F>, x: seq<F>, y: seq<F>, part: seq<nat>, names: seq<string>, length: nat)
    requires Aligned(d) && Aligned(e) && length >= 1
    requires |x| == |y| == |d.features| == |e.features| && d == e.(features := d.features)
    requires InRange(|d.features|, part) && forall i | i in part :: x[i] == y[i]
    ensures SequencesOf(d, x, part, names, length) == SequencesOf(e, y, part, names, length)
  {
    if names != [] {
      var g := names[|names| - 1];
      SequencesSeePartOnly(d, e, x, y, part, names[..|names| - 1], length);
      GroupRowsMembers(d, part, g);
      var rows := GroupRows(d, part, g);
      assert rows == GroupRows(e, part, g);
      WindowsSeeRowsOnly(d, e, x, y, g, rows, length);
    }
  }

  lemma WindowsSeeRowsOnly<F>(d: Dataset<F>, e: Dataset<F>, x: seq<F>, y: seq<F>, g: string, rows: seq<nat>,
                              length: nat)
    requires Aligned(d) && Aligned(e) && length >= 1
    requires |x| == |y| == |d.features| == |e.features| && d == e.(features := d.features)
    requires InRange(|d.features|, rows) && forall i | i in rows :: x[i] == y[i]
    ensures Windows(d, x, g, rows, length) == Windows(e, y, g, rows, length)
  {
    forall k | 0 <= k < WindowCount(|rows|, length)
      ensures Window(d, x, g, rows, length, k) == Window(e, y, g, rows, length, k)
    {
      assert Window(d, x, g, rows, length, k).values == Window(e, y, g, rows, length, k).values;
    }
  }

  /**
    * Changing feature values outside the training rows changes neither the split nor the
    * scaler nor any training sequence, and it cannot make the preparation fail.
    */
  lemma TrainingSeesTrainOnly<F, S>(t: Tools<F, S>, d: Dataset<F>, e: Dataset<F>, strategy: Strategy, length: int)
    requires Aligned(d) && SplitBy(t, d, strategy).Ok?
    requires Usable(t, d, SplitBy(t, d, strategy).value, length)
    requires AgreeOn(d, e, SplitBy(t, d, strategy).value[0])
    ensures Aligned(e) && SplitBy(t, e, strategy) == SplitBy(t, d, strategy)
    ensures Usable(t, e, SplitBy(t, e, strategy).value, length)
    ensures
      var before := Preparation(t, d, SplitBy(t, d, strategy).value, length);
      var after := Preparation(t, e, SplitBy(t, e, strategy).value, length);
      after.parts == before.parts && after.scaler == before.scaler && after.sequences[0] == before.sequences[0]
  {
    var parts := SplitBy(t, d, strategy).value;
    SameScaler(t, d, e, parts[0]);
    var scaler := ScalerOf(t, d.features, parts[0]);
    var x, y := Scaled(t, scaler, d.features), Scaled(t, scaler, e.features);
    forall p | 0 <= p < 3 ensures PartitionSequences(e, y, parts[p], length) != [] {
      SequencesCounted(d, x, parts[p], SortedGroups(d.groups, parts[p]), length);
      SequencesCounted(e, y, parts[p], SortedGroups(e.groups, parts[p]), length);
      SumSeesNoFeatures(d, e, parts[p], SortedGroups(d.groups, parts[p]), length);
    }
    SequencesSeePartOnly(d, e, x, y, parts[0], SortedGroups(d.groups, parts[0]), length);
  }

  lemma {:induction false} SumSeesNoFeatures<F>(d: Dataset<F>, e: Dataset<F>, part: seq<nat>, names: seq<string>,
                                                length: nat)
    requires d.groups == e.groups
    ensures SumWindows(d, part, names, length) == SumWindows(e, part, names, length)
  {
    if names != [] {
      SumSeesNoFeatures(d, e, part, names[..|names| - 1], length);
    }
  }
}
