/** The model registry: registration, quality gates, promotion and archiving. */
module Registry {
  import opened Wrappers

  datatype Status = Candidate | Validated | Active | Rejected | Archived

  /** Metrics of the test partition; a metric may be missing. */
  datatype Metrics = Metrics(
    macroF1: Option<real>,
    falsePositiveRate: Option<real>,
    latencyMs: Option<real>,
    perClass: seq<(string, Option<real>)>)

  /** What the verified metadata file of an artifact says. */
  datatype Metadata = Metadata(task: string, version: string, checksum: string, strategy: string, metrics: Metrics)

  /** A row; `validation` is the stored result of its last validation. */
  datatype Model = Model(metadata: Metadata, status: Status, validation: Option<bool>)

  datatype Gates = Gates(
    minimumMacroF1: real,
    maximumFalsePositiveRate: real,
    maximumLatencyMs: real,
    minimumRecall: seq<(string, real)>)

  const DEFAULT_GATES := Gates(0.5, 0.2, 1000.0, [])

  /** Gates that a caller asks for instead of the defaults. */
  datatype Overrides = Overrides(
    minimumMacroF1: Option<real>,
    maximumFalsePositiveRate: Option<real>,
    maximumLatencyMs: Option<real>,
    minimumRecall: Option<seq<(string, real)>>)

  function Merge(o: Overrides): (g: Gates)
    ensures o.minimumMacroF1 == Some(g.minimumMacroF1) || (o.minimumMacroF1.None? && g.minimumMacroF1 == 0.5)
    ensures o.maximumFalsePositiveRate == Some(g.maximumFalsePositiveRate)
      || (o.maximumFalsePositiveRate.None? && g.maximumFalsePositiveRate == 0.2)
    ensures o.maximumLatencyMs == Some(g.maximumLatencyMs)
      || (o.maximumLatencyMs.None? && g.maximumLatencyMs == 1000.0)
    ensures o.minimumRecall == Some(g.minimumRecall) || (o.minimumRecall.None? && g.minimumRecall == [])
  {
    var d := DEFAULT_GATES;
    Gates(
      if o.minimumMacroF1.Some? then o.minimumMacroF1.value else d.minimumMacroF1,
      if o.maximumFalsePositiveRate.Some? then o.maximumFalsePositiveRate.value else d.maximumFalsePositiveRate,
      if o.maximumLatencyMs.Some? then o.maximumLatencyMs.value else d.maximumLatencyMs,
      if o.minimumRecall.Some? then o.minimumRecall.value else d.minimumRecall)
  }

  predicate Promotable(strategy: string) { strategy == "group" || strategy == "capture_day" || strategy == "time" }

  // ----- Quality gates -----

  datatype Criterion = Criterion(name: string, passed: bool)

  /** The last entry of a class counts. */
  function RecallOf(perClass: seq<(string, Option<real>)>, name: string): Option<real> {
    if perClass == [] then None
    else if perClass[|perClass| - 1].0 == name then perClass[|perClass| - 1].1
    else RecallOf(perClass[..|perClass| - 1], name)
  }

  /** Of several entries for a class the last one counts, and no entry is no recall. */
  lemma {:induction false} RecallExactly(perClass: seq<(string, Option<real>)>, name: string, i: nat)
    requires i < |perClass| && perClass[i].0 == name && forall k | i < k < |perClass| :: perClass[k].0 != name
    ensures RecallOf(perClass, name) == perClass[i].1
    decreases |perClass|
  {
    if i < |perClass| - 1 {
      RecallExactly(perClass[..|perClass| - 1], name, i);
    }
  }

  lemma {:induction false} RecallMissing(perClass: seq<(string, Option<real>)>, name: string)
    requires forall k | 0 <= k < |perClass| :: perClass[k].0 != name
    ensures RecallOf(perClass, name) == None
  {
    if perClass != [] {
      RecallMissing(perClass[..|perClass| - 1], name);
    }
  }

  predicate AtLeast(actual: Option<real>, required: real) { actual.Some? && actual.value >= required }

  predicate AtMost(actual: Option<real>, required: real) { actual.Some? && actual.value <= required }

  /** Good enough for promotion: a promotable split and every metric within its bound. */
  predicate GoodEnough(m: Metadata, g: Gates) {
    && Promotable(m.strategy)
    && AtLeast(m.metrics.macroF1, g.minimumMacroF1)
    && AtMost(m.metrics.falsePositiveRate, g.maximumFalsePositiveRate)
    && AtMost(m.metrics.latencyMs, g.maximumLatencyMs)
    && forall r | r in g.minimumRecall :: AtLeast(RecallOf(m.metrics.perClass, r.0), r.1)
  }

  /** One criterion for each requirement; all of them have to pass. */
  method EvaluateQualityGates(m: Metadata, g: Gates) returns (passed: bool, criteria: seq<Criterion>)
    ensures |criteria| == 4 + |g.minimumRecall|
    ensures passed <==> forall c | c in criteria :: c.passed
    ensures passed <==>
      && m.strategy in {"group", "capture_day", "time"}
      && m.metrics.macroF1.Some? && m.metrics.macroF1.value >= g.minimumMacroF1
      && m.metrics.falsePositiveRate.Some? && m.metrics.falsePositiveRate.value <= g.maximumFalsePositiveRate
      && m.metrics.latencyMs.Some? && m.metrics.latencyMs.value <= g.maximumLatencyMs
      && forall r | r in g.minimumRecall ::
        RecallOf(m.metrics.perClass, r.0).Some? && RecallOf(m.metrics.perClass, r.0).value >= r.1
    ensures passed <==> GoodEnough(m, g)
  {
    criteria := [Criterion("required_split_strategy", Promotable(m.strategy))];
    criteria := criteria + [Criterion("minimum_macro_f1", AtLeast(m.metrics.macroF1, g.minimumMacroF1))];
    criteria := criteria +
      [Criterion("maximum_false_positive_rate", AtMost(m.metrics.falsePositiveRate, g.maximumFalsePositiveRate))];
    criteria := criteria + [Criterion("maximum_inference_latency_ms", AtMost(m.metrics.latencyMs, g.maximumLatencyMs))];
    ghost var head := criteria;
    for i := 0 to |g.minimumRecall|
      invariant |criteria| == 4 + i && criteria[..4] == head
      invariant forall k | 0 <= k < i ::
        criteria[4 + k].passed <==> AtLeast(RecallOf(m.metrics.perClass, g.minimumRecall[k].0), g.minimumRecall[k].1)
    {
      var (name, minimum) := g.minimumRecall[i];
      criteria := criteria +
        [Criterion("minimum_recall:" + name, AtLeast(RecallOf(m.metrics.perClass, name), minimum))];
    }
    passed := forall i | 0 <= i < |criteria| :: criteria[i].passed;
    assert criteria[0] == head[0] && criteria[1] == head[1] && criteria[2] == head[2] && criteria[3] == head[3];
    if !passed {
      var i :| 0 <= i < |criteria| && !criteria[i].passed;
      assert criteria[i] in criteria;
      if i >= 4 { assert g.minimumRecall[i - 4] in g.minimumRecall; }
    } else {
      forall r | r in g.minimumRecall ensures AtLeast(RecallOf(m.metrics.perClass, r.0), r.1) {
        var k :| 0 <= k < |g.minimumRecall| && g.minimumRecall[k] == r;
        assert criteria[4 + k].passed;
      }
    }
  }

  // ----- Operations -----

  datatype Operation =
    | Register(metadata: Metadata)
    | Validate(version: string, overrides: Overrides)
    | Promote(version: string)
    | Archive(version: string)

  /** Rows are looked up by version alone; the first one in order of registration is meant. */
  function Find(rows: seq<Model>, version: string): Option<nat> {
    if rows == [] then None
    else if rows[0].metadata.version == version then Some(0)
    else match Find(rows[1..], version) case None => None case Some(i) => Some(i + 1)
  }

  lemma {:induction false} FindFinds(rows: seq<Model>, version: string)
    ensures Find(rows, version).Some? ==>
      && Find(rows, version).value < |rows|
      && rows[Find(rows, version).value].metadata.version == version
      && forall k | 0 <= k < Find(rows, version).value :: rows[k].metadata.version != version
    ensures Find(rows, version).None? ==> forall r | r in rows :: r.metadata.version != version
  {
    if rows != [] && rows[0].metadata.version != version {
      FindFinds(rows[1..], version);
    }
  }

  predicate Clashes(r: Model, m: Metadata) {
    r.metadata.checksum == m.checksum || (r.metadata.task == m.task && r.metadata.version == m.version)
  }

  predicate CanPromote(r: Model) { r.status == Validated && r.validation == Some(true) }

  /** Row i becomes the active one of its task. */
  function Activated(rows: seq<Model>, i: nat): seq<Model>
    requires i < |rows|
  {
    seq(|rows|, k requires 0 <= k < |rows| =>
      if k == i then rows[k].(status := Active)
      else if rows[k].metadata.task == rows[i].metadata.task && rows[k].status == Active then
        rows[k].(status := Archived)
      else rows[k])
  }

  /** Whether an operation goes through; `files` tells whether its artifact files check out and can be written. */
  predicate Allowed(rows: seq<Model>, op: Operation, files: bool) {
    match op
    case Register(m) => files && forall r | r in rows :: !Clashes(r, m)
    case Validate(version, _) => files && Find(rows, version).Some?
    case Promote(version) =>
      FindFinds(rows, version);
      files && Find(rows, version).Some? && CanPromote(rows[Find(rows, version).value])
    case Archive(version) => files && Find(rows, version).Some?
  }

  /** The table after one operation; a refused one is rolled back. */
  function After(rows: seq<Model>, op: Operation, files: bool): seq<Model> {
    if !Allowed(rows, op, files) then rows
    else
      match op
      case Register(m) => rows + [Model(m, Candidate, None)]
      case Validate(version, overrides) =>
        FindFinds(rows, version);
        var i := Find(rows, version).value;
        var passed := GoodEnough(rows[i].metadata, Merge(overrides));
        rows[i := rows[i].(status := if passed then Validated else Rejected, validation := Some(passed))]
      case Promote(version) =>
        FindFinds(rows, version);
        Activated(rows, Find(rows, version).value)
      case Archive(version) =>
        FindFinds(rows, version);
        var i := Find(rows, version).value;
        rows[i := rows[i].(status := Archived)]
  }

  class ModelRegistry {
    var rows: seq<Model>

    constructor ()
      ensures rows == []
    {
      rows := [];
    }

    method RegisterModel(m: Metadata, files: bool) returns (ok: bool)
      modifies this
      ensures ok <==> Allowed(old(rows), Register(m), files)
      ensures ok <==> files && forall r | r in old(rows) ::
        r.metadata.checksum != m.checksum && (r.metadata.task != m.task || r.metadata.version != m.version)
      ensures rows == After(old(rows), Register(m), files)
    {
      if !files || exists r | r in rows :: Clashes(r, m) {
        return false;
      }
      rows := rows + [Model(m, Candidate, None)];
      return true;
    }

    method ValidateRegisteredModel(version: string, overrides: Overrides, files: bool) returns (ok: bool)
      modifies this
      ensures ok <==> Allowed(old(rows), Validate(version, overrides), files)
      ensures rows == After(old(rows), Validate(version, overrides), files)
    {
      var found := Find(rows, version);
      FindFinds(rows, version);
      if found.None? || !files {
        return false;
      }
      var i := found.value;
      var passed, _ := EvaluateQualityGates(rows[i].metadata, Merge(overrides));
      rows := rows[i := rows[i].(status := if passed then Validated else Rejected, validation := Some(passed))];
      return true;
    }

    /** Archives every other active row of the task before the row becomes active. */
    method PromoteModel(version: string, files: bool) returns (ok: bool)
      modifies this
      ensures ok <==> Allowed(old(rows), Promote(version), files)
      ensures ok <==>
        && files
        && var found := Find(old(rows), version);
        && found.Some?
        && found.value < |old(rows)|
        && old(rows)[found.value].status == Validated && old(rows)[found.value].validation == Some(true)
      ensures rows == After(old(rows), Promote(version), files)
    {
      var found := Find(rows, version);
      FindFinds(rows, version);
      if found.None? || !CanPromote(rows[found.value]) || !files {
        return false;
      }
      var i := found.value;
      for k := 0 to |rows|
        invariant |rows| == |old(rows)| && rows[i] == old(rows[i])
        invariant forall j | 0 <= j < k && j != i :: rows[j] == Activated(old(rows), i)[j]
        invariant forall j | k <= j < |rows| :: rows[j] == old(rows[j])
      {
        if k != i && rows[k].metadata.task == rows[i].metadata.task && rows[k].status == Active {
          rows := rows[k := rows[k].(status := Archived)];
        }
      }
      rows := rows[i := rows[i].(status := Active)];
      assert rows == Activated(old(rows), i);
      return true;
    }

    method ArchiveModel(version: string, files: bool) returns (ok: bool)
      modifies this
      ensures ok <==> Allowed(old(rows), Archive(version), files)
      ensures rows == After(old(rows), Archive(version), files)
    {
      var found := Find(rows, version);
      FindFinds(rows, version);
      if found.None? || !files {
        return false;
      }
      rows := rows[found.value := rows[found.value].(status := Archived)];
      return true;
    }
  }

  // ----- Every history -----

  function History(ops: seq<(Operation, bool)>): seq<Model> {
    if ops == [] then [] else After(History(ops[..|ops| - 1]), ops[|ops| - 1].0, ops[|ops| - 1].1)
  }

  /** A passing validation is stored only for a promotable split, and only validated rows become active. */
  predicate RowOk(r: Model) {
    && (r.validation == Some(true) ==> Promotable(r.metadata.strategy))
    && (r.status == Active || r.status == Validated ==> r.validation == Some(true))
  }

  ghost predicate RegistryOk(rows: seq<Model>) {
    && (forall i | 0 <= i < |rows| :: RowOk(rows[i]))
    && (forall i, k | 0 <= i < k < |rows| ::
          && rows[i].metadata.checksum != rows[k].metadata.checksum
          && (rows[i].metadata.task != rows[k].metadata.task || rows[i].metadata.version != rows[k].metadata.version))
    && (forall i, k | 0 <= i < k < |rows| && rows[i].status == Active && rows[k].status == Active ::
          rows[i].metadata.task != rows[k].metadata.task)
  }

  lemma RegistrationKeepsRegistry(rows: seq<Model>, m: Metadata)
    requires RegistryOk(rows) && forall r | r in rows :: !Clashes(r, m)
    ensures RegistryOk(rows + [Model(m, Candidate, None)])
  {
    forall i | 0 <= i < |rows| ensures !Clashes(rows[i], m) {
      assert rows[i] in rows;
    }
  }

  lemma OperationKeepsRegistry(rows: seq<Model>, op: Operation, files: bool)
    requires RegistryOk(rows)
    ensures RegistryOk(After(rows, op, files))
    ensures |rows| <= |After(rows, op, files)|
    ensures forall i | 0 <= i < |rows| :: After(rows, op, files)[i].metadata == rows[i].metadata
  {
    if Allowed(rows, op, files) {
      match op
      case Register(m) => RegistrationKeepsRegistry(rows, m);
      case Validate(version, o) =>
        FindFinds(rows, version);
        var i := Find(rows, version).value;
        OneRowChanges(rows, i, After(rows, op, files)[i]);
      case Promote(version) =>
        FindFinds(rows, version);
        ActivationKeepsRegistry(rows, Find(rows, version).value);
      case Archive(version) =>
        FindFinds(rows, version);
        var i := Find(rows, version).value;
        OneRowChanges(rows, i, After(rows, op, files)[i]);
    }
  }

  /** A row may change to anything sound that is not active. */
  lemma OneRowChanges(rows: seq<Model>, i: nat, r: Model)
    requires RegistryOk(rows) && i < |rows| && r.metadata == rows[i].metadata && RowOk(r) && r.status != Active
    ensures RegistryOk(rows[i := r])
  {
  }

  lemma ActivationKeepsRegistry(rows: seq<Model>, i: nat)
    requires RegistryOk(rows) && i < |rows| && rows[i].validation == Some(true)
    ensures RegistryOk(Activated(rows, i))
  {
  }

  /**
    * After any operations there is at most one active row for each task, checksums and
    * pairs of task and version do not repeat, and an active row has a stored passing
    * validation and a promotable split, so a `random_dev_only` model is never active.
    */
  lemma {:induction false} RegistryAlways(ops: seq<(Operation, bool)>)
    ensures RegistryOk(History(ops))
  {
    if ops != [] {
      RegistryAlways(ops[..|ops| - 1]);
      OperationKeepsRegistry(History(ops[..|ops| - 1]), ops[|ops| - 1].0, ops[|ops| - 1].1);
    }
  }

  /** A row becomes active only by promotion, which asks for a validation that passed and was not undone. */
  lemma OnlyPromotionActivates(ops: seq<(Operation, bool)>, op: Operation, files: bool, i: nat)
    requires i < |After(History(ops), op, files)| && After(History(ops), op, files)[i].status == Active
    requires i < |History(ops)| ==> History(ops)[i].status != Active
    ensures op.Promote? && files && Find(History(ops), op.version) == Some(i)
    ensures History(ops)[i].status == Validated && History(ops)[i].validation == Some(true)
  {
    var rows := History(ops);
    if op.Validate? || op.Promote? || op.Archive? {
      FindFinds(rows, op.version);
    }
  }

  /** Promotion leaves exactly one active row for its task and does not touch other tasks. */
  lemma PromotionIsExclusive(ops: seq<(Operation, bool)>, version: string)
    requires Allowed(History(ops), Promote(version), true)
    ensures
      var before, after := History(ops), After(History(ops), Promote(version), true);
      var i := Find(before, version).value;
      && i < |before| == |after|
      && (forall k | 0 <= k < |after| && after[k].metadata.task == after[i].metadata.task ::
        after[k].status == Active <==> k == i)
      && (forall k | 0 <= k < |after| && after[k].metadata.task != after[i].metadata.task :: after[k] == before[k])
  {
    FindFinds(History(ops), version);
  }
}
