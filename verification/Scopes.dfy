/** Target scopes: validation, matching and the narrowness score. */
module Scopes {
  import opened Wrappers
  import opened Addresses

  /** The eight scope keys; each constrains one field of a target. */
  datatype Dim =
    | AgentKeys | DestinationIps | FilePaths | HostIds
    | PersistencePaths | PersistenceTypes | ProcessNames | UserNames

  /** The keys in the order of their names, as `sorted(scope.keys())` meets them. */
  const DIMS := [AgentKeys, DestinationIps, FilePaths, HostIds,
                 PersistencePaths, PersistenceTypes, ProcessNames, UserNames]

  const MAX_SCOPE_ENTRIES := 100
  const MAX_ENTRY_LENGTH := 512

  datatype Matcher = Exact | Prefix | Ip

  function MatcherOf(d: Dim): Matcher {
    match d
    case DestinationIps => Ip
    case FilePaths => Prefix
    case PersistencePaths => Prefix
    case _ => Exact
  }

  /** A scope key that is absent and one with an empty list constrain nothing. */
  type Scope = map<Dim, seq<string>>

  /** The fields of a target that hold text; other values never match. */
  type Target = map<Dim, string>

  /**
    * The string operations that come from Python: `str.lower`, and the parsers
    * `ip_address` and `ip_network(strict=False)`, which may reject their input.
    */
  datatype Texts = Texts(
    lower: string -> string,
    address: string -> Option<Address>,
    network: string -> Option<Network>)
  {
    ghost predicate Writable(a: Address) {
      exists s :: s != "" && address(s) == Some(a)
    }

    /** Every address without a zone can be written down, as it can in the usual notations. */
    ghost predicate Complete() {
      forall a: Address | a.zone == "" :: Writable(a)
    }

    /** A scope entry with a slash is a block, any other a single address. */
    function Entry(text: string): Option<Entry> {
      if '/' in text then
        match network(text)
        case Some(n) => Some(Block(n))
        case None => None
      else
        match address(text)
        case Some(a) => Some(Host(a))
        case None => None
    }
  }

  predicate StartsWith(text: string, prefix: string) {
    |prefix| <= |text| && text[..|prefix|] == prefix
  }

  predicate HasParentStep(text: string) {
    exists i :: 0 <= i < |text| - 1 && text[i] == '.' && text[i + 1] == '.'
  }

  // ----- Validation -----

  predicate ValidEntry(w: Texts, d: Dim, text: string) {
    && text != ""
    && |text| <= MAX_ENTRY_LENGTH
    && (MatcherOf(d) == Ip ==> w.Entry(text).Some?)
    && (MatcherOf(d) == Prefix ==> !HasParentStep(text))
  }

  predicate AcceptableScope(w: Texts, scope: Scope) {
    forall d | d in scope ::
      |scope[d]| <= MAX_SCOPE_ENTRIES && forall text | text in scope[d] :: ValidEntry(w, d, text)
  }

  /** What validation leaves: acceptable entries and no empty list. */
  predicate ValidScope(w: Texts, scope: Scope) {
    AcceptableScope(w, scope) && forall d | d in scope :: scope[d] != []
  }

  function Normalized(scope: Scope): Scope {
    map d | d in scope && scope[d] != [] :: scope[d]
  }

  predicate ParentStepAt(text: string, before: string, after: string) { text == before + ".." + after }

  /** An entry is short and not empty; a path holds no parent step, an address or block can be parsed. */
  lemma ValidEntryExactly(w: Texts, d: Dim, text: string)
    ensures ValidEntry(w, d, text) <==>
      && 1 <= |text| <= 512
      && (d == DestinationIps ==> if '/' in text then w.network(text).Some? else w.address(text).Some?)
      && (d == FilePaths || d == PersistencePaths ==> forall before, after :: !ParentStepAt(text, before, after))
  {
    if HasParentStep(text) {
      var i :| 0 <= i < |text| - 1 && text[i] == '.' && text[i + 1] == '.';
      assert ParentStepAt(text, text[..i], text[i + 2..]);
    }
    if before, after :| ParentStepAt(text, before, after) {
      assert text[|before|] == '.' && text[|before| + 1] == '.';
    }
  }

  /** Checks a scope and copies its non-empty dimensions; any bad entry rejects it all. */
  method ValidateScope(w: Texts, scope: Scope) returns (r: Result<Scope>)
    ensures r.Ok? <==> AcceptableScope(w, scope)
    ensures r.Ok? <==>
      forall d | d in scope :: |scope[d]| <= 100 && forall text | text in scope[d] :: ValidEntry(w, d, text)
    ensures r.Ok? ==> r.value == Normalized(scope) && ValidScope(w, r.value)
  {
    var normalized: Scope := map[];
    var keys := scope.Keys;
    while keys != {}
      invariant keys <= scope.Keys
      invariant AcceptableScope(w, map d | d in scope && d !in keys :: scope[d])
      invariant normalized == Normalized(map d | d in scope && d !in keys :: scope[d])
    {
      var key :| key in keys;
      var values := scope[key];
      if |values| > MAX_SCOPE_ENTRIES {
        return Invalid;
      }
      for i := 0 to |values|
        invariant forall text | text in values[..i] :: ValidEntry(w, key, text)
      {
        if !ValidEntry(w, key, values[i]) {
          return Invalid;
        }
        assert values[..i + 1] == values[..i] + [values[i]];
      }
      assert values[..|values|] == values;
      if values != [] {
        normalized := normalized[key := values];
      }
      keys := keys - {key};
    }
    assert (map d | d in scope && d !in keys :: scope[d]) == scope;
    return Ok(normalized);
  }

  // ----- Matching -----

  /** Does some entry of one dimension match the target's value for it? */
  predicate EntriesMatch(w: Texts, d: Dim, entries: seq<string>, value: string) {
    value != "" &&
    match MatcherOf(d)
    case Exact => exists e | e in entries :: w.lower(e) == w.lower(value)
    case Prefix => exists e | e in entries :: StartsWith(w.lower(value), w.lower(e))
    case Ip =>
      match w.address(value)
      case None => false
      case Some(a) => exists e | e in entries :: w.Entry(e).Some? && EntryMatches(w.Entry(e).value, a)
  }

  /** A target is in scope when every constrained dimension is present and matches. */
  predicate InScope(w: Texts, scope: Scope, target: Target) {
    forall d | d in scope && scope[d] != [] :: d in target && EntriesMatch(w, d, scope[d], target[d])
  }

  /** What one entry matches: paths by their beginning, addresses by number, anything else as a whole. */
  predicate Fits(w: Texts, d: Dim, entry: string, value: string) {
    if d == FilePaths || d == PersistencePaths then w.lower(entry) <= w.lower(value)
    else if d != DestinationIps then w.lower(entry) == w.lower(value)
    else
      match w.address(value)
      case None => false
      case Some(a) =>
        if '/' !in entry then w.address(entry) == Some(a)
        else
          match w.network(entry)
          case None => false
          case Some(n) => a.version == n.version && n.base <= a.bits < n.base + n.Size()
  }

  /** An empty value matches nothing, any other matches a list that has an entry which fits it. */
  lemma MatchesExactly(w: Texts, d: Dim, entries: seq<string>, value: string)
    ensures EntriesMatch(w, d, entries, value) <==> value != "" && exists e | e in entries :: Fits(w, d, e, value)
  {
    match MatcherOf(d)
    case Exact =>
    case Prefix =>
      forall e | e in entries ensures StartsWith(w.lower(value), w.lower(e)) <==> Fits(w, d, e, value) {
      }
    case Ip =>
      if w.address(value).Some? {
        var a := w.address(value).value;
        forall e | e in entries
          ensures Fits(w, d, e, value) <==> w.Entry(e).Some? && EntryMatches(w.Entry(e).value, a)
        {
          if w.Entry(e).Some? && w.Entry(e).value.Block? {
            InNetworkIsInterval(a, w.Entry(e).value.network);
          }
        }
      }
  }

  /** Normalising a scope does not change what it matches. */
  lemma NormalizedMatchesSame(w: Texts, scope: Scope, target: Target)
    ensures InScope(w, Normalized(scope), target) <==> InScope(w, scope, target)
  {
    var n := Normalized(scope);
    assert forall d :: d in n ==> d in scope && n[d] == scope[d];
    assert forall d :: d in scope && scope[d] != [] ==> d in n;
  }

  // ----- Narrowness -----

  function Max0(x: int): nat { if x < 0 then 0 else x }

  function DimScore(scope: Scope, d: Dim): nat {
    if d in scope && scope[d] != [] then 10 + Max0(10 - |scope[d]|) else 0
  }

  function ScoreOf(scope: Scope, dims: seq<Dim>): (score: nat) {
    if dims == [] then 0 else ScoreOf(scope, dims[..|dims| - 1]) + DimScore(scope, dims[|dims| - 1])
  }

  /** Higher means narrower: ten for each constrained dimension and up to nine for a short list. */
  function Specificity(scope: Scope): nat { ScoreOf(scope, DIMS) }

  method ScopeSpecificity(scope: Scope) returns (score: nat)
    ensures score == Specificity(scope)
    ensures score == 0 <==> Normalized(scope) == map[]
  {
    score := 0;
    for i := 0 to |DIMS|
      invariant score == ScoreOf(scope, DIMS[..i])
      invariant score == 0 <==> forall j | 0 <= j < i :: !(DIMS[j] in scope && scope[DIMS[j]] != [])
    {
      assert DIMS[..i + 1][..i] == DIMS[..i];
      var key := DIMS[i];
      if key in scope && scope[key] != [] {
        score := score + 10 + Max0(10 - |scope[key]|);
      }
    }
    assert DIMS[..|DIMS|] == DIMS;
    EveryDim();
    assert score == 0 ==> forall d :: d in Normalized(scope) ==> d in DIMS;
    if score != 0 {
      var j :| 0 <= j < |DIMS| && DIMS[j] in scope && scope[DIMS[j]] != [];
      assert DIMS[j] in Normalized(scope);
    }
  }

  lemma EveryDim()
    ensures forall d: Dim :: d in DIMS
  {
    forall d: Dim ensures d in DIMS {
      match d
      case AgentKeys => assert DIMS[0] == d;
      case DestinationIps => assert DIMS[1] == d;
      case FilePaths => assert DIMS[2] == d;
      case HostIds => assert DIMS[3] == d;
      case PersistencePaths => assert DIMS[4] == d;
      case PersistenceTypes => assert DIMS[5] == d;
      case ProcessNames => assert DIMS[6] == d;
      case UserNames => assert DIMS[7] == d;
    }
  }
}
