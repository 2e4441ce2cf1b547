/** Properties of schema-error rendering and of the batch run. */
module StateBatchProperties {
  import opened Text
  import opened PyValues
  import opened PosixPath
  import opened Registry
  import opened StateBatch
  import opened SchemaErrors

  // ---------------------------------------------------------------------
  // Rendering

  /** An error at the instance itself is shown under `root`. */
  lemma RootErrorRendering(message: string)
    ensures RenderError(SchemaError([], message)) == "root: " + message
  {
  }

  /** The dotted path loses nothing when no element's text holds a dot:
      splitting it at the dots gives back the elements' texts. */
  lemma ErrorPathSplits(path: seq<PathElem>)
    requires path != []
    requires forall k | 0 <= k < |path| :: !Mentions(ElemText(path[k]), '.')
    ensures Split(ErrorPath(path), '.') == ElemTexts(path)
  {
    SplitJoin(ElemTexts(path), '.');
  }

  lemma RenderExamples()
    ensures RenderError(SchemaError([Key("metadata"), Key("source")], "is required"))
            == "metadata.source: is required"
    ensures ErrorPath([Key("tags"), Index(2)]) == "tags.2"
  {
    assert ElemTexts([Key("metadata"), Key("source")]) == ["metadata", "source"];
    assert ElemTexts([Key("tags"), Index(2)]) == ["tags", "2"];
  }

  // ---------------------------------------------------------------------
  // Loading failures

  /** A registry or schema that cannot be loaded, or a registry that
      `load_registry` refuses, gives all-zero counts and no errors. */
  lemma LoadFailuresGiveNoResults(registryPath: string, schemaPath: string, env: Env)
    ensures !env.load(registryPath).Parsed? ==> AllStatesSummary(registryPath, schemaPath, env) == Ok(NoResults)
    ensures !env.load(schemaPath).Parsed? ==> AllStatesSummary(registryPath, schemaPath, env) == Ok(NoResults)
    ensures env.load(registryPath).Parsed? && env.load(registryPath).value.JObj?
            && !HasKey(env.load(registryPath).value.fields, "states")
            ==> AllStatesSummary(registryPath, schemaPath, env) == Ok(NoResults)
  {
  }

  // ---------------------------------------------------------------------
  // Counting, for any verdict function

  type Verdict = Dict -> Outcome<Option<seq<string>>>

  function DictPositions(states: seq<Json>, n: nat): set<nat>
    requires n <= |states|
  {
    set j: nat | j < n && states[j].JObj?
  }

  function ValidPositions(states: seq<Json>, n: nat, verdict: Verdict): set<nat>
    requires n <= |states|
  {
    set j: nat | j < n && states[j].JObj? && verdict(states[j].fields) == Ok(None)
  }

  function InvalidPositions(states: seq<Json>, n: nat, verdict: Verdict): set<nat>
    requires n <= |states|
  {
    set j: nat | j < n && states[j].JObj? && verdict(states[j].fields).Ok? && verdict(states[j].fields).value.Some?
  }

  lemma PositionsStep(states: seq<Json>, m: nat, verdict: Verdict)
    requires m < |states|
    ensures DictPositions(states, m + 1) == DictPositions(states, m) + (if states[m].JObj? then {m} else {})
    ensures ValidPositions(states, m + 1, verdict)
            == ValidPositions(states, m, verdict) + (if m in ValidPositions(states, m + 1, verdict) then {m} else {})
    ensures InvalidPositions(states, m + 1, verdict)
            == InvalidPositions(states, m, verdict) + (if m in InvalidPositions(states, m + 1, verdict) then {m} else {})
    ensures m !in DictPositions(states, m) && m !in ValidPositions(states, m, verdict)
            && m !in InvalidPositions(states, m, verdict)
  {
    DictPositionsStep(states, m);
    ValidPositionsStep(states, m, verdict);
    InvalidPositionsStep(states, m, verdict);
  }

  lemma DictPositionsStep(states: seq<Json>, m: nat)
    requires m < |states|
    ensures DictPositions(states, m + 1) == DictPositions(states, m) + (if states[m].JObj? then {m} else {})
    ensures m !in DictPositions(states, m)
  {
  }

  lemma ValidPositionsStep(states: seq<Json>, m: nat, verdict: Verdict)
    requires m < |states|
    ensures ValidPositions(states, m + 1, verdict)
            == ValidPositions(states, m, verdict) + (if m in ValidPositions(states, m + 1, verdict) then {m} else {})
    ensures m !in ValidPositions(states, m, verdict)
  {
  }

  lemma InvalidPositionsStep(states: seq<Json>, m: nat, verdict: Verdict)
    requires m < |states|
    ensures InvalidPositions(states, m + 1, verdict)
            == InvalidPositions(states, m, verdict) + (if m in InvalidPositions(states, m + 1, verdict) then {m} else {})
    ensures m !in InvalidPositions(states, m, verdict)
  {
  }

  /** What entry m does to the three counters. */
  lemma CountersStep(states: seq<Json>, m: nat, verdict: Verdict)
    requires m < |states|
    requires ScanBatch(states, m + 1, verdict).Ok?
    ensures ScanBatch(states, m, verdict).Ok?
    ensures var before := ScanBatch(states, m, verdict).value;
            var after := ScanBatch(states, m + 1, verdict).value;
            after.total == before.total + (if states[m].JObj? then 1 else 0)
            && after.valid == before.valid + (if m in ValidPositions(states, m + 1, verdict) then 1 else 0)
            && after.invalid == before.invalid + (if m in InvalidPositions(states, m + 1, verdict) then 1 else 0)
  {
  }

  /** Every dict entry is counted once in `total` and once in `valid` or
      `invalid`, according to its verdict; entries that are not dicts are
      not counted at all. */
  lemma {:induction false} CountsByVerdict(states: seq<Json>, n: nat, verdict: Verdict)
    requires n <= |states|
    requires ScanBatch(states, n, verdict).Ok?
    ensures var s := ScanBatch(states, n, verdict).value;
            s.total == |DictPositions(states, n)|
            && s.valid == |ValidPositions(states, n, verdict)|
            && s.invalid == |InvalidPositions(states, n, verdict)|
  {
    if n > 0 {
      var m := n - 1;
      CountersStep(states, m, verdict);
      CountsByVerdict(states, m, verdict);
      PositionsStep(states, m, verdict);
    }
  }

  /** In a scan that did not raise, every dict entry is valid or invalid. */
  lemma DictsSplit(states: seq<Json>, n: nat, verdict: Verdict)
    requires n <= |states|
    requires ScanBatch(states, n, verdict).Ok?
    ensures DictPositions(states, n) == ValidPositions(states, n, verdict) + InvalidPositions(states, n, verdict)
  {
    VerdictsRaiseNothing(states, n, verdict);
  }

  /** A batch that finishes had every dict entry's verdict return. */
  lemma {:induction false} VerdictsRaiseNothing(states: seq<Json>, n: nat, verdict: Verdict)
    requires n <= |states|
    requires ScanBatch(states, n, verdict).Ok?
    ensures forall j | 0 <= j < n && states[j].JObj? :: verdict(states[j].fields).Ok?
  {
    if n > 0 {
      VerdictsRaiseNothing(states, n - 1, verdict);
    }
  }

  /** `total == valid + invalid` after every entry. */
  lemma CountersBalance(states: seq<Json>, n: nat, verdict: Verdict)
    requires n <= |states|
    requires ScanBatch(states, n, verdict).Ok?
    ensures var s := ScanBatch(states, n, verdict).value;
            s.total == s.valid + s.invalid
  {
    CountsByVerdict(states, n, verdict);
    DictsSplit(states, n, verdict);
    assert ValidPositions(states, n, verdict) * InvalidPositions(states, n, verdict) == {};
  }

  /** An entry with a missing or falsy `file_path` is one invalid state
      whose error list is the single registry message. */
  lemma MissingFilePathIsInvalid(s: Summary, d: Dict, dir: string, schemaPath: string, env: Env)
    requires !Truthy(GetOr(d, "file_path", JNull)) && Hashable(IdOf(d))
    ensures BatchStep(s, JObj(d), VerdictOf(dir, schemaPath, env))
            == Ok(s.(total := s.total + 1, invalid := s.invalid + 1,
                     errors := s.errors[HashKey(IdOf(d)) := [MissingFilePathMsg]]))
  {
  }

  // ---------------------------------------------------------------------
  // The errors map

  /** The key entry j records its errors under. */
  function KeyAt(states: seq<Json>, j: nat): Json
    requires j < |states| && states[j].JObj?
  {
    HashKey(IdOf(states[j].fields))
  }

  predicate InvalidAt(states: seq<Json>, j: nat, verdict: Verdict)
    requires j < |states|
  {
    states[j].JObj? && verdict(states[j].fields).Ok? && verdict(states[j].fields).value.Some?
  }

  /** What entry m does to the errors map. */
  lemma ErrorsStep(states: seq<Json>, m: nat, verdict: Verdict)
    requires m < |states|
    requires ScanBatch(states, m + 1, verdict).Ok?
    ensures ScanBatch(states, m, verdict).Ok?
    ensures var before := ScanBatch(states, m, verdict).value.errors;
            ScanBatch(states, m + 1, verdict).value.errors
            == if InvalidAt(states, m, verdict) then before[KeyAt(states, m) := verdict(states[m].fields).value.value]
               else before
  {
  }

  /** The errors map has a key exactly for the ids of invalid entries. */
  lemma {:induction false} ErrorKeysAreInvalidIds(states: seq<Json>, n: nat, verdict: Verdict)
    requires n <= |states|
    requires ScanBatch(states, n, verdict).Ok?
    ensures var errors := ScanBatch(states, n, verdict).value.errors;
            forall key :: key in errors <==>
              exists j | 0 <= j < n :: InvalidAt(states, j, verdict) && KeyAt(states, j) == key
  {
    if n > 0 {
      var m := n - 1;
      ErrorKeysAreInvalidIds(states, m, verdict);
      ErrorsStep(states, m, verdict);
      forall key
        ensures key in ScanBatch(states, n, verdict).value.errors <==>
                  exists j | 0 <= j < n :: InvalidAt(states, j, verdict) && KeyAt(states, j) == key
      {
        InvalidIdsStep(states, m, verdict, key);
      }
    }
  }

  /** Some entry below m + 1 is invalid with the key exactly when one below
      m is, or entry m is. */
  lemma InvalidIdsStep(states: seq<Json>, m: nat, verdict: Verdict, key: Json)
    requires m < |states|
    ensures (exists j | 0 <= j < m + 1 :: InvalidAt(states, j, verdict) && KeyAt(states, j) == key) <==>
              (exists j | 0 <= j < m :: InvalidAt(states, j, verdict) && KeyAt(states, j) == key)
              || (InvalidAt(states, m, verdict) && KeyAt(states, m) == key)
  {
  }

  /** Entry j is the last invalid entry among the first n whose id gives key. */
  ghost predicate LastInvalidWith(states: seq<Json>, n: nat, verdict: Verdict, key: Json, j: nat)
    requires n <= |states|
  {
    j < n && InvalidAt(states, j, verdict) && KeyAt(states, j) == key
    && forall i | j < i < n :: !(InvalidAt(states, i, verdict) && KeyAt(states, i) == key)
  }

  /** An entry that is not an invalid one with the same key keeps entry j the last. */
  lemma LastInvalidExtends(states: seq<Json>, m: nat, verdict: Verdict, key: Json, j: nat)
    requires m < |states|
    requires LastInvalidWith(states, m, verdict, key, j)
    requires !(InvalidAt(states, m, verdict) && KeyAt(states, m) == key)
    ensures LastInvalidWith(states, m + 1, verdict, key, j)
  {
  }

  /** Under each key the errors map holds the errors of the last invalid
      entry with that id: a later entry overwrites an earlier one. */
  lemma {:induction false} ErrorsOfLastInvalid(states: seq<Json>, n: nat, verdict: Verdict)
    requires n <= |states|
    requires ScanBatch(states, n, verdict).Ok?
    ensures var errors := ScanBatch(states, n, verdict).value.errors;
            forall key | key in errors ::
              exists j: nat :: LastInvalidWith(states, n, verdict, key, j)
                          && errors[key] == verdict(states[j].fields).value.value
  {
    if n > 0 {
      var m := n - 1;
      ErrorsOfLastInvalid(states, m, verdict);
      ErrorsStep(states, m, verdict);
      var before := ScanBatch(states, m, verdict).value.errors;
      var after := ScanBatch(states, n, verdict).value.errors;
      forall key | key in after
        ensures exists j: nat :: LastInvalidWith(states, n, verdict, key, j)
                            && after[key] == verdict(states[j].fields).value.value
      {
        if InvalidAt(states, m, verdict) && KeyAt(states, m) == key {
          assert LastInvalidWith(states, n, verdict, key, m);
        } else {
          assert key in before && after[key] == before[key];
          var j: nat :| LastInvalidWith(states, m, verdict, key, j)
                   && before[key] == verdict(states[j].fields).value.value;
          LastInvalidExtends(states, m, verdict, key, j);
        }
      }
    }
  }
}
