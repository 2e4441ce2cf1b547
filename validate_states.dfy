/** Schema validation of state files and the batch run over a registry
    (src/epistemic/validate_states.py). The JSON Schema engine is foreign:
    its verdict on a state is given as the sequence of errors its
    `iter_errors` yields. Reading files is an oracle from path strings to
    `Loaded` values. */
module StateBatch {
  import opened Text
  import opened PyValues
  import opened PosixPath
  import opened Registry
  import opened SchemaErrors

  // ---------------------------------------------------------------------
  // validate_state (validate_states.py:22-46)

  /** The dotted path of an error, `root` for the instance itself. */
  function ErrorPath(path: seq<PathElem>): string
  {
    if path == [] then "root" else Join(ElemTexts(path), ".")
  }

  function RenderError(e: SchemaError): string
  {
    ErrorPath(e.path) + ": " + e.message
  }

  const InstallMsg := "jsonschema package not installed. Install with: pip install jsonschema"

  /** What `validate_state` returns: without the engine, one install hint;
      otherwise one rendered line per error, valid exactly when there are none. */
  function StateReport(available: bool, found: seq<SchemaError>): (r: (bool, seq<string>))
    ensures r.0 <==> available && found == []
    ensures !available ==> r.1 == [InstallMsg]
    ensures available ==> |r.1| == |found| && forall k | 0 <= k < |found| :: r.1[k] == RenderError(found[k])
  {
    if !available then (false, [InstallMsg])
    else
      var lines := seq(|found|, k requires 0 <= k < |found| => RenderError(found[k]));
      (|lines| == 0, lines)
  }

  method ValidateState(available: bool, found: seq<SchemaError>) returns (isValid: bool, errors: seq<string>)
    ensures (isValid, errors) == StateReport(available, found)
  {
    if !available {
      return false, [InstallMsg];
    }
    errors := [];
    for k := 0 to |found|
      invariant |errors| == k
      invariant forall j | 0 <= j < k :: errors[j] == RenderError(found[j])
    {
      errors := errors + [RenderError(found[k])];
    }
    assert errors == seq(|found|, k requires 0 <= k < |found| => RenderError(found[k]));
    isValid := |errors| == 0;
  }

  // ---------------------------------------------------------------------
  // validate_state_file (validate_states.py:49-82)

  /** The world the batch run sees: what reading each path gives, the
      errors the schema engine finds in a state for a schema, and whether
      the engine is installed. */
  datatype Env = Env(load: string -> Loaded, iterErrors: (Json, Json) -> seq<SchemaError>, available: bool)

  /** `validate_state_file`: a state or schema that cannot be loaded gives
      one error and no validation; otherwise the schema verdict. */
  function StateFileReport(stateFile: string, schemaFile: string, env: Env): (r: (bool, seq<string>))
    ensures r.0 ==> env.load(stateFile).Parsed? && env.load(schemaFile).Parsed?
    ensures !env.load(stateFile).Parsed? || !env.load(schemaFile).Parsed? ==> !r.0 && |r.1| == 1
  {
    match env.load(stateFile)
    case Missing => (false, ["State file not found: " + stateFile])
    case Unreadable(reason) => (false, ["Failed to load state file: " + reason])
    case Parsed(state) =>
      match env.load(schemaFile)
      case Missing => (false, ["Schema file not found: " + schemaFile])
      case Unreadable(reason) => (false, ["Failed to load schema file: " + reason])
      case Parsed(schema) => StateReport(env.available, env.iterErrors(state, schema))
  }

  method ValidateStateFile(stateFile: string, schemaFile: string, env: Env) returns (isValid: bool, errors: seq<string>)
    ensures (isValid, errors) == StateFileReport(stateFile, schemaFile, env)
  {
    var state := env.load(stateFile);
    if state.Missing? {
      return false, ["State file not found: " + stateFile];
    } else if state.Unreadable? {
      return false, ["Failed to load state file: " + state.reason];
    }
    var schema := env.load(schemaFile);
    if schema.Missing? {
      return false, ["Schema file not found: " + schemaFile];
    } else if schema.Unreadable? {
      return false, ["Failed to load schema file: " + schema.reason];
    }
    isValid, errors := ValidateState(env.available, env.iterErrors(state.value, schema.value));
  }

  // ---------------------------------------------------------------------
  // validate_all_states (validate_states.py:85-176)

  /** The `results` dict: three counters and the errors of each invalid
      state, keyed by its id as a Python dict keys it. */
  datatype Summary = Summary(total: nat, valid: nat, invalid: nat, errors: map<Json, seq<string>>)

  const NoResults := Summary(0, 0, 0, map[])

  const MissingFilePathMsg := "Missing file_path in registry"

  /** `state_entry.get("state_id", "unknown")`. */
  function IdOf(d: Dict): (r: Json)
    ensures HasKey(d, "state_id") ==> r == Field(d, "state_id")
    ensures !HasKey(d, "state_id") ==> r == JStr("unknown")
  {
    GetOr(d, "state_id", JStr("unknown"))
  }

  /** The verdict on one dict entry: None when its file validates, the
      errors when it does not or when `file_path` is missing or falsy.
      A truthy non-str `file_path` cannot be joined to a path and raises. */
  function EntryVerdict(d: Dict, dir: string, schemaPath: string, env: Env): (r: Outcome<Option<seq<string>>>)
    ensures r.Raise? <==> Truthy(GetOr(d, "file_path", JNull)) && !GetOr(d, "file_path", JNull).JStr?
    ensures !Truthy(GetOr(d, "file_path", JNull)) ==> r == Ok(Some([MissingFilePathMsg]))
  {
    var fp := GetOr(d, "file_path", JNull);
    if !Truthy(fp) then Ok(Some([MissingFilePathMsg]))
    else if !fp.JStr? then Raise(TypeError)
    else
      var (isValid, errors) := StateFileReport(JoinPath(dir, fp.s), schemaPath, env);
      Ok(if isValid then None else Some(errors))
  }

  /** The verdict function the batch run applies to each dict entry. */
  function VerdictOf(dir: string, schemaPath: string, env: Env): Dict -> Outcome<Option<seq<string>>>
  {
    d => EntryVerdict(d, dir, schemaPath, env)
  }

  /** What one entry does to the results: a non-dict is skipped; a dict is
      counted once, as valid or as invalid, and an invalid one records its
      errors under its id (an unhashable id raises TypeError). The scan's
      properties hold whatever the verdict function is. */
  function BatchStep(s: Summary, entry: Json, verdict: Dict -> Outcome<Option<seq<string>>>): Outcome<Summary>
  {
    if !entry.JObj? then Ok(s)
    else
      var v :- verdict(entry.fields);
      match v
      case None => Ok(s.(total := s.total + 1, valid := s.valid + 1))
      case Some(errors) =>
        var id := IdOf(entry.fields);
        if !Hashable(id) then Raise(TypeError)
        else Ok(s.(total := s.total + 1, invalid := s.invalid + 1, errors := s.errors[HashKey(id) := errors]))
  }

  /** The results after the first n entries: each entry is counted at
      most once, and each invalid one adds at most one key to `errors`. */
  function ScanBatch(states: seq<Json>, n: nat, verdict: Dict -> Outcome<Option<seq<string>>>): (r: Outcome<Summary>)
    requires n <= |states|
    ensures r.Ok? ==> r.value.total <= n && |r.value.errors| <= r.value.invalid <= r.value.total
  {
    if n == 0 then Ok(NoResults)
    else
      var before :- ScanBatch(states, n - 1, verdict);
      BatchStep(before, states[n - 1], verdict)
  }

  lemma {:induction false} ScanBatchRaisePersists(states: seq<Json>, i: nat, n: nat, verdict: Dict -> Outcome<Option<seq<string>>>)
    requires i <= n <= |states|
    requires ScanBatch(states, i, verdict).Raise?
    ensures ScanBatch(states, n, verdict) == Raise(ScanBatch(states, i, verdict).error)
    decreases n
  {
    if n > i {
      ScanBatchRaisePersists(states, i, n - 1, verdict);
    }
  }

  /** `validate_all_states`: all-zero results when the registry or the
      schema cannot be loaded (`load_registry` also refuses a registry
      without a `states` list); otherwise the scan over the entries. */
  function AllStatesSummary(registryPath: string, schemaPath: string, env: Env): (r: Outcome<Summary>)
    ensures r.Ok? ==> |r.value.errors| <= r.value.invalid <= r.value.total
  {
    var registry := LoadRegistry(env.load(registryPath), registryPath);
    if registry.Raise? || !env.load(schemaPath).Parsed? then Ok(NoResults)
    else
      var items := Field(registry.value.fields, "states").items;
      ScanBatch(items, |items|, VerdictOf(Parent(registryPath), schemaPath, env))
  }

  /** `validate_state_file` on the entry's path under the registry's
      directory. */
  method ValidateEntryFile(d: Dict, dir: string, schemaPath: string, env: Env) returns (isValid: bool, errors: seq<string>)
    requires Truthy(GetOr(d, "file_path", JNull)) && GetOr(d, "file_path", JNull).JStr?
    ensures VerdictOf(dir, schemaPath, env)(d) == Ok(if isValid then None else Some(errors))
  {
    var fullPath := JoinPath(dir, GetOr(d, "file_path", JNull).s);
    isValid, errors := ValidateStateFile(fullPath, schemaPath, env);
  }

  /** One pass of the loop over the entries. */
  method CheckBatchEntry(s: Summary, entry: Json, dir: string, schemaPath: string, env: Env) returns (r: Outcome<Summary>)
    requires s.total == s.valid + s.invalid
    ensures r == BatchStep(s, entry, VerdictOf(dir, schemaPath, env))
    ensures r.Ok? ==> r.value.total == r.value.valid + r.value.invalid
  {
    if !entry.JObj? {
      return Ok(s);
    }
    var d := entry.fields;
    var stateId := IdOf(d);
    var filePath := GetOr(d, "file_path", JNull);
    var total, valid, invalid, errors := s.total, s.valid, s.invalid, s.errors;
    if !Truthy(filePath) {
      assert VerdictOf(dir, schemaPath, env)(d) == Ok(Some([MissingFilePathMsg]));
      total := total + 1;
      invalid := invalid + 1;
      if !Hashable(stateId) {
        return Raise(TypeError);
      }
      errors := errors[HashKey(stateId) := [MissingFilePathMsg]];
      return Ok(Summary(total, valid, invalid, errors));
    }
    if !filePath.JStr? {
      assert VerdictOf(dir, schemaPath, env)(d) == Raise(TypeError);
      return Raise(TypeError);
    }
    total := total + 1;
    var isValid, stateErrors := ValidateEntryFile(d, dir, schemaPath, env);
    if isValid {
      valid := valid + 1;
    } else {
      invalid := invalid + 1;
      if !Hashable(stateId) {
        return Raise(TypeError);
      }
      errors := errors[HashKey(stateId) := stateErrors];
    }
    return Ok(Summary(total, valid, invalid, errors));
  }

  method ValidateAllStates(registryPath: string, schemaPath: string, env: Env) returns (r: Outcome<Summary>)
    ensures r == AllStatesSummary(registryPath, schemaPath, env)
    ensures r.Ok? ==> r.value.total == r.value.valid + r.value.invalid
  {
    var loaded := LoadRegistry(env.load(registryPath), registryPath);
    if loaded.Raise? {
      return Ok(NoResults);
    }
    var schema := env.load(schemaPath);
    if !schema.Parsed? {
      return Ok(NoResults);
    }
    var registry := loaded.value.fields;
    if !HasKey(registry, "states") {
      return Ok(NoResults);
    }
    var items := Field(registry, "states").items;
    var dir := Parent(registryPath);
    var results := NoResults;
    for i := 0 to |items|
      invariant ScanBatch(items, i, VerdictOf(dir, schemaPath, env)) == Ok(results)
      invariant results.total == results.valid + results.invalid
    {
      var next := CheckBatchEntry(results, items[i], dir, schemaPath, env);
      if next.Raise? {
        ScanBatchRaisePersists(items, i + 1, |items|, VerdictOf(dir, schemaPath, env));
        return next;
      }
      results := next.value;
    }
    return Ok(results);
  }
}
