/** The registry of state files (src/epistemic/registry.py): the guard
    `load_registry` applies to a loaded registry, the structural checks of
    `validate_registry` over its entries, and the two queries over the
    entries. Reading the file and testing whether a path exists are inputs:
    a `Loaded` value and a `fileExists` oracle on path strings. */
module Registry {
  import opened Text
  import opened PyValues
  import opened PosixPath
  import Validation

  // ---------------------------------------------------------------------
  // load_registry (registry.py:14-38)

  /** `load_registry`: the parsed value, unchanged, when it has a `states`
      list; ValueError when `states` is absent or not a list. `in` and
      indexing behave as Python's on whatever `json.load` produced. */
  function LoadRegistry(load: Loaded, registryPath: string): (r: Outcome<Json>)
    ensures r.Ok? ==> load.Parsed? && r.value == load.value
    ensures r.Ok? ==> r.value.JObj? && HasKey(r.value.fields, "states") && Field(r.value.fields, "states").JArr?
  {
    match load
    case Missing => Raise(FileNotFoundError("File not found: " + PathStr(registryPath)))
    case Unreadable(reason) => Raise(LoadFailed(reason))
    case Parsed(registry) =>
      var hasStates :- Contains(registry, "states");
      if !hasStates then Raise(ValueError("Registry missing 'states' field: " + registryPath))
      else
        var states :- GetItem(registry, "states");
        if !states.JArr? then Raise(ValueError("Registry 'states' must be a list: " + registryPath))
        else Ok(registry)
  }

  // ---------------------------------------------------------------------
  // validate_registry (registry.py:41-102)

  const RegistryFileFields := ["registry_version", "last_updated", "states"]

  function EntryMsg(i: nat, what: string): string { "State entry " + NatToString(i) + " " + what }

  function DuplicateIdMsg(id: Json): string { "Duplicate state_id: " + PyStr(id) }

  /** The state_id check of one dict entry: a missing key is reported; an id
      already in the list of ids met is reported as a duplicate (list
      membership, so `==` decides and any value can be an id); a present id
      is appended to that list either way. */
  function IdErrors(i: nat, d: Dict, ids: seq<Json>): (r: (seq<string>, seq<Json>))
    ensures |r.0| <= 1
    ensures !HasKey(d, "state_id") ==> r == ([EntryMsg(i, "missing 'state_id'")], ids)
    ensures HasKey(d, "state_id") ==>
              r.1 == ids + [Field(d, "state_id")]
              && (r.0 != [] <==> PyIn(Field(d, "state_id"), ids))
              && (r.0 != [] ==> r.0 == [DuplicateIdMsg(Field(d, "state_id"))])
  {
    if !HasKey(d, "state_id") then ([EntryMsg(i, "missing 'state_id'")], ids)
    else
      var id := Field(d, "state_id");
      (if PyIn(id, ids) then [DuplicateIdMsg(id)] else [], ids + [id])
  }

  function FilePathErrors(i: nat, d: Dict): (r: seq<string>)
    ensures r == [] <==> HasKey(d, "file_path")
  {
    if HasKey(d, "file_path") then [] else [EntryMsg(i, "missing 'file_path'")]
  }

  /** A missing `active` and a non-bool one are told apart; any bool passes,
      and 0 or 1 are not bools. */
  function ActiveErrors(i: nat, d: Dict): (r: seq<string>)
    ensures |r| <= 1
    ensures r == [] <==> HasKey(d, "active") && Field(d, "active").JBool?
    ensures !HasKey(d, "active") ==> r == [EntryMsg(i, "missing 'active' field")]
    ensures HasKey(d, "active") && !Field(d, "active").JBool? ==> r == [EntryMsg(i, "'active' must be boolean")]
  {
    if !HasKey(d, "active") then [EntryMsg(i, "missing 'active' field")]
    else if !Field(d, "active").JBool? then [EntryMsg(i, "'active' must be boolean")]
    else []
  }

  /** The existence check runs only when `file_path` is present: the path is
      joined to the registry's directory (a non-str value cannot be joined
      and raises TypeError) and reported when the oracle says it is absent. */
  function ExistenceErrors(d: Dict, dir: string, fileExists: string -> bool): (r: Outcome<seq<string>>)
    ensures !HasKey(d, "file_path") ==> r == Ok([])
    ensures r.Raise? <==> HasKey(d, "file_path") && !Field(d, "file_path").JStr?
    ensures r.Raise? ==> r.error == TypeError
    ensures r.Ok? && r.value != [] <==>
              HasKey(d, "file_path") && Field(d, "file_path").JStr?
              && !fileExists(JoinPath(dir, Field(d, "file_path").s))
    ensures r.Ok? && r.value != [] ==> r.value == ["State file not found: " + Field(d, "file_path").s]
  {
    if !HasKey(d, "file_path") then Ok([])
    else
      var fp := Field(d, "file_path");
      if !fp.JStr? then Raise(TypeError)
      else if fileExists(JoinPath(dir, fp.s)) then Ok([])
      else Ok(["State file not found: " + fp.s])
  }

  /** What entry i adds to the errors and to the list of ids met: one error
      for a non-dict (the other checks are skipped), otherwise the id,
      file_path, active and existence checks in that order. */
  function EntryReport(i: nat, entry: Json, ids: seq<Json>, dir: string, fileExists: string -> bool)
    : (r: Outcome<(seq<string>, seq<Json>)>)
    ensures r.Raise? <==> UnjoinablePath(entry)
    ensures !entry.JObj? ==> r.Ok? && |r.value.0| == 1 && r.value.1 == ids
    ensures r.Ok? ==> |r.value.0| <= 4 && ids <= r.value.1 && |r.value.1| <= |ids| + 1
  {
    if !entry.JObj? then Ok(([EntryMsg(i, "is not an object")], ids))
    else
      var d := entry.fields;
      var (idErrors, ids') := IdErrors(i, d, ids);
      var notFound :- ExistenceErrors(d, dir, fileExists);
      Ok((idErrors + FilePathErrors(i, d) + ActiveErrors(i, d) + notFound, ids'))
  }

  /** A dict entry whose `file_path` is present but not a str: joining it
      to the directory raises. */
  predicate UnjoinablePath(entry: Json)
  {
    entry.JObj? && HasKey(entry.fields, "file_path") && !Field(entry.fields, "file_path").JStr?
  }

  /** The errors and the ids met after the first n entries: the scan raises
      exactly when one of them has an unjoinable `file_path`; otherwise each
      entry adds at most four errors and at most one id. */
  function ScanEntries(entries: seq<Json>, n: nat, dir: string, fileExists: string -> bool)
    : (r: Outcome<(seq<string>, seq<Json>)>)
    requires n <= |entries|
    ensures r.Raise? <==> exists k | 0 <= k < n :: UnjoinablePath(entries[k])
    ensures r.Ok? ==> |r.value.0| <= 4 * n && |r.value.1| <= n
  {
    if n == 0 then Ok(([], []))
    else
      var before :- ScanEntries(entries, n - 1, dir, fileExists);
      assert forall k | 0 <= k < n - 1 :: !UnjoinablePath(entries[k]);
      var entry :- EntryReport(n - 1, entries[n - 1], before.1, dir, fileExists);
      assert forall k | 0 <= k < n :: !UnjoinablePath(entries[k]);
      Ok((before.0 + entry.0, entry.1))
  }

  lemma ScanEntriesRaisePersists(entries: seq<Json>, i: nat, n: nat, dir: string, fileExists: string -> bool)
    requires i <= n <= |entries|
    requires ScanEntries(entries, i, dir, fileExists).Raise?
    ensures ScanEntries(entries, n, dir, fileExists) == Raise(ScanEntries(entries, i, dir, fileExists).error)
  {
    var e := ScanEntries(entries, i, dir, fileExists).error;
    var k := i;
    while k < n
      invariant i <= k <= n
      invariant ScanEntries(entries, k, dir, fileExists) == Raise(e)
    {
      ScanEntriesRaiseStep(entries, k + 1, dir, fileExists);
      k := k + 1;
    }
  }

  /** An exception in the first n - 1 entries is the exception of the first n. */
  lemma ScanEntriesRaiseStep(entries: seq<Json>, n: nat, dir: string, fileExists: string -> bool)
    requires 0 < n <= |entries|
    requires ScanEntries(entries, n - 1, dir, fileExists).Raise?
    ensures ScanEntries(entries, n, dir, fileExists) == Raise(ScanEntries(entries, n - 1, dir, fileExists).error)
  {
  }

  /** A successful scan of the first n entries is the scan of the first
      n - 1 followed by what entry n - 1 adds. */
  lemma ScanEntriesOkStep(entries: seq<Json>, n: nat, dir: string, fileExists: string -> bool)
    requires 0 < n <= |entries|
    requires ScanEntries(entries, n, dir, fileExists).Ok?
    ensures ScanEntries(entries, n - 1, dir, fileExists).Ok?
    ensures var before := ScanEntries(entries, n - 1, dir, fileExists).value;
            var entry := EntryReport(n - 1, entries[n - 1], before.1, dir, fileExists);
            entry.Ok? && ScanEntries(entries, n, dir, fileExists).value == (before.0 + entry.value.0, entry.value.1)
  {
  }

  /** The scan of one more entry, given the scan so far. */
  lemma ScanEntriesExtend(entries: seq<Json>, n: nat, before: (seq<string>, seq<Json>), dir: string, fileExists: string -> bool)
    requires n < |entries|
    requires ScanEntries(entries, n, dir, fileExists) == Ok(before)
    ensures var entry := EntryReport(n, entries[n], before.1, dir, fileExists);
            ScanEntries(entries, n + 1, dir, fileExists)
            == if entry.Raise? then Raise(entry.error) else Ok((before.0 + entry.value.0, entry.value.1))
  {
  }

  /** A scan that succeeds on the first n entries succeeds on every shorter prefix. */
  lemma ScanEntriesOkPrefix(entries: seq<Json>, k: nat, n: nat, dir: string, fileExists: string -> bool)
    requires k <= n <= |entries|
    requires ScanEntries(entries, n, dir, fileExists).Ok?
    ensures ScanEntries(entries, k, dir, fileExists).Ok?
  {
    if ScanEntries(entries, k, dir, fileExists).Raise? {
      ScanEntriesRaisePersists(entries, k, n, dir, fileExists);
    }
  }

  /** The errors `validate_registry` returns for a registry file: one error
      when the file cannot be loaded, naming the path as `str(Path(...))`
      spells it; otherwise every missing top-level
      field, then (when `states` is there) one error for a non-list or the
      entries' errors. Nothing returns early after loading. */
  function RegistryFileErrors(registryPath: string, load: Loaded, fileExists: string -> bool): Outcome<seq<string>>
  {
    match load
    case Missing => Ok(["Registry file not found: " + PathStr(registryPath)])
    case Unreadable(reason) => Ok(["Failed to load registry: " + reason])
    case Parsed(registry) =>
      var absent :- Validation.AbsentFields(registry, RegistryFileFields);
      var missing := Validation.WithPrefix("Missing required field: ", absent);
      var hasStates :- Contains(registry, "states");
      if !hasStates then Ok(missing)
      else
        var states :- GetItem(registry, "states");
        if !states.JArr? then Ok(missing + ["Field 'states' must be an array"])
        else
          var scan :- ScanEntries(states.items, |states.items|, Parent(registryPath), fileExists);
          Ok(missing + scan.0)
  }

  /** The body of the loop over the entries. */
  method CheckEntry(i: nat, entry: Json, ids: seq<Json>, dir: string, fileExists: string -> bool)
    returns (r: Outcome<(seq<string>, seq<Json>)>)
    ensures r == EntryReport(i, entry, ids, dir, fileExists)
  {
    if !entry.JObj? {
      return Ok(([EntryMsg(i, "is not an object")], ids));
    }
    var d := entry.fields;
    var errors: seq<string> := [];
    var stateIds := ids;
    if !HasKey(d, "state_id") {
      errors := errors + [EntryMsg(i, "missing 'state_id'")];
    } else {
      var id := Field(d, "state_id");
      if PyIn(id, stateIds) {
        errors := errors + [DuplicateIdMsg(id)];
        assert errors == [DuplicateIdMsg(id)];
      }
      stateIds := stateIds + [id];
    }
    assert errors == IdErrors(i, d, ids).0 && stateIds == IdErrors(i, d, ids).1;
    if !HasKey(d, "file_path") {
      errors := errors + [EntryMsg(i, "missing 'file_path'")];
    } else {
      assert errors + [] == errors;
    }
    assert errors == IdErrors(i, d, ids).0 + FilePathErrors(i, d);
    if !HasKey(d, "active") {
      errors := errors + [EntryMsg(i, "missing 'active' field")];
    } else if !Field(d, "active").JBool? {
      errors := errors + [EntryMsg(i, "'active' must be boolean")];
    } else {
      assert errors + [] == errors;
    }
    assert errors == IdErrors(i, d, ids).0 + FilePathErrors(i, d) + ActiveErrors(i, d);
    var found := ExistenceErrors(d, dir, fileExists);
    if HasKey(d, "file_path") {
      var fp := Field(d, "file_path");
      if !fp.JStr? {
        return Raise(TypeError);
      }
      if !fileExists(JoinPath(dir, fp.s)) {
        errors := errors + ["State file not found: " + fp.s];
      } else {
        assert errors + [] == errors;
      }
    } else {
      assert errors + [] == errors;
    }
    assert errors == IdErrors(i, d, ids).0 + FilePathErrors(i, d) + ActiveErrors(i, d) + found.value;
    return Ok((errors, stateIds));
  }

  /** The loop over the entries of a `states` list. */
  method CheckEntries(items: seq<Json>, dir: string, fileExists: string -> bool)
    returns (r: Outcome<(seq<string>, seq<Json>)>)
    ensures r == ScanEntries(items, |items|, dir, fileExists)
  {
    var errors: seq<string> := [];
    var stateIds: seq<Json> := [];
    for i := 0 to |items|
      invariant ScanEntries(items, i, dir, fileExists) == Ok((errors, stateIds))
    {
      var entry := CheckEntry(i, items[i], stateIds, dir, fileExists);
      ScanEntriesExtend(items, i, (errors, stateIds), dir, fileExists);
      if entry.Raise? {
        ScanEntriesRaisePersists(items, i + 1, |items|, dir, fileExists);
        return Raise(entry.error);
      }
      errors := errors + entry.value.0;
      stateIds := entry.value.1;
    }
    return Ok((errors, stateIds));
  }

  /** `validate_registry` on a registry file. */
  method ValidateRegistryFile(registryPath: string, load: Loaded, fileExists: string -> bool)
    returns (r: Outcome<seq<string>>)
    ensures r == RegistryFileErrors(registryPath, load, fileExists)
  {
    if load.Missing? {
      return Ok(["Registry file not found: " + PathStr(registryPath)]);
    }
    if load.Unreadable? {
      return Ok(["Failed to load registry: " + load.reason]);
    }
    var registry := load.value;
    var errors :- Validation.CollectMissing(registry, RegistryFileFields, "Missing required field: ");
    // The loop over the required fields has already tested `in` on the registry.
    var hasStates := Contains(registry, "states").value;
    if hasStates {
      var states :- GetItem(registry, "states");
      if !states.JArr? {
        errors := errors + ["Field 'states' must be an array"];
      } else {
        var scan :- CheckEntries(states.items, Parent(registryPath), fileExists);
        errors := errors + scan.0;
      }
    }
    return Ok(errors);
  }

  // ---------------------------------------------------------------------
  // get_active_states and get_state_by_id (registry.py:105-142)

  /** The values a registry's `states` may hold and still be iterated:
      a list, a dict or a str. */
  predicate IsIterable(v: Json)
  {
    v.JArr? || v.JObj? || v.JStr?
  }

  /** `isinstance(state, dict) and state.get("active", False)`. */
  predicate IsActive(state: Json)
  {
    state.JObj? && Truthy(GetOr(state.fields, "active", JBool(false)))
  }

  /** The list comprehension over the entries: the active ones, in order. */
  function ActiveIn(states: seq<Json>): (r: seq<Json>)
    ensures |r| <= |states|
    ensures forall x | x in r :: x in states && IsActive(x)
    decreases |states|
  {
    if states == [] then []
    else ActiveIn(states[..|states| - 1]) + (if IsActive(states[|states| - 1]) then [states[|states| - 1]] else [])
  }

  /** `get_active_states`. Iterating a dict or a str yields strings, none of
      them active; a number, bool or None cannot be iterated. */
  function GetActiveStates(registry: Dict): (r: Outcome<seq<Json>>)
    ensures r.Raise? <==> HasKey(registry, "states") && !IsIterable(Field(registry, "states"))
    ensures r.Ok? ==> forall x | x in r.value ::
              IsActive(x) && HasKey(registry, "states") && Field(registry, "states").JArr?
              && x in Field(registry, "states").items
  {
    if !HasKey(registry, "states") then Ok([])
    else
      match Field(registry, "states")
      case JArr(items) => Ok(ActiveIn(items))
      case JObj(_) => Ok([])
      case JStr(_) => Ok([])
      case _ => Raise(TypeError)
  }

  /** `isinstance(state, dict) and state.get("state_id") == state_id`. */
  predicate Carries(state: Json, stateId: string)
  {
    state.JObj? && PyEq(GetOr(state.fields, "state_id", JNull), JStr(stateId))
  }

  /** The first entry carrying the id; entries that are not dicts are
      passed over. */
  function FirstCarrying(states: seq<Json>, stateId: string): (r: Option<Json>)
    ensures r.Some? ==> r.value in states && Carries(r.value, stateId)
    ensures r.None? <==> forall x | x in states :: !Carries(x, stateId)
  {
    if states == [] then None
    else if Carries(states[0], stateId) then Some(states[0])
    else FirstCarrying(states[1..], stateId)
  }

  /** `get_state_by_id` of registry.py. */
  function FindStateById(registry: Dict, stateId: string): (r: Outcome<Option<Json>>)
    ensures r.Raise? <==> HasKey(registry, "states") && !IsIterable(Field(registry, "states"))
    ensures r.Ok? && r.value.Some? ==>
              HasKey(registry, "states") && Field(registry, "states").JArr?
              && r.value.value in Field(registry, "states").items && Carries(r.value.value, stateId)
    ensures HasKey(registry, "states") && Field(registry, "states").JArr? ==>
              (r == Ok(None) <==> forall x | x in Field(registry, "states").items :: !Carries(x, stateId))
  {
    if !HasKey(registry, "states") then Ok(None)
    else
      match Field(registry, "states")
      case JArr(items) => Ok(FirstCarrying(items, stateId))
      case JObj(_) => Ok(None)
      case JStr(_) => Ok(None)
      case _ => Raise(TypeError)
  }
}
