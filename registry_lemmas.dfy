/** Properties of the registry-of-files model: the load guard, the
    missing-field and per-entry reports of `validate_registry`, duplicate
    counting, and the two queries. */
module RegistryProperties {
  import opened Text
  import opened PyValues
  import opened PosixPath
  import opened Registry
  import Validation
  import ValidationProperties

  // ---------------------------------------------------------------------
  // load_registry

  /** A loaded registry comes back unchanged exactly when it is a dict
      whose `states` is a list. */
  lemma LoadRegistryAccepts(v: Json, registryPath: string)
    ensures LoadRegistry(Parsed(v), registryPath) == Ok(v) <==>
              v.JObj? && HasKey(v.fields, "states") && Field(v.fields, "states").JArr?
  {
  }

  /** The two ValueErrors of a dict registry, and the failures of loading. */
  lemma LoadRegistryRejects(d: Dict, registryPath: string)
    ensures !HasKey(d, "states") ==>
              LoadRegistry(Parsed(JObj(d)), registryPath)
              == Raise(ValueError("Registry missing 'states' field: " + registryPath))
    ensures HasKey(d, "states") && !Field(d, "states").JArr? ==>
              LoadRegistry(Parsed(JObj(d)), registryPath)
              == Raise(ValueError("Registry 'states' must be a list: " + registryPath))
    ensures LoadRegistry(Missing, registryPath) == Raise(FileNotFoundError("File not found: " + PathStr(registryPath)))
  {
  }

  // ---------------------------------------------------------------------
  // A registry file that is not there

  /** The missing-registry message depends only on the parsed path, not
      on how it was spelled. */
  lemma MissingRegistrySpelling(p: string, q: string, fileExists: string -> bool)
    requires Parts(p) == Parts(q)
    ensures RegistryFileErrors(p, Missing, fileExists) == RegistryFileErrors(q, Missing, fileExists)
  {
    if Root(q) != "" {
      RootNotAName(p, q);
    } else if Root(p) != "" {
      RootNotAName(q, p);
    }
    if Root(p) == "" {
      assert Parts(p) == Tail(p) && Parts(q) == Tail(q);
    } else {
      assert Parts(p)[1..] == Tail(p) && Parts(q)[1..] == Tail(q);
    }
  }

  /** A root is never taken for a component: its text holds a separator. */
  lemma RootNotAName(p: string, q: string)
    requires Parts(p) == Parts(q) && Root(q) != ""
    ensures Root(p) == Root(q)
  {
    if Root(p) == "" {
      TailNames(p);
      assert false;
    }
  }

  /** The path in the missing-registry message is `str(Path(path))`: `.`
      for an empty path and no leading `./`. */
  lemma MissingRegistryNormalised(b: string, fileExists: string -> bool)
    requires IsPlainName(b)
    ensures RegistryFileErrors("", Missing, fileExists) == Ok(["Registry file not found: ."])
    ensures RegistryFileErrors("./" + b, Missing, fileExists) == Ok(["Registry file not found: " + b])
  {
    assert RegistryFileErrors("", Missing, fileExists) == Ok(["Registry file not found: ."]) by {
      PathStrEmpty();
      MissingRegistryText("", ".", fileExists);
      assert "Registry file not found: " + "." == "Registry file not found: .";
    }
    PathStrDotName(b);
    MissingRegistryText("./" + b, b, fileExists);
  }

  /** Nor does the message show a doubled or a trailing separator. */
  lemma MissingRegistrySeparators(a: string, b: string, fileExists: string -> bool)
    requires IsPlainName(a) && IsPlainName(b)
    ensures RegistryFileErrors(a + "//" + b, Missing, fileExists) == Ok(["Registry file not found: " + a + "/" + b])
    ensures RegistryFileErrors(a + "/" + b + "/", Missing, fileExists) == Ok(["Registry file not found: " + a + "/" + b])
  {
    assert "Registry file not found: " + (a + "/" + b) == "Registry file not found: " + a + "/" + b;
    PathStrDoubledSeparator(a, b);
    MissingRegistryText(a + "//" + b, a + "/" + b, fileExists);
    PathStrTrailingSeparator(a, b);
    MissingRegistryText(a + "/" + b + "/", a + "/" + b, fileExists);
  }

  lemma MissingRegistryText(p: string, text: string, fileExists: string -> bool)
    requires PathStr(p) == text
    ensures RegistryFileErrors(p, Missing, fileExists) == Ok(["Registry file not found: " + text])
  {
  }


  // ---------------------------------------------------------------------
  // Missing top-level fields

  /** The listed fields the dict lacks, in list order (a reference
      definition read from the front). */
  function MissingOf(d: Dict, fields: seq<string>): seq<string>
  {
    if fields == [] then []
    else (if HasKey(d, fields[0]) then [] else [fields[0]]) + MissingOf(d, fields[1..])
  }

  lemma {:induction false} MissingOfAppend(d: Dict, a: seq<string>, b: seq<string>)
    ensures MissingOf(d, a + b) == MissingOf(d, a) + MissingOf(d, b)
    decreases |a|
  {
    if a != [] {
      MissingOfAppend(d, a[1..], b);
      assert (a + b)[1..] == a[1..] + b;
    } else {
      assert a + b == b;
    }
  }

  /** On a dict, `field not in registry` finds exactly the missing fields, in order. */
  lemma {:induction false} AbsentFieldsAreMissing(d: Dict, fields: seq<string>)
    ensures Validation.AbsentFields(JObj(d), fields) == Ok(MissingOf(d, fields))
    decreases |fields|
  {
    if fields != [] {
      var init := fields[..|fields| - 1];
      var last := fields[|fields| - 1];
      AbsentFieldsAreMissing(d, init);
      MissingOfAppend(d, init, [last]);
      assert init + [last] == fields;
      assert [last][1..] == [];
      assert MissingOf(d, [last]) == if HasKey(d, last) then [] else [last];
    }
  }

  function MissingMsgs(d: Dict): seq<string>
  {
    Validation.WithPrefix("Missing required field: ", MissingOf(d, RegistryFileFields))
  }

  /** Without `states` the errors are the missing-field messages alone,
      one per missing field, `states` among them. */
  lemma RegistryWithoutStates(d: Dict, registryPath: string, fileExists: string -> bool)
    requires !HasKey(d, "states")
    ensures RegistryFileErrors(registryPath, Parsed(JObj(d)), fileExists) == Ok(MissingMsgs(d))
    ensures "Missing required field: states" in MissingMsgs(d)
  {
    AbsentFieldsAreMissing(d, RegistryFileFields);
    MissingOfAppend(d, RegistryFileFields[..2], RegistryFileFields[2..]);
    assert RegistryFileFields[..2] + RegistryFileFields[2..] == RegistryFileFields;
    assert RegistryFileFields[2..][1..] == [];
    assert MissingOf(d, RegistryFileFields[2..]) == ["states"];
    var m := MissingOf(d, RegistryFileFields);
    assert m[|m| - 1] == "states";
    assert MissingMsgs(d)[|m| - 1] == "Missing required field: states";
  }

  /** A `states` that is not a list adds exactly one error after the
      missing-field messages; no entry is looked at. */
  lemma RegistryStatesNotArray(d: Dict, registryPath: string, fileExists: string -> bool)
    requires HasKey(d, "states") && !Field(d, "states").JArr?
    ensures RegistryFileErrors(registryPath, Parsed(JObj(d)), fileExists)
            == Ok(MissingMsgs(d) + ["Field 'states' must be an array"])
  {
    AbsentFieldsAreMissing(d, RegistryFileFields);
  }

  /** A missing `registry_version` or `last_updated` does not stop the
      entries being checked: their errors follow the missing-field
      messages. */
  lemma RegistryChecksEntriesDespiteMissing(d: Dict, registryPath: string, fileExists: string -> bool)
    requires HasKey(d, "states") && Field(d, "states").JArr?
    requires var items := Field(d, "states").items;
             ScanEntries(items, |items|, Parent(registryPath), fileExists).Ok?
    ensures var items := Field(d, "states").items;
            RegistryFileErrors(registryPath, Parsed(JObj(d)), fileExists)
            == Ok(MissingMsgs(d) + ScanEntries(items, |items|, Parent(registryPath), fileExists).value.0)
  {
    AbsentFieldsAreMissing(d, RegistryFileFields);
  }

  // ---------------------------------------------------------------------
  // Entries

  /** A non-dict entry adds one error and nothing to the ids met. */
  lemma NonObjectEntrySkipped(entries: seq<Json>, j: nat, dir: string, fileExists: string -> bool)
    requires j < |entries| && !entries[j].JObj?
    requires ScanEntries(entries, j, dir, fileExists).Ok?
    ensures var before := ScanEntries(entries, j, dir, fileExists).value;
            ScanEntries(entries, j + 1, dir, fileExists)
            == Ok((before.0 + [EntryMsg(j, "is not an object")], before.1))
  {
  }

  /** The two `active` errors are different messages. */
  lemma ActiveMessagesDiffer(i: nat)
    ensures EntryMsg(i, "missing 'active' field") != EntryMsg(i, "'active' must be boolean")
  {
    var p := "State entry " + NatToString(i) + " ";
    assert EntryMsg(i, "missing 'active' field")[|p|] == 'm';
    assert EntryMsg(i, "'active' must be boolean")[|p|] == '\'';
  }

  // ---------------------------------------------------------------------
  // Duplicate ids

  /** The ids of the first n entries that are dicts with a `state_id`, in order. */
  function IdsBefore(entries: seq<Json>, n: nat): seq<Json>
    requires n <= |entries|
  {
    if n == 0 then []
    else
      var e := entries[n - 1];
      IdsBefore(entries, n - 1)
      + (if e.JObj? && HasKey(e.fields, "state_id") then [Field(e.fields, "state_id")] else [])
  }

  /** Entry j is a dict whose id equals an id met at an earlier entry. */
  predicate RepeatsEarlierId(entries: seq<Json>, j: nat)
    requires j < |entries|
  {
    entries[j].JObj? && HasKey(entries[j].fields, "state_id")
    && PyIn(Field(entries[j].fields, "state_id"), IdsBefore(entries, j))
  }

  /** The positions below n whose id compares equal to an id met earlier. */
  function RepeatPositions(entries: seq<Json>, n: nat): set<nat>
    requires n <= |entries|
  {
    set j: nat | j < n && RepeatsEarlierId(entries, j)
  }

  lemma ScanEntriesIds(entries: seq<Json>, n: nat, dir: string, fileExists: string -> bool)
    requires n <= |entries|
    requires ScanEntries(entries, n, dir, fileExists).Ok?
    ensures ScanEntries(entries, n, dir, fileExists).value.1 == IdsBefore(entries, n)
  {
    var k := 0;
    while k < n
      invariant k <= n
      invariant ScanEntries(entries, k, dir, fileExists).Ok?
      invariant ScanEntries(entries, k, dir, fileExists).value.1 == IdsBefore(entries, k)
    {
      ScanEntriesOkPrefix(entries, k + 1, n, dir, fileExists);
      ScanEntriesOkStep(entries, k + 1, dir, fileExists);
      EntryReportIds(k, entries[k], ScanEntries(entries, k, dir, fileExists).value.1, dir, fileExists);
      k := k + 1;
    }
  }

  /** An entry adds its id to the ids met when it is a dict holding `state_id`. */
  lemma EntryReportIds(i: nat, entry: Json, ids: seq<Json>, dir: string, fileExists: string -> bool)
    requires EntryReport(i, entry, ids, dir, fileExists).Ok?
    ensures EntryReport(i, entry, ids, dir, fileExists).value.1
            == ids + if entry.JObj? && HasKey(entry.fields, "state_id") then [Field(entry.fields, "state_id")] else []
  {
  }

  lemma {:induction false} NoDuplicateMsgs(errs: seq<string>)
    requires forall k | 0 <= k < |errs| :: |errs[k]| > 0 && errs[k][0] == 'S'
    ensures ValidationProperties.CountDuplicateMsgs(errs) == 0
    decreases |errs|
  {
    if errs != [] {
      NoDuplicateMsgs(errs[..|errs| - 1]);
    }
  }

  lemma EntryMsgStartsWithS(i: nat, what: string)
    ensures |EntryMsg(i, what)| > 0 && EntryMsg(i, what)[0] == 'S'
  {
  }

  /** A dict entry adds one duplicate message exactly when its id is
      already among the ids met. */
  lemma DictEntryDuplicateCount(j: nat, d: Dict, ids: seq<Json>, dir: string, fileExists: string -> bool)
    requires EntryReport(j, JObj(d), ids, dir, fileExists).Ok?
    ensures ValidationProperties.CountDuplicateMsgs(EntryReport(j, JObj(d), ids, dir, fileExists).value.0)
            == if HasKey(d, "state_id") && PyIn(Field(d, "state_id"), ids) then 1 else 0
  {
    var idErrors := IdErrors(j, d, ids).0;
    var rest := FilePathErrors(j, d) + ActiveErrors(j, d) + ExistenceErrors(d, dir, fileExists).value;
    DictEntryErrors(j, d, ids, dir, fileExists);
    IdErrorsDuplicateCount(j, d, ids);
    LaterChecksHaveNoDuplicate(j, d, dir, fileExists);
    ValidationProperties.CountDuplicateMsgsAppend(idErrors, rest);
  }

  /** A dict entry's errors are the id errors followed by the other checks' errors. */
  lemma DictEntryErrors(j: nat, d: Dict, ids: seq<Json>, dir: string, fileExists: string -> bool)
    requires EntryReport(j, JObj(d), ids, dir, fileExists).Ok?
    ensures ExistenceErrors(d, dir, fileExists).Ok?
    ensures EntryReport(j, JObj(d), ids, dir, fileExists).value.0
            == IdErrors(j, d, ids).0 + (FilePathErrors(j, d) + ActiveErrors(j, d) + ExistenceErrors(d, dir, fileExists).value)
  {
  }

  /** The id check reports a duplicate exactly when the id was met before. */
  lemma IdErrorsDuplicateCount(j: nat, d: Dict, ids: seq<Json>)
    ensures ValidationProperties.CountDuplicateMsgs(IdErrors(j, d, ids).0)
            == if HasKey(d, "state_id") && PyIn(Field(d, "state_id"), ids) then 1 else 0
  {
    var idErrors := IdErrors(j, d, ids).0;
    if HasKey(d, "state_id") && PyIn(Field(d, "state_id"), ids) {
      var msg := DuplicateIdMsg(Field(d, "state_id"));
      assert ValidationProperties.IsDuplicateMsg(msg);
      assert idErrors == [msg];
      assert [msg][..0] == [];
    } else {
      EntryMsgStartsWithS(j, "missing 'state_id'");
      NoDuplicateMsgs(idErrors);
    }
  }

  /** The file_path, active and existence checks never report a duplicate. */
  lemma LaterChecksHaveNoDuplicate(j: nat, d: Dict, dir: string, fileExists: string -> bool)
    requires ExistenceErrors(d, dir, fileExists).Ok?
    ensures ValidationProperties.CountDuplicateMsgs(
              FilePathErrors(j, d) + ActiveErrors(j, d) + ExistenceErrors(d, dir, fileExists).value) == 0
  {
    var a, b, c := FilePathErrors(j, d), ActiveErrors(j, d), ExistenceErrors(d, dir, fileExists).value;
    var rest := a + b + c;
    EntryMsgStartsWithS(j, "missing 'file_path'");
    EntryMsgStartsWithS(j, "missing 'active' field");
    EntryMsgStartsWithS(j, "'active' must be boolean");
    assert forall k | 0 <= k < |a| :: |a[k]| > 0 && a[k][0] == 'S';
    assert forall k | 0 <= k < |b| :: |b[k]| > 0 && b[k][0] == 'S';
    assert forall k | 0 <= k < |c| :: |c[k]| > 0 && c[k][0] == 'S';
    assert forall k | 0 <= k < |rest| :: |rest[k]| > 0 && rest[k][0] == 'S' by {
      forall k | 0 <= k < |rest| ensures |rest[k]| > 0 && rest[k][0] == 'S' {
        if k < |a| { assert rest[k] == a[k]; }
        else if k < |a| + |b| { assert rest[k] == b[k - |a|]; }
        else { assert rest[k] == c[k - |a| - |b|]; }
      }
    }
    NoDuplicateMsgs(rest);
  }

  lemma RepeatPositionsLast(entries: seq<Json>, j: nat)
    requires j < |entries|
    ensures j in RepeatPositions(entries, j + 1) <==>
              entries[j].JObj? && HasKey(entries[j].fields, "state_id")
              && PyIn(Field(entries[j].fields, "state_id"), IdsBefore(entries, j))
  {
  }

  /** What entry j adds to the count of duplicate messages. */
  lemma EntryDuplicateCount(entries: seq<Json>, j: nat, dir: string, fileExists: string -> bool)
    requires j < |entries|
    requires EntryReport(j, entries[j], IdsBefore(entries, j), dir, fileExists).Ok?
    ensures ValidationProperties.CountDuplicateMsgs(EntryReport(j, entries[j], IdsBefore(entries, j), dir, fileExists).value.0)
            == if j in RepeatPositions(entries, j + 1) then 1 else 0
  {
    RepeatPositionsLast(entries, j);
    if entries[j].JObj? {
      DictEntryDuplicateCount(j, entries[j].fields, IdsBefore(entries, j), dir, fileExists);
    } else {
      EntryMsgStartsWithS(j, "is not an object");
      NoDuplicateMsgs([EntryMsg(j, "is not an object")]);
    }
  }

  /** One "Duplicate state_id" error for every entry whose id equals an id
      met at an earlier entry. */
  lemma ScanEntriesDuplicates(entries: seq<Json>, n: nat, dir: string, fileExists: string -> bool)
    requires n <= |entries|
    requires ScanEntries(entries, n, dir, fileExists).Ok?
    ensures ValidationProperties.CountDuplicateMsgs(ScanEntries(entries, n, dir, fileExists).value.0)
            == |RepeatPositions(entries, n)|
  {
    var k := 0;
    assert RepeatPositions(entries, 0) == {};
    while k < n
      invariant k <= n
      invariant ScanEntries(entries, k, dir, fileExists).Ok?
      invariant ValidationProperties.CountDuplicateMsgs(ScanEntries(entries, k, dir, fileExists).value.0)
                == |RepeatPositions(entries, k)|
    {
      ScanEntriesOkPrefix(entries, k + 1, n, dir, fileExists);
      ScanEntriesOkStep(entries, k + 1, dir, fileExists);
      ScanEntriesIds(entries, k, dir, fileExists);
      EntryDuplicateCount(entries, k, dir, fileExists);
      var before := ScanEntries(entries, k, dir, fileExists).value;
      var entry := EntryReport(k, entries[k], before.1, dir, fileExists).value;
      ValidationProperties.CountDuplicateMsgsAppend(before.0, entry.0);
      RepeatPositionsStep(entries, k);
      k := k + 1;
    }
  }

  /** Entry k adds itself to the repeat positions exactly when it repeats an id. */
  lemma RepeatPositionsStep(entries: seq<Json>, k: nat)
    requires k < |entries|
    ensures |RepeatPositions(entries, k + 1)|
            == |RepeatPositions(entries, k)| + if k in RepeatPositions(entries, k + 1) then 1 else 0
  {
    if k in RepeatPositions(entries, k + 1) {
      RepeatPositionsGrow(entries, k);
    } else {
      RepeatPositionsKeep(entries, k);
    }
  }

  lemma RepeatPositionsGrow(entries: seq<Json>, k: nat)
    requires k < |entries| && k in RepeatPositions(entries, k + 1)
    ensures RepeatPositions(entries, k + 1) == RepeatPositions(entries, k) + {k}
    ensures k !in RepeatPositions(entries, k)
  {
  }

  lemma RepeatPositionsKeep(entries: seq<Json>, k: nat)
    requires k < |entries| && k !in RepeatPositions(entries, k + 1)
    ensures RepeatPositions(entries, k + 1) == RepeatPositions(entries, k)
  {
  }

  // ---------------------------------------------------------------------
  // get_active_states

  /** Exactly the active entries are kept. */
  lemma {:induction false} ActiveInMembers(states: seq<Json>, x: Json)
    ensures x in ActiveIn(states) <==> x in states && IsActive(x)
    decreases |states|
  {
    if states != [] {
      var init := states[..|states| - 1];
      ActiveInMembers(init, x);
      assert states == init + [states[|states| - 1]];
    }
  }

  /** The filter keeps the original order: it distributes over concatenation. */
  lemma {:induction false} ActiveInAppend(a: seq<Json>, b: seq<Json>)
    ensures ActiveIn(a + b) == ActiveIn(a) + ActiveIn(b)
    decreases |b|
  {
    if b == [] {
      assert a + b == a;
    } else {
      var init, last := b[..|b| - 1], b[|b| - 1];
      var tail := if IsActive(last) then [last] else [];
      ActiveInAppend(a, init);
      assert (a + b)[..|a + b| - 1] == a + init;
      assert ActiveIn(a + b) == ActiveIn(a + init) + tail;
      assert ActiveIn(b) == ActiveIn(init) + tail;
    }
  }

  /** `active` defaults to False: an entry without it is never returned. */
  lemma ActiveNeedsTruthyFlag(state: Json)
    requires state.JObj?
    ensures !HasKey(state.fields, "active") ==> !IsActive(state)
    ensures HasKey(state.fields, "active") ==> (IsActive(state) <==> Truthy(Field(state.fields, "active")))
  {
  }

  // ---------------------------------------------------------------------
  // get_state_by_id

  /** An entry carries the id exactly when it is a dict whose `state_id` is that string. */
  lemma CarriesMeansStringId(state: Json, stateId: string)
    ensures Carries(state, stateId) <==>
              state.JObj? && HasKey(state.fields, "state_id") && Field(state.fields, "state_id") == JStr(stateId)
  {
  }

  /** The lookup returns the first entry carrying the id, or None when no
      entry carries it. */
  lemma FirstCarryingIsFirst(states: seq<Json>, stateId: string)
    ensures FirstCarrying(states, stateId).None? <==> forall j | 0 <= j < |states| :: !Carries(states[j], stateId)
    ensures FirstCarrying(states, stateId).Some? ==>
              exists k | 0 <= k < |states| :: states[k] == FirstCarrying(states, stateId).value
                && Carries(states[k], stateId) && forall j | 0 <= j < k :: !Carries(states[j], stateId)
  {
    FirstCarryingNone(states, stateId);
    FirstCarryingSome(states, stateId);
  }

  lemma {:induction false} FirstCarryingNone(states: seq<Json>, stateId: string)
    ensures FirstCarrying(states, stateId).None? <==> forall j | 0 <= j < |states| :: !Carries(states[j], stateId)
    decreases |states|
  {
    if states != [] && !Carries(states[0], stateId) {
      var tail := states[1..];
      FirstCarryingNone(tail, stateId);
      assert forall j | 0 <= j < |tail| :: tail[j] == states[j + 1];
      assert (forall j | 0 <= j < |states| :: !Carries(states[j], stateId)) <==>
             (forall j | 0 <= j < |tail| :: !Carries(tail[j], stateId));
    }
  }

  lemma {:induction false} FirstCarryingSome(states: seq<Json>, stateId: string)
    ensures FirstCarrying(states, stateId).Some? ==>
              exists k | 0 <= k < |states| :: states[k] == FirstCarrying(states, stateId).value
                && Carries(states[k], stateId) && forall j | 0 <= j < k :: !Carries(states[j], stateId)
    decreases |states|
  {
    if states != [] && !Carries(states[0], stateId) {
      var tail := states[1..];
      FirstCarryingSome(tail, stateId);
      if FirstCarrying(tail, stateId).Some? {
        var k :| 0 <= k < |tail| && tail[k] == FirstCarrying(tail, stateId).value
          && Carries(tail[k], stateId) && forall j | 0 <= j < k :: !Carries(tail[j], stateId);
        assert states[k + 1] == tail[k];
        assert forall j | 0 <= j < k + 1 :: !Carries(states[j], stateId) by {
          forall j | 0 <= j < k + 1 ensures !Carries(states[j], stateId) {
            if j > 0 { assert states[j] == tail[j - 1]; }
          }
        }
      }
    }
  }

  /** On a `states` list of dicts the two `get_state_by_id` functions of
      the repository agree. */
  lemma {:induction false} LookupsAgreeOnDicts(states: seq<Json>, stateId: string)
    requires forall j | 0 <= j < |states| :: states[j].JObj?
    ensures Validation.FirstWithId(states, stateId) == Ok(FirstCarrying(states, stateId))
    decreases |states|
  {
    if states != [] {
      CarriesMeansStringId(states[0], stateId);
      assert Carries(states[0], stateId) <==> Validation.HasStateId(states[0], stateId);
      assert forall j | 0 <= j < |states[1..]| :: states[1..][j] == states[j + 1];
      LookupsAgreeOnDicts(states[1..], stateId);
    }
  }

  /** `get_active_states`: no `states` key gives the empty list; a list of
      entries gives exactly its active dict entries; iterating a value that
      is neither a list, a dict nor a str raises. */
  lemma GetActiveStatesSelects(registry: Dict, x: Json)
    ensures !HasKey(registry, "states") ==> GetActiveStates(registry) == Ok([])
    ensures HasKey(registry, "states") && Field(registry, "states").JArr? ==>
      GetActiveStates(registry).Ok?
      && (x in GetActiveStates(registry).value <==> x in Field(registry, "states").items && IsActive(x))
    ensures GetActiveStates(registry).Raise? <==>
      HasKey(registry, "states")
      && !(Field(registry, "states").JArr? || Field(registry, "states").JObj? || Field(registry, "states").JStr?)
  {
    if HasKey(registry, "states") && Field(registry, "states").JArr? {
      ActiveInMembers(Field(registry, "states").items, x);
    }
  }

  /** `get_state_by_id` of registry.py: None without `states`; over a list,
      None exactly when no entry carries the id, otherwise the first that does. */
  lemma FindStateByIdIsFirst(registry: Dict, stateId: string)
    ensures !HasKey(registry, "states") ==> FindStateById(registry, stateId) == Ok(None)
    ensures HasKey(registry, "states") && Field(registry, "states").JArr? ==>
      var items := Field(registry, "states").items;
      var r := FindStateById(registry, stateId);
      r.Ok?
      && (r.value.None? <==> forall j | 0 <= j < |items| :: !Carries(items[j], stateId))
      && (r.value.Some? ==>
            exists k | 0 <= k < |items| :: items[k] == r.value.value
              && Carries(items[k], stateId) && forall j | 0 <= j < k :: !Carries(items[j], stateId))
  {
    if HasKey(registry, "states") && Field(registry, "states").JArr? {
      FirstCarryingIsFirst(Field(registry, "states").items, stateId);
    }
  }
}
