/** src/validation.py: the field validators, the record validator that
    collects every error of an epistemic state, the validator of a registry
    with inline states, and the lookup of a state by id.

    Each validator returns `(is_valid, error)`; the record and registry
    validators raise only where Python itself would (a value of the wrong
    type reaching `re.match`, `in`, indexing or hashing), which the model
    reports as `Raise(TypeError)`. */
module Validation {
  import opened Text
  import opened PyValues
  import opened FieldPatterns

  // ---------------------------------------------------------------------
  // Field validators (validation.py:71-165)

  const StateIdPattern := "^[a-z0-9_]+_[0-9]{3,}$"

  /** `validate_state_id`: accepted exactly when `re.match` finds the
      pattern, which also lets one trailing newline through. */
  function ValidateStateId(stateId: string): (r: (bool, Option<string>))
    ensures r.0 <==> InStateIdLanguage(stateId)
                     || (EndsWithNewline(stateId) && InStateIdLanguage(Chomp(stateId)))
    ensures r.0 <==> r.1 == None
    ensures !r.0 ==> r.1 == Some("state_id '" + stateId + "' does not match pattern: " + StateIdPattern)
  {
    StateIdMatchIsLanguage(stateId);
    if FullMatch(StateIdBody, stateId) then (true, None)
    else (false, Some("state_id '" + stateId + "' does not match pattern: " + StateIdPattern))
  }

  const TimestampFormat := "%Y-%m-%dT%H:%M:%SZ"

  /** The two-digit groups that strptime's own parser for this format
      takes: month 01-12, day 01-31, hour 00-23, minute 00-59, second 00-61. */
  predicate StrptimeFieldsParse(dt: DateTime)
  {
    1 <= dt.month <= 12 && 1 <= dt.day <= 31 && dt.hour <= 23 && dt.minute <= 59 && dt.second <= 61
  }

  /** Why `datetime.strptime(s, "%Y-%m-%dT%H:%M:%SZ")` raises, for a string
      the timestamp regex let through (None: it returns a datetime). The
      checks come in CPython's order: the format's own parse, leftover
      input, then the date and the time constructors. */
  function StrptimeError(s: string): (e: Option<string>)
    requires FullMatch(TimestampShape, s)
    ensures e == None <==> TimestampShape(s) && IsRealDateTime(TimestampFields(s))
  {
    var t := if TimestampShape(s) then s else Chomp(s);
    var shown := if t == s then s else t + "\\n";
    var dt := TimestampFields(t);
    if !StrptimeFieldsParse(dt) then
      Some("time data '" + shown + "' does not match format '" + TimestampFormat + "'")
    else if t != s then Some("unconverted data remains: \n")
    else if dt.year == 0 then Some("year 0 is out of range")
    else if dt.day > DaysInMonth(dt.year, dt.month) then Some("day is out of range for month")
    else if dt.second > 59 then Some("second must be in 0..59")
    else None
  }

  /** `validate_timestamp`: the regex, then a real calendar date-time. */
  function ValidateTimestamp(timestamp: string): (r: (bool, Option<string>))
    ensures r.0 <==> TimestampShape(timestamp) && IsRealDateTime(TimestampFields(timestamp))
    ensures r.0 <==> r.1 == None
    ensures !FullMatch(TimestampShape, timestamp) ==>
              r.1 == Some("timestamp '" + timestamp + "' does not match ISO 8601 UTC format")
    ensures FullMatch(TimestampShape, timestamp) && !r.0 ==>
              r.1 == Some("Invalid datetime: " + StrptimeError(timestamp).value)
  {
    if !FullMatch(TimestampShape, timestamp) then
      (false, Some("timestamp '" + timestamp + "' does not match ISO 8601 UTC format"))
    else
      match StrptimeError(timestamp)
      case Some(reason) => (false, Some("Invalid datetime: " + reason))
      case None => (true, None)
  }

  /** `validate_doi`. */
  function ValidateDoi(doi: string): (r: (bool, Option<string>))
    ensures r.0 <==> InDoiLanguage(doi) || (EndsWithNewline(doi) && InDoiLanguage(Chomp(doi)))
    ensures r.0 <==> r.1 == None
    ensures !r.0 ==> r.1 == Some("source_doi '" + doi + "' does not match DOI format pattern")
  {
    DoiMatchIsLanguage(doi);
    if FullMatch(DoiBody, doi) then (true, None)
    else (false, Some("source_doi '" + doi + "' does not match DOI format pattern"))
  }

  const AllowedStatuses: set<string> := {"competing", "consensus", "rejected", "preliminary"}

  /** How Python prints the allowed set inside the status error. */
  const AllowedStatusesText := "{'competing', 'consensus', 'rejected', 'preliminary'}"

  function StatusMsg(shown: string): string
  {
    "epistemic_status '" + shown + "' not in allowed values: " + AllowedStatusesText
  }

  /** `validate_epistemic_status`. */
  function ValidateEpistemicStatus(status: string): (r: (bool, Option<string>))
    ensures r.0 <==> status == "competing" || status == "consensus"
                     || status == "rejected" || status == "preliminary"
    ensures r.0 <==> r.1 == None
    ensures !r.0 ==> r.1 == Some(StatusMsg(status))
  {
    if status !in AllowedStatuses then (false, Some(StatusMsg(status))) else (true, None)
  }

  /** `validate_version`. */
  function ValidateVersion(version: string): (r: (bool, Option<string>))
    ensures r.0 <==> InVersionLanguage(version)
                     || (EndsWithNewline(version) && InVersionLanguage(Chomp(version)))
    ensures r.0 <==> r.1 == None
    ensures !r.0 ==> r.1 == Some("version '" + version + "' does not match semantic version format (X.Y.Z)")
  {
    VersionMatchIsLanguage(version);
    if FullMatch(VersionBody, version) then (true, None)
    else (false, Some("version '" + version + "' does not match semantic version format (X.Y.Z)"))
  }

  // ---------------------------------------------------------------------
  // validate_epistemic_state (validation.py:168-245), as specification

  const StateRequiredFields := ["state_id", "timestamp", "source_doi", "epistemic_status", "metadata"]

  const MaxDescriptionLength := 1000

  /** The error list a validator verdict contributes. */
  function Reported(v: (bool, Option<string>)): seq<string>
  {
    if v.0 || v.1.None? then [] else [v.1.value]
  }

  /** `key in container` where the container is a dict, list or str. */
  predicate Iterable(v: Json) { v.JObj? || v.JArr? || v.JStr? }

  predicate IsIn(container: Json, key: string)
    requires Iterable(container)
  {
    Contains(container, key).value
  }

  /** The listed fields that `field not in container` finds missing, in
      list order; `in` raises on a number, bool or None. */
  function AbsentFields(container: Json, fields: seq<string>): (r: Outcome<seq<string>>)
    decreases |fields|
    ensures r.Raise? <==> fields != [] && !Iterable(container)
    ensures r.Raise? ==> r.error == TypeError
    ensures r.Ok? ==> |r.value| <= |fields|
    ensures r.Ok? ==> forall f :: f in r.value <==> f in fields && !IsIn(container, f)
  {
    if fields == [] then Ok([])
    else
      var earlier :- AbsentFields(container, fields[..|fields| - 1]);
      var present :- Contains(container, fields[|fields| - 1]);
      assert fields == fields[..|fields| - 1] + [fields[|fields| - 1]];
      Ok(earlier + (if present then [] else [fields[|fields| - 1]]))
  }

  function WithPrefix(prefix: string, xs: seq<string>): (r: seq<string>)
    ensures |r| == |xs| && forall k | 0 <= k < |xs| :: r[k] == prefix + xs[k]
  {
    seq(|xs|, k requires 0 <= k < |xs| => prefix + xs[k])
  }

  function MissingFieldMsgs(fields: seq<string>): seq<string>
  {
    WithPrefix("Missing required field: ", fields)
  }

  /** A required string field: `re.match` raises unless the value is a str. */
  function StringField(state: Json, key: string): Outcome<string>
  {
    var v :- GetItem(state, key);
    if v.JStr? then Ok(v.s) else Raise(TypeError)
  }

  function StateIdErrors(state: Json): Outcome<seq<string>>
  {
    var id :- StringField(state, "state_id");
    Ok(Reported(ValidateStateId(id)))
  }

  function TimestampErrors(state: Json): Outcome<seq<string>>
  {
    var ts :- StringField(state, "timestamp");
    Ok(Reported(ValidateTimestamp(ts)))
  }

  function DoiErrors(state: Json): Outcome<seq<string>>
  {
    var doi :- StringField(state, "source_doi");
    Ok(Reported(ValidateDoi(doi)))
  }

  /** `status not in allowed`: a str is looked up, another hashable value is
      simply not a member, and a list or dict cannot be hashed. */
  function StatusValueErrors(v: Json): Outcome<seq<string>>
  {
    if v.JStr? then Ok(Reported(ValidateEpistemicStatus(v.s)))
    else if Hashable(v) then Ok([StatusMsg(PyStr(v))])
    else Raise(TypeError)
  }

  function StatusErrors(state: Json): Outcome<seq<string>>
  {
    var v :- GetItem(state, "epistemic_status");
    StatusValueErrors(v)
  }

  function MetadataValueErrors(v: Json): seq<string>
  {
    if v.JObj? then [] else ["metadata must be a dictionary, got " + TypeName(v)]
  }

  function MetadataErrors(state: Json): Outcome<seq<string>>
  {
    var v :- GetItem(state, "metadata");
    Ok(MetadataValueErrors(v))
  }

  function DescriptionValueErrors(v: Json): (r: seq<string>)
    ensures |r| <= 1
    ensures r == [] <==> v.JStr? && |v.s| <= MaxDescriptionLength
  {
    if !v.JStr? then ["description must be a string, got " + TypeName(v)]
    else if |v.s| > MaxDescriptionLength then ["description exceeds maximum length of 1000 characters"]
    else []
  }

  function TagsValueErrors(v: Json): (r: seq<string>)
    ensures |r| <= 1
    ensures r == [] <==> v.JArr? && forall k | 0 <= k < |v.items| :: v.items[k].JStr?
  {
    if !v.JArr? then ["tags must be an array, got " + TypeName(v)]
    else if !(forall k | 0 <= k < |v.items| :: v.items[k].JStr?) then ["All tags must be strings"]
    else []
  }

  predicate RelatedItemValid(item: Json)
  {
    item.JStr? && ValidateStateId(item.s).0
  }

  function RelatedItemErrors(item: Json): (r: seq<string>)
    ensures |r| <= 1 && (r == [] <==> RelatedItemValid(item))
  {
    if !item.JStr? then ["related_states must contain strings, got " + TypeName(item)]
    else
      var v := ValidateStateId(item.s);
      if !v.0 then ["Invalid related state ID: " + v.1.value] else []
  }

  /** One error for each element of related_states that is not a valid
      state id, in element order. */
  function RelatedItemsErrors(items: seq<Json>): (r: seq<string>)
    decreases |items|
  {
    if items == [] then []
    else RelatedItemsErrors(items[..|items| - 1]) + RelatedItemErrors(items[|items| - 1])
  }

  function RelatedValueErrors(v: Json): seq<string>
  {
    if !v.JArr? then ["related_states must be an array, got " + TypeName(v)]
    else RelatedItemsErrors(v.items)
  }

  /** An optional field: checked only when the key is present. */
  function OptionalErrors(state: Json, key: string, check: Json -> seq<string>): Outcome<seq<string>>
  {
    var has :- Contains(state, key);
    if !has then Ok([])
    else
      var v :- GetItem(state, key);
      Ok(check(v))
  }

  function VersionErrors(state: Json): Outcome<seq<string>>
  {
    var has :- Contains(state, "version");
    if !has then Ok([])
    else
      var version :- StringField(state, "version");
      Ok(Reported(ValidateVersion(version)))
  }

  /** The checks of the five required fields, each run whatever the
      others found (validation.py:191-213). */
  function RequiredValueErrors(state: Json): Outcome<seq<string>>
  {
    var ids :- StateIdErrors(state);
    var timestamps :- TimestampErrors(state);
    var dois :- DoiErrors(state);
    var statuses :- StatusErrors(state);
    var metadata :- MetadataErrors(state);
    Ok(ids + timestamps + dois + statuses + metadata)
  }

  /** The checks of the optional fields present (validation.py:215-243). */
  function OptionalValueErrors(state: Json): Outcome<seq<string>>
  {
    var descriptions :- OptionalErrors(state, "description", DescriptionValueErrors);
    var tags :- OptionalErrors(state, "tags", TagsValueErrors);
    var related :- OptionalErrors(state, "related_states", RelatedValueErrors);
    var versions :- VersionErrors(state);
    Ok(descriptions + tags + related + versions)
  }

  /** The errors `validate_epistemic_state` returns: only the missing-field
      errors when a required field is absent; otherwise every check's errors,
      in the order the checks are written. */
  function StateErrors(state: Json): Outcome<seq<string>>
  {
    var absent :- AbsentFields(state, StateRequiredFields);
    if absent != [] then Ok(MissingFieldMsgs(absent))
    else
      var required :- RequiredValueErrors(state);
      var optional :- OptionalValueErrors(state);
      Ok(required + optional)
  }

  /** `(len(errors) == 0, errors)`. */
  function WithValidity(o: Outcome<seq<string>>): Outcome<(bool, seq<string>)>
  {
    match o
    case Ok(errors) => Ok((errors == [], errors))
    case Raise(e) => Raise(e)
  }

  // ---------------------------------------------------------------------
  // validate_epistemic_state (validation.py:168-245), as the code runs it

  /** The loop `for field in required: if field not in container: errors.append(...)`. */
  method CollectMissing(container: Json, fields: seq<string>, prefix: string) returns (r: Outcome<seq<string>>)
    ensures AbsentFields(container, fields).Raise? ==> r == Raise(AbsentFields(container, fields).error)
    ensures AbsentFields(container, fields).Ok? ==> r == Ok(WithPrefix(prefix, AbsentFields(container, fields).value))
  {
    var errors: seq<string> := [];
    var k := 0;
    while k < |fields|
      invariant 0 <= k <= |fields|
      invariant AbsentFields(container, fields[..k]).Ok?
      invariant errors == WithPrefix(prefix, AbsentFields(container, fields[..k]).value)
    {
      var present := Contains(container, fields[k]);
      assert fields[..k + 1][..k] == fields[..k];
      if present.Raise? {
        return Raise(present.error);
      }
      if !present.value {
        errors := errors + [prefix + fields[k]];
      }
      k := k + 1;
    }
    assert fields[..k] == fields;
    return Ok(errors);
  }

  /** The loop over the elements of related_states. */
  method CheckRelatedStates(items: seq<Json>) returns (errors: seq<string>)
    ensures errors == RelatedItemsErrors(items)
  {
    errors := [];
    var i := 0;
    while i < |items|
      invariant 0 <= i <= |items|
      invariant errors == RelatedItemsErrors(items[..i])
    {
      assert items[..i + 1][..i] == items[..i];
      if !items[i].JStr? {
        errors := errors + ["related_states must contain strings, got " + TypeName(items[i])];
      } else {
        var v := ValidateStateId(items[i].s);
        if !v.0 {
          errors := errors + ["Invalid related state ID: " + v.1.value];
        }
      }
      i := i + 1;
    }
    assert items[..i] == items;
  }

  method CheckOptionalValues(state: Json) returns (r: Outcome<seq<string>>)
    ensures r == OptionalValueErrors(state)
  {
    var descriptions :- OptionalErrors(state, "description", DescriptionValueErrors);
    var tags :- OptionalErrors(state, "tags", TagsValueErrors);
    var related: seq<string> := [];
    // The `in` test on "description" succeeded, so this one cannot raise.
    assert state.JObj? || state.JArr? || state.JStr?;
    var hasRelated := Contains(state, "related_states").value;
    if hasRelated {
      var value :- GetItem(state, "related_states");
      if !value.JArr? {
        related := ["related_states must be an array, got " + TypeName(value)];
      } else {
        related := CheckRelatedStates(value.items);
      }
      assert related == RelatedValueErrors(value);
    }
    assert OptionalErrors(state, "related_states", RelatedValueErrors) == Ok(related);
    var versions :- VersionErrors(state);
    return Ok(descriptions + tags + related + versions);
  }

  /** `validate_epistemic_state`, building the error list as the source does. */
  method ValidateEpistemicState(state: Json) returns (r: Outcome<(bool, seq<string>)>)
    ensures r == WithValidity(StateErrors(state))
  {
    var missing := CollectMissing(state, StateRequiredFields, "Missing required field: ");
    if missing.Raise? {
      return Raise(missing.error);
    }
    if missing.value != [] {
      return Ok((false, missing.value));
    }
    var required := RequiredValueErrors(state);
    if required.Raise? {
      return Raise(required.error);
    }
    var optional := CheckOptionalValues(state);
    if optional.Raise? {
      return Raise(optional.error);
    }
    var errors := required.value + optional.value;
    return Ok((|errors| == 0, errors));
  }

  // ---------------------------------------------------------------------
  // validate_registry (validation.py:248-288)

  const RegistryRequiredFields := ["registry_version", "system", "created", "states"]

  function DuplicateMsg(id: Json): string { "Duplicate state_id: " + PyStr(id) }

  function EntryPrefix(i: nat): string { "State " + NatToString(i) + ": " }

  /** What one inline state adds: the errors `check` finds in it, prefixed
      with its index, then a duplicate error when its id is already in the
      set of ids seen (Python's set: `True` and `1` are one member; a list or
      dict id cannot be hashed). The registry passes `StateErrors` as
      `check`; the scan's properties hold whatever the check is. */
  function InlineStateReport(i: nat, state: Json, seen: set<Json>, check: Json -> Outcome<seq<string>>)
    : (r: Outcome<(seq<string>, set<Json>)>)
    ensures check(state).Raise? ==> r == Raise(check(state).error)
    ensures r.Ok? ==> check(state).Ok? && |check(state).value| <= |r.value.0| <= |check(state).value| + 1
    ensures r.Ok? ==> seen <= r.value.1 && |r.value.1| <= |seen| + 1
  {
    var errs :- check(state);
    var prefixed := WithPrefix(EntryPrefix(i), errs);
    var hasId :- Contains(state, "state_id");
    if !hasId then Ok((prefixed, seen))
    else
      var id :- GetItem(state, "state_id");
      if !Hashable(id) then Raise(TypeError)
      else Ok((prefixed + (if HashKey(id) in seen then [DuplicateMsg(id)] else []), seen + {HashKey(id)}))
  }

  /** The errors and the id set after the first n inline states: each
      state adds at most one id to the set. */
  function ScanStates(states: seq<Json>, n: nat, check: Json -> Outcome<seq<string>>)
    : (r: Outcome<(seq<string>, set<Json>)>)
    requires n <= |states|
    ensures r.Ok? ==> |r.value.1| <= n
  {
    if n == 0 then Ok(([], {}))
    else
      var before :- ScanStates(states, n - 1, check);
      var entry :- InlineStateReport(n - 1, states[n - 1], before.1, check);
      Ok((before.0 + entry.0, entry.1))
  }

  /** Once an inline state raises, the whole scan raises the same error. */
  lemma {:induction false} ScanStatesRaisePersists(states: seq<Json>, i: nat, n: nat, check: Json -> Outcome<seq<string>>)
    requires i <= n <= |states|
    requires ScanStates(states, i, check).Raise?
    ensures ScanStates(states, n, check) == Raise(ScanStates(states, i, check).error)
    decreases n
  {
    if n > i {
      ScanStatesRaisePersists(states, i, n - 1, check);
    }
  }

  /** The errors `validate_registry` returns: the missing top-level fields
      (early return), a non-list `states` (one error, early return), or the
      per-state errors and duplicates. */
  function RegistryErrors(registry: Dict): Outcome<seq<string>>
  {
    var absent :- AbsentFields(JObj(registry), RegistryRequiredFields);
    if absent != [] then Ok(WithPrefix("Missing required registry field: ", absent))
    else
      var states :- GetItem(JObj(registry), "states");
      if !states.JArr? then Ok(["states must be an array, got " + TypeName(states)])
      else
        var scan :- ScanStates(states.items, |states.items|, StateErrors);
        Ok(scan.0)
  }

  /** One pass of the loop over the inline states. */
  method CheckInlineState(i: nat, state: Json, seen: set<Json>) returns (r: Outcome<(seq<string>, set<Json>)>)
    ensures r == InlineStateReport(i, state, seen, StateErrors)
  {
    var checked :- ValidateEpistemicState(state);
    var (isValid, stateErrors) := checked;
    assert StateErrors(state) == Ok(stateErrors) && (isValid <==> stateErrors == []);
    var errors: seq<string> := [];
    if !isValid {
      var j := 0;
      while j < |stateErrors|
        invariant 0 <= j <= |stateErrors|
        invariant errors == WithPrefix(EntryPrefix(i), stateErrors[..j])
      {
        errors := errors + [EntryPrefix(i) + stateErrors[j]];
        j := j + 1;
      }
      assert stateErrors[..j] == stateErrors;
    }
    assert errors == WithPrefix(EntryPrefix(i), stateErrors);
    var hasId :- Contains(state, "state_id");
    if !hasId {
      return Ok((errors, seen));
    }
    var id :- GetItem(state, "state_id");
    if !Hashable(id) {
      return Raise(TypeError);
    }
    if HashKey(id) in seen {
      errors := errors + [DuplicateMsg(id)];
    } else {
      assert errors + [] == errors;
    }
    return Ok((errors, seen + {HashKey(id)}));
  }

  method ValidateRegistry(registry: Dict) returns (r: Outcome<(bool, seq<string>)>)
    ensures r == WithValidity(RegistryErrors(registry))
  {
    var missing := CollectMissing(JObj(registry), RegistryRequiredFields, "Missing required registry field: ");
    if missing.Raise? || missing.value != [] {
      return WithValidity(missing);
    }
    var states := GetItem(JObj(registry), "states");
    if states.Raise? {
      return Raise(states.error);
    }
    if !states.value.JArr? {
      return Ok((false, ["states must be an array, got " + TypeName(states.value)]));
    }
    var items := states.value.items;
    var errors: seq<string> := [];
    var seen: set<Json> := {};
    var i := 0;
    while i < |items|
      invariant 0 <= i <= |items|
      invariant ScanStates(items, i, StateErrors) == Ok((errors, seen))
    {
      var entry := CheckInlineState(i, items[i], seen);
      if entry.Raise? {
        ScanStatesRaisePersists(items, i + 1, |items|, StateErrors);
        return Raise(entry.error);
      }
      errors := errors + entry.value.0;
      seen := entry.value.1;
      i := i + 1;
    }
    return Ok((|errors| == 0, errors));
  }

  // ---------------------------------------------------------------------
  // get_state_by_id (validation.py:291-305)

  /** `state.get("state_id") == state_id` for a dict entry. */
  predicate HasStateId(state: Json, stateId: string)
    requires state.JObj?
  {
    Lookup(state.fields, "state_id") == Some(JStr(stateId))
  }

  /** The loop over a list of states: `.get` on an element that is not a
      dict raises AttributeError, so the search stops at the first match or
      the first non-dict. */
  function FirstWithId(states: seq<Json>, stateId: string): Outcome<Option<Json>>
  {
    if states == [] then Ok(None)
    else if !states[0].JObj? then Raise(AttributeError)
    else if HasStateId(states[0], stateId) then Ok(Some(states[0]))
    else FirstWithId(states[1..], stateId)
  }

  /** Every entry before position n is a dict without the id. */
  predicate PassedOver(states: seq<Json>, stateId: string, n: nat)
    requires n <= |states|
  {
    forall j | 0 <= j < n :: states[j].JObj? && !HasStateId(states[j], stateId)
  }

  /** The search returns the first entry with the id, None when every entry
      is a dict without it, and raises exactly when a non-dict comes before
      any match. */
  lemma {:induction false} FirstWithIdIsFirstMatch(states: seq<Json>, stateId: string)
    ensures FirstWithId(states, stateId) == Ok(None) <==> PassedOver(states, stateId, |states|)
    ensures FirstWithId(states, stateId).Ok? && FirstWithId(states, stateId).value.Some? ==>
              exists k | 0 <= k < |states| :: states[k] == FirstWithId(states, stateId).value.value
                && states[k].JObj? && HasStateId(states[k], stateId) && PassedOver(states, stateId, k)
    ensures FirstWithId(states, stateId).Raise? ==>
              FirstWithId(states, stateId).error == AttributeError
              && exists k | 0 <= k < |states| :: !states[k].JObj? && PassedOver(states, stateId, k)
  {
    if states != [] && states[0].JObj? && !HasStateId(states[0], stateId) {
      var tail := states[1..];
      FirstWithIdIsFirstMatch(tail, stateId);
      assert forall k | 0 <= k < |tail| :: tail[k] == states[k + 1];
      var r := FirstWithId(tail, stateId);
      assert PassedOver(states, stateId, |states|) <==> PassedOver(tail, stateId, |tail|);
      if r.Ok? && r.value.Some? {
        var k :| 0 <= k < |tail| && tail[k] == r.value.value
          && tail[k].JObj? && HasStateId(tail[k], stateId) && PassedOver(tail, stateId, k);
        assert states[k + 1] == r.value.value && PassedOver(states, stateId, k + 1);
      }
      if r.Raise? {
        var k :| 0 <= k < |tail| && !tail[k].JObj? && PassedOver(tail, stateId, k);
        assert !states[k + 1].JObj? && PassedOver(states, stateId, k + 1);
      }
    } else if states != [] {
      assert PassedOver(states, stateId, 0);
    }
  }

  /** `get_state_by_id`: iterates `registry.get("states", [])`. Iterating a
      dict or a str yields str items, whose `.get` raises AttributeError; a
      number, bool or None cannot be iterated. */
  function GetStateById(registry: Dict, stateId: string): (r: Outcome<Option<Json>>)
    ensures !HasKey(registry, "states") ==> r == Ok(None)
    ensures r.Ok? && r.value.Some? ==>
              Field(registry, "states").JArr? && r.value.value in Field(registry, "states").items
              && r.value.value.JObj? && HasStateId(r.value.value, stateId)
    ensures r.Raise? ==> HasKey(registry, "states")
  {
    match GetOr(registry, "states", JArr([]))
    case JArr(items) => FirstWithIdIsFirstMatch(items, stateId); FirstWithId(items, stateId)
    case JObj(d) => if d == [] then Ok(None) else Raise(AttributeError)
    case JStr(s) => if s == [] then Ok(None) else Raise(AttributeError)
    case _ => Raise(TypeError)
  }
}
