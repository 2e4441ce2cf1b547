# TRIZEL epistemic engine: the rule-checking core in Dafny

This project models the rule-checking layer of the TRIZEL epistemic engine
and proves properties of it. It covers five parts of the repository:

- **Field validators.** `state_id`, `timestamp`, DOI, `epistemic_status` and `version`.
- **Record and registry validators** of `src/validation.py`. A state record returns early when required fields are missing. Otherwise every failing check adds its error. An inline registry reports per-state errors and duplicate ids.
- **Registry-of-files checks** of `src/epistemic/registry.py`:
  - the structural guard of `load_registry`;
  - the per-entry checks;
  - duplicate ids;
  - the active filter and the lookup by id.
- **The batch run** of `src/epistemic/validate_states.py`. It renders schema errors as `path: message`, branches on load failures, and counts valid and invalid states into an errors map.
- **The schema-error post-processing** of `src/phase4`:
  - `/`-pointer paths;
  - sorting by (path components, message) and by (pointer, message);
  - the numbered `ValueError` text of `validate_or_raise`;
  - the lines of the directive linter.
- **The output-path guard** of `analysis/pipelines/run_analysis.py`, over POSIX path parsing.

JSON values are a datatype with ordered dicts. A Python call either returns or raises (`Outcome`). The dynamic behaviour the code relies on is written out:

- `in` on dicts, lists and strings;
- indexing a non-dict;
- `True == 1` as set members and dict keys;
- `str()` and `repr()`;
- the trailing-newline reading of `$` in `re.match`.

The following are parameters:

- file reading (an oracle from paths to loaded values);
- file existence;
- whether `jsonschema` is installed;
- the JSON Schema engine (a function from instance and schema to the errors it yields).

Loops that build a list or counters are methods with invariants, proved equal to a specification function. The properties are proved about those functions.

Modules, one per file:

- `Text`, `PyValues` and `Sorting`: the shared base.
- `FieldPatterns`, `Validation` and `ValidationProperties`: `src/validation.py`.
- `Registry` and `RegistryProperties`: `src/epistemic/registry.py`.
- `SchemaErrors`: the engine's error records and Python's order on their paths.
- `StateBatch` and `StateBatchProperties`: `src/epistemic/validate_states.py`.
- `IssueReport` and `IssueReportProperties`: `src/phase4/validate/validate_json.py`.
- `DirectiveLint` and `DirectiveLintProperties`: `src/phase4/validate/lint_directive.py`.
- `PosixPath`: `pathlib`'s POSIX parsing, `str()`, `parent` and `/`, used by `registry.py`, `validate_states.py` and `run_analysis.py`.
- `OutputGuard` and `OutputGuardProperties`: `analysis/pipelines/run_analysis.py`.

## Model

| member | source | states |
|---|---|---|
| Text.NatToString | src/validation.py:280 | `str(n)` is a digit run denoting n, with no leading zero |
| Text.Pad2 | src/phase4/validate/validate_json.py:51 | `{i:02d}` is a digit run denoting i, and is two characters exactly when i < 100 |
| Text.SplitJoin | src/epistemic/validate_states.py:43 | splitting a join on a separator no part holds gives the parts back |
| Text.SplitAppend | analysis/pipelines/run_analysis.py:9 | splitting at a separator splits the two sides independently |
| Text.SplitPiecesLackSep | analysis/pipelines/run_analysis.py:9 | no piece of a split holds the separator |
| Text.StrLeTotal | src/phase4/validate/validate_json.py:37 | any two strings are ordered one way or the other under Python's `<=` |
| Text.StrLeAntisymmetric | src/phase4/validate/validate_json.py:37 | two strings each `<=` the other are equal |
| Text.StrLeTransitive | src/phase4/validate/validate_json.py:37 | `str` ordering is transitive |
| PyValues.Lookup | src/epistemic/registry.py:120 | `d.get(key)` is present exactly when the dict holds the key, and is the value stored under it |
| FieldPatterns.StateIdMatchIsLanguage | src/validation.py:83-84 | `re.match('^[a-z0-9_]+_[0-9]{3,}$', s)` succeeds exactly for strings of the language, optionally followed by one newline |
| FieldPatterns.DoiMatchIsLanguage | src/validation.py:126-127 | the DOI pattern matches exactly `10.` + at least 4 digits + `.digits` groups + `/` + non-whitespace, optionally followed by one newline |
| FieldPatterns.VersionMatchIsLanguage | src/validation.py:162-163 | the version pattern matches exactly `digits.digits.digits`, optionally followed by one newline |
| FieldPatterns.StateIdBodyIsLanguage | src/validation.py:83 | the scanning check for the state_id regex agrees with the regex language |
| FieldPatterns.DotGroupsIsLanguage | src/validation.py:126 | the check for the `(\.[0-9]+)*` part agrees with its language |
| FieldPatterns.DoiBodyIsLanguage | src/validation.py:126 | the scanning DOI check agrees with the DOI language |
| FieldPatterns.VersionBodyIsLanguage | src/validation.py:162 | the scanning version check agrees with the version language |
| FieldPatterns.FormatTimestampRoundTrip | src/validation.py:101 | formatting a date-time as `YYYY-MM-DDTHH:MM:SSZ` gives the shape, and parsing it back gives the same fields |
| FieldPatterns.TimestampIsFormatted | src/validation.py:101 | every string of the timestamp shape is the formatting of its own fields |
| Validation.ValidateStateId | src/validation.py:71-86 | valid exactly when the id is in the state_id language (or that plus one newline); `(True, None)` or `(False, message)` with the pattern in the message |
| Validation.StrptimeError | src/validation.py:106-109 | strptime fails exactly when the string is not the exact shape or its fields are not a real date-time |
| Validation.ValidateTimestamp | src/validation.py:89-111 | valid exactly when the shape matches with no trailing newline and the fields form a real date-time; a shape failure and a strptime failure give their two messages |
| Validation.ValidateDoi | src/validation.py:114-129 | valid exactly when the DOI is in the DOI language (or that plus one newline), else the DOI message |
| Validation.ValidateEpistemicStatus | src/validation.py:132-147 | valid exactly when the status is one of competing, consensus, rejected, preliminary |
| Validation.ValidateVersion | src/validation.py:150-165 | valid exactly when the version is in the version language (or that plus one newline) |
| Validation.AbsentFields | src/validation.py:183-185 | the fields reported are exactly the listed fields that `in` does not find; `in` on a non-container raises TypeError |
| Validation.DescriptionValueErrors | src/validation.py:216-220 | at most one error, and none exactly for a string of at most 1000 characters |
| Validation.TagsValueErrors | src/validation.py:222-226 | at most one error, and none exactly for a list of strings |
| Validation.RelatedItemErrors | src/validation.py:232-238 | one error for a bad related id, none for a string in the state_id language |
| Validation.CollectMissing | src/validation.py:183-185 | the loop appends one prefixed message per absent field, in order, or raises as `in` does |
| Validation.CheckRelatedStates | src/validation.py:232-238 | the loop's errors are those of the specification over all items |
| Validation.CheckOptionalValues | src/validation.py:215-243 | the optional-field checks give the specified errors, in order |
| Validation.ValidateEpistemicState | src/validation.py:168-245 | the result is the state's error list and validity is its emptiness |
| Validation.ScanStatesRaisePersists | src/validation.py:276-286 | once a state's check raises, the whole registry validation raises the same error |
| Validation.CheckInlineState | src/validation.py:277-286 | one loop iteration adds the prefixed state errors, one duplicate error for an id already seen, and the id to the set |
| Validation.ValidateRegistry | src/validation.py:248-288 | the loop's errors and validity equal those of the registry specification |
| Validation.FirstWithIdIsFirstMatch | src/validation.py:302-305 | `get_state_by_id` returns None exactly when every state is passed over, else the first match; it raises when an earlier element is not a dict |
| ValidationProperties.StateIdAcceptsShortest | src/validation.py:83-86 | `a_000` passes |
| ValidationProperties.StateIdAcceptsSample | src/validation.py:83-86 | `3i_atlas_001` passes, and so does it with a trailing newline |
| ValidationProperties.StateIdRejectsShortNumber | src/validation.py:83-86 | `3i_atlas_01` fails: the number needs three digits |
| ValidationProperties.StateIdRejectsHyphens | src/validation.py:83-86 | `3i-atlas-001` fails: the parts must be joined by underscores |
| ValidationProperties.StateIdRejectsUpperCase | src/validation.py:83-86 | `3I_ATLAS_001` fails |
| ValidationProperties.DoiAccepts | src/validation.py:126-129 | `10.5281/zenodo.1234567` passes |
| ValidationProperties.DoiAcceptsDotGroups | src/validation.py:126-129 | `10.1234.5.67/x` passes |
| ValidationProperties.DoiRejectsShortRegistrant | src/validation.py:126-129 | `10.123/suffix` fails |
| ValidationProperties.DoiRejectsMissingSuffix | src/validation.py:126-129 | `10.5281`, with no `/suffix`, fails |
| ValidationProperties.DoiRejectsPrefix | src/validation.py:126-129 | `doi:10.5281/zenodo.1` fails |
| ValidationProperties.DoiStartsWithOne | src/validation.py:126-129 | every non-empty string whose first character is not `1` fails the DOI check |
| ValidationProperties.DoiRejectsWhitespace | src/validation.py:126-129 | a suffix holding a space fails |
| ValidationProperties.VersionAccepts | src/validation.py:162-165 | `1.0.0` and `10.20.300` pass, and so does `1.0.0` with a newline |
| ValidationProperties.VersionRejects | src/validation.py:162-165 | `1.0` and `v1.0.0` fail |
| ValidationProperties.TimestampByCharacters | src/validation.py:101 | a 20-character string with digits and separators in place has the shape, and its fields are the digit groups |
| ValidationProperties.TimestampAccepts | src/validation.py:101-111 | `2025-01-15T12:30:00Z` passes |
| ValidationProperties.TimestampAcceptsLeapDay | src/validation.py:106-111 | 29 February of a leap year passes |
| ValidationProperties.TimestampRejectsNonLeapDay | src/validation.py:106-109 | 29 February 2023 fails with strptime's day-out-of-range message |
| ValidationProperties.TimestampRejectsMonth13 | src/validation.py:106-109 | month 13 matches the regex but fails strptime |
| ValidationProperties.TimestampRejectsDay32 | src/validation.py:106-109 | day 32 fails |
| ValidationProperties.TimestampRejectsHour25 | src/validation.py:106-109 | hour 25 fails |
| ValidationProperties.TimestampRejectsSecond60 | src/validation.py:106-109 | second 60 fails with strptime's message |
| ValidationProperties.TimestampRejectsYear0 | src/validation.py:106-109 | year 0 fails with strptime's message |
| ValidationProperties.TimestampRejectsTrailingNewline | src/validation.py:102-109 | a trailing newline passes the regex but strptime rejects the leftover |
| ValidationProperties.NewlineLeftOver | src/validation.py:102-109 | for every parseable timestamp, the timestamp plus a newline matches the regex and strptime reports the unconverted newline |
| ValidationProperties.TimestampRejectsShape | src/validation.py:102-103 | a space instead of `T` fails the regex |
| ValidationProperties.ValidTimestampIsCanonical | src/validation.py:101-111 | an accepted timestamp has the exact shape, a real date-time, and is the formatting of its fields |
| ValidationProperties.FormattedInstantIsValid | src/validation.py:101-111 | every real date-time with a 4-digit year, formatted, is accepted |
| ValidationProperties.SomeRequiredAbsent | src/validation.py:182-185 | when not all required fields are present, some required field is absent |
| ValidationProperties.AbsentFieldsInOrder | src/validation.py:183-185 | missing-field messages follow the declared field order |
| ValidationProperties.MissingFieldsReturnEarly | src/validation.py:182-189 | with a required field missing, the errors are exactly one "Missing required field" per missing field, with no repeats, and nothing else |
| ValidationProperties.AbsentFieldsDependOnKeys | src/validation.py:183-185 | which fields are reported missing depends only on which keys the dict holds |
| ValidationProperties.MissingFieldsIgnoreValues | src/validation.py:187-189 | with a field missing, the result depends on no field's value |
| ValidationProperties.NoneAbsent | src/validation.py:183-185 | when every field is found, none is reported |
| ValidationProperties.AllPresentNoneAbsent | src/validation.py:183-189 | with all required fields present, the early return is not taken |
| ValidationProperties.RelatedItemsErrorsEmpty | src/validation.py:232-238 | the related ids give no error exactly when each is a valid state_id string |
| ValidationProperties.StateIdErrorsEmpty | src/validation.py:191-194 | the state_id check adds no error exactly when it is a string in the language |
| ValidationProperties.TimestampErrorsEmpty | src/validation.py:196-199 | the timestamp check adds no error exactly when it is a valid timestamp string |
| ValidationProperties.DoiErrorsEmpty | src/validation.py:201-204 | the DOI check adds no error exactly when it is a valid DOI string |
| ValidationProperties.StatusErrorsEmpty | src/validation.py:206-209 | the status check adds no error exactly when the status is an allowed string |
| ValidationProperties.RequiredValueErrorsEmpty | src/validation.py:191-213 | the required-value checks add no error exactly when every required value is valid |
| ValidationProperties.TagsErrorsEmpty | src/validation.py:222-226 | tags add no error exactly when absent or a list of strings |
| ValidationProperties.RelatedErrorsEmpty | src/validation.py:228-238 | related_states add no error exactly when absent or a list of valid ids |
| ValidationProperties.OptionalValueErrorsEmpty | src/validation.py:215-243 | the optional checks add no error exactly when every present optional value is valid |
| ValidationProperties.StateValidIff | src/validation.py:168-245 | a state is reported valid exactly when all required fields are present and every required and optional value is valid |
| ValidationProperties.CompleteStateReportsEveryFailure | src/validation.py:191-204 | with all fields present, the state_id, timestamp and DOI values are strings, and their errors open the list in that order; a failing check does not stop the later ones |
| ValidationProperties.StatusReported | src/validation.py:206-209 | with all fields present, a status string outside the allowed set puts its "not in allowed values" message in the list |
| ValidationProperties.StatusRejected | src/validation.py:143-146 | every string outside the allowed set is rejected with the "not in allowed values" message |
| ValidationProperties.MetadataReported | src/validation.py:211-213 | with all fields present, a metadata value that is not a dict puts "metadata must be a dictionary, got <type>" in the list |
| ValidationProperties.MetadataErrorsEmpty | src/validation.py:211-213 | the metadata check adds no error exactly when the value is a dict |
| ValidationProperties.DescriptionErrorsEmpty | src/validation.py:216-220 | the description check adds no error exactly when the field is absent or is a string of at most 1000 characters |
| ValidationProperties.VersionErrorsEmpty | src/validation.py:240-243 | the version check adds no error exactly when the field is absent or is a string that passes the version pattern |
| ValidationProperties.DescriptionBoundary | src/validation.py:219-220 | 1000 characters pass and 1001 fail with the length message |
| ValidationProperties.RelatedErrorsOnePerBadElement | src/validation.py:232-238 | there is one related_states error per bad element |
| ValidationProperties.RegistryMissingReturnsEarly | src/validation.py:261-267 | a missing registry key returns only missing-key errors |
| ValidationProperties.RegistryStatesNotList | src/validation.py:269-272 | a non-list `states` gives exactly one error |
| ValidationProperties.CountDuplicateMsgsAppend | src/validation.py:285 | duplicate messages count additively over concatenation |
| ValidationProperties.PrefixedAreNotDuplicates | src/validation.py:280 | `State i: ` messages are never counted as duplicates |
| ValidationProperties.InlineReportId | src/validation.py:283-286 | one step adds the state's id to the seen set, if it has one |
| ValidationProperties.ScanStatesSeen | src/validation.py:275-286 | after n states, the seen set holds the ids of the first n |
| ValidationProperties.KeysBeforeStep | src/validation.py:286 | the ids of n+1 states are those of n plus the last one's |
| ValidationProperties.InlineDuplicateCount | src/validation.py:283-285 | one step adds one duplicate error exactly when its id was seen earlier |
| ValidationProperties.RepeatsStep | src/validation.py:283-285 | the repeat positions grow by at most the last position |
| ValidationProperties.ScanStatesDuplicates | src/validation.py:274-286 | the number of "Duplicate state_id" errors equals the number of repeat occurrences |
| ValidationProperties.ScanStatesClean | src/validation.py:274-288 | the registry scan has no error exactly when every state is valid and no id repeats |
| Validation.InlineStateReport | src/validation.py:277-286 | a raising check propagates its error; otherwise the check's errors plus at most one duplicate error, and the seen set grows by at most one id |
| Validation.ScanStates | src/validation.py:274-286 | after n states the seen set holds at most n ids |
| Validation.GetStateById | src/validation.py:302-305 | no `states` key gives None; a found state is a dict in the `states` list carrying the id; a raise needs a `states` key |
| ValidationProperties.GetStateByIdFindsFirst | src/validation.py:302-305 | when the first matching dict is at k and earlier ones pass over, that one is returned |
| ValidationProperties.FirstWithIdFinds | src/validation.py:302-305 | the search returns the entry at the first matching position |
| ValidationProperties.GetStateByIdWithoutStates | src/validation.py:302 | with no `states` key, the result is None |
| Registry.LoadRegistry | src/epistemic/registry.py:14-38 | an accepted registry is the loaded value unchanged, a dict with a `states` list |
| Registry.IdErrors | src/epistemic/registry.py:80-86 | a missing id gives one error; otherwise one "Duplicate state_id" error exactly when an equal id was met, and the id is recorded |
| Registry.FilePathErrors | src/epistemic/registry.py:88-89 | an error exactly when `file_path` is absent |
| Registry.ActiveErrors | src/epistemic/registry.py:91-94 | no error exactly for a bool; a missing and a non-bool `active` give their two messages |
| Registry.ExistenceErrors | src/epistemic/registry.py:96-100 | checked only with a `file_path`; "State file not found" exactly when the joined path does not exist; a non-str path raises TypeError |
| Registry.ScanEntriesRaisePersists | src/epistemic/registry.py:74-100 | once an entry raises, the whole validation raises |
| Registry.CheckEntry | src/epistemic/registry.py:75-100 | one loop iteration gives the entry's specified errors and ids |
| Registry.CheckEntries | src/epistemic/registry.py:73-100 | the loop gives the errors and ids of the specification |
| Registry.ValidateRegistryFile | src/epistemic/registry.py:41-102 | `validate_registry` gives the errors of the specification, load failures included; a missing file is named as `str(Path(registry_path))` spells it |
| Registry.EntryReport | src/epistemic/registry.py:75-100 | one entry raises exactly when its `file_path` is present and not a str; a non-dict gives one error and no id; at most four errors, and the ids list grows by at most one |
| Registry.ScanEntries | src/epistemic/registry.py:73-100 | the scan raises exactly when one of the entries has an unjoinable `file_path`; otherwise at most four errors and one id per entry |
| Registry.ActiveIn | src/epistemic/registry.py:118-121 | the active filter keeps only active states from the input, never more than it |
| Registry.GetActiveStates | src/epistemic/registry.py:115-121 | raises exactly when `states` is present and cannot be iterated; every returned state is an active member of the `states` list |
| Registry.FirstCarrying | src/epistemic/registry.py:138-142 | a found entry is in the list and carries the id; None exactly when no entry carries it |
| Registry.FindStateById | src/epistemic/registry.py:135-142 | raises exactly when `states` cannot be iterated; a found entry is a member of the `states` list carrying the id; over a list, None exactly when no entry carries it |
| RegistryProperties.LoadRegistryAccepts | src/epistemic/registry.py:32-38 | a parsed registry is returned unchanged exactly when it is a dict with a `states` list |
| RegistryProperties.LoadRegistryRejects | src/epistemic/registry.py:29-36 | a missing file raises FileNotFoundError naming `str(Path(registry_path))`; a missing `states` and a non-list `states` raise their two ValueErrors naming the path as given |
| RegistryProperties.MissingRegistrySpelling | src/epistemic/registry.py:52-57 | the missing-registry message depends only on the parsed parts of the path, not on its spelling |
| RegistryProperties.RootNotAName | src/epistemic/registry.py:52 | two paths with the same parts have the same root, since a root is never a component |
| RegistryProperties.MissingRegistryNormalised | src/epistemic/registry.py:52-57 | the missing-registry message names `.` for `""` and `b` for `./b` |
| RegistryProperties.MissingRegistrySeparators | src/epistemic/registry.py:52-57 | the missing-registry message names `a/b` for both `a//b` and `a/b/` |
| RegistryProperties.MissingRegistryText | src/epistemic/registry.py:56-57 | a missing registry gives the single message naming `str(Path(registry_path))` |
| RegistryProperties.MissingOfAppend | src/epistemic/registry.py:63-65 | missing fields of a concatenation are those of each part |
| RegistryProperties.AbsentFieldsAreMissing | src/epistemic/registry.py:63-65 | `in` over a dict reports exactly the missing keys, in order |
| RegistryProperties.RegistryWithoutStates | src/epistemic/registry.py:62-70 | without `states`, the errors are the missing-field messages only, including one for `states` |
| RegistryProperties.RegistryStatesNotArray | src/epistemic/registry.py:68-70 | a non-list `states` adds exactly "Field 'states' must be an array", and no entry is checked |
| RegistryProperties.RegistryChecksEntriesDespiteMissing | src/epistemic/registry.py:62-100 | missing `registry_version` or `last_updated` does not stop the entry checks |
| RegistryProperties.NonObjectEntrySkipped | src/epistemic/registry.py:75-77 | a non-dict entry adds exactly one error and no id |
| RegistryProperties.ActiveMessagesDiffer | src/epistemic/registry.py:91-94 | the missing and the non-bool `active` errors are distinct |
| RegistryProperties.ScanEntriesIds | src/epistemic/registry.py:73-86 | the ids list after n entries is the ids of the dict entries among them |
| RegistryProperties.NoDuplicateMsgs | src/epistemic/registry.py:76-100 | messages starting with `S` are not duplicate messages |
| RegistryProperties.EntryMsgStartsWithS | src/epistemic/registry.py:76 | every `State entry i ...` message starts with `S`, so none is counted as a duplicate-id message |
| RegistryProperties.DictEntryDuplicateCount | src/epistemic/registry.py:80-100 | a dict entry contributes one duplicate error exactly when its id was met |
| RegistryProperties.RepeatPositionsLast | src/epistemic/registry.py:84 | entry j repeats exactly when its id equals an earlier entry's id |
| RegistryProperties.EntryDuplicateCount | src/epistemic/registry.py:75-100 | each entry contributes one duplicate error exactly when it is a repeat |
| RegistryProperties.ScanEntriesDuplicates | src/epistemic/registry.py:73-86 | every repeat occurrence of an id adds exactly one "Duplicate state_id" error |
| RegistryProperties.ActiveInMembers | src/epistemic/registry.py:118-121 | an entry is returned exactly when it is in the list and active |
| RegistryProperties.ActiveInAppend | src/epistemic/registry.py:118-121 | the filter keeps the original order |
| RegistryProperties.ActiveNeedsTruthyFlag | src/epistemic/registry.py:120 | `active` defaults to False; otherwise truthiness decides |
| RegistryProperties.CarriesMeansStringId | src/epistemic/registry.py:139 | an entry matches exactly when it is a dict whose `state_id` equals the string |
| RegistryProperties.FirstCarryingIsFirst | src/epistemic/registry.py:135-142 | the lookup returns the first matching entry, or None when none matches |
| RegistryProperties.LookupsAgreeOnDicts | src/epistemic/registry.py:138-142 | on lists of dicts, the two `get_state_by_id` functions agree |
| RegistryProperties.GetActiveStatesSelects | src/epistemic/registry.py:115-121 | without `states` the result is `[]`; over a list, an entry is returned exactly when it is in the list and active; a `states` value that cannot be iterated raises |
| RegistryProperties.FindStateByIdIsFirst | src/epistemic/registry.py:135-142 | without `states` the result is None; over a list, None exactly when no dict entry carries the id, otherwise the first entry that does |
| SchemaErrors.ElemTexts | src/epistemic/validate_states.py:43 | one `str()` per path element |
| SchemaErrors.ElemLeTotalOrder | src/phase4/validate/validate_json.py:27-30 | the order on path elements is total, antisymmetric and transitive |
| SchemaErrors.PathLeTotal | src/phase4/validate/validate_json.py:27-30 | any two paths are ordered |
| SchemaErrors.PathLeAntisymmetric | src/phase4/validate/validate_json.py:27-30 | two paths each before the other are equal |
| SchemaErrors.PathLeTransitive | src/phase4/validate/validate_json.py:27-30 | the path order is transitive |
| SchemaErrors.ErrorLeTotalOrder | src/phase4/validate/validate_json.py:27-30 | the sort key `(list(absolute_path), message)` is a total order |
| SchemaErrors.PathLeIsPythonOrder | src/phase4/validate/validate_json.py:29 | on comparable paths, Python's list `<` is the strict part of the path order |
| SchemaErrors.ErrorLeIsPythonOrder | src/phase4/validate/lint_directive.py:12-15 | on comparable paths, Python's tuple `<` on the sort keys is the strict part of the error order |
| SchemaErrors.MixedKindsRaise | src/phase4/validate/lint_directive.py:14 | a property name and an index at the first difference make Python's comparison raise TypeError |
| StateBatch.StateReport | src/epistemic/validate_states.py:22-46 | valid exactly when the engine is available and yields no error; without the engine one install message; otherwise one rendered line per error, in order |
| StateBatch.ValidateState | src/epistemic/validate_states.py:36-46 | the loop renders the errors as specified |
| StateBatch.StateFileReport | src/epistemic/validate_states.py:49-82 | valid only if both files load; when either fails to load the result is invalid with exactly one error |
| StateBatch.ValidateStateFile | src/epistemic/validate_states.py:63-82 | the method gives the specified result |
| StateBatch.EntryVerdict | src/epistemic/validate_states.py:145-170 | a missing or falsy `file_path` is invalid with the registry message; a truthy non-str path raises |
| StateBatch.IdOf | src/epistemic/validate_states.py:145 | the id is the entry's `state_id`, or `"unknown"` when it has none |
| StateBatch.ScanBatch | src/epistemic/validate_states.py:141-174 | after n entries at most n are counted, at most `total` are invalid, and `errors` has at most one key per invalid state |
| StateBatch.AllStatesSummary | src/epistemic/validate_states.py:85-176 | `errors` has at most one key per invalid state, and `invalid <= total` |
| StateBatch.ScanBatchRaisePersists | src/epistemic/validate_states.py:141-174 | once an entry raises, the batch raises |
| StateBatch.ValidateEntryFile | src/epistemic/validate_states.py:153-161 | validating the entry's `file_path` under the registry directory gives the entry's verdict: None when valid, the errors otherwise |
| StateBatch.CheckBatchEntry | src/epistemic/validate_states.py:141-174 | one iteration updates the counters and map as specified and keeps `total == valid + invalid` |
| StateBatch.ValidateAllStates | src/epistemic/validate_states.py:85-176 | the loop gives the specified summary, with `total == valid + invalid` |
| StateBatchProperties.RootErrorRendering | src/epistemic/validate_states.py:43-44 | an error at the root renders as `root: message` |
| StateBatchProperties.ErrorPathSplits | src/epistemic/validate_states.py:43 | a dotted path splits back into its components when none holds a dot |
| StateBatchProperties.RenderExamples | src/epistemic/validate_states.py:43-44 | `metadata.source: ...` and `tags.2` render as shown |
| StateBatchProperties.LoadFailuresGiveNoResults | src/epistemic/validate_states.py:119-139 | a registry or schema failing to load, or a registry without `states`, gives all-zero counts and no errors |
| StateBatchProperties.PositionsStep | src/epistemic/validate_states.py:141-170 | the dict, valid and invalid positions grow by at most the last entry |
| StateBatchProperties.CountsByVerdict | src/epistemic/validate_states.py:141-170 | `total` counts dict entries, `valid` and `invalid` count them by verdict; non-dicts are not counted |
| StateBatchProperties.VerdictsRaiseNothing | src/epistemic/validate_states.py:141-174 | a batch that finishes had every dict entry's verdict return normally |
| StateBatchProperties.DictsSplit | src/epistemic/validate_states.py:141-170 | every dict entry is valid or invalid |
| StateBatchProperties.CountersBalance | src/epistemic/validate_states.py:109-174 | `total == valid + invalid` after every entry |
| StateBatchProperties.MissingFilePathIsInvalid | src/epistemic/validate_states.py:148-152 | a missing `file_path` counts one invalid state with "Missing file_path in registry" |
| StateBatchProperties.ErrorsStep | src/epistemic/validate_states.py:164-170 | an invalid entry sets its id's errors; a valid one leaves the map alone |
| StateBatchProperties.ErrorKeysAreInvalidIds | src/epistemic/validate_states.py:145-170 | the map has a key exactly for the ids of invalid entries |
| StateBatchProperties.ErrorsOfLastInvalid | src/epistemic/validate_states.py:151-170 | each key holds the errors of the last invalid entry with that id |
| Sorting.InsertPermutes | src/phase4/validate/validate_json.py:37 | insertion adds exactly the inserted element |
| Sorting.InsertSorted | src/phase4/validate/validate_json.py:37 | insertion keeps a sequence sorted |
| Sorting.SortByIsSortedPermutation | src/phase4/validate/validate_json.py:37 | sorting gives a sorted permutation of its input |
| Sorting.SortedHeadIsLeast | src/phase4/validate/validate_json.py:37 | the head of a sorted sequence precedes every element |
| Sorting.TailsSameMultiset | src/phase4/validate/validate_json.py:37 | equal multisets with equal heads have equal tails |
| Sorting.SortedUnique | src/phase4/validate/validate_json.py:37 | under a total order there is one sorted arrangement of a multiset, so this sort agrees with `sorted()` |
| Sorting.SortByDependsOnMultiset | src/phase4/validate/validate_json.py:37 | the sorted result depends only on the multiset of the input |
| Sorting.MapSeq | src/phase4/validate/validate_json.py:33-35 | a comprehension gives one image per element, in order |
| Sorting.MapPermutes | src/phase4/validate/validate_json.py:33-35 | mapping two arrangements of one multiset gives two arrangements of one multiset |
| IssueReport.PointerPath | src/phase4/validate/validate_json.py:34 | every pointer starts with `/` |
| IssueReport.IssueLeTotalOrder | src/phase4/validate/validate_json.py:37 | the key `(json_path, message)` is a total order |
| IssueReport.Normalise | src/phase4/validate/validate_json.py:22-37 | one issue per engine error |
| IssueReport.ValidateJsonFile | src/phase4/validate/validate_json.py:40-43 | a failing load raises its error (instance first); otherwise one issue per engine error |
| IssueReport.IssueLines | src/phase4/validate/validate_json.py:50-51 | line k is `{k+1:02d}. path: message` of issue k |
| IssueReport.ValidateOrRaise | src/phase4/validate/validate_json.py:46-52 | returns normally exactly when validation yields no issues |
| IssueReportProperties.NormaliseIsPermutation | src/phase4/validate/validate_json.py:27-37 | each engine error becomes exactly one issue; none is dropped or added |
| IssueReportProperties.NormaliseSorted | src/phase4/validate/validate_json.py:37 | the issues are sorted by (pointer, message) |
| IssueReportProperties.NormaliseCharacterised | src/phase4/validate/validate_json.py:27-37 | a sequence is the report exactly when it is sorted and holds the same issues |
| IssueReportProperties.FirstSortIsRedundant | src/phase4/validate/validate_json.py:27-37 | the first sort, by path components, does not affect the result |
| IssueReportProperties.NormaliseIgnoresEngineOrder | src/phase4/validate/validate_json.py:26-37 | the report does not depend on the order the engine yields errors in |
| IssueReportProperties.SmallPointers | src/phase4/validate/validate_json.py:34 | `[2]` and `[10]` render as `/2` and `/10` |
| IssueReportProperties.TenBeforeTwo | src/phase4/validate/validate_json.py:37 | `/10` precedes `/2` as a string |
| IssueReportProperties.StringOrderOfPointers | src/phase4/validate/validate_json.py:37 | issues at indexes 2 and 10 come out `/10` first |
| IssueReportProperties.PointerPathSplits | src/phase4/validate/validate_json.py:34 | a non-root pointer is `/` before each component: splitting gives `""` then the components |
| IssueReportProperties.PointerPathInjective | src/phase4/validate/validate_json.py:34 | components without `/` are recovered from the pointer |
| IssueReportProperties.PointersAreNotEscaped | src/phase4/validate/validate_json.py:34 | the root and an empty key, and a key holding `/` and two keys, share a pointer |
| IssueReportProperties.DigitsHaveNoNewline | src/phase4/validate/validate_json.py:49 | digit runs hold no newline |
| IssueReportProperties.IssueLineHasNoNewline | src/phase4/validate/validate_json.py:51 | an issue line holds a newline only if its path or message does |
| IssueReportProperties.FailureMessageLines | src/phase4/validate/validate_json.py:48-52 | the message's lines are the header then one numbered line per issue, in order |
| IssueReportProperties.IssueNumbering | src/phase4/validate/validate_json.py:50-51 | line k carries the number k, two digits while k < 100 |
| IssueReportProperties.ValidateOrRaiseRaises | src/phase4/validate/validate_json.py:46-52 | with both files loaded, it raises exactly when the engine yields errors, with the failure message, which begins `Validation failed (N issues):` with N the error count |
| IssueReportProperties.ValidateOrRaiseDeterministic | src/phase4/validate/validate_json.py:26-52 | engines yielding the same errors in any order give the same outcome and message |
| DirectiveLint.LintLine | src/phase4/validate/lint_directive.py:17-19 | a line is the error's pointer as the issue report writes it, `: `, then the message |
| DirectiveLint.LintLines | src/phase4/validate/lint_directive.py:12-21 | exactly one line per error |
| DirectiveLint.LintDirective | src/phase4/validate/lint_directive.py:7-21 | a failing load raises its error (instance first); otherwise one line per engine error |
| DirectiveLintProperties.RootLine | src/phase4/validate/lint_directive.py:19 | a root error renders as `/: message` |
| DirectiveLintProperties.OneLinePerError | src/phase4/validate/lint_directive.py:12-21 | the lines are those of the errors, none dropped or added |
| DirectiveLintProperties.LinesFollowSortKey | src/phase4/validate/lint_directive.py:12-15 | the lines are those of the errors arranged by (path components, message) |
| DirectiveLintProperties.LintIgnoresEngineOrder | src/phase4/validate/lint_directive.py:12-21 | the lines do not depend on the engine's order |
| DirectiveLintProperties.SmallLines | src/phase4/validate/lint_directive.py:18 | `[2]` and `[10]` render as `/2: m` and `/10: m` |
| DirectiveLintProperties.ComponentOrderNotStringOrder | src/phase4/validate/lint_directive.py:12-15 | index 2 precedes index 10 although `/10: m` precedes `/2: m` as strings |
| PosixPath.Root | analysis/pipelines/run_analysis.py:9 | a path has a root exactly when it starts with `/` |
| PosixPath.Components | analysis/pipelines/run_analysis.py:9 | the components are pieces that are neither empty nor `.` |
| PosixPath.Parts | analysis/pipelines/run_analysis.py:9 | a rooted path's first part is its root |
| PosixPath.PathStr | analysis/pipelines/run_analysis.py:15 | `str(path)` parses back to the same root and components |
| PosixPath.ComponentsAppend | analysis/pipelines/run_analysis.py:9 | the components of a concatenation are those of its parts |
| PosixPath.ComponentsOfNames | analysis/pipelines/run_analysis.py:9 | names are kept unchanged |
| PosixPath.TailNames | analysis/pipelines/run_analysis.py:9 | components are names without a separator |
| PosixPath.SingleName | analysis/pipelines/run_analysis.py:9 | a plain name is its own single part |
| PosixPath.JoinedNamesParseBack | analysis/pipelines/run_analysis.py:9 | names joined with `/` parse back into the names |
| PosixPath.RelativeText | analysis/pipelines/run_analysis.py:9 | a text not starting with `/` has no root |
| PosixPath.LeadingSeparator | analysis/pipelines/run_analysis.py:9 | a leading `/` adds no component |
| PosixPath.SingleRootText | analysis/pipelines/run_analysis.py:9 | `/` + a relative text has root `/` and the text's components |
| PosixPath.DoubleRootText | analysis/pipelines/run_analysis.py:9 | `//` + a relative text has root `//` and the text's components |
| PosixPath.RenderParsesBack | analysis/pipelines/run_analysis.py:15 | rendering a root and names parses back to that root and those names |
| PosixPath.PathStrRoundTrip | analysis/pipelines/run_analysis.py:15 | `str(path)` has the same parts, and rendering it again changes nothing |
| PosixPath.PathStrEmpty | src/epistemic/registry.py:52 | `str(Path(""))` is `.` |
| PosixPath.PathStrDotName | src/epistemic/registry.py:52 | a leading `./` disappears from `str(Path(p))` |
| PosixPath.PathStrDoubledSeparator | src/epistemic/registry.py:52 | a doubled separator collapses in `str(Path(p))` |
| PosixPath.PathStrTrailingSeparator | src/epistemic/registry.py:52 | a trailing separator disappears from `str(Path(p))` |
| PosixPath.Parent | src/epistemic/registry.py:98 | `Path.parent` keeps the root and drops the last component; a path without components is its own parent |
| PosixPath.JoinPath | src/epistemic/registry.py:98 | `parent / file_path` has the directory's root and components followed by the file path's, or the file path's alone when it is rooted |
| PosixPath.ParentJoinLast | src/epistemic/validate_states.py:155 | a path is its parent joined with its last component |
| PosixPath.JoinPathOfPathStr | src/epistemic/registry.py:98 | joining depends only on the parsed root and components of each side |
| PosixPath.TailAfterSeparator | src/epistemic/registry.py:98 | the components of `a/b` are those of `a` then those of `b` |
| PosixPath.JoinName | src/epistemic/registry.py:98 | joining a plain name gives `dir/name` |
| PosixPath.JoinTwoNames | src/epistemic/registry.py:98 | `dir / "a/b"` is `dir/a/b`, and `..` stays an ordinary component |
| PosixPath.JoinDotName | src/epistemic/registry.py:98 | `dir / "./b"` is `dir/b` |
| PosixPath.JoinDoubledSeparator | src/epistemic/registry.py:98 | `dir / "a//b"` is `dir/a/b` |
| PosixPath.JoinTrailingSeparator | src/epistemic/registry.py:98 | `dir / "a/"` is `dir/a` |
| PosixPath.JoinRooted | src/epistemic/registry.py:98 | a rooted file path replaces the directory |
| PosixPath.JoinUnderDot | src/epistemic/validate_states.py:155 | joining under `.` (the parent of a bare file name) gives the name unchanged |
| OutputGuard.SortedAllowedDirs | analysis/pipelines/run_analysis.py:15 | `sorted()` of the allowed set is `['analysis_artifacts', 'releases']`, whichever order the set iterates in |
| OutputGuard.AssertPhase3OutputPath | analysis/pipelines/run_analysis.py:8-16 | the guard returns or raises one of its two ValueErrors: "Empty output path." exactly when the path has no parts, the rejection message naming the sorted allowed directories exactly when the first part is not allowed |
| OutputGuardProperties.AcceptedIff | analysis/pipelines/run_analysis.py:8-16 | a path is accepted exactly when it is relative and its first component is an allowed directory |
| OutputGuardProperties.AbsoluteRejected | analysis/pipelines/run_analysis.py:12-16 | an absolute path is rejected with the directory message |
| OutputGuardProperties.EmptyPaths | analysis/pipelines/run_analysis.py:10-11 | `""`, `.` and `./` raise "Empty output path." |
| OutputGuardProperties.SuffixNotInspected | analysis/pipelines/run_analysis.py:9-16 | whatever follows an accepted path is not inspected |
| OutputGuardProperties.UnderAllowedDirAccepted | analysis/pipelines/run_analysis.py:12 | anything under an allowed directory is accepted |
| OutputGuardProperties.ParentStepsNotChecked | analysis/pipelines/run_analysis.py:9-16 | `releases/../../etc` is accepted |
| OutputGuardProperties.GuardSeesOnlyParts | analysis/pipelines/run_analysis.py:8-16 | the guard judges `str(path)` as it judges the path, message included |
| OutputGuardProperties.AllowedListRepr | analysis/pipelines/run_analysis.py:15 | the sorted list renders as `['analysis_artifacts', 'releases']` |
| OutputGuardProperties.AllowedDirsListedSorted | analysis/pipelines/run_analysis.py:13-16 | the rejection message lists the allowed directories in sorted order |

## Left out

- File reading and JSON parsing (`src/epistemic/io.py`, `load_schema`, `load_state_registry`) are oracles from paths to loaded values. Their exact exception texts are not modelled: `Unreadable` carries whatever text the loader gives.
- The JSON Schema engines (`Draft7Validator`, `Draft202012Validator`) are foreign. Their output is a given sequence of (path, message) errors. Exceptions the engine itself raises on a malformed schema are not modelled.
- The `main` CLI of `src/epistemic/validate_states.py`, the `verbose` printing of `validate_all_states`, and `run_analysis.main` are left out. They are argparse, stdout and `sys.exit`; `main` is a placeholder that returns 0.
- Calendar semantics of `datetime.strptime` are a predicate: year at least 1, month 1–12, day within the month, hour below 24, minute and second below 60. Only the strptime messages the timestamp regex can reach are modelled.
- Python's iteration order of a `set` is not modelled. The `epistemic_status` error shows the allowed values in declaration order, while Python's order depends on string hashing.
- `validate_all_states` keys its errors map by `HashKey`, so `True` and `1` are one key. Which of two equal keys a Python dict keeps as the visible key object is not modelled.
- `pathlib` is modelled for POSIX paths only (`PosixPath`); a Windows `Path` is not modelled. Paths are not resolved against the file system: `..` and symbolic links stay as written, as in `pathlib` itself.
- A parsed dict is a list of (key, value) pairs, and the type admits a repeated key. `json.load` never produces one: for a key repeated in the text it keeps the last value. `PyValues.Lookup` finds the first pair, so the model agrees with Python only on dicts without repeated keys, which are the only ones a load gives.
- `StateBatch.Summary` holds `errors` as an unordered map. Python's `results["errors"]` dict also has an insertion order (registry order, a re-inserted key keeping its first position), which the model does not keep.
- Where two schema-error paths differ first at a property name against a list index, Python's `sorted()` raises TypeError if it compares them. The model instead orders an index before a name. `SchemaErrors.PathLeIsPythonOrder` ties the model's order to Python's on all comparable paths. Paths into one JSON instance are always comparable.
- JSON floats and numbers with exponents are not modelled; only integers are.
- `repr()` of strings does not escape quotes, backslashes or control characters.
- The functions `tests/test_epistemic.py` imports, which no shown source defines, are not part of this model. Neither is the run recorder of the phase-3 tests.
- The exact exception types and texts raised by `src/epistemic/io.py` are not part of this model. A missing file is modelled as `FileNotFoundError("File not found: <path>")`, with the path as `str(Path(...))` spells it, and every other load failure as one opaque failure.
