/** What the validators of src/validation.py promise, proved about the
    model: concrete accept/reject cases for each field shape, the canonical
    form of a valid timestamp, the early-return versus collect-everything
    split of the record validator, the error count for related states, the
    duplicate count of the registry validator, and first-match lookup. */
module ValidationProperties {
  import opened Text
  import opened PyValues
  import opened FieldPatterns
  import opened Validation

  // ---------------------------------------------------------------------
  // Field validators

  lemma StateIdAcceptsShortest()
    ensures ValidateStateId("a_000") == (true, None)
  {
    var s := "a_000";
    assert AllIdChars(s[..1]) && s[1] == '_' && AllDigits(s[2..]);
  }

  lemma StateIdAcceptsSample()
    ensures ValidateStateId("3i_atlas_001") == (true, None)
    ensures ValidateStateId("3i_atlas_001\n").0
  {
    var s := "3i_atlas_001";
    assert s[..8] == "3i_atlas" && s[9..] == "001";
    assert AllIdChars(s[..8]) && s[8] == '_' && AllDigits(s[9..]);
    assert Chomp("3i_atlas_001\n") == s;
  }

  lemma StateIdRejectsShortNumber()
    ensures !ValidateStateId("3i_atlas_01").0
  {
    assert TrailingDigits("3i_atlas_01") == 2;
  }

  lemma StateIdRejectsHyphens()
    ensures !ValidateStateId("3i-atlas-001").0
  {
    var s := "3i-atlas-001";
    assert forall k | 0 <= k < |s| :: s[k] != '_';
    assert !EndsWithNewline(s) by { assert s[11] == '1'; }
  }

  lemma StateIdRejectsUpperCase()
    ensures !ValidateStateId("3I_ATLAS_001").0
  {
    var s := "3I_ATLAS_001";
    assert !InStateIdLanguage(s) by {
      forall k | 1 <= k && k + 4 <= |s| ensures !(AllIdChars(s[..k]) && s[k] == '_') {
        if k >= 2 { assert s[..k][1] == 'I'; }
      }
    }
    assert !EndsWithNewline(s) by { assert s[11] == '1'; }
  }

  lemma DoiAccepts()
    ensures ValidateDoi("10.5281/zenodo.1234567") == (true, None)
  {
    var s := "10.5281/zenodo.1234567";
    assert s[..3] == "10." && s[3..7] == "5281" && s[7..7] == [] && s[7] == '/';
    var t := s[8..];
    assert NoWhitespace(t) by {
      forall i | 0 <= i < |t| ensures !IsPyWhitespace(t[i]) {
        assert t[i] == s[8 + i] && s[8 + i] as int >= 46;
      }
    }
    FieldPatterns.DoiWitness(s, 7, 7);
  }

  lemma DoiAcceptsDotGroups()
    ensures ValidateDoi("10.1234.5.67/x") == (true, None)
  {
    var s := "10.1234.5.67/x";
    var g := s[7..12];
    assert g == ".5.67";
    assert g[2..] == ".67" && InDotGroupsLanguage(g[2..][3..]);
    assert InDotGroupsLanguage(g[2..]) by { assert IsDigitRun(g[2..][1..3]); }
    assert InDotGroupsLanguage(g) by { assert IsDigitRun(g[1..2]) && g[2..] == g[2..]; }
    assert s[..3] == "10." && AllDigits(s[3..7]) && s[12] == '/' && NoWhitespace(s[13..]);
  }

  lemma DoiRejectsShortRegistrant()
    ensures !ValidateDoi("10.123/suffix").0
  {
    var s := "10.123/suffix";
    assert forall k | 7 <= k < |s| :: s[k] != '/';
  }

  lemma DoiRejectsMissingSuffix()
    ensures !ValidateDoi("10.5281").0
  {
    assert !Mentions("10.5281", '/');
  }

  lemma DoiRejectsPrefix()
    ensures !ValidateDoi("doi:10.5281/zenodo.1").0
  {
    DoiStartsWithOne("doi:10.5281/zenodo.1");
  }

  /** A DOI the pattern accepts starts with the '1' of "10.". */
  lemma DoiStartsWithOne(s: string)
    requires s != [] && s[0] != '1'
    ensures !ValidateDoi(s).0
  {
  }

  lemma DoiRejectsWhitespace()
    ensures !ValidateDoi("10.5281/a b").0
  {
    var s := "10.5281/a b";
    assert forall k | 8 <= k < |s| :: s[k] != '/';
    assert s[8..][1] == ' ';
  }

  lemma VersionAccepts()
    ensures ValidateVersion("1.0.0") == (true, None)
    ensures ValidateVersion("1.0.0\n").0
    ensures ValidateVersion("10.20.300") == (true, None)
  {
    var s := "1.0.0";
    assert AllDigits(s[..1]) && s[1] == '.' && AllDigits(s[2..3]) && s[3] == '.' && AllDigits(s[4..]);
    assert Chomp("1.0.0\n") == s;
    var t := "10.20.300";
    assert AllDigits(t[..2]) && t[2] == '.' && AllDigits(t[3..5]) && t[5] == '.' && AllDigits(t[6..]);
  }

  lemma VersionRejects()
    ensures !ValidateVersion("1.0").0
    ensures !ValidateVersion("v1.0.0").0
  {
    assert !IsDigit("v1.0.0"[0]);
  }

  lemma TwoDigits(t: string)
    requires |t| == 2 && AllDigits(t)
    ensures DigitsValue(t) == 10 * DigitValue(t[0]) + DigitValue(t[1])
  {
    assert t[..|t| - 1] == t[..1];
    assert t[..1][..0] == [];
    assert DigitsValue(t[..1]) == DigitValue(t[0]);
  }

  lemma FourDigits(t: string)
    requires |t| == 4 && AllDigits(t)
    ensures DigitsValue(t) == 1000 * DigitValue(t[0]) + 100 * DigitValue(t[1]) + 10 * DigitValue(t[2]) + DigitValue(t[3])
  {
    TwoDigits(t[..2]);
    assert t[..3][..2] == t[..2];
  }

  predicate DigitPositions(s: string)
    requires |s| == 20
  {
    forall k | k in {0, 1, 2, 3, 5, 6, 8, 9, 11, 12, 14, 15, 17, 18} :: IsDigit(s[k])
  }

  /** A 20-character string with digits and separators in the right places
      has the timestamp shape, and its fields are read digit by digit. */
  lemma TimestampByCharacters(s: string)
    requires |s| == 20 && DigitPositions(s)
    requires s[4] == '-' && s[7] == '-' && s[10] == 'T' && s[13] == ':' && s[16] == ':' && s[19] == 'Z'
    ensures TimestampShape(s)
    ensures TimestampFields(s) == DateTime(
              1000 * DigitValue(s[0]) + 100 * DigitValue(s[1]) + 10 * DigitValue(s[2]) + DigitValue(s[3]),
              10 * DigitValue(s[5]) + DigitValue(s[6]), 10 * DigitValue(s[8]) + DigitValue(s[9]),
              10 * DigitValue(s[11]) + DigitValue(s[12]), 10 * DigitValue(s[14]) + DigitValue(s[15]),
              10 * DigitValue(s[17]) + DigitValue(s[18]))
  {
    FourDigits(s[0..4]);
    TwoDigits(s[5..7]);
    TwoDigits(s[8..10]);
    TwoDigits(s[11..13]);
    TwoDigits(s[14..16]);
    TwoDigits(s[17..19]);
  }

  // The verdicts on a string of the timestamp shape, one per check, in the
  // order strptime makes them.

  lemma AcceptedWhenReal(s: string)
    requires TimestampShape(s) && IsRealDateTime(TimestampFields(s))
    ensures ValidateTimestamp(s) == (true, None)
  {
  }

  lemma RejectedWhenNotReal(s: string)
    requires TimestampShape(s) && !IsRealDateTime(TimestampFields(s))
    ensures FullMatch(TimestampShape, s) && !ValidateTimestamp(s).0
  {
  }

  lemma FormatMismatch(s: string)
    requires TimestampShape(s) && !StrptimeFieldsParse(TimestampFields(s))
    ensures StrptimeError(s) == Some("time data '" + s + "' does not match format '" + TimestampFormat + "'")
  {
  }

  lemma YearZero(s: string)
    requires TimestampShape(s) && StrptimeFieldsParse(TimestampFields(s)) && TimestampFields(s).year == 0
    ensures StrptimeError(s) == Some("year 0 is out of range")
  {
  }

  lemma DayOutOfRange(s: string)
    requires TimestampShape(s) && StrptimeFieldsParse(TimestampFields(s))
    requires var dt := TimestampFields(s); dt.year != 0 && dt.day > DaysInMonth(dt.year, dt.month)
    ensures StrptimeError(s) == Some("day is out of range for month")
  {
  }

  lemma LeapSecond(s: string)
    requires TimestampShape(s) && StrptimeFieldsParse(TimestampFields(s))
    requires var dt := TimestampFields(s); dt.year != 0 && dt.day <= DaysInMonth(dt.year, dt.month) && dt.second > 59
    ensures StrptimeError(s) == Some("second must be in 0..59")
  {
  }

  // The fields of the example timestamps.

  lemma SampleFields()
    ensures TimestampShape("2025-01-15T12:30:00Z")
    ensures TimestampFields("2025-01-15T12:30:00Z") == DateTime(2025, 1, 15, 12, 30, 0)
  {
    TimestampByCharacters("2025-01-15T12:30:00Z");
  }

  lemma LeapDayFields()
    ensures TimestampShape("2024-02-29T00:00:00Z")
    ensures TimestampFields("2024-02-29T00:00:00Z") == DateTime(2024, 2, 29, 0, 0, 0)
  {
    TimestampByCharacters("2024-02-29T00:00:00Z");
  }

  lemma NonLeapDayFields()
    ensures TimestampShape("2023-02-29T00:00:00Z")
    ensures TimestampFields("2023-02-29T00:00:00Z") == DateTime(2023, 2, 29, 0, 0, 0)
  {
    TimestampByCharacters("2023-02-29T00:00:00Z");
  }

  lemma Month13Fields()
    ensures TimestampShape("2025-13-01T00:00:00Z")
    ensures TimestampFields("2025-13-01T00:00:00Z") == DateTime(2025, 13, 1, 0, 0, 0)
  {
    TimestampByCharacters("2025-13-01T00:00:00Z");
  }

  lemma Day32Fields()
    ensures TimestampShape("2025-01-32T00:00:00Z")
    ensures TimestampFields("2025-01-32T00:00:00Z") == DateTime(2025, 1, 32, 0, 0, 0)
  {
    TimestampByCharacters("2025-01-32T00:00:00Z");
  }

  lemma Hour25Fields()
    ensures TimestampShape("2025-01-15T25:00:00Z")
    ensures TimestampFields("2025-01-15T25:00:00Z") == DateTime(2025, 1, 15, 25, 0, 0)
  {
    TimestampByCharacters("2025-01-15T25:00:00Z");
  }

  lemma Second60Fields()
    ensures TimestampShape("2025-01-15T23:59:60Z")
    ensures TimestampFields("2025-01-15T23:59:60Z") == DateTime(2025, 1, 15, 23, 59, 60)
  {
    TimestampByCharacters("2025-01-15T23:59:60Z");
  }

  lemma Year0Fields()
    ensures TimestampShape("0000-01-01T00:00:00Z")
    ensures TimestampFields("0000-01-01T00:00:00Z") == DateTime(0, 1, 1, 0, 0, 0)
  {
    TimestampByCharacters("0000-01-01T00:00:00Z");
  }

  lemma TimestampAccepts()
    ensures ValidateTimestamp("2025-01-15T12:30:00Z") == (true, None)
  {
    SampleFields();
    AcceptedWhenReal("2025-01-15T12:30:00Z");
  }

  lemma TimestampAcceptsLeapDay()
    ensures ValidateTimestamp("2024-02-29T00:00:00Z") == (true, None)
  {
    LeapDayFields();
    AcceptedWhenReal("2024-02-29T00:00:00Z");
  }

  lemma TimestampRejectsNonLeapDay()
    ensures FullMatch(TimestampShape, "2023-02-29T00:00:00Z")
    ensures !ValidateTimestamp("2023-02-29T00:00:00Z").0
    ensures StrptimeError("2023-02-29T00:00:00Z") == Some("day is out of range for month")
  {
    NonLeapDayFields();
    RejectedWhenNotReal("2023-02-29T00:00:00Z");
    DayOutOfRange("2023-02-29T00:00:00Z");
  }

  lemma TimestampRejectsMonth13()
    ensures FullMatch(TimestampShape, "2025-13-01T00:00:00Z")
    ensures !ValidateTimestamp("2025-13-01T00:00:00Z").0
    ensures StrptimeError("2025-13-01T00:00:00Z")
            == Some("time data '" + "2025-13-01T00:00:00Z" + "' does not match format '" + TimestampFormat + "'")
  {
    Month13Fields();
    RejectedWhenNotReal("2025-13-01T00:00:00Z");
    FormatMismatch("2025-13-01T00:00:00Z");
  }

  lemma TimestampRejectsDay32()
    ensures !ValidateTimestamp("2025-01-32T00:00:00Z").0
  {
    Day32Fields();
    RejectedWhenNotReal("2025-01-32T00:00:00Z");
  }

  lemma TimestampRejectsHour25()
    ensures !ValidateTimestamp("2025-01-15T25:00:00Z").0
  {
    Hour25Fields();
    RejectedWhenNotReal("2025-01-15T25:00:00Z");
  }

  lemma TimestampRejectsSecond60()
    ensures FullMatch(TimestampShape, "2025-01-15T23:59:60Z")
    ensures !ValidateTimestamp("2025-01-15T23:59:60Z").0
    ensures StrptimeError("2025-01-15T23:59:60Z") == Some("second must be in 0..59")
  {
    Second60Fields();
    RejectedWhenNotReal("2025-01-15T23:59:60Z");
    LeapSecond("2025-01-15T23:59:60Z");
  }

  lemma TimestampRejectsYear0()
    ensures FullMatch(TimestampShape, "0000-01-01T00:00:00Z")
    ensures !ValidateTimestamp("0000-01-01T00:00:00Z").0
    ensures StrptimeError("0000-01-01T00:00:00Z") == Some("year 0 is out of range")
  {
    Year0Fields();
    RejectedWhenNotReal("0000-01-01T00:00:00Z");
    YearZero("0000-01-01T00:00:00Z");
  }

  lemma TimestampRejectsTrailingNewline()
    ensures !ValidateTimestamp("2025-01-15T12:30:00Z\n").0
    ensures FullMatch(TimestampShape, "2025-01-15T12:30:00Z\n")
            && StrptimeError("2025-01-15T12:30:00Z\n") == Some("unconverted data remains: \n")
  {
    SampleFields();
    NewlineLeftOver("2025-01-15T12:30:00Z", "2025-01-15T12:30:00Z\n");
  }

  /** A parseable timestamp followed by a newline passes the regex but not strptime. */
  lemma NewlineLeftOver(s: string, u: string)
    requires u == s + "\n" && TimestampShape(s) && StrptimeFieldsParse(TimestampFields(s))
    ensures !ValidateTimestamp(u).0
    ensures FullMatch(TimestampShape, u) && StrptimeError(u) == Some("unconverted data remains: \n")
  {
    assert Chomp(u) == s;
    assert !TimestampShape(u);
  }

  lemma TimestampRejectsShape()
    ensures ValidateTimestamp("2025-01-15 12:30:00Z").1
            == Some("timestamp '" + "2025-01-15 12:30:00Z" + "' does not match ISO 8601 UTC format")
  {
    var s := "2025-01-15 12:30:00Z";
    assert !TimestampShape(s) by { assert s[10] == ' '; }
    assert !EndsWithNewline(s) by { assert s[19] == 'Z'; }
  }

  /** A timestamp that passes is a real instant written in its one
      canonical spelling (no trailing newline survives strptime). */
  lemma ValidTimestampIsCanonical(timestamp: string)
    requires ValidateTimestamp(timestamp).0
    ensures TimestampShape(timestamp)
    ensures IsRealDateTime(TimestampFields(timestamp))
    ensures var dt := TimestampFields(timestamp);
            dt.year < 10000 && dt.month < 100 && dt.day < 100
            && dt.hour < 100 && dt.minute < 100 && dt.second < 100
            && FormatTimestamp(dt) == timestamp
  {
    TimestampIsFormatted(timestamp);
  }

  /** Conversely, every real instant with a four-digit year, formatted,
      passes. */
  lemma FormattedInstantIsValid(dt: DateTime)
    requires IsRealDateTime(dt) && dt.year < 10000
    ensures ValidateTimestamp(FormatTimestamp(dt)) == (true, None)
  {
    FormatTimestampRoundTrip(dt);
  }

  // ---------------------------------------------------------------------
  // Required fields: early return

  predicate AllRequiredPresent(d: Dict)
  {
    HasKey(d, "state_id") && HasKey(d, "timestamp") && HasKey(d, "source_doi")
    && HasKey(d, "epistemic_status") && HasKey(d, "metadata")
  }

  /** The position in the list of a required field the state lacks. */
  lemma SomeRequiredAbsent(d: Dict) returns (k: nat)
    requires !AllRequiredPresent(d)
    ensures k < |StateRequiredFields| && !HasKey(d, StateRequiredFields[k])
  {
    if !HasKey(d, "state_id") { k := 0; }
    else if !HasKey(d, "timestamp") { k := 1; }
    else if !HasKey(d, "source_doi") { k := 2; }
    else if !HasKey(d, "epistemic_status") { k := 3; }
    else { k := 4; }
  }

  predicate Distinct(xs: seq<string>)
  {
    forall i, j | 0 <= i < j < |xs| :: xs[i] != xs[j]
  }

  /** The position of the first occurrence of x in xs. */
  function IndexOf(xs: seq<string>, x: string): (k: nat)
    requires x in xs
    ensures k < |xs| && xs[k] == x && forall j | 0 <= j < k :: xs[j] != x
  {
    if xs[0] == x then 0 else 1 + IndexOf(xs[1..], x)
  }

  /** The missing fields come out in the order the fields are listed. */
  lemma {:induction false} AbsentFieldsInOrder(container: Json, fields: seq<string>)
    requires Distinct(fields) && AbsentFields(container, fields).Ok?
    ensures var r := AbsentFields(container, fields).value;
            forall i, j | 0 <= i < j < |r| :: IndexOf(fields, r[i]) < IndexOf(fields, r[j])
    decreases |fields|
  {
    if fields != [] {
      var init := fields[..|fields| - 1];
      var last := fields[|fields| - 1];
      assert Distinct(init);
      AbsentFieldsInOrder(container, init);
      var earlier := AbsentFields(container, init).value;
      var r := AbsentFields(container, fields).value;
      forall x | x in earlier ensures IndexOf(fields, x) == IndexOf(init, x) && IndexOf(fields, x) < |fields| - 1 {
        var k := IndexOf(init, x);
        assert fields[k] == x;
      }
      if last in r && last !in earlier {
        assert IndexOf(fields, last) == |fields| - 1;
      }
    }
  }

  /** When a required field is missing, the state's errors are exactly one
      "Missing required field" message per missing field, in the order the
      fields are listed, and nothing else. */
  lemma MissingFieldsReturnEarly(d: Dict)
    requires !AllRequiredPresent(d)
    ensures StateErrors(JObj(d)).Ok?
    ensures var errs := StateErrors(JObj(d)).value;
            errs != []
            && (forall e :: e in errs <==>
                  exists k | 0 <= k < |StateRequiredFields| ::
                    !HasKey(d, StateRequiredFields[k]) && e == "Missing required field: " + StateRequiredFields[k])
            && (forall i, j | 0 <= i < j < |errs| :: errs[i] != errs[j])
  {
    var absent := AbsentFields(JObj(d), StateRequiredFields).value;
    var k := SomeRequiredAbsent(d);
    assert StateRequiredFields[k] in absent;
    assert StateErrors(JObj(d)).value == MissingFieldMsgs(absent);
    MissingMsgsNameAbsentFields(d);
    AbsentFieldsInOrder(JObj(d), StateRequiredFields);
    MissingMsgsDistinct(absent);
  }

  /** The messages for the absent fields name exactly the absent required fields. */
  lemma MissingMsgsNameAbsentFields(d: Dict)
    ensures AbsentFields(JObj(d), StateRequiredFields).Ok?
    ensures var errs := MissingFieldMsgs(AbsentFields(JObj(d), StateRequiredFields).value);
            forall e :: e in errs <==>
              exists k | 0 <= k < |StateRequiredFields| ::
                !HasKey(d, StateRequiredFields[k]) && e == "Missing required field: " + StateRequiredFields[k]
  {
    var absent := AbsentFields(JObj(d), StateRequiredFields).value;
    var errs := MissingFieldMsgs(absent);
    forall e ensures e in errs <==>
        exists k | 0 <= k < |StateRequiredFields| ::
          !HasKey(d, StateRequiredFields[k]) && e == "Missing required field: " + StateRequiredFields[k]
    {
      if e in errs {
        var i :| 0 <= i < |errs| && errs[i] == e;
        var f := absent[i];
        assert f in StateRequiredFields;
        var m := IndexOf(StateRequiredFields, f);
        assert !HasKey(d, StateRequiredFields[m]) && e == "Missing required field: " + StateRequiredFields[m];
      } else {
        forall m | 0 <= m < |StateRequiredFields| && !HasKey(d, StateRequiredFields[m])
          ensures e != "Missing required field: " + StateRequiredFields[m]
        {
          var f := StateRequiredFields[m];
          assert f in absent;
          var i :| 0 <= i < |absent| && absent[i] == f;
          assert errs[i] == "Missing required field: " + f;
        }
      }
    }
  }

  /** Distinct field names give distinct messages. */
  lemma MissingMsgsDistinct(absent: seq<string>)
    requires forall i, j | 0 <= i < j < |absent| :: absent[i] != absent[j]
    ensures var errs := MissingFieldMsgs(absent);
            forall i, j | 0 <= i < j < |errs| :: errs[i] != errs[j]
  {
    var errs := MissingFieldMsgs(absent);
    forall i, j | 0 <= i < j < |errs| ensures errs[i] != errs[j] {
      assert absent[i] != absent[j];
      assert errs[i][..|"Missing required field: "|] == errs[j][..|"Missing required field: "|];
      assert errs[i][|"Missing required field: "|..] == absent[i];
      assert errs[j][|"Missing required field: "|..] == absent[j];
    }
  }

  /** Which fields are missing depends only on which keys are present. */
  lemma {:induction false} AbsentFieldsDependOnKeys(d1: Dict, d2: Dict, fields: seq<string>)
    requires forall k | 0 <= k < |fields| :: HasKey(d1, fields[k]) <==> HasKey(d2, fields[k])
    ensures AbsentFields(JObj(d1), fields) == AbsentFields(JObj(d2), fields)
    decreases |fields|
  {
    if fields != [] {
      AbsentFieldsDependOnKeys(d1, d2, fields[..|fields| - 1]);
    }
  }

  /** With a required field missing, no value is looked at: two states that
      agree on which required keys they hold get the same result. */
  lemma MissingFieldsIgnoreValues(d1: Dict, d2: Dict)
    requires !AllRequiredPresent(d1)
    requires forall k | 0 <= k < |StateRequiredFields| ::
               HasKey(d1, StateRequiredFields[k]) <==> HasKey(d2, StateRequiredFields[k])
    ensures StateErrors(JObj(d1)) == StateErrors(JObj(d2))
  {
    AbsentFieldsDependOnKeys(d1, d2, StateRequiredFields);
    MissingFieldsReturnEarly(d1);
    var k := SomeRequiredAbsent(d1);
    assert StateRequiredFields[k] in AbsentFields(JObj(d2), StateRequiredFields).value;
  }

  // ---------------------------------------------------------------------
  // All required fields present: every check runs

  /** Nothing is reported absent when every listed field is in the container. */
  lemma {:induction false} NoneAbsent(container: Json, fields: seq<string>)
    requires Iterable(container)
    requires forall k | 0 <= k < |fields| :: IsIn(container, fields[k])
    ensures AbsentFields(container, fields) == Ok([])
    decreases |fields|
  {
    if fields != [] {
      NoneAbsent(container, fields[..|fields| - 1]);
    }
  }

  lemma AllPresentNoneAbsent(d: Dict)
    requires AllRequiredPresent(d)
    ensures AbsentFields(JObj(d), StateRequiredFields) == Ok([])
  {
    NoneAbsent(JObj(d), StateRequiredFields);
  }

  /** The five required fields each pass their check: the shapes of the
      id, timestamp and DOI, a known status, and a dict of metadata. */
  ghost predicate RequiredValuesValid(d: Dict)
    requires AllRequiredPresent(d)
  {
    Field(d, "state_id").JStr? && ValidateStateId(Field(d, "state_id").s).0
    && Field(d, "timestamp").JStr? && ValidateTimestamp(Field(d, "timestamp").s).0
    && Field(d, "source_doi").JStr? && ValidateDoi(Field(d, "source_doi").s).0
    && Field(d, "epistemic_status").JStr? && Field(d, "epistemic_status").s in AllowedStatuses
    && Field(d, "metadata").JObj?
  }

  /** Each optional field present passes its check: a description of at most
      1000 characters, tags that are all strings, related ids that are all
      valid state ids, and a version of the X.Y.Z shape. */
  ghost predicate OptionalValuesValid(d: Dict)
  {
    (HasKey(d, "description") ==>
       Field(d, "description").JStr? && |Field(d, "description").s| <= MaxDescriptionLength)
    && (HasKey(d, "tags") ==>
          Field(d, "tags").JArr? && forall t | t in Field(d, "tags").items :: t.JStr?)
    && (HasKey(d, "related_states") ==>
          Field(d, "related_states").JArr? && forall t | t in Field(d, "related_states").items :: RelatedItemValid(t))
    && (HasKey(d, "version") ==> Field(d, "version").JStr? && ValidateVersion(Field(d, "version").s).0)
  }

  ghost predicate StateIsValid(d: Dict)
  {
    AllRequiredPresent(d) && RequiredValuesValid(d) && OptionalValuesValid(d)
  }

  lemma RelatedItemsErrorsEmpty(items: seq<Json>)
    ensures RelatedItemsErrors(items) == [] <==> forall t | t in items :: RelatedItemValid(t)
  {
    RelatedItemsErrorsEmptyAt(items);
    assert (forall t | t in items :: RelatedItemValid(t)) <==>
           (forall k | 0 <= k < |items| :: RelatedItemErrors(items[k]) == []);
  }

  lemma {:induction false} RelatedItemsErrorsEmptyAt(items: seq<Json>)
    ensures RelatedItemsErrors(items) == [] <==> forall k | 0 <= k < |items| :: RelatedItemErrors(items[k]) == []
    decreases |items|
  {
    if items != [] {
      var init, last := items[..|items| - 1], items[|items| - 1];
      RelatedItemsErrorsEmptyAt(init);
      assert RelatedItemsErrors(items) == RelatedItemsErrors(init) + RelatedItemErrors(last);
      if RelatedItemsErrors(items) == [] {
        assert |RelatedItemsErrors(init)| == 0 && |RelatedItemErrors(last)| == 0;
        forall k | 0 <= k < |items| ensures RelatedItemErrors(items[k]) == [] {
          if k < |init| { assert init[k] == items[k]; } else { assert k == |items| - 1; }
        }
      } else if RelatedItemErrors(last) == [] {
        var k :| 0 <= k < |init| && RelatedItemErrors(init[k]) != [];
        assert items[k] == init[k];
      }
    }
  }

  lemma StateIdErrorsEmpty(d: Dict)
    requires HasKey(d, "state_id")
    ensures StateIdErrors(JObj(d)) == Ok([]) <==>
              Field(d, "state_id").JStr? && ValidateStateId(Field(d, "state_id").s).0
  {
  }

  lemma TimestampErrorsEmpty(d: Dict)
    requires HasKey(d, "timestamp")
    ensures TimestampErrors(JObj(d)) == Ok([]) <==>
              Field(d, "timestamp").JStr? && ValidateTimestamp(Field(d, "timestamp").s).0
  {
  }

  lemma DoiErrorsEmpty(d: Dict)
    requires HasKey(d, "source_doi")
    ensures DoiErrors(JObj(d)) == Ok([]) <==>
              Field(d, "source_doi").JStr? && ValidateDoi(Field(d, "source_doi").s).0
  {
  }

  lemma StatusErrorsEmpty(d: Dict)
    requires HasKey(d, "epistemic_status")
    ensures StatusErrors(JObj(d)) == Ok([]) <==>
              Field(d, "epistemic_status").JStr? && Field(d, "epistemic_status").s in AllowedStatuses
  {
  }

  lemma RequiredValueErrorsEmpty(d: Dict)
    requires AllRequiredPresent(d)
    ensures RequiredValueErrors(JObj(d)) == Ok([]) <==> RequiredValuesValid(d)
  {
    var st := JObj(d);
    RequiredIsChain(st);
    ChainEmpty(StateIdErrors(st), TimestampErrors(st), DoiErrors(st), StatusErrors(st), MetadataErrors(st));
    StateIdErrorsEmpty(d);
    TimestampErrorsEmpty(d);
    DoiErrorsEmpty(d);
    StatusErrorsEmpty(d);
    MetadataErrorsEmpty(d);
  }

  /** Five checks run one after the other: the first exception stops the
      run, otherwise their errors are concatenated. */
  function Chain(a: Outcome<seq<string>>, b: Outcome<seq<string>>, c: Outcome<seq<string>>,
                 d: Outcome<seq<string>>, e: Outcome<seq<string>>): Outcome<seq<string>>
  {
    var x1 :- a;
    var x2 :- b;
    var x3 :- c;
    var x4 :- d;
    var x5 :- e;
    Ok(x1 + x2 + x3 + x4 + x5)
  }

  lemma ChainEmpty(a: Outcome<seq<string>>, b: Outcome<seq<string>>, c: Outcome<seq<string>>,
                   d: Outcome<seq<string>>, e: Outcome<seq<string>>)
    ensures Chain(a, b, c, d, e) == Ok([]) <==>
              a == Ok([]) && b == Ok([]) && c == Ok([]) && d == Ok([]) && e == Ok([])
  {
    if Chain(a, b, c, d, e) == Ok([]) {
      assert |a.value + b.value + c.value + d.value + e.value| == 0;
    } else if a == Ok([]) && b == Ok([]) && c == Ok([]) && d == Ok([]) {
      var empty: seq<string> := [];
      assert empty + empty + empty + empty == empty;
    }
  }

  lemma RequiredIsChain(st: Json)
    ensures RequiredValueErrors(st) == Chain(StateIdErrors(st), TimestampErrors(st), DoiErrors(st),
                                              StatusErrors(st), MetadataErrors(st))
  {
  }

  lemma MetadataErrorsEmpty(d: Dict)
    requires HasKey(d, "metadata")
    ensures MetadataErrors(JObj(d)) == Ok([]) <==> Field(d, "metadata").JObj?
  {
  }

  lemma TagsErrorsEmpty(d: Dict)
    ensures OptionalErrors(JObj(d), "tags", TagsValueErrors) == Ok([]) <==>
              (HasKey(d, "tags") ==> Field(d, "tags").JArr? && forall t | t in Field(d, "tags").items :: t.JStr?)
  {
    if HasKey(d, "tags") && Field(d, "tags").JArr? {
      var items := Field(d, "tags").items;
      assert (forall t | t in items :: t.JStr?) <==> (forall k | 0 <= k < |items| :: items[k].JStr?);
    }
  }

  lemma RelatedErrorsEmpty(d: Dict)
    ensures OptionalErrors(JObj(d), "related_states", RelatedValueErrors) == Ok([]) <==>
              (HasKey(d, "related_states") ==>
                 Field(d, "related_states").JArr?
                 && forall t | t in Field(d, "related_states").items :: RelatedItemValid(t))
  {
    if HasKey(d, "related_states") && Field(d, "related_states").JArr? {
      RelatedItemsErrorsEmpty(Field(d, "related_states").items);
    }
  }

  lemma DescriptionErrorsEmpty(d: Dict)
    ensures OptionalErrors(JObj(d), "description", DescriptionValueErrors) == Ok([]) <==>
              (HasKey(d, "description") ==>
                 Field(d, "description").JStr? && |Field(d, "description").s| <= MaxDescriptionLength)
  {
  }

  lemma VersionErrorsEmpty(d: Dict)
    ensures VersionErrors(JObj(d)) == Ok([]) <==>
              (HasKey(d, "version") ==> Field(d, "version").JStr? && ValidateVersion(Field(d, "version").s).0)
  {
  }

  lemma OptionalValueErrorsEmpty(d: Dict)
    ensures OptionalValueErrors(JObj(d)).Ok? && OptionalValueErrors(JObj(d)).value == []
            <==> OptionalValuesValid(d)
  {
    DescriptionErrorsEmpty(d);
    TagsErrorsEmpty(d);
    RelatedErrorsEmpty(d);
    VersionErrorsEmpty(d);
  }

  /** A dict state's errors are empty exactly when the state is valid. */
  lemma StateValidIff(d: Dict)
    ensures StateErrors(JObj(d)) == Ok([]) <==> StateIsValid(d)
  {
    if AllRequiredPresent(d) {
      AllPresentNoneAbsent(d);
      RequiredValueErrorsEmpty(d);
      OptionalValueErrorsEmpty(d);
    } else {
      MissingFieldsReturnEarly(d);
    }
  }

  /** With every required field present and no exception, the checks of
      state_id, timestamp and source_doi all run and their errors open the
      list in that order; a failing status or metadata check adds its own
      message after them. */
  lemma CompleteStateReportsEveryFailure(d: Dict)
    requires AllRequiredPresent(d)
    requires StateErrors(JObj(d)).Ok?
    ensures Field(d, "state_id").JStr? && Field(d, "timestamp").JStr? && Field(d, "source_doi").JStr?
    ensures var errs := StateErrors(JObj(d)).value;
            Reported(ValidateStateId(Field(d, "state_id").s))
            + Reported(ValidateTimestamp(Field(d, "timestamp").s))
            + Reported(ValidateDoi(Field(d, "source_doi").s)) <= errs
  {
    var st := JObj(d);
    RequiredDecomposes(d);
    ConcatParts(StateIdErrors(st).value + TimestampErrors(st).value + DoiErrors(st).value,
                StatusErrors(st).value, MetadataErrors(st).value, OptionalValueErrors(st).value);
  }

  /** With every required field present, a failing status check puts its
      message in the list. */
  lemma StatusReported(d: Dict)
    requires AllRequiredPresent(d)
    requires StateErrors(JObj(d)).Ok?
    ensures var status := Field(d, "epistemic_status");
            status.JStr? && status.s !in AllowedStatuses ==> StatusMsg(status.s) in StateErrors(JObj(d)).value
  {
    var status := Field(d, "epistemic_status");
    if status.JStr? && status.s !in AllowedStatuses {
      StatusErrorsOfRejected(d);
      LaterChecksInErrors(d);
    }
  }

  lemma StatusErrorsOfRejected(d: Dict)
    requires AllRequiredPresent(d)
    requires StateErrors(JObj(d)).Ok?
    requires Field(d, "epistemic_status").JStr? && Field(d, "epistemic_status").s !in AllowedStatuses
    ensures StatusErrors(JObj(d)).Ok?
    ensures StatusErrors(JObj(d)).value == [StatusMsg(Field(d, "epistemic_status").s)]
  {
    RequiredDecomposes(d);
    StatusRejected(Field(d, "epistemic_status").s);
  }

  lemma StatusRejected(status: string)
    requires status !in AllowedStatuses
    ensures ValidateEpistemicStatus(status) == (false, Some(StatusMsg(status)))
  {
  }

  /** With every required field present, a metadata value that is not a
      dict puts its message in the list. */
  lemma MetadataReported(d: Dict)
    requires AllRequiredPresent(d)
    requires StateErrors(JObj(d)).Ok?
    ensures !Field(d, "metadata").JObj? ==>
              "metadata must be a dictionary, got " + TypeName(Field(d, "metadata")) in StateErrors(JObj(d)).value
  {
    RequiredDecomposes(d);
    LaterChecksInErrors(d);
  }

  /** The status and metadata checks' messages all reach the state's list. */
  lemma LaterChecksInErrors(d: Dict)
    requires AllRequiredPresent(d)
    requires StateErrors(JObj(d)).Ok?
    ensures StatusErrors(JObj(d)).Ok? && MetadataErrors(JObj(d)).Ok?
    ensures forall x | x in StatusErrors(JObj(d)).value :: x in StateErrors(JObj(d)).value
    ensures forall x | x in MetadataErrors(JObj(d)).value :: x in StateErrors(JObj(d)).value
  {
    var st := JObj(d);
    RequiredDecomposes(d);
    ConcatParts(StateIdErrors(st).value + TimestampErrors(st).value + DoiErrors(st).value,
                StatusErrors(st).value, MetadataErrors(st).value, OptionalValueErrors(st).value);
  }

  lemma ConcatParts(a: seq<string>, s: seq<string>, m: seq<string>, o: seq<string>)
    ensures a <= a + s + m + o
    ensures forall x | x in s :: x in a + s + m + o
    ensures forall x | x in m :: x in a + s + m + o
  {
  }

  /** With every required field present, the error list is the required
      checks' errors, in order, then the optional ones. */
  lemma RequiredDecomposes(d: Dict)
    requires AllRequiredPresent(d)
    requires StateErrors(JObj(d)).Ok?
    ensures RequiredValueErrors(JObj(d)).Ok? && OptionalValueErrors(JObj(d)).Ok?
    ensures StateIdErrors(JObj(d)).Ok? && TimestampErrors(JObj(d)).Ok? && DoiErrors(JObj(d)).Ok?
    ensures StatusErrors(JObj(d)).Ok? && MetadataErrors(JObj(d)).Ok?
    ensures StateErrors(JObj(d)).value
            == StateIdErrors(JObj(d)).value + TimestampErrors(JObj(d)).value + DoiErrors(JObj(d)).value
               + StatusErrors(JObj(d)).value + MetadataErrors(JObj(d)).value + OptionalValueErrors(JObj(d)).value
    ensures Field(d, "state_id").JStr? && Field(d, "timestamp").JStr? && Field(d, "source_doi").JStr?
    ensures StateIdErrors(JObj(d)).value == Reported(ValidateStateId(Field(d, "state_id").s))
    ensures TimestampErrors(JObj(d)).value == Reported(ValidateTimestamp(Field(d, "timestamp").s))
    ensures DoiErrors(JObj(d)).value == Reported(ValidateDoi(Field(d, "source_doi").s))
    ensures StatusErrors(JObj(d)) == StatusValueErrors(Field(d, "epistemic_status"))
    ensures MetadataErrors(JObj(d)).value == MetadataValueErrors(Field(d, "metadata"))
  {
    AllPresentNoneAbsent(d);
  }

  // ---------------------------------------------------------------------
  // Optional fields

  /** The boundary of the description length check. */
  lemma DescriptionBoundary(s: string)
    ensures |s| == MaxDescriptionLength ==> DescriptionValueErrors(JStr(s)) == []
    ensures |s| == MaxDescriptionLength + 1 ==>
              DescriptionValueErrors(JStr(s)) == ["description exceeds maximum length of 1000 characters"]
  {
  }

  function BadRelated(items: seq<Json>, n: nat): set<nat>
    requires n <= |items|
  {
    set k: nat | k < n && !RelatedItemValid(items[k])
  }

  /** related_states yields one error per element that is not a valid state
      id, whatever the number of them. */
  lemma {:induction false} RelatedErrorsOnePerBadElement(items: seq<Json>)
    ensures |RelatedItemsErrors(items)| == |BadRelated(items, |items|)|
    decreases |items|
  {
    if items != [] {
      var n := |items| - 1;
      var init := items[..n];
      RelatedErrorsOnePerBadElement(init);
      assert |RelatedItemsErrors(items)| == |RelatedItemsErrors(init)| + |RelatedItemErrors(items[n])|;
      BadRelatedOfPrefix(items, n);
      BadRelatedStep(items, n);
    }
  }

  /** Which of the first n elements are bad does not depend on the later ones. */
  lemma BadRelatedOfPrefix(items: seq<Json>, n: nat)
    requires n <= |items|
    ensures BadRelated(items[..n], n) == BadRelated(items, n)
  {
    assert forall k | 0 <= k < n :: items[..n][k] == items[k];
  }

  lemma BadRelatedStep(items: seq<Json>, n: nat)
    requires n < |items|
    ensures |BadRelated(items, n + 1)| == |BadRelated(items, n)| + if RelatedItemValid(items[n]) then 0 else 1
  {
    if RelatedItemValid(items[n]) {
      BadRelatedKeep(items, n);
    } else {
      BadRelatedGrow(items, n);
    }
  }

  lemma BadRelatedKeep(items: seq<Json>, n: nat)
    requires n < |items| && RelatedItemValid(items[n])
    ensures BadRelated(items, n + 1) == BadRelated(items, n)
  {
  }

  lemma BadRelatedGrow(items: seq<Json>, n: nat)
    requires n < |items| && !RelatedItemValid(items[n])
    ensures BadRelated(items, n + 1) == BadRelated(items, n) + {n}
    ensures n !in BadRelated(items, n)
  {
  }

  // ---------------------------------------------------------------------
  // Registry of inline states

  /** The registry lacks a required field: only those fields are reported,
      and the states are not looked at. */
  lemma RegistryMissingReturnsEarly(registry: Dict)
    requires exists k | 0 <= k < |RegistryRequiredFields| :: !HasKey(registry, RegistryRequiredFields[k])
    ensures RegistryErrors(registry).Ok?
    ensures var errs := RegistryErrors(registry).value;
            errs != []
            && forall i | 0 <= i < |errs| ::
                 exists k | 0 <= k < |RegistryRequiredFields| ::
                   !HasKey(registry, RegistryRequiredFields[k])
                   && errs[i] == "Missing required registry field: " + RegistryRequiredFields[k]
  {
    var absent := AbsentFields(JObj(registry), RegistryRequiredFields).value;
    var k :| 0 <= k < |RegistryRequiredFields| && !HasKey(registry, RegistryRequiredFields[k]);
    assert RegistryRequiredFields[k] in absent;
    var errs := RegistryErrors(registry).value;
    forall i | 0 <= i < |errs|
      ensures exists k | 0 <= k < |RegistryRequiredFields| ::
                !HasKey(registry, RegistryRequiredFields[k])
                && errs[i] == "Missing required registry field: " + RegistryRequiredFields[k]
    {
      var m := IndexOf(RegistryRequiredFields, absent[i]);
      assert !HasKey(registry, RegistryRequiredFields[m]);
    }
  }

  /** A registry with every field but a non-list `states` has exactly one error. */
  lemma RegistryStatesNotList(registry: Dict)
    requires HasKey(registry, "registry_version") && HasKey(registry, "system")
    requires HasKey(registry, "created") && HasKey(registry, "states")
    requires !Field(registry, "states").JArr?
    ensures RegistryErrors(registry) == Ok(["states must be an array, got " + TypeName(Field(registry, "states"))])
  {
    NoneAbsent(JObj(registry), RegistryRequiredFields);
  }

  /** The id a state contributes to the set of ids seen, if any. */
  function IdKeyOf(state: Json): Option<Json>
  {
    if state.JObj? && HasKey(state.fields, "state_id") && Hashable(Field(state.fields, "state_id"))
    then Some(HashKey(Field(state.fields, "state_id")))
    else None
  }

  function KeysBefore(states: seq<Json>, n: nat): set<Json>
    requires n <= |states|
  {
    set j | 0 <= j < n && IdKeyOf(states[j]).Some? :: IdKeyOf(states[j]).value
  }

  /** The positions below n whose id already occurred at an earlier position. */
  function Repeats(states: seq<Json>, n: nat): set<nat>
    requires n <= |states|
  {
    set j: nat | j < n && IdKeyOf(states[j]).Some?
                 && exists i | 0 <= i < j :: IdKeyOf(states[i]) == IdKeyOf(states[j])
  }

  predicate IsDuplicateMsg(e: string)
  {
    |e| >= 20 && e[..20] == "Duplicate state_id: "
  }

  function CountDuplicateMsgs(errs: seq<string>): nat
  {
    if errs == [] then 0
    else CountDuplicateMsgs(errs[..|errs| - 1]) + (if IsDuplicateMsg(errs[|errs| - 1]) then 1 else 0)
  }

  lemma {:induction false} CountDuplicateMsgsAppend(a: seq<string>, b: seq<string>)
    ensures CountDuplicateMsgs(a + b) == CountDuplicateMsgs(a) + CountDuplicateMsgs(b)
    decreases |b|
  {
    if b != [] {
      CountDuplicateMsgsAppend(a, b[..|b| - 1]);
      assert (a + b)[..|a + b| - 1] == a + b[..|b| - 1];
      assert (a + b)[|a + b| - 1] == b[|b| - 1];
    } else {
      assert a + b == a;
    }
  }

  /** A duplicate-id message counts once. */
  lemma OneDuplicateMsg(id: Json)
    ensures CountDuplicateMsgs([DuplicateMsg(id)]) == 1
  {
    var e := DuplicateMsg(id);
    var none: seq<string> := [];
    assert e[..20] == "Duplicate state_id: ";
    assert [e][..0] == none;
  }

  lemma {:induction false} PrefixedAreNotDuplicates(i: nat, errs: seq<string>)
    ensures CountDuplicateMsgs(WithPrefix(EntryPrefix(i), errs)) == 0
    decreases |errs|
  {
    if errs != [] {
      var p := WithPrefix(EntryPrefix(i), errs);
      assert p[..|p| - 1] == WithPrefix(EntryPrefix(i), errs[..|errs| - 1]);
      PrefixedAreNotDuplicates(i, errs[..|errs| - 1]);
      assert p[|p| - 1][0] == 'S';
    }
  }

  /** In a state the scan got past, "has a hashable state_id" means "adds an id". */
  lemma InlineReportId(i: nat, state: Json, seen: set<Json>, check: Json -> Outcome<seq<string>>)
    requires InlineStateReport(i, state, seen, check).Ok?
    ensures check(state).Ok?
    ensures var entry := InlineStateReport(i, state, seen, check).value;
            var prefixed := WithPrefix(EntryPrefix(i), check(state).value);
            match IdKeyOf(state)
            case None => entry == (prefixed, seen)
            case Some(key) =>
              entry == (prefixed + (if key in seen then [DuplicateMsg(Field(state.fields, "state_id"))] else []),
                        seen + {key})
  {
  }

  /** After the first n inline states the set of ids seen holds exactly
      the ids met so far. */
  lemma {:induction false} ScanStatesSeen(states: seq<Json>, n: nat, check: Json -> Outcome<seq<string>>)
    requires n <= |states|
    requires ScanStates(states, n, check).Ok?
    ensures ScanStates(states, n, check).value.1 == KeysBefore(states, n)
  {
    if n > 0 {
      var m := n - 1;
      ScanStatesSeen(states, m, check);
      InlineReportId(m, states[m], ScanStates(states, m, check).value.1, check);
      KeysBeforeStep(states, m);
    }
  }

  lemma KeysBeforeStep(states: seq<Json>, m: nat)
    requires m < |states|
    ensures KeysBefore(states, m + 1) ==
              KeysBefore(states, m) + (if IdKeyOf(states[m]).Some? then {IdKeyOf(states[m]).value} else {})
  {
    var added := if IdKeyOf(states[m]).Some? then {IdKeyOf(states[m]).value} else {};
    forall x | x in KeysBefore(states, m + 1) ensures x in KeysBefore(states, m) + added {
      var j :| 0 <= j < m + 1 && IdKeyOf(states[j]).Some? && IdKeyOf(states[j]).value == x;
      if j < m {
        assert x in KeysBefore(states, m);
      }
    }
  }

  /** What the state at position m adds to the duplicate count: one exactly
      when its id was met before. */
  lemma InlineDuplicateCount(states: seq<Json>, m: nat, check: Json -> Outcome<seq<string>>)
    requires m < |states|
    requires InlineStateReport(m, states[m], KeysBefore(states, m), check).Ok?
    ensures check(states[m]).Ok?
    ensures var entry := InlineStateReport(m, states[m], KeysBefore(states, m), check).value.0;
            CountDuplicateMsgs(entry) == (if m in Repeats(states, m + 1) then 1 else 0)
            && |entry| == |check(states[m]).value| + (if m in Repeats(states, m + 1) then 1 else 0)
  {
    var state := states[m];
    var seen := KeysBefore(states, m);
    InlineReportId(m, state, seen, check);
    var prefixed := WithPrefix(EntryPrefix(m), check(state).value);
    var entry := InlineStateReport(m, state, seen, check).value.0;
    PrefixedAreNotDuplicates(m, check(state).value);
    match IdKeyOf(state)
    case None =>
      assert m !in Repeats(states, m + 1);
      assert entry == prefixed;
      assert CountDuplicateMsgs(entry) == 0;
    case Some(key) =>
      if key in seen {
        var i :| 0 <= i < m && IdKeyOf(states[i]).Some? && IdKeyOf(states[i]).value == key;
        assert m in Repeats(states, m + 1);
        var dup := [DuplicateMsg(Field(state.fields, "state_id"))];
        assert entry == prefixed + dup;
        CountDuplicateMsgsAppend(prefixed, dup);
        OneDuplicateMsg(Field(state.fields, "state_id"));
      } else {
        assert m !in Repeats(states, m + 1);
        assert entry == prefixed;
        assert CountDuplicateMsgs(entry) == 0;
      }
  }

  /** The positions below m + 1 that repeat an earlier id: those below m,
      and m itself when it does. */
  lemma RepeatsStep(states: seq<Json>, m: nat)
    requires m < |states|
    ensures Repeats(states, m + 1) == Repeats(states, m) + (if m in Repeats(states, m + 1) then {m} else {})
  {
  }

  /** One "Duplicate state_id" error for every position whose id occurred
      at an earlier position. */
  lemma {:induction false} ScanStatesDuplicates(states: seq<Json>, n: nat, check: Json -> Outcome<seq<string>>)
    requires n <= |states|
    requires ScanStates(states, n, check).Ok?
    ensures CountDuplicateMsgs(ScanStates(states, n, check).value.0) == |Repeats(states, n)|
  {
    if n > 0 {
      var m := n - 1;
      ScanStatesDuplicates(states, m, check);
      ScanStatesSeen(states, m, check);
      InlineDuplicateCount(states, m, check);
      var before := ScanStates(states, m, check).value;
      var entry := InlineStateReport(m, states[m], before.1, check).value;
      CountDuplicateMsgsAppend(before.0, entry.0);
      RepeatsStep(states, m);
    }
  }

  /** The scan reports nothing exactly when the check found nothing in any
      state so far and no id repeated. */
  lemma {:induction false} ScanStatesClean(states: seq<Json>, n: nat, check: Json -> Outcome<seq<string>>)
    requires n <= |states|
    requires ScanStates(states, n, check).Ok?
    ensures ScanStates(states, n, check).value.0 == [] <==>
              (forall j | 0 <= j < n :: check(states[j]) == Ok([])) && Repeats(states, n) == {}
  {
    if n > 0 {
      var m := n - 1;
      ScanStatesClean(states, m, check);
      ScanStatesCleanStep(states, m, check);
      RepeatsStep(states, m);
      CleanBeforeStep(states, m, check);
      assert Repeats(states, n) == {} <==> Repeats(states, m) == {} && m !in Repeats(states, n);
    }
  }

  predicate CleanBefore(states: seq<Json>, n: nat, check: Json -> Outcome<seq<string>>)
    requires n <= |states|
  {
    forall j | 0 <= j < n :: check(states[j]) == Ok([])
  }

  lemma CleanBeforeStep(states: seq<Json>, m: nat, check: Json -> Outcome<seq<string>>)
    requires m < |states|
    ensures CleanBefore(states, m + 1, check) <==> CleanBefore(states, m, check) && check(states[m]) == Ok([])
  {
  }

  /** State m adds no error exactly when the check finds nothing in it and
      its id is not a repeat. */
  lemma ScanStatesCleanStep(states: seq<Json>, m: nat, check: Json -> Outcome<seq<string>>)
    requires m < |states|
    requires ScanStates(states, m + 1, check).Ok?
    ensures ScanStates(states, m, check).Ok?
    ensures ScanStates(states, m + 1, check).value.0 == [] <==>
              ScanStates(states, m, check).value.0 == [] && check(states[m]) == Ok([])
              && m !in Repeats(states, m + 1)
  {
    ScanStatesSeen(states, m, check);
    InlineDuplicateCount(states, m, check);
  }

  // ---------------------------------------------------------------------
  // Lookup by id

  /** `get_state_by_id` over a list of dicts finds an entry carrying the id
      whenever one exists, and it is the first such entry. */
  lemma GetStateByIdFindsFirst(registry: Dict, stateId: string, k: nat)
    requires Lookup(registry, "states").Some? && Field(registry, "states").JArr?
    requires var states := Field(registry, "states").items;
             k < |states| && states[k].JObj? && HasStateId(states[k], stateId)
             && PassedOver(states, stateId, k)
    ensures GetStateById(registry, stateId) == Ok(Some(Field(registry, "states").items[k]))
  {
    FirstWithIdFinds(Field(registry, "states").items, stateId, k);
  }

  lemma {:induction false} FirstWithIdFinds(states: seq<Json>, stateId: string, k: nat)
    requires k < |states| && states[k].JObj? && HasStateId(states[k], stateId)
    requires PassedOver(states, stateId, k)
    ensures FirstWithId(states, stateId) == Ok(Some(states[k]))
  {
    if k > 0 {
      var tail := states[1..];
      assert states[0].JObj? && !HasStateId(states[0], stateId);
      assert PassedOver(tail, stateId, k - 1) by {
        forall j | 0 <= j < k - 1 ensures tail[j].JObj? && !HasStateId(tail[j], stateId) {
          assert tail[j] == states[j + 1];
        }
      }
      FirstWithIdFinds(tail, stateId, k - 1);
    }
  }

  /** Without a `states` key the lookup finds nothing. */
  lemma GetStateByIdWithoutStates(registry: Dict, stateId: string)
    requires !HasKey(registry, "states")
    ensures GetStateById(registry, stateId) == Ok(None)
  {
  }
}
