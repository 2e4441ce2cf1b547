/** The string shapes the field validators accept. Each regular expression
    is written twice: as the language it denotes (existential splits that
    follow the regex term by term) and as a scanner that decides it; a
    lemma proves the two agree. `FullMatch` adds Python's reading of a
    trailing `$`. */
module FieldPatterns {
  import opened Text

  predicate IsIdChar(c: char) { ('a' <= c <= 'z') || IsDigit(c) || c == '_' }

  predicate AllIdChars(s: string) { forall i | 0 <= i < |s| :: IsIdChar(s[i]) }

  predicate NoWhitespace(s: string) { forall i | 0 <= i < |s| :: !IsPyWhitespace(s[i]) }

  predicate EndsWithNewline(s: string) { |s| >= 1 && s[|s| - 1] == '\n' }

  function Chomp(s: string): string
    requires EndsWithNewline(s)
  {
    s[..|s| - 1]
  }

  /** `re.match("^" + p + "$", s)` for a pattern p that cannot match a
      newline: `$` matches at the end of the input or just before one final
      newline, so the body must match all of s or all of s but that newline. */
  predicate FullMatch(body: string -> bool, s: string)
  {
    body(s) || (EndsWithNewline(s) && body(Chomp(s)))
  }

  // ---------------------------------------------------------------------
  // Scanning helpers

  /** The length of the run of digits that ends s. */
  function TrailingDigits(s: string): (n: nat)
    ensures n <= |s| && AllDigits(s[|s| - n..])
    ensures n < |s| ==> !IsDigit(s[|s| - n - 1])
  {
    if s == [] || !IsDigit(s[|s| - 1]) then 0
    else
      var n := 1 + TrailingDigits(s[..|s| - 1]);
      assert s[|s| - n..] == s[..|s| - 1][|s| - n..] + [s[|s| - 1]];
      n
  }

  /** The length of the run of digits that starts s. */
  function LeadingDigits(s: string): (n: nat)
    ensures n <= |s| && AllDigits(s[..n])
    ensures n < |s| ==> !IsDigit(s[n])
  {
    if s == [] || !IsDigit(s[0]) then 0
    else
      var n := 1 + LeadingDigits(s[1..]);
      assert s[..n] == [s[0]] + s[1..][..n - 1];
      n
  }

  lemma {:induction false} LeadingDigitsExact(s: string, n: nat)
    requires n <= |s| && AllDigits(s[..n]) && (n < |s| ==> !IsDigit(s[n]))
    ensures LeadingDigits(s) == n
    decreases |s|
  {
    if n > 0 {
      var t, u, v := s[1..], s[1..][..n - 1], s[..n];
      assert IsDigit(v[0]);
      assert AllDigits(u) by {
        forall i | 0 <= i < n - 1 ensures IsDigit(u[i]) { assert u[i] == v[i + 1]; }
      }
      if n < |s| { assert t[n - 1] == s[n]; }
      LeadingDigitsExact(t, n - 1);
    }
  }

  /** Index of the first '/' in s, or |s| when there is none. */
  function FirstSlash(s: string): (k: nat)
    ensures k <= |s| && (k < |s| ==> s[k] == '/')
    ensures forall i | 0 <= i < k :: s[i] != '/'
  {
    if s == [] then 0
    else if s[0] == '/' then 0
    else 1 + FirstSlash(s[1..])
  }

  // ---------------------------------------------------------------------
  // state_id: [a-z0-9_]+_[0-9]{3,}

  ghost predicate InStateIdLanguage(s: string)
  {
    exists k | 1 <= k && k + 4 <= |s| ::
      AllIdChars(s[..k]) && s[k] == '_' && AllDigits(s[k + 1..])
  }

  /** The digits after the last '_' are the `[0-9]{3,}` part, so the scanner
      measures the trailing digit run and checks what precedes it. */
  predicate StateIdBody(s: string)
  {
    var t := TrailingDigits(s);
    t >= 3 && |s| >= t + 2 && s[|s| - t - 1] == '_' && AllIdChars(s[..|s| - t - 1])
  }

  lemma StateIdBodyIsLanguage(s: string)
    ensures StateIdBody(s) <==> InStateIdLanguage(s)
  {
    var t := TrailingDigits(s);
    if StateIdBody(s) {
      var k := |s| - t - 1;
      assert s[k + 1..] == s[|s| - t..];
      assert AllIdChars(s[..k]) && s[k] == '_' && AllDigits(s[k + 1..]);
    }
    if InStateIdLanguage(s) {
      var k :| 1 <= k && k + 4 <= |s| && AllIdChars(s[..k]) && s[k] == '_' && AllDigits(s[k + 1..]);
    }
  }

  // ---------------------------------------------------------------------
  // DOI: 10\.[0-9]{4,}(\.[0-9]+)*/[^\s]+

  /** `(\.[0-9]+)*` */
  ghost predicate InDotGroupsLanguage(g: string)
    decreases |g|
  {
    g == []
    || exists j | 2 <= j <= |g| :: g[0] == '.' && IsDigitRun(g[1..j]) && InDotGroupsLanguage(g[j..])
  }

  ghost predicate InDoiLanguage(s: string)
  {
    exists j, k | 7 <= j <= k && k + 2 <= |s| ::
      s[..3] == "10." && AllDigits(s[3..j]) && InDotGroupsLanguage(s[j..k])
      && s[k] == '/' && NoWhitespace(s[k + 1..])
  }

  predicate DotGroups(g: string)
    decreases |g|
  {
    g == []
    || (g[0] == '.' && var d := LeadingDigits(g[1..]); d >= 1 && DotGroups(g[1 + d..]))
  }

  lemma DotGroupsIsLanguage(g: string)
    ensures DotGroups(g) <==> InDotGroupsLanguage(g)
  {
    if DotGroups(g) { DotGroupsSound(g); }
    if InDotGroupsLanguage(g) { DotGroupsComplete(g); }
  }

  lemma {:induction false} DotGroupsSound(g: string)
    requires DotGroups(g)
    ensures InDotGroupsLanguage(g)
    decreases |g|
  {
    if g != [] {
      var d := LeadingDigits(g[1..]);
      DotGroupsSound(g[1 + d..]);
      assert g[1..1 + d] == g[1..][..d];
      assert IsDigitRun(g[1..1 + d]);
    }
  }

  lemma {:induction false} DotGroupsComplete(g: string)
    requires InDotGroupsLanguage(g)
    ensures DotGroups(g)
    decreases |g|
  {
    if g != [] {
      var j :| 2 <= j <= |g| && g[0] == '.' && IsDigitRun(g[1..j]) && InDotGroupsLanguage(g[j..]);
      var t := g[1..];
      assert t[..j - 1] == g[1..j];
      if j < |g| {
        assert t[j - 1] == g[j];
        assert g[j..][0] == g[j];
      }
      LeadingDigitsExact(t, j - 1);
      DotGroupsComplete(g[j..]);
      assert g[1 + (j - 1)..] == g[j..];
    }
  }

  predicate DoiBody(s: string)
  {
    |s| >= 3 && s[..3] == "10."
    && var k := FirstSlash(s);
    k >= 3 && k + 2 <= |s|
    && var d := LeadingDigits(s[3..k]);
    d >= 4 && DotGroups(s[3 + d..k]) && NoWhitespace(s[k + 1..])
  }

  /** Digits and dots contain no '/'. */
  lemma DotGroupsNoSlash(g: string, i: nat)
    requires InDotGroupsLanguage(g) && i < |g|
    ensures g[i] != '/'
    decreases |g|
  {
    var j :| 2 <= j <= |g| && g[0] == '.' && IsDigitRun(g[1..j]) && InDotGroupsLanguage(g[j..]);
    if i >= j {
      DotGroupsNoSlash(g[j..], i - j);
    } else if i > 0 {
      assert g[1..j][i - 1] == g[i];
    }
  }

  lemma DoiBodyIsLanguage(s: string)
    ensures DoiBody(s) <==> InDoiLanguage(s)
  {
    if DoiBody(s) { DoiBodySound(s); }
    if InDoiLanguage(s) { DoiBodyComplete(s); }
  }

  lemma DoiBodySound(s: string)
    requires DoiBody(s)
    ensures InDoiLanguage(s)
  {
    var k := FirstSlash(s);
    var d := LeadingDigits(s[3..k]);
    var j := 3 + d;
    assert AllDigits(s[3..j]) by { assert s[3..j] == s[3..k][..d]; }
    DotGroupsSound(s[j..k]);
    DoiWitness(s, j, k);
  }

  lemma DoiWitness(s: string, j: nat, k: nat)
    requires 7 <= j <= k && k + 2 <= |s|
    requires s[..3] == "10." && AllDigits(s[3..j]) && InDotGroupsLanguage(s[j..k])
    requires s[k] == '/' && NoWhitespace(s[k + 1..])
    ensures InDoiLanguage(s)
  {
  }

  /** In a string of the DOI language, the '/' after the prefix is the first one. */
  lemma DoiSlashIsFirst(s: string, j: nat, k: nat)
    requires 7 <= j <= k < |s| && s[..3] == "10." && AllDigits(s[3..j])
    requires InDotGroupsLanguage(s[j..k]) && s[k] == '/'
    ensures FirstSlash(s) == k
  {
    forall i | 0 <= i < k ensures s[i] != '/' {
      if i < 3 { assert s[..3][i] == s[i]; }
      else if i < j { assert s[3..j][i - 3] == s[i]; }
      else { DotGroupsNoSlash(s[j..k], i - j); assert s[j..k][i - j] == s[i]; }
    }
  }

  lemma DoiBodyComplete(s: string)
    requires InDoiLanguage(s)
    ensures DoiBody(s)
  {
    var j, k :| 7 <= j <= k && k + 2 <= |s| && s[..3] == "10." && AllDigits(s[3..j])
      && InDotGroupsLanguage(s[j..k]) && s[k] == '/' && NoWhitespace(s[k + 1..]);
    DoiSplitIsScanned(s, j, k);
  }

  /** The scanner finds the split a DOI of the language was written with. */
  lemma DoiSplitIsScanned(s: string, j: nat, k: nat)
    requires 7 <= j <= k && k + 2 <= |s| && s[..3] == "10." && AllDigits(s[3..j])
    requires InDotGroupsLanguage(s[j..k]) && s[k] == '/' && NoWhitespace(s[k + 1..])
    ensures DoiBody(s)
  {
    DoiSlashIsFirst(s, j, k);
    var m := s[3..k];
    assert m[..j - 3] == s[3..j];
    if j < k {
      assert s[j..k][0] == '.';
      assert m[j - 3] == s[j];
    }
    LeadingDigitsExact(m, j - 3);
    assert s[3 + (j - 3)..k] == s[j..k];
    DotGroupsComplete(s[j..k]);
  }

  // ---------------------------------------------------------------------
  // version: [0-9]+\.[0-9]+\.[0-9]+

  ghost predicate InVersionLanguage(s: string)
  {
    exists i, j | 1 <= i && i + 2 <= j && j + 2 <= |s| ::
      AllDigits(s[..i]) && s[i] == '.' && AllDigits(s[i + 1..j]) && s[j] == '.' && AllDigits(s[j + 1..])
  }

  predicate VersionBody(s: string)
  {
    var a := LeadingDigits(s);
    a >= 1 && a < |s| && s[a] == '.'
    && var b := LeadingDigits(s[a + 1..]);
    b >= 1 && a + 1 + b < |s| && s[a + 1 + b] == '.' && IsDigitRun(s[a + 2 + b..])
  }

  lemma VersionBodyIsLanguage(s: string)
    ensures VersionBody(s) <==> InVersionLanguage(s)
  {
    if VersionBody(s) { VersionBodySound(s); }
    if InVersionLanguage(s) { VersionBodyComplete(s); }
  }

  lemma VersionBodySound(s: string)
    requires VersionBody(s)
    ensures InVersionLanguage(s)
  {
    var a := LeadingDigits(s);
    var b := LeadingDigits(s[a + 1..]);
    assert s[a + 1..a + 1 + b] == s[a + 1..][..b];
    assert s[a + 1 + b + 1..] == s[a + 2 + b..];
    var i, j := a, a + 1 + b;
    assert AllDigits(s[..i]) && s[i] == '.' && AllDigits(s[i + 1..j]) && s[j] == '.' && AllDigits(s[j + 1..]);
  }

  lemma VersionBodyComplete(s: string)
    requires InVersionLanguage(s)
    ensures VersionBody(s)
  {
    var i, j :| 1 <= i && i + 2 <= j && j + 2 <= |s| && AllDigits(s[..i]) && s[i] == '.'
      && AllDigits(s[i + 1..j]) && s[j] == '.' && AllDigits(s[j + 1..]);
    VersionSplitIsGreedy(s, i, j);
  }

  lemma VersionSplitIsGreedy(s: string, i: nat, j: nat)
    requires 1 <= i && i + 2 <= j && j + 2 <= |s|
    requires AllDigits(s[..i]) && s[i] == '.' && AllDigits(s[i + 1..j]) && s[j] == '.'
    requires AllDigits(s[j + 1..])
    ensures VersionBody(s)
  {
    LeadingDigitsExact(s, i);
    var rest := s[i + 1..];
    assert rest[..j - i - 1] == s[i + 1..j];
    assert rest[j - i - 1] == s[j];
    LeadingDigitsExact(rest, j - i - 1);
    assert LeadingDigits(s) == i && LeadingDigits(s[i + 1..]) == j - i - 1;
    assert s[i + 2 + (j - i - 1)..] == s[j + 1..];
  }

  // ---------------------------------------------------------------------
  // The anchored patterns, trailing newline included

  lemma StateIdMatchIsLanguage(s: string)
    ensures FullMatch(StateIdBody, s)
            <==> InStateIdLanguage(s) || (EndsWithNewline(s) && InStateIdLanguage(Chomp(s)))
  {
    StateIdBodyIsLanguage(s);
    if EndsWithNewline(s) { StateIdBodyIsLanguage(Chomp(s)); }
  }

  lemma DoiMatchIsLanguage(s: string)
    ensures FullMatch(DoiBody, s)
            <==> InDoiLanguage(s) || (EndsWithNewline(s) && InDoiLanguage(Chomp(s)))
  {
    DoiBodyIsLanguage(s);
    if EndsWithNewline(s) { DoiBodyIsLanguage(Chomp(s)); }
  }

  lemma VersionMatchIsLanguage(s: string)
    ensures FullMatch(VersionBody, s)
            <==> InVersionLanguage(s) || (EndsWithNewline(s) && InVersionLanguage(Chomp(s)))
  {
    VersionBodyIsLanguage(s);
    if EndsWithNewline(s) { VersionBodyIsLanguage(Chomp(s)); }
  }

  // ---------------------------------------------------------------------
  // timestamp: [0-9]{4}-[0-9]{2}-[0-9]{2}T[0-9]{2}:[0-9]{2}:[0-9]{2}Z

  /** The regex is fixed-width, so its language is a shape of 20 characters. */
  predicate TimestampShape(s: string)
  {
    |s| == 20
    && AllDigits(s[0..4]) && s[4] == '-' && AllDigits(s[5..7]) && s[7] == '-'
    && AllDigits(s[8..10]) && s[10] == 'T' && AllDigits(s[11..13]) && s[13] == ':'
    && AllDigits(s[14..16]) && s[16] == ':' && AllDigits(s[17..19]) && s[19] == 'Z'
  }

  datatype DateTime = DateTime(year: nat, month: nat, day: nat, hour: nat, minute: nat, second: nat)

  /** The numbers written in the six digit groups of a timestamp. */
  function TimestampFields(s: string): DateTime
    requires TimestampShape(s)
  {
    DateTime(DigitsValue(s[0..4]), DigitsValue(s[5..7]), DigitsValue(s[8..10]),
             DigitsValue(s[11..13]), DigitsValue(s[14..16]), DigitsValue(s[17..19]))
  }

  predicate IsLeapYear(y: nat) { y % 4 == 0 && (y % 100 != 0 || y % 400 == 0) }

  function DaysInMonth(y: nat, m: nat): nat
    requires 1 <= m <= 12
  {
    if m == 2 then (if IsLeapYear(y) then 29 else 28)
    else if m == 4 || m == 6 || m == 9 || m == 11 then 30
    else 31
  }

  /** A real proleptic-Gregorian instant, as Python's `datetime` accepts it. */
  predicate IsRealDateTime(dt: DateTime)
  {
    1 <= dt.year && 1 <= dt.month <= 12 && 1 <= dt.day <= DaysInMonth(dt.year, dt.month)
    && dt.hour < 24 && dt.minute < 60 && dt.second < 60
  }

  function Pow10(w: nat): nat { if w == 0 then 1 else 10 * Pow10(w - 1) }

  /** n written with exactly w digits, zero-padded on the left. */
  function PadDigits(n: nat, w: nat): (r: string)
    requires n < Pow10(w)
    ensures |r| == w && AllDigits(r) && DigitsValue(r) == n
  {
    if w == 0 then ""
    else
      var r := PadDigits(n / 10, w - 1) + [DigitChar(n % 10)];
      assert r[..|r| - 1] == PadDigits(n / 10, w - 1);
      r
  }

  /** `dt.strftime("%Y-%m-%dT%H:%M:%SZ")` for a four-digit year. */
  function FormatTimestamp(dt: DateTime): string
    requires dt.year < 10000 && dt.month < 100 && dt.day < 100
    requires dt.hour < 100 && dt.minute < 100 && dt.second < 100
  {
    FormatDate(dt) + FormatTime(dt)
  }

  /** The `%Y-%m-%d` half of the timestamp format. */
  function FormatDate(dt: DateTime): string
    requires dt.year < 10000 && dt.month < 100 && dt.day < 100
  {
    PadDigits(dt.year, 4) + "-" + PadDigits(dt.month, 2) + "-" + PadDigits(dt.day, 2)
  }

  /** The `T%H:%M:%SZ` half of the timestamp format. */
  function FormatTime(dt: DateTime): string
    requires dt.hour < 100 && dt.minute < 100 && dt.second < 100
  {
    "T" + PadDigits(dt.hour, 2) + ":" + PadDigits(dt.minute, 2) + ":" + PadDigits(dt.second, 2) + "Z"
  }

  /** Formatting a date-time gives a string of the timestamp shape whose
      digit groups read back as the same date-time. */
  lemma FormatTimestampRoundTrip(dt: DateTime)
    requires dt.year < 10000 && dt.month < 100 && dt.day < 100
    requires dt.hour < 100 && dt.minute < 100 && dt.second < 100
    ensures TimestampShape(FormatTimestamp(dt))
    ensures TimestampFields(FormatTimestamp(dt)) == dt
  {
    var s := FormatTimestamp(dt);
    var date, time := FormatDate(dt), FormatTime(dt);
    assert |date| == 10 && |time| == 10;
    assert s[0..4] == PadDigits(dt.year, 4);
    assert s[5..7] == PadDigits(dt.month, 2);
    assert s[8..10] == PadDigits(dt.day, 2);
    assert s[11..13] == PadDigits(dt.hour, 2);
    assert s[14..16] == PadDigits(dt.minute, 2);
    assert s[17..19] == PadDigits(dt.second, 2);
  }

  /** A digit string is the padded rendering of its own value at its own width. */
  lemma {:induction false} PadDigitsOfValue(d: string)
    requires AllDigits(d)
    ensures DigitsValue(d) < Pow10(|d|)
    ensures PadDigits(DigitsValue(d), |d|) == d
  {
    if d != [] {
      var init := d[..|d| - 1];
      assert AllDigits(init) by {
        forall i | 0 <= i < |init| ensures IsDigit(init[i]) { assert init[i] == d[i]; }
      }
      PadDigitsOfValue(init);
      var n := DigitsValue(d);
      assert n / 10 == DigitsValue(init) && n % 10 == DigitValue(d[|d| - 1]);
      assert d == init + [d[|d| - 1]];
    }
  }

  /** Every string of the timestamp shape is the rendering of the date-time
      its digit groups denote: the shape has a single spelling per instant. */
  lemma TimestampIsFormatted(s: string)
    requires TimestampShape(s)
    ensures var dt := TimestampFields(s);
            dt.year < 10000 && dt.month < 100 && dt.day < 100
            && dt.hour < 100 && dt.minute < 100 && dt.second < 100
            && FormatTimestamp(dt) == s
  {
    var dt := TimestampFields(s);
    DateIsFormatted(s);
    TimeIsFormatted(s);
    assert s == s[..10] + s[10..];
  }

  lemma DateIsFormatted(s: string)
    requires TimestampShape(s)
    ensures var dt := TimestampFields(s);
            dt.year < 10000 && dt.month < 100 && dt.day < 100
            && FormatDate(dt) == s[..10]
  {
    PadDigitsOfValue(s[0..4]);
    PadDigitsOfValue(s[5..7]);
    PadDigitsOfValue(s[8..10]);
    assert s[..10] == s[0..4] + [s[4]] + s[5..7] + [s[7]] + s[8..10];
  }

  lemma TimeIsFormatted(s: string)
    requires TimestampShape(s)
    ensures var dt := TimestampFields(s);
            dt.hour < 100 && dt.minute < 100 && dt.second < 100
            && FormatTime(dt) == s[10..]
  {
    PadDigitsOfValue(s[11..13]);
    PadDigitsOfValue(s[14..16]);
    PadDigitsOfValue(s[17..19]);
    assert s[10..] == [s[10]] + s[11..13] + [s[13]] + s[14..16] + [s[16]] + s[17..19] + [s[19]];
  }
}
