/** Properties of the issue report: one issue per engine error, sorted,
    independent of the order the engine yields errors in, and a failure
    message whose lines are the header and the numbered issues. */
module IssueReportProperties {
  import opened Text
  import opened PyValues
  import opened SchemaErrors
  import opened Sorting
  import opened IssueReport

  // ---------------------------------------------------------------------
  // Normalisation

  /** Each engine error becomes exactly one issue: none is dropped or added. */
  lemma NormaliseIsPermutation(found: seq<SchemaError>)
    ensures multiset(Normalise(found)) == multiset(MapSeq(ToIssue, found))
  {
    ErrorLeTotalOrder();
    IssueLeTotalOrder();
    var errors := SortBy(found, ErrorLe);
    SortByIsSortedPermutation(found, ErrorLe);
    MapPermutes(ToIssue, errors, found);
    SortByIsSortedPermutation(MapSeq(ToIssue, errors), IssueLe);
  }

  /** The issues come out sorted by (pointer, message). */
  lemma NormaliseSorted(found: seq<SchemaError>)
    ensures SortedBy(Normalise(found), IssueLe)
  {
    IssueLeTotalOrder();
    SortByIsSortedPermutation(MapSeq(ToIssue, SortBy(found, ErrorLe)), IssueLe);
  }

  /** The report is THE sorted arrangement of the errors' issues: a
      sequence is the report exactly when it is sorted and holds the same
      issues. */
  lemma NormaliseCharacterised(found: seq<SchemaError>, r: seq<Issue>)
    ensures r == Normalise(found) <==> SortedBy(r, IssueLe) && multiset(r) == multiset(MapSeq(ToIssue, found))
  {
    NormaliseIsPermutation(found);
    NormaliseSorted(found);
    if SortedBy(r, IssueLe) && multiset(r) == multiset(MapSeq(ToIssue, found)) {
      IssueLeTotalOrder();
      SortedUnique(r, Normalise(found), IssueLe);
    }
  }

  /** The first sort, by (path components, message), has no effect on the result. */
  lemma FirstSortIsRedundant(found: seq<SchemaError>)
    ensures Normalise(found) == SortBy(MapSeq(ToIssue, found), IssueLe)
  {
    ErrorLeTotalOrder();
    IssueLeTotalOrder();
    SortByIsSortedPermutation(found, ErrorLe);
    MapPermutes(ToIssue, SortBy(found, ErrorLe), found);
    SortByDependsOnMultiset(MapSeq(ToIssue, SortBy(found, ErrorLe)), MapSeq(ToIssue, found), IssueLe);
  }

  /** The report does not depend on the order the engine yields errors in. */
  lemma NormaliseIgnoresEngineOrder(found: seq<SchemaError>, other: seq<SchemaError>)
    requires multiset(found) == multiset(other)
    ensures Normalise(found) == Normalise(other)
  {
    NormaliseIsPermutation(found);
    NormaliseIsPermutation(other);
    MapPermutes(ToIssue, found, other);
    NormaliseSorted(found);
    NormaliseSorted(other);
    IssueLeTotalOrder();
    SortedUnique(Normalise(found), Normalise(other), IssueLe);
  }

  lemma SmallPointers()
    ensures PointerPath([Index(2)]) == "/2" && PointerPath([Index(10)]) == "/10"
  {
    assert DigitChar(0) == '0' && DigitChar(1) == '1';
    assert NatToString(10) == NatToString(1) + [DigitChar(0)] == "10";
    assert ElemTexts([Index(2)]) == ["2"] && ElemTexts([Index(10)]) == ["10"];
  }

  lemma TenBeforeTwo()
    ensures StrLe("/10", "/2") && "/10" != "/2"
  {
    assert "/10"[1..] == "10" && "/2"[1..] == "2";
  }

  /** Issues are ordered by the pointer as a string: "/10" precedes "/2". */
  lemma StringOrderOfPointers()
    ensures Normalise([SchemaError([Index(2)], "m"), SchemaError([Index(10)], "m")])
         == [Issue("/10", "m"), Issue("/2", "m")]
  {
    var found := [SchemaError([Index(2)], "m"), SchemaError([Index(10)], "m")];
    var r := [Issue("/10", "m"), Issue("/2", "m")];
    SmallPointers();
    TenBeforeTwo();
    assert MapSeq(ToIssue, found) == [r[1], r[0]];
    assert multiset(r) == multiset(MapSeq(ToIssue, found));
    assert SortedBy(r, IssueLe);
    NormaliseCharacterised(found, r);
  }

  // ---------------------------------------------------------------------
  // Pointer paths

  /** A non-root pointer splits back into its components' texts when no
      component contains `/`. */
  lemma PointerPathSplits(path: seq<PathElem>)
    requires path != []
    requires forall k | 0 <= k < |path| :: !Mentions(ElemText(path[k]), '/')
    ensures Split(PointerPath(path), '/') == [""] + ElemTexts(path)
  {
    var texts := ElemTexts(path);
    SplitJoin(texts, '/');
    SplitPrefix("", Join(texts, "/"), '/');
    assert "" + ['/'] + Join(texts, "/") == PointerPath(path);
  }

  /** Two paths whose components contain no `/` get the same pointer only
      when their components have the same texts. */
  lemma PointerPathInjective(p: seq<PathElem>, q: seq<PathElem>)
    requires p != [] && q != []
    requires forall k | 0 <= k < |p| :: !Mentions(ElemText(p[k]), '/')
    requires forall k | 0 <= k < |q| :: !Mentions(ElemText(q[k]), '/')
    requires PointerPath(p) == PointerPath(q)
    ensures ElemTexts(p) == ElemTexts(q)
  {
    PointerPathSplits(p);
    PointerPathSplits(q);
    assert ElemTexts(p) == ([""] + ElemTexts(p))[1..];
    assert ElemTexts(q) == ([""] + ElemTexts(q))[1..];
  }

  /** Components are not escaped: the root and an empty property name, and a
      name holding `/` and two nested names, share a pointer. */
  lemma PointersAreNotEscaped()
    ensures PointerPath([Key("")]) == PointerPath([])
    ensures PointerPath([Key("a/b")]) == PointerPath([Key("a"), Key("b")])
  {
    assert ElemTexts([Key("")]) == [""];
    assert ElemTexts([Key("a/b")]) == ["a/b"];
    assert ElemTexts([Key("a"), Key("b")]) == ["a", "b"];
  }

  // ---------------------------------------------------------------------
  // The failure message

  lemma DigitsHaveNoNewline(s: string)
    requires AllDigits(s)
    ensures !Mentions(s, '\n')
  {
  }

  lemma IssueLineHasNoNewline(i: nat, issue: Issue)
    requires !Mentions(issue.jsonPath, '\n') && !Mentions(issue.message, '\n')
    ensures !Mentions(IssueLine(i, issue), '\n')
  {
    DigitsHaveNoNewline(Pad2(i));
    MentionsAppend(Pad2(i), ". ", '\n');
    MentionsAppend(Pad2(i) + ". ", issue.jsonPath, '\n');
    MentionsAppend(Pad2(i) + ". " + issue.jsonPath, ": ", '\n');
    MentionsAppend(Pad2(i) + ". " + issue.jsonPath + ": ", issue.message, '\n');
  }

  /** When no pointer or message holds a newline, the lines of the message
      are the header followed by one numbered line per issue, in order. */
  lemma FailureMessageLines(issues: seq<Issue>)
    requires forall k | 0 <= k < |issues| :: !Mentions(issues[k].jsonPath, '\n') && !Mentions(issues[k].message, '\n')
    ensures Split(FailureMessage(issues), '\n') == [Header(|issues|)] + IssueLines(issues)
  {
    var parts := [Header(|issues|)] + IssueLines(issues);
    var n := NatToString(|issues|);
    DigitsHaveNoNewline(n);
    MentionsAppend("Validation failed (", n, '\n');
    MentionsAppend("Validation failed (" + n, " issues):", '\n');
    forall k | 0 <= k < |parts| ensures !Mentions(parts[k], '\n') {
      if k > 0 {
        IssueLineHasNoNewline(k, issues[k - 1]);
      }
    }
    SplitJoin(parts, '\n');
  }

  /** Line k of the message (k >= 1) carries the number k, in two digits
      while k < 100. */
  lemma IssueNumbering(issues: seq<Issue>, k: nat)
    requires 1 <= k <= |issues|
    ensures IssueLines(issues)[k - 1][..|Pad2(k)|] == Pad2(k)
    ensures DigitsValue(Pad2(k)) == k
    ensures k < 100 ==> |Pad2(k)| == 2
  {
  }

  /** `validate_or_raise` raises a ValueError whose text begins with the
      header counting every engine error, exactly when the files load and
      the engine yields some error. */
  lemma ValidateOrRaiseRaises(instancePath: string, schemaPath: string, load: string -> Outcome<Json>,
                              iterErrors: (Json, Json) -> seq<SchemaError>)
    requires load(instancePath).Ok? && load(schemaPath).Ok?
    ensures var found := iterErrors(load(instancePath).value, load(schemaPath).value);
            var r := ValidateOrRaise(instancePath, schemaPath, load, iterErrors);
            (r.Ok? <==> found == [])
            && (found != [] ==>
                  (r == Raise(ValueError(FailureMessage(Normalise(found))))
                   && FailureMessage(Normalise(found))[..|Header(|found|)|] == Header(|found|)))
  {
    var found := iterErrors(load(instancePath).value, load(schemaPath).value);
    JoinStartsWithFirst([Header(|found|)] + IssueLines(Normalise(found)), "\n");
  }

  /** Two engines that yield the same errors in different orders give the
      same outcome, message included. */
  lemma ValidateOrRaiseDeterministic(instancePath: string, schemaPath: string, load: string -> Outcome<Json>,
                                     iterErrors: (Json, Json) -> seq<SchemaError>,
                                     otherErrors: (Json, Json) -> seq<SchemaError>)
    requires forall i, s :: multiset(iterErrors(i, s)) == multiset(otherErrors(i, s))
    ensures ValidateOrRaise(instancePath, schemaPath, load, iterErrors)
         == ValidateOrRaise(instancePath, schemaPath, load, otherErrors)
  {
    if load(instancePath).Ok? && load(schemaPath).Ok? {
      var i, s := load(instancePath).value, load(schemaPath).value;
      NormaliseIgnoresEngineOrder(iterErrors(i, s), otherErrors(i, s));
    }
  }
}
