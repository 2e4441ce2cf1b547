/** Properties of the directive linter: one line per error, each the
    error's pointer and message, ordered by path components rather than by
    the rendered text. */
module DirectiveLintProperties {
  import opened Text
  import opened PyValues
  import opened SchemaErrors
  import opened Sorting
  import opened DirectiveLint
  import IssueReport
  import IssueReportProperties

  /** The root renders as `/: message`. */
  lemma RootLine(message: string)
    ensures LintLine(SchemaError([], message)) == "/: " + message
  {
  }

  /** Every error gives exactly one line, and no line comes from nowhere. */
  lemma OneLinePerError(found: seq<SchemaError>)
    ensures multiset(LintLines(found)) == multiset(MapSeq(LintLine, found))
  {
    ErrorLeTotalOrder();
    SortByIsSortedPermutation(found, ErrorLe);
    MapPermutes(LintLine, SortBy(found, ErrorLe), found);
  }

  /** The lines are those of the errors arranged by the sort key
      (path components, then message): for any arrangement of the errors
      sorted by that key, the lines are its lines, in its order. */
  lemma LinesFollowSortKey(found: seq<SchemaError>, sorted: seq<SchemaError>)
    requires SortedBy(sorted, ErrorLe) && multiset(sorted) == multiset(found)
    ensures LintLines(found) == MapSeq(LintLine, sorted)
  {
    ErrorLeTotalOrder();
    SortByIsSortedPermutation(found, ErrorLe);
    SortedUnique(SortBy(found, ErrorLe), sorted, ErrorLe);
  }

  /** The lines do not depend on the order the engine yields errors in. */
  lemma LintIgnoresEngineOrder(found: seq<SchemaError>, other: seq<SchemaError>)
    requires multiset(found) == multiset(other)
    ensures LintLines(found) == LintLines(other)
  {
    ErrorLeTotalOrder();
    SortByDependsOnMultiset(found, other, ErrorLe);
  }

  lemma SmallLines()
    ensures LintLine(SchemaError([Index(2)], "m")) == "/2: m"
    ensures LintLine(SchemaError([Index(10)], "m")) == "/10: m"
    ensures StrLt("/10: m", "/2: m")
  {
    IssueReportProperties.SmallPointers();
    assert "/10: m"[1..] == "10: m" && "/2: m"[1..] == "2: m";
  }

  /** Index 2 sorts before index 10 although "/10: m" precedes "/2: m" as a
      string (the issue report puts "/10" first: see StringOrderOfPointers). */
  lemma ComponentOrderNotStringOrder()
    ensures LintLines([SchemaError([Index(10)], "m"), SchemaError([Index(2)], "m")]) == ["/2: m", "/10: m"]
    ensures StrLt("/10: m", "/2: m")
  {
    var found := [SchemaError([Index(10)], "m"), SchemaError([Index(2)], "m")];
    var sorted := [found[1], found[0]];
    assert ErrorLe(sorted[0], sorted[1]);
    assert multiset(sorted) == multiset(found);
    LinesFollowSortKey(found, sorted);
    SmallLines();
  }
}
