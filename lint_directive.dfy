/** The directive linter of src/phase4/validate/lint_directive.py: the
    engine's errors, sorted by (path components, message), each rendered
    as one `pointer: message` line. The engine and file reading are
    parameters. */
module DirectiveLint {
  import opened Text
  import opened PyValues
  import opened SchemaErrors
  import opened Sorting
  import IssueReport

  /** One output line: `/c1/c2/...: message`, or `/: message` at the root;
      its head is the pointer the issue report gives the same error. */
  function LintLine(e: SchemaError): (r: string)
    ensures r == IssueReport.PointerPath(e.path) + ": " + e.message
  {
    if e.path != [] then "/" + Join(ElemTexts(e.path), "/") + ": " + e.message
    else "/: " + e.message
  }

  /** The lines for the errors `found`, in sort-key order. */
  function LintLines(found: seq<SchemaError>): (r: seq<string>)
    ensures |r| == |found|
  {
    MapSeq(LintLine, SortBy(found, ErrorLe))
  }

  /** `lint_directive`: read and parse the instance, then the schema (either
      may raise), then render what the engine yields for them. */
  function LintDirective(instancePath: string, schemaPath: string, load: string -> Outcome<Json>,
                         iterErrors: (Json, Json) -> seq<SchemaError>): (r: Outcome<seq<string>>)
    ensures load(instancePath).Raise? ==> r == Raise(load(instancePath).error)
    ensures load(instancePath).Ok? && load(schemaPath).Raise? ==> r == Raise(load(schemaPath).error)
    ensures r.Ok? ==> |r.value| == |iterErrors(load(instancePath).value, load(schemaPath).value)|
  {
    var instance :- load(instancePath);
    var schema :- load(schemaPath);
    Ok(LintLines(iterErrors(instance, schema)))
  }
}
