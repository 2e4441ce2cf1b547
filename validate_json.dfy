/** The issue report of src/phase4/validate/validate_json.py: every error
    the JSON Schema engine yields becomes a `ValidationIssue` whose path is
    a `/`-separated pointer, the issues are sorted by (pointer, message),
    and `validate_or_raise` turns a non-empty report into one numbered
    `ValueError` message. The engine and file reading are parameters. */
module IssueReport {
  import opened Text
  import opened PyValues
  import opened SchemaErrors
  import opened Sorting

  /** `ValidationIssue(json_path, message)`. */
  datatype Issue = Issue(jsonPath: string, message: string)

  /** The pointer text of an error path: `/` for the instance itself,
      otherwise `/` before each component's `str()`. */
  function PointerPath(path: seq<PathElem>): (r: string)
    ensures |r| >= 1 && r[0] == '/'
  {
    if path == [] then "/" else "/" + Join(ElemTexts(path), "/")
  }

  function ToIssue(e: SchemaError): Issue
  {
    Issue(PointerPath(e.path), e.message)
  }

  /** The sort key `(x.json_path, x.message)`: both compared as `str`. */
  predicate IssueLe(a: Issue, b: Issue)
  {
    if a.jsonPath != b.jsonPath then StrLe(a.jsonPath, b.jsonPath) else StrLe(a.message, b.message)
  }

  lemma IssueLeTotalOrder()
    ensures TotalOrder(IssueLe)
  {
    forall a, b ensures IssueLe(a, b) || IssueLe(b, a) {
      StrLeTotal(a.jsonPath, b.jsonPath);
      StrLeTotal(a.message, b.message);
    }
    forall a, b | IssueLe(a, b) && IssueLe(b, a) ensures a == b {
      if a.jsonPath != b.jsonPath {
        StrLeAntisymmetric(a.jsonPath, b.jsonPath);
      } else {
        StrLeAntisymmetric(a.message, b.message);
      }
    }
    forall a, b, c | IssueLe(a, b) && IssueLe(b, c) ensures IssueLe(a, c) {
      if a.jsonPath == b.jsonPath && b.jsonPath == c.jsonPath {
        StrLeTransitive(a.message, b.message, c.message);
      } else if a.jsonPath == c.jsonPath {
        StrLeAntisymmetric(a.jsonPath, b.jsonPath);
      } else if a.jsonPath != b.jsonPath && b.jsonPath != c.jsonPath {
        StrLeTransitive(a.jsonPath, b.jsonPath, c.jsonPath);
      }
    }
  }

  /** `validate_instance_against_schema` after the engine has yielded
      `found`: sort the errors by (path, message), make an issue of each,
      and sort the issues by (pointer, message). */
  function Normalise(found: seq<SchemaError>): (r: seq<Issue>)
    ensures |r| == |found|
  {
    SortBy(MapSeq(ToIssue, SortBy(found, ErrorLe)), IssueLe)
  }

  /** `validate_json_file`: load the instance, then the schema (either load
      may raise), then normalise what the engine yields for them. */
  function ValidateJsonFile(instancePath: string, schemaPath: string, load: string -> Outcome<Json>,
                            iterErrors: (Json, Json) -> seq<SchemaError>): (r: Outcome<seq<Issue>>)
    ensures load(instancePath).Raise? ==> r == Raise(load(instancePath).error)
    ensures load(instancePath).Ok? && load(schemaPath).Raise? ==> r == Raise(load(schemaPath).error)
    ensures r.Ok? ==> |r.value| == |iterErrors(load(instancePath).value, load(schemaPath).value)|
  {
    var instance :- load(instancePath);
    var schema :- load(schemaPath);
    Ok(Normalise(iterErrors(instance, schema)))
  }

  // ---------------------------------------------------------------------
  // validate_or_raise

  function Header(n: nat): string
  {
    "Validation failed (" + NatToString(n) + " issues):"
  }

  /** The line `{i:02d}. {json_path}: {message}` for the issue numbered i. */
  function IssueLine(i: nat, issue: Issue): string
  {
    Pad2(i) + ". " + issue.jsonPath + ": " + issue.message
  }

  function IssueLines(issues: seq<Issue>): (r: seq<string>)
    ensures |r| == |issues| && forall k | 0 <= k < |issues| :: r[k] == IssueLine(k + 1, issues[k])
  {
    seq(|issues|, k requires 0 <= k < |issues| => IssueLine(k + 1, issues[k]))
  }

  /** The text of the `ValueError`: the header and one line per issue, joined by newlines. */
  function FailureMessage(issues: seq<Issue>): string
  {
    Join([Header(|issues|)] + IssueLines(issues), "\n")
  }

  /** `validate_or_raise`: returns normally when there are no issues. */
  function ValidateOrRaise(instancePath: string, schemaPath: string, load: string -> Outcome<Json>,
                           iterErrors: (Json, Json) -> seq<SchemaError>): (r: Outcome<()>)
    ensures r.Ok? <==> ValidateJsonFile(instancePath, schemaPath, load, iterErrors) == Ok([])
  {
    var issues :- ValidateJsonFile(instancePath, schemaPath, load, iterErrors);
    if issues == [] then Ok(()) else Raise(ValueError(FailureMessage(issues)))
  }
}
