/** The output-path guard of analysis/pipelines/run_analysis.py. A path is
    given as the string a `pathlib.PurePosixPath` is built from, parsed as
    `PosixPath` describes. */
module OutputGuard {
  import opened Text
  import opened PyValues
  import opened PosixPath
  import Sorting

  /** `PHASE3_ALLOWED_OUTPUT_DIRS`. */
  const AllowedDirs: set<string> := {"analysis_artifacts", "releases"}

  /** `sorted(PHASE3_ALLOWED_OUTPUT_DIRS)`, whichever order the set iterates in. */
  function SortedAllowedDirs(iteration: seq<string>): (r: seq<string>)
    requires iteration == ["analysis_artifacts", "releases"] || iteration == ["releases", "analysis_artifacts"]
    ensures r == ["analysis_artifacts", "releases"]
  {
    assert StrLe("analysis_artifacts", "releases") && !StrLe("releases", "analysis_artifacts");
    assert [iteration[1]][1..] == [] && iteration[1..] == [iteration[1]];
    assert Sorting.SortBy(iteration, StrLe) == Sorting.Insert(iteration[0], [iteration[1]], StrLe);
    Sorting.SortBy(iteration, StrLe)
  }

  /** `str(sorted(PHASE3_ALLOWED_OUTPUT_DIRS))`. */
  function AllowedListText(): string
  {
    var allowed := SortedAllowedDirs(["analysis_artifacts", "releases"]);
    PyRepr(JArr([JStr(allowed[0]), JStr(allowed[1])]))
  }

  function RejectionMessage(path: string): string
  {
    "Phase-3 outputs must be written only under " + AllowedListText() + ". Got: " + PathStr(path)
  }

  /** `assert_phase3_output_path`: no parts is an error; so is a first part
      outside the allowed directories. */
  function AssertPhase3OutputPath(path: string): (r: Outcome<()>)
    ensures r.Ok? || r == Raise(ValueError("Empty output path.")) || r == Raise(ValueError(RejectionMessage(path)))
    ensures r == Raise(ValueError("Empty output path.")) <==> Parts(path) == []
    ensures r == Raise(ValueError(RejectionMessage(path))) <==> Parts(path) != [] && Parts(path)[0] !in AllowedDirs
  {
    var parts := Parts(path);
    if parts == [] then Raise(ValueError("Empty output path."))
    else if parts[0] !in AllowedDirs then Raise(ValueError(RejectionMessage(path)))
    else Ok(())
  }
}
