/** Properties of the output-path guard: what it accepts, that it reads
    only the first part of a path, and that it judges a path by its parsed
    parts, so `str(path)` is judged alike. */
module OutputGuardProperties {
  import opened Text
  import opened PyValues
  import opened PosixPath
  import opened OutputGuard

  // ---------------------------------------------------------------------
  // The guard

  /** A path is accepted exactly when it is relative and its first
      component is one of the allowed directories. */
  lemma AcceptedIff(path: string)
    ensures AssertPhase3OutputPath(path).Ok?
        <==> (path == [] || path[0] != '/') && Tail(path) != [] && Tail(path)[0] in AllowedDirs
  {
  }

  /** An absolute path is rejected as outside the allowed directories. */
  lemma AbsoluteRejected(path: string)
    requires path != [] && path[0] == '/'
    ensures AssertPhase3OutputPath(path) == Raise(ValueError(RejectionMessage(path)))
  {
  }

  /** Paths with no parts at all raise the "empty" error. */
  lemma EmptyPaths()
    ensures AssertPhase3OutputPath("") == Raise(ValueError("Empty output path."))
    ensures AssertPhase3OutputPath(".") == Raise(ValueError("Empty output path."))
    ensures AssertPhase3OutputPath("./") == Raise(ValueError("Empty output path."))
  {
    SplitNoSep(".", '/');
    SplitAppend(".", "", '/');
    assert "./" == "." + ['/'] + "";
  }

  /** Whatever follows an accepted path is not inspected. */
  lemma SuffixNotInspected(path: string, rest: string)
    requires AssertPhase3OutputPath(path).Ok?
    ensures AssertPhase3OutputPath(path + "/" + rest).Ok?
  {
    var longer := path + "/" + rest;
    assert longer == path + ['/'] + rest;
    assert longer[0] == path[0];
    TailAfterSeparator(path, rest);
    assert Root(longer) == "" && Root(path) == "";
    assert Parts(longer)[0] == Parts(path)[0];
  }

  /** Anything under an allowed directory is accepted, `..` included. */
  lemma UnderAllowedDirAccepted(dir: string, rest: string)
    requires dir in AllowedDirs
    ensures AssertPhase3OutputPath(dir + "/" + rest) == Ok(())
  {
    assert !Mentions(dir, '/') by {
      if dir == "releases" {
        assert forall i | 0 <= i < |dir| :: dir[i] != '/';
      } else {
        assert forall i | 0 <= i < |dir| :: dir[i] != '/';
      }
    }
    SingleName(dir);
    SuffixNotInspected(dir, rest);
  }

  lemma ParentStepsNotChecked()
    ensures AssertPhase3OutputPath("releases" + "/" + "../../etc") == Ok(())
  {
    UnderAllowedDirAccepted("releases", "../../etc");
  }

  /** The guard judges a path by its parts: `str(path)` is judged alike,
      message included. */
  lemma GuardSeesOnlyParts(path: string)
    ensures AssertPhase3OutputPath(PathStr(path)) == AssertPhase3OutputPath(path)
  {
    PathStrRoundTrip(path);
  }

  /** The repr of a two-string list quotes each string and separates them with ", ". */
  lemma TwoStringListRepr(a: string, b: string)
    ensures PyRepr(JArr([JStr(a), JStr(b)])) == "['" + a + "', '" + b + "']"
  {
    var items := [JStr(a), JStr(b)];
    var texts := seq(|items|, k requires 0 <= k < |items| => PyRepr(items[k]));
    assert texts == ["'" + a + "'", "'" + b + "'"];
    assert texts[1..] == ["'" + b + "'"];
    assert Join(texts, ", ") == texts[0] + ", " + texts[1];
  }

  lemma AllowedListRepr()
    ensures PyRepr(JArr([JStr("analysis_artifacts"), JStr("releases")])) == "['analysis_artifacts', 'releases']"
  {
    TwoStringListRepr("analysis_artifacts", "releases");
    assert "['" + "analysis_artifacts" == "['analysis_artifacts";
    assert "', '" + "releases" + "']" == "', 'releases']";
  }

  /** The rejection message lists the allowed directories in sorted order. */
  lemma AllowedDirsListedSorted()
    ensures AllowedListText() == "['analysis_artifacts', 'releases']"
  {
    var allowed := SortedAllowedDirs(["analysis_artifacts", "releases"]);
    assert [JStr(allowed[0]), JStr(allowed[1])] == [JStr("analysis_artifacts"), JStr("releases")];
    AllowedListRepr();
  }
}
