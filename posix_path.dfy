/** POSIX path parsing as `pathlib` does it: a leading `/` (or exactly two,
    `//`) is the root, repeated separators collapse, and `.` components
    disappear while `..` stays. A path is given as the string it is built
    from; `parts`, `str()`, `parent` and `/` are computed from its root and
    components. */
module PosixPath {
  import opened Text

  /** The root of a POSIX path: `//` for exactly two leading slashes, `/`
      for one or three and more, nothing for a relative path. */
  function Root(s: string): (r: string)
    ensures r == "" <==> s == [] || s[0] != '/'
  {
    if s == [] || s[0] != '/' then ""
    else if |s| >= 2 && s[1] == '/' && !(|s| >= 3 && s[2] == '/') then "//"
    else "/"
  }

  predicate IsName(piece: string) { piece != "" && piece != "." }

  /** The pieces that name a component: empty pieces and `.` are dropped. */
  function Components(pieces: seq<string>): (r: seq<string>)
    ensures |r| <= |pieces|
    ensures forall k | 0 <= k < |r| :: IsName(r[k]) && r[k] in pieces
  {
    if pieces == [] then []
    else (if IsName(pieces[0]) then [pieces[0]] else []) + Components(pieces[1..])
  }

  /** The components after the root. The root is made of separators,
      which only give empty pieces, so the whole text can be split. */
  function Tail(s: string): seq<string>
  {
    Components(Split(s, '/'))
  }

  /** `path.parts`: the root, if any, then the components. */
  function Parts(s: string): (r: seq<string>)
    ensures Root(s) != "" ==> r != [] && r[0] == Root(s)
  {
    (if Root(s) == "" then [] else [Root(s)]) + Tail(s)
  }

  /** The text of a path with the given root and components: the root and
      the components joined by `/`, or `.` for an empty relative path. */
  function Render(root: string, comps: seq<string>): string
  {
    if root != "" then root + Join(comps, "/")
    else if comps == [] then "."
    else Join(comps, "/")
  }

  /** `str(path)`: its text parses back to the same root and components. */
  function PathStr(s: string): (r: string)
    ensures Root(r) == Root(s) && Tail(r) == Tail(s)
  {
    TailNames(s);
    RenderParsesBack(Root(s), Tail(s));
    Render(Root(s), Tail(s))
  }

  // ---------------------------------------------------------------------
  // Parsing back what was rendered

  lemma {:induction false} ComponentsAppend(a: seq<string>, b: seq<string>)
    ensures Components(a + b) == Components(a) + Components(b)
    decreases |a|
  {
    if a != [] {
      var head := if IsName(a[0]) then [a[0]] else [];
      assert (a + b)[0] == a[0] && (a + b)[1..] == a[1..] + b;
      assert Components(a + b) == head + Components(a[1..] + b);
      ComponentsAppend(a[1..], b);
      assert Components(a) == head + Components(a[1..]);
    } else {
      assert a + b == b;
    }
  }

  lemma {:induction false} ComponentsOfNames(names: seq<string>)
    requires forall k | 0 <= k < |names| :: IsName(names[k])
    ensures Components(names) == names
    decreases |names|
  {
    if names != [] {
      ComponentsOfNames(names[1..]);
      assert names == [names[0]] + names[1..];
    }
  }

  /** Components are names without a separator. */
  lemma TailNames(s: string)
    ensures forall k | 0 <= k < |Tail(s)| :: IsName(Tail(s)[k]) && !Mentions(Tail(s)[k], '/')
  {
    SplitPiecesLackSep(s, '/');
  }

  /** A path with no separator is its own single component, unless it is
      empty or `.`. */
  lemma SingleName(s: string)
    requires IsName(s) && !Mentions(s, '/')
    ensures Parts(s) == [s]
  {
    SplitNoSep(s, '/');
  }

  /** Joining names with `/` gives a text that does not start with `/`
      and splits back into the names. */
  lemma JoinedNamesParseBack(comps: seq<string>)
    requires forall k | 0 <= k < |comps| :: IsName(comps[k]) && !Mentions(comps[k], '/')
    ensures Join(comps, "/") == [] || Join(comps, "/")[0] != '/'
    ensures Components(Split(Join(comps, "/"), '/')) == comps
  {
    if comps != [] {
      JoinStartsWithFirst(comps, "/");
      assert Join(comps, "/")[0] == comps[0][0];
      SplitJoin(comps, '/');
      ComponentsOfNames(comps);
    }
  }

  lemma RelativeText(t: string)
    requires t == [] || t[0] != '/'
    ensures Root(t) == ""
  {
  }

  /** An empty piece in front leaves the components unchanged. */
  lemma LeadingSeparator(t: string)
    ensures Tail("/" + t) == Tail(t)
  {
    var rest := Split(t, '/');
    SplitPrefix("", t, '/');
    assert "/" + t == "" + ['/'] + t;
    ComponentsAppend([""], rest);
  }

  lemma SingleRootText(t: string)
    requires t == [] || t[0] != '/'
    ensures Root("/" + t) == "/" && Tail("/" + t) == Tail(t)
  {
    LeadingSeparator(t);
  }

  lemma DoubleRootText(t: string)
    requires t == [] || t[0] != '/'
    ensures Root("//" + t) == "//" && Tail("//" + t) == Tail(t)
  {
    LeadingSeparator(t);
    LeadingSeparator("/" + t);
    assert "//" + t == "/" + ("/" + t);
  }

  /** Rendering a root and names without a separator parses back to them. */
  lemma RenderParsesBack(root: string, comps: seq<string>)
    requires root == "" || root == "/" || root == "//"
    requires forall k | 0 <= k < |comps| :: IsName(comps[k]) && !Mentions(comps[k], '/')
    ensures Root(Render(root, comps)) == root && Tail(Render(root, comps)) == comps
  {
    var joined := Join(comps, "/");
    JoinedNamesParseBack(comps);
    if root == "" {
      if comps == [] {
        SplitNoSep(".", '/');
      } else {
        RelativeText(joined);
      }
    } else if root == "//" {
      DoubleRootText(joined);
    } else {
      SingleRootText(joined);
    }
  }

  /** Parsing `str(path)` gives the same parts, and rendering again gives
      the same text. */
  lemma PathStrRoundTrip(s: string)
    ensures Parts(PathStr(s)) == Parts(s)
    ensures PathStr(PathStr(s)) == PathStr(s)
  {
  }

  // ---------------------------------------------------------------------
  // `parent` and `/`

  /** `str(Path(p).parent)`: the same root with the last component dropped;
      a path without components is its own parent. */
  function Parent(p: string): (r: string)
    ensures Root(r) == Root(p)
    ensures Tail(p) == [] ==> Tail(r) == []
    ensures Tail(p) != [] ==> Tail(r) == Tail(p)[..|Tail(p)| - 1]
  {
    var t := Tail(p);
    var kept := if t == [] then [] else t[..|t| - 1];
    TailNames(p);
    RenderParsesBack(Root(p), kept);
    Render(Root(p), kept)
  }

  /** `str(Path(dir) / p)`: a rooted `p` replaces `dir`; otherwise the
      components of `p` follow those of `dir`, under `dir`'s root. Nothing
      resolves `..` or keeps the result inside `dir`. */
  function JoinPath(dir: string, p: string): (r: string)
    ensures Root(p) != "" ==> Root(r) == Root(p) && Tail(r) == Tail(p)
    ensures Root(p) == "" ==> Root(r) == Root(dir) && Tail(r) == Tail(dir) + Tail(p)
  {
    TailNames(dir);
    TailNames(p);
    if Root(p) != "" then
      PathStr(p)
    else
      RenderParsesBack(Root(dir), Tail(dir) + Tail(p));
      Render(Root(dir), Tail(dir) + Tail(p))
  }

  /** A path with a last component is its parent joined with that name. */
  lemma ParentJoinLast(p: string)
    requires Tail(p) != []
    ensures Parts(JoinPath(Parent(p), Tail(p)[|Tail(p)| - 1])) == Parts(p)
  {
    var t := Tail(p);
    var last := t[|t| - 1];
    var dir := Parent(p);
    TailNames(p);
    assert IsName(last) && !Mentions(last, '/');
    NameParts(last);
    var r := JoinPath(dir, last);
    assert Root(r) == Root(p);
    assert Tail(r) == t[..|t| - 1] + [last];
    assert t[..|t| - 1] + [last] == t;
  }

  /** Joining is insensitive to how either path is spelled: only the
      parsed root and components of each matter. */
  lemma JoinPathOfPathStr(dir: string, p: string)
    ensures JoinPath(PathStr(dir), PathStr(p)) == JoinPath(dir, p)
  {
  }

  // ---------------------------------------------------------------------
  // How `/` spells its result

  /** A name: a non-empty piece other than `.`, without a separator. */
  predicate IsPlainName(a: string) { IsName(a) && !Mentions(a, '/') }

  lemma NameParts(a: string)
    requires IsPlainName(a)
    ensures Root(a) == "" && Tail(a) == [a]
  {
    SplitNoSep(a, '/');
    assert a[0] != '/';
  }

  /** The components of `a/b` are those of `a`, then those of `b`. */
  lemma TailAfterSeparator(a: string, b: string)
    ensures Tail(a + "/" + b) == Tail(a) + Tail(b)
  {
    SplitAppend(a, b, '/');
    assert a + "/" + b == a + ['/'] + b;
    ComponentsAppend(Split(a, '/'), Split(b, '/'));
  }

  /** The components of `a/b` with a separator-free `a`. */
  lemma TailAfterPiece(a: string, b: string)
    requires !Mentions(a, '/')
    ensures Tail(a + "/" + b) == Components([a]) + Tail(b)
  {
    SplitNoSep(a, '/');
    SplitAppend(a, b, '/');
    assert a + "/" + b == a + ['/'] + b;
    ComponentsAppend([a], Split(b, '/'));
  }

  lemma JoinOfThree(d: string, a: string, b: string)
    ensures Join([d, a, b], "/") == d + "/" + a + "/" + b
  {
    assert [d, a, b][1..] == [a, b];
    assert [a, b][1..] == [b];
    assert Join([a, b], "/") == a + "/" + b;
    assert d + "/" + (a + "/" + b) == d + "/" + a + "/" + b;
  }

  lemma JoinOfTwo(d: string, a: string)
    ensures Join([d, a], "/") == d + "/" + a
  {
    assert [d, a][1..] == [a];
  }

  /** Joining a name to a relative `dir` of one name gives `dir/a`. */
  lemma JoinName(dir: string, a: string)
    requires IsPlainName(dir) && IsPlainName(a)
    ensures JoinPath(dir, a) == dir + "/" + a
  {
    NameParts(dir);
    NameParts(a);
    assert Tail(dir) + Tail(a) == [dir, a];
    JoinOfTwo(dir, a);
  }

  /** `dir / "a/b"` is spelled `dir/a/b`; `..` is an ordinary name. */
  lemma JoinTwoNames(dir: string, a: string, b: string)
    requires IsPlainName(dir) && IsPlainName(a) && IsPlainName(b)
    ensures JoinPath(dir, a + "/" + b) == dir + "/" + a + "/" + b
  {
    NameParts(dir);
    NameParts(b);
    TailAfterPiece(a, b);
    NameParts(a);
    assert (a + "/" + b)[0] == a[0] != '/';
    assert Tail(dir) + Tail(a + "/" + b) == [dir, a, b];
    JoinOfThree(dir, a, b);
  }

  /** A `.` component disappears: `dir / "./b"` is spelled `dir/b`. */
  lemma JoinDotName(dir: string, b: string)
    requires IsPlainName(dir) && IsPlainName(b)
    ensures JoinPath(dir, "./" + b) == dir + "/" + b
  {
    NameParts(dir);
    NameParts(b);
    assert "./" + b == "." + "/" + b;
    TailAfterPiece(".", b);
    assert Components(["."]) == [];
    assert Tail(dir) + Tail("./" + b) == [dir, b];
    JoinOfTwo(dir, b);
  }

  /** A doubled separator collapses: `dir / "a//b"` is spelled `dir/a/b`. */
  lemma JoinDoubledSeparator(dir: string, a: string, b: string)
    requires IsPlainName(dir) && IsPlainName(a) && IsPlainName(b)
    ensures JoinPath(dir, a + "//" + b) == dir + "/" + a + "/" + b
  {
    NameParts(dir);
    NameParts(b);
    assert a + "//" + b == a + "/" + ("/" + b);
    TailAfterPiece(a, "/" + b);
    LeadingSeparator(b);
    NameParts(a);
    assert (a + "//" + b)[0] == a[0] != '/';
    assert Tail(dir) + Tail(a + "//" + b) == [dir, a, b];
    JoinOfThree(dir, a, b);
  }

  /** A trailing separator disappears: `dir / "a/"` is spelled `dir/a`. */
  lemma JoinTrailingSeparator(dir: string, a: string)
    requires IsPlainName(dir) && IsPlainName(a)
    ensures JoinPath(dir, a + "/") == dir + "/" + a
  {
    NameParts(dir);
    assert a + "/" == a + "/" + "";
    TailAfterPiece(a, "");
    assert Tail("") == [] by { assert Split("", '/') == [""]; }
    NameParts(a);
    assert (a + "/")[0] == a[0] != '/';
    assert Tail(dir) + Tail(a + "/") == [dir, a];
    JoinOfTwo(dir, a);
  }

  /** A rooted path replaces the directory: `dir / "/a/b"` is `/a/b`. */
  lemma JoinRooted(dir: string, a: string, b: string)
    requires IsPlainName(a) && IsPlainName(b)
    ensures JoinPath(dir, "/" + a + "/" + b) == "/" + a + "/" + b
  {
    NameParts(b);
    TailAfterPiece(a, b);
    assert "/" + a + "/" + b == "/" + (a + "/" + b);
    assert (a + "/" + b)[0] == a[0] != '/';
    NameParts(a);
    SingleRootText(a + "/" + b);
    assert Tail("/" + a + "/" + b) == [a, b];
    JoinOfTwo(a, b);
    assert "/" + Join([a, b], "/") == "/" + a + "/" + b;
  }

  /** Under the current directory `.`, a relative path is its own text. */
  lemma JoinUnderDot(a: string)
    requires IsPlainName(a)
    ensures JoinPath(".", a) == a
  {
    NameParts(a);
    SplitNoSep(".", '/');
  }

  // ---------------------------------------------------------------------
  // How `str()` spells a path

  /** The empty path is the current directory: `str(Path(""))` is `.`. */
  lemma PathStrEmpty()
    ensures PathStr("") == "."
  {
    assert Split("", '/') == [""];
  }

  /** A leading `.` component disappears: `./b` is spelled `b`. */
  lemma PathStrDotName(b: string)
    requires IsPlainName(b)
    ensures PathStr("./" + b) == b
  {
    NameParts(b);
    assert "./" + b == "." + "/" + b;
    TailAfterPiece(".", b);
    assert Components(["."]) == [];
    assert Join([b], "/") == b;
  }

  /** A doubled separator collapses: `a//b` is spelled `a/b`. */
  lemma PathStrDoubledSeparator(a: string, b: string)
    requires IsPlainName(a) && IsPlainName(b)
    ensures PathStr(a + "//" + b) == a + "/" + b
  {
    NameParts(b);
    assert a + "//" + b == a + "/" + ("/" + b);
    TailAfterPiece(a, "/" + b);
    LeadingSeparator(b);
    NameParts(a);
    assert (a + "//" + b)[0] == a[0] != '/';
    JoinOfTwo(a, b);
  }

  /** A trailing separator disappears: `a/b/` is spelled `a/b`. */
  lemma PathStrTrailingSeparator(a: string, b: string)
    requires IsPlainName(a) && IsPlainName(b)
    ensures PathStr(a + "/" + b + "/") == a + "/" + b
  {
    var s := a + "/" + b + "/";
    assert s == a + "/" + (b + "/" + "");
    assert Tail("") == [] by { assert Split("", '/') == [""]; }
    NameParts(b);
    TailAfterPiece(b, "");
    assert Tail(b + "/" + "") == [b];
    NameParts(a);
    TailAfterPiece(a, b + "/" + "");
    assert Tail(s) == [a, b];
    assert s[0] == a[0] != '/';
    JoinOfTwo(a, b);
  }

}
