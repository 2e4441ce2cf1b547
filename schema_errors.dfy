/** The errors a JSON Schema engine yields: where in the instance each one
    is (its `absolute_path`) and what it says. The engine itself is not
    modelled. Also the order Python's `sorted()` uses on the key
    `(list(e.absolute_path), e.message)`. */
module SchemaErrors {
  import opened Text
  import opened PyValues
  import Sorting

  /** An element of an error's path: a property name or a list index. */
  datatype PathElem = Key(name: string) | Index(index: nat)

  datatype SchemaError = SchemaError(path: seq<PathElem>, message: string)

  /** `str(p)` for a path element. */
  function ElemText(p: PathElem): string
  {
    match p
    case Key(name) => name
    case Index(i) => NatToString(i)
  }

  function ElemTexts(path: seq<PathElem>): (r: seq<string>)
    ensures |r| == |path| && forall k | 0 <= k < |path| :: r[k] == ElemText(path[k])
  {
    seq(|path|, k requires 0 <= k < |path| => ElemText(path[k]))
  }

  // ---------------------------------------------------------------------
  // Python's comparison of paths

  predicate SameKind(a: PathElem, b: PathElem) { a.Key? == b.Key? }

  /** `a <= b` on two path elements of the same kind: strings by code
      point, indexes numerically. Python cannot compare a string with an
      int; the order chosen here for that case is never consulted on
      paths that `Comparable` admits. */
  predicate ElemLe(a: PathElem, b: PathElem)
  {
    match (a, b)
    case (Key(x), Key(y)) => StrLe(x, y)
    case (Index(x), Index(y)) => x <= y
    case (Index(_), Key(_)) => true
    case (Key(_), Index(_)) => false
  }

  /** `p <= q` on two paths as Python compares lists: the first differing
      element decides, and a proper prefix comes first. */
  predicate PathLe(p: seq<PathElem>, q: seq<PathElem>)
  {
    if p == [] then true
    else if q == [] then false
    else if p[0] != q[0] then ElemLe(p[0], q[0])
    else PathLe(p[1..], q[1..])
  }

  /** Python can compare the two paths: where they first differ, the two
      elements are of the same kind. Paths into one JSON instance always
      are, since equal prefixes lead to the same object or array. */
  predicate Comparable(p: seq<PathElem>, q: seq<PathElem>)
  {
    forall k | 0 <= k < |p| && k < |q| && p[..k] == q[..k] && p[k] != q[k] :: SameKind(p[k], q[k])
  }

  /** Python's `a < b` on two path elements: a str and an int cannot be compared. */
  function PyElemLt(a: PathElem, b: PathElem): Outcome<bool>
  {
    match (a, b)
    case (Key(x), Key(y)) => Ok(StrLt(x, y))
    case (Index(x), Index(y)) => Ok(x < y)
    case _ => Raise(TypeError)
  }

  /** Python's `p < q` on two lists: the first position where the elements
      differ decides; with no such position, the shorter list is less. */
  function PyPathLt(p: seq<PathElem>, q: seq<PathElem>): Outcome<bool>
  {
    if p == [] || q == [] then Ok(|p| < |q|)
    else if p[0] != q[0] then PyElemLt(p[0], q[0])
    else PyPathLt(p[1..], q[1..])
  }

  /** Python's `<` on the sort keys `(list(e.absolute_path), e.message)`. */
  function PyErrorLt(a: SchemaError, b: SchemaError): Outcome<bool>
  {
    if a.path == b.path then Ok(StrLt(a.message, b.message)) else PyPathLt(a.path, b.path)
  }

  /** The sort key `(list(e.absolute_path), e.message)`: by path, then by message. */
  predicate ErrorLe(a: SchemaError, b: SchemaError)
  {
    if a.path != b.path then PathLe(a.path, b.path) else StrLe(a.message, b.message)
  }

  lemma ElemLeTotalOrder(a: PathElem, b: PathElem, c: PathElem)
    ensures ElemLe(a, b) || ElemLe(b, a)
    ensures ElemLe(a, b) && ElemLe(b, a) ==> a == b
    ensures ElemLe(a, b) && ElemLe(b, c) ==> ElemLe(a, c)
  {
    match (a, b)
    case (Key(x), Key(y)) =>
      StrLeTotal(x, y);
      if StrLe(x, y) && StrLe(y, x) { StrLeAntisymmetric(x, y); }
      if c.Key? && StrLe(x, y) && StrLe(y, c.name) { StrLeTransitive(x, y, c.name); }
    case _ =>
  }

  lemma {:induction false} PathLeTotal(p: seq<PathElem>, q: seq<PathElem>)
    ensures PathLe(p, q) || PathLe(q, p)
    decreases |p|
  {
    if p != [] && q != [] {
      if p[0] != q[0] {
        ElemLeTotalOrder(p[0], q[0], q[0]);
      } else {
        PathLeTotal(p[1..], q[1..]);
      }
    }
  }

  lemma {:induction false} PathLeAntisymmetric(p: seq<PathElem>, q: seq<PathElem>)
    requires PathLe(p, q) && PathLe(q, p)
    ensures p == q
    decreases |p|
  {
    if p != [] && q != [] {
      ElemLeTotalOrder(p[0], q[0], q[0]);
      PathLeAntisymmetric(p[1..], q[1..]);
      assert p == [p[0]] + p[1..] && q == [q[0]] + q[1..];
    }
  }

  lemma {:induction false} PathLeTransitive(p: seq<PathElem>, q: seq<PathElem>, r: seq<PathElem>)
    requires PathLe(p, q) && PathLe(q, r)
    ensures PathLe(p, r)
    decreases |p|
  {
    if p != [] && q != [] && r != [] {
      ElemLeTotalOrder(p[0], q[0], r[0]);
      ElemLeTotalOrder(q[0], r[0], p[0]);
      ElemLeTotalOrder(r[0], p[0], q[0]);
      if p[0] == q[0] && q[0] == r[0] {
        PathLeTransitive(p[1..], q[1..], r[1..]);
      }
    }
  }

  /** The sort key is a total order on errors. */
  lemma ErrorLeTotalOrder()
    ensures Sorting.TotalOrder(ErrorLe)
  {
    forall a, b ensures ErrorLe(a, b) || ErrorLe(b, a) {
      PathLeTotal(a.path, b.path);
      StrLeTotal(a.message, b.message);
    }
    forall a, b | ErrorLe(a, b) && ErrorLe(b, a) ensures a == b {
      if a.path != b.path {
        PathLeAntisymmetric(a.path, b.path);
      } else {
        StrLeAntisymmetric(a.message, b.message);
      }
    }
    forall a, b, c | ErrorLe(a, b) && ErrorLe(b, c) ensures ErrorLe(a, c) {
      if a.path == b.path && b.path == c.path {
        StrLeTransitive(a.message, b.message, c.message);
      } else if a.path == c.path {
        PathLeAntisymmetric(a.path, b.path);
      } else if a.path != b.path && b.path != c.path {
        PathLeTransitive(a.path, b.path, c.path);
      }
    }
  }

  /** On comparable paths, Python's `<` is the strict part of `PathLe`. */
  lemma {:induction false} PathLeIsPythonOrder(p: seq<PathElem>, q: seq<PathElem>)
    requires Comparable(p, q)
    ensures PyPathLt(p, q) == Ok(PathLe(p, q) && p != q)
    decreases |p|
  {
    if p != [] && q != [] {
      if p[0] != q[0] {
        assert p[..0] == q[..0];
      } else {
        assert Comparable(p[1..], q[1..]) by {
          forall k | 0 <= k < |p[1..]| && k < |q[1..]| && p[1..][..k] == q[1..][..k] && p[1..][k] != q[1..][k]
            ensures SameKind(p[1..][k], q[1..][k])
          {
            assert p[..k + 1] == [p[0]] + p[1..][..k];
            assert q[..k + 1] == [q[0]] + q[1..][..k];
          }
        }
        PathLeIsPythonOrder(p[1..], q[1..]);
        assert p == [p[0]] + p[1..] && q == [q[0]] + q[1..];
      }
    }
  }

  /** On errors with comparable paths, Python's `<` on the sort keys is the
      strict part of `ErrorLe`, so `sorted()` orders them as `ErrorLe` does. */
  lemma ErrorLeIsPythonOrder(a: SchemaError, b: SchemaError)
    requires Comparable(a.path, b.path)
    ensures PyErrorLt(a, b) == Ok(ErrorLe(a, b) && a != b)
  {
    if a.path != b.path {
      PathLeIsPythonOrder(a.path, b.path);
    }
  }

  /** Paths whose first elements are a property name and a list index
      cannot be compared in Python. */
  lemma MixedKindsRaise()
    ensures PyPathLt([Key("a")], [Index(0)]) == Raise(TypeError)
    ensures !Comparable([Key("a")], [Index(0)])
  {
    assert [Key("a")][..0] == [Index(0)][..0];
  }
}
