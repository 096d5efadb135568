/** The SVG loader: of the root's direct children it keeps the path nodes
    with a solid color fill, in document order, translates each segment to
    the path element of the same name, and hands the path to the curve
    flattener. Reading the file and flattening curves are external: the
    parsed tree (or the parse error) and the flattener are parameters. */
module SvgLoad {
  import opened Common
  import opened Svg
  import Usvg

  /** The path element a usvg segment becomes. */
  function ToElement(s: Usvg.PathSegment): PathEl {
    match s
    case MoveTo(x, y) => MoveTo(Point(x, y))
    case LineTo(x, y) => LineTo(Point(x, y))
    case CurveTo(x1, y1, x2, y2, x, y) => CurveTo(Point(x1, y1), Point(x2, y2), Point(x, y))
    case ClosePath => ClosePath
  }

  /** The path built from a segment list, one element per segment. */
  function Translate(segments: seq<Usvg.PathSegment>): (path: BezPath)
    ensures |path| == |segments|
    ensures forall k :: 0 <= k < |path| ==> !path[k].QuadTo?
  {
    seq(|segments|, i requires 0 <= i < |segments| => ToElement(segments[i]))
  }

  /** The nodes the loader keeps: paths whose fill is a solid color. */
  predicate IsSolidFilledPath(n: Usvg.NodeKind) {
    n.Path? && n.path.fill.Some? && n.path.fill.value.paint.Color?
  }

  /** The flattened paths of the kept nodes, in document order. */
  function Selected(nodes: seq<Usvg.NodeKind>, breakPath: (BezPath, real) -> BezPath): (paths: seq<BezPath>)
    ensures |paths| <= |nodes|
  {
    if nodes == [] then []
    else
      var n := nodes[|nodes| - 1];
      Selected(nodes[..|nodes| - 1], breakPath)
        + (if IsSolidFilledPath(n) then [breakPath(Translate(n.path.data), FLATTEN_TOLERANCE)] else [])
  }

  /** Loads the paths of a parsed document: a parse error is passed on,
      otherwise the result holds one flattened path per kept node. */
  method ParseSvg(tree: Result<seq<Usvg.NodeKind>, Usvg.Error>, breakPath: (BezPath, real) -> BezPath)
    returns (r: Result<seq<BezPath>, Usvg.Error>)
    ensures tree.Failure? ==> r == Failure(tree.error)
    ensures tree.Success? ==> r == Success(Selected(tree.value, breakPath))
  {
    if tree.Failure? {
      return Failure(tree.error);
    }
    var children := tree.value;
    var paths: seq<BezPath> := [];
    for i := 0 to |children|
      invariant paths == Selected(children[..i], breakPath)
    {
      assert children[..i + 1][..i] == children[..i];
      match children[i] {
        case Path(p) =>
          var path: BezPath := [];
          for k := 0 to |p.data|
            invariant path == Translate(p.data[..k])
          {
            match p.data[k] {
              case MoveTo(x, y) =>
                path := path + [MoveTo(Point(x, y))];
              case LineTo(x, y) =>
                path := path + [LineTo(Point(x, y))];
              case CurveTo(x1, y1, x2, y2, x, y) =>
                path := path + [CurveTo(Point(x1, y1), Point(x2, y2), Point(x, y))];
              case ClosePath =>
                path := path + [ClosePath];
            }
          }
          assert p.data[..|p.data|] == p.data;
          if p.fill.Some? && p.fill.value.paint.Color? {
            paths := paths + [breakPath(path, FLATTEN_TOLERANCE)];
          }
        case Other =>
      }
    }
    assert children[..|children|] == children;
    r := Success(paths);
  }

  /** The segment a path element came from; QuadTo has none. */
  function ToSegment(e: PathEl): Usvg.PathSegment
    requires !e.QuadTo?
  {
    match e
    case MoveTo(p) => Usvg.MoveTo(p.x, p.y)
    case LineTo(p) => Usvg.LineTo(p.x, p.y)
    case CurveTo(c1, c2, p) => Usvg.CurveTo(c1.x, c1.y, c2.x, c2.y, p.x, p.y)
    case ClosePath => Usvg.ClosePath
  }

  /** The translation is one-to-one: the segment list can be read back from
      the path, element by element. */
  lemma TranslateRoundTrip(segments: seq<Usvg.PathSegment>)
    ensures var path := Translate(segments);
      && |path| == |segments|
      && forall k :: 0 <= k < |path| ==> !path[k].QuadTo? && ToSegment(path[k]) == segments[k]
  {
  }

  /** A translated path is curve-free exactly when the segment list has no
      CurveTo. */
  lemma TranslateCurveFree(segments: seq<Usvg.PathSegment>)
    ensures CurveFree(Translate(segments)) <==> forall k :: 0 <= k < |segments| ==> !segments[k].CurveTo?
  {
    var path := Translate(segments);
    if CurveFree(path) {
      forall k | 0 <= k < |segments| ensures !segments[k].CurveTo? {
        assert !IsCurve(path[k]);
      }
    }
  }

  /** Loading distributes over a split of the child list, so the kept paths
      appear in document order. */
  lemma {:induction false} SelectedAppend(a: seq<Usvg.NodeKind>, b: seq<Usvg.NodeKind>,
                                          breakPath: (BezPath, real) -> BezPath)
    ensures Selected(a + b, breakPath) == Selected(a, breakPath) + Selected(b, breakPath)
    decreases |b|
  {
    if b == [] {
      assert a + b == a;
    } else {
      var b' := b[..|b| - 1];
      var ab := a + b;
      assert ab[..|ab| - 1] == a + b';
      assert ab[|ab| - 1] == b[|b| - 1];
      SelectedAppend(a, b', breakPath);
    }
  }

  /** Exactly the solid-filled path nodes yield a path. */
  lemma {:induction false} SelectedCount(nodes: seq<Usvg.NodeKind>, breakPath: (BezPath, real) -> BezPath)
    ensures |Selected(nodes, breakPath)| == |set k | 0 <= k < |nodes| && IsSolidFilledPath(nodes[k])|
    decreases |nodes|
  {
    if nodes != [] {
      var n := |nodes| - 1;
      var init := nodes[..n];
      SelectedCount(init, breakPath);
      var before := set k | 0 <= k < n && IsSolidFilledPath(init[k]);
      var all := set k | 0 <= k < |nodes| && IsSolidFilledPath(nodes[k]);
      assert before == set k | 0 <= k < n && IsSolidFilledPath(nodes[k]);
      if IsSolidFilledPath(nodes[n]) {
        assert all == before + {n};
      } else {
        assert all == before;
      }
    }
  }

  /** When the flattener's output never contains a curve, everything the
      loader returns is accepted by the packer. */
  lemma {:induction false} SelectedCurveFree(nodes: seq<Usvg.NodeKind>, breakPath: (BezPath, real) -> BezPath)
    requires forall path :: CurveFree(breakPath(path, FLATTEN_TOLERANCE))
    ensures AllCurveFree(Selected(nodes, breakPath))
    decreases |nodes|
  {
    if nodes != [] {
      var init := nodes[..|nodes| - 1];
      SelectedCurveFree(init, breakPath);
      var n := nodes[|nodes| - 1];
      var tail := if IsSolidFilledPath(n) then [breakPath(Translate(n.path.data), FLATTEN_TOLERANCE)] else [];
      var all := Selected(nodes, breakPath);
      forall i | 0 <= i < |all| ensures CurveFree(all[i]) {
        if i >= |Selected(init, breakPath)| {
          assert all[i] == tail[i - |Selected(init, breakPath)|];
        }
      }
    }
  }
}
