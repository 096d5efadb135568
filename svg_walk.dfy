/** What walking one flattened path emits: lines chain point to point, a
    ClosePath draws back to the start of its subpath, and before any MoveTo
    that start is the origin. */
module SvgWalk {
  import opened Svg
  import opened SvgLayout

  predicate NoMoveTo(path: BezPath) {
    forall k :: 0 <= k < |path| ==> !path[k].MoveTo?
  }

  lemma CurveFreeAppend(a: BezPath, b: BezPath)
    requires CurveFree(a) && CurveFree(b)
    ensures CurveFree(a + b)
  {
    forall k | 0 <= k < |a + b| ensures !IsCurve((a + b)[k]) {
      if k < |a| { assert (a + b)[k] == a[k]; } else { assert (a + b)[k] == b[k - |a|]; }
    }
  }

  /** Walking more elements never rewrites the lines already emitted. */
  lemma {:induction false} PathLinesPrefix(a: BezPath, b: BezPath)
    requires CurveFree(a) && CurveFree(b)
    ensures CurveFree(a + b)
    ensures PathLines(a) <= PathLines(a + b)
    decreases |b|
  {
    CurveFreeAppend(a, b);
    if b == [] {
      assert a + b == a;
    } else {
      var b' := b[..|b| - 1];
      var ab := a + b;
      assert ab[..|ab| - 1] == a + b';
      PathLinesPrefix(a, b');
    }
  }

  /** Without a MoveTo, the subpath start stays where it was. */
  lemma {:induction false} SubpathStartKept(pre: BezPath, mid: BezPath)
    requires CurveFree(pre) && CurveFree(mid) && NoMoveTo(mid)
    ensures CurveFree(pre + mid)
    ensures CursorAfter(pre + mid).first == CursorAfter(pre).first
    decreases |mid|
  {
    CurveFreeAppend(pre, mid);
    if mid == [] {
      assert pre + mid == pre;
    } else {
      var mid' := mid[..|mid| - 1];
      var s := pre + mid;
      assert s[..|s| - 1] == pre + mid';
      assert s[|s| - 1] == mid[|mid| - 1];
      SubpathStartKept(pre, mid');
    }
  }

  /** A ClosePath after MoveTo(p) and any number of LineTo elements emits
      exactly one more line, from the current point back to p, and leaves
      both cursor points at p. */
  lemma ClosePathReturns(pre: BezPath, p: Point, mid: BezPath)
    requires CurveFree(pre) && CurveFree(mid) && NoMoveTo(mid)
    ensures CurveFree(pre + [MoveTo(p)] + mid + [ClosePath])
    ensures var s := pre + [MoveTo(p)] + mid;
      && PathLines(s + [ClosePath]) == PathLines(s) + [Line(CursorAfter(s).last, p)]
      && CursorAfter(s + [ClosePath]) == Cursor(p, p)
  {
    var open := pre + [MoveTo(p)];
    CurveFreeAppend(pre, [MoveTo(p)]);
    assert open[..|open| - 1] == pre;
    SubpathStartKept(open, mid);
    var s := open + mid;
    CurveFreeAppend(s, [ClosePath]);
    assert (s + [ClosePath])[..|s|] == s;
  }

  /** Before the first MoveTo both cursor points start at the origin, so a
      ClosePath there draws back to (0, 0). */
  lemma CloseBeforeMoveToReturnsToOrigin(mid: BezPath)
    requires CurveFree(mid) && NoMoveTo(mid)
    ensures CurveFree(mid + [ClosePath])
    ensures PathLines(mid + [ClosePath]) == PathLines(mid) + [Line(CursorAfter(mid).last, ORIGIN)]
  {
    SubpathStartKept([], mid);
    assert [] + mid == mid;
    CurveFreeAppend(mid, [ClosePath]);
    assert (mid + [ClosePath])[..|mid|] == mid;
  }

  /** A path that opens with LineTo(p) draws its first line from the origin. */
  lemma LeadingLineToStartsAtOrigin(p: Point, rest: BezPath)
    requires CurveFree(rest)
    ensures CurveFree([LineTo(p)] + rest)
    ensures |PathLines([LineTo(p)] + rest)| > 0 && PathLines([LineTo(p)] + rest)[0] == Line(ORIGIN, p)
  {
    assert [LineTo(p)][..0] == [];
    PathLinesPrefix([LineTo(p)], rest);
  }

  /** The path MoveTo(v[0]) LineTo(v[1]) ... LineTo(v[n-1]). */
  function Polyline(v: seq<Point>): (path: BezPath)
    requires |v| >= 1
    ensures |path| == |v| && CurveFree(path)
  {
    [MoveTo(v[0])] + seq(|v| - 1, i requires 0 <= i < |v| - 1 => LineTo(v[i + 1]))
  }

  /** The open chain of edges v[0]-v[1], ..., v[n-2]-v[n-1]. */
  function Edges(v: seq<Point>): seq<Line>
    requires |v| >= 1
  {
    seq(|v| - 1, i requires 0 <= i < |v| - 1 => Line(v[i], v[i + 1]))
  }

  /** The closed polygon's edges v[i]-v[(i+1) mod n]. */
  function PolygonEdges(v: seq<Point>): seq<Line> {
    seq(|v|, i requires 0 <= i < |v| => Line(v[i], v[(i + 1) % |v|]))
  }

  /** An open polyline emits one line per edge, each from the previous
      point to the next, and ends with its subpath start at v[0] and its
      current point at the last vertex. */
  lemma {:induction false} OpenPolyline(v: seq<Point>)
    requires |v| >= 1
    ensures PathLines(Polyline(v)) == Edges(v)
    ensures CursorAfter(Polyline(v)) == Cursor(v[0], v[|v| - 1])
    decreases |v|
  {
    var path := Polyline(v);
    if |v| == 1 {
      assert path[..0] == [];
    } else {
      var w := v[..|v| - 1];
      OpenPolyline(w);
      assert path[..|path| - 1] == Polyline(w);
      assert path[|path| - 1] == LineTo(v[|v| - 1]);
      assert Edges(v) == Edges(w) + [Line(v[|v| - 2], v[|v| - 1])];
    }
  }

  /** A closed polygon emits exactly its n edges, the ClosePath supplying the
      last one back to v[0]. */
  lemma ClosedPolygon(v: seq<Point>)
    requires |v| >= 1
    ensures CurveFree(Polyline(v) + [ClosePath])
    ensures PathLines(Polyline(v) + [ClosePath]) == PolygonEdges(v)
  {
    var path := Polyline(v);
    OpenPolyline(v);
    CurveFreeAppend(path, [ClosePath]);
    assert (path + [ClosePath])[..|path|] == path;
    var edges := PolygonEdges(v);
    assert edges == Edges(v) + [Line(v[|v| - 1], v[0])] by {
      forall i | 0 <= i < |v| - 1 ensures edges[i] == Edges(v)[i] {
        assert (i + 1) % |v| == i + 1;
      }
      assert (|v| - 1 + 1) % |v| == 0;
    }
  }

  /** A closed four-vertex path, such as the square
      MoveTo(0,0) LineTo(10,0) LineTo(10,10) LineTo(0,10) ClosePath. */
  function Quad(v: seq<Point>): BezPath
    requires |v| == 4
  {
    Polyline(v) + [ClosePath]
  }

  lemma QuadLines(v: seq<Point>)
    requires |v| == 4
    ensures CurveFree(Quad(v)) && |PathLines(Quad(v))| == 4
  {
    ClosedPolygon(v);
  }

  /** One closed quadrilateral packs into 4 line primitives, 16 data words
      and the object [0, 4) at data offset 0 with the path's bounding box. */
  lemma OneSquare(v: seq<Point>, boundingBox: BezPath -> Rect)
    requires |v| == 4
    ensures AllCurveFree([Quad(v)])
    ensures |Tags(AllLines([Quad(v)]))| == 4 && |Coords(AllLines([Quad(v)]))| == 16
    ensures Objects([Quad(v)], boundingBox) == [Object(0, 4, 0, BboxWords(boundingBox(Quad(v))))]
  {
    var doc := [Quad(v)];
    QuadLines(v);
    assert doc[..0] == [] && doc[..1] == doc;
    CoordsLength(AllLines(doc));
    assert AllLines(doc) == PathLines(Quad(v)) by { assert doc[..|doc| - 1] == []; }
  }

  /** Two closed quadrilaterals pack into two objects; the second covers
      primitives [4, 8) and starts at data word 16. */
  lemma TwoSquares(v: seq<Point>, w: seq<Point>, boundingBox: BezPath -> Rect)
    requires |v| == 4 && |w| == 4
    ensures AllCurveFree([Quad(v), Quad(w)])
    ensures |Tags(AllLines([Quad(v), Quad(w)]))| == 8 && |Coords(AllLines([Quad(v), Quad(w)]))| == 32
    ensures Objects([Quad(v), Quad(w)], boundingBox)
         == [Object(0, 4, 0, BboxWords(boundingBox(Quad(v)))), Object(4, 8, 16, BboxWords(boundingBox(Quad(w))))]
  {
    var doc := [Quad(v), Quad(w)];
    QuadLines(v);
    QuadLines(w);
    assert doc[..0] == [] && doc[..2] == doc;
    assert doc[..1] == [Quad(v)];
    assert [Quad(v)][..0] == [];
    assert AllLines(doc[..1]) == PathLines(Quad(v));
    assert AllLines(doc) == PathLines(Quad(v)) + PathLines(Quad(w));
    CoordsLength(AllLines(doc[..1]));
    CoordsLength(AllLines(doc));
  }

  /** An empty document packs into three empty vectors. */
  lemma EmptyDocument(boundingBox: BezPath -> Rect)
    ensures Objects([], boundingBox) == [] && Tags(AllLines([])) == [] && Coords(AllLines([])) == []
  {
  }
}
