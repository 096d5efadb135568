/** The path-to-GPU-layout packer: flattened Bezier paths become one shared
    array of primitive tags, one shared array of coordinate words (four per
    line: x0, y0, x1, y1) and one object record per path holding its
    primitive range, its data offset and its bounding box. */
module Svg {
  import opened Common
  import Usvg

  /** The only primitive tag the packer emits: a line segment. */
  const PRIMITIVE_LINE: u32 := 1

  /** The flattening tolerance the loader passes to the curve flattener. */
  const FLATTEN_TOLERANCE: real := 0.1

  /** A kurbo point. Coordinates are kept exact: the `f64 as f32` casts of
      the packer are modelled as the identity. */
  datatype Point = Point(x: real, y: real)

  /** `kurbo::Point::ZERO`, where both cursor points start. */
  const ORIGIN: Point := Point(0.0, 0.0)

  /** A kurbo path element. */
  datatype PathEl =
    | MoveTo(p: Point)
    | LineTo(p: Point)
    | QuadTo(c: Point, p: Point)
    | CurveTo(c1: Point, c2: Point, p: Point)
    | ClosePath

  /** A kurbo `BezPath`: its elements in order. */
  type BezPath = seq<PathEl>

  /** An axis-aligned rectangle, as kurbo's `bounding_box` returns it. */
  datatype Rect = Rect(x0: real, y0: real, x1: real, y1: real)

  /** The record uploaded per path: `primitives` is the range
      [primitiveStart, primitiveEnd) of the primitive array, `offsetData`
      the index in the data array where the path's words begin, and `bbox`
      the four words x0, y0, x1, y1. */
  datatype Object = Object(primitiveStart: u32, primitiveEnd: u32, offsetData: u32, bbox: seq<real>)

  /** A line primitive from p0 to p1. */
  datatype Line = Line(p0: Point, p1: Point)

  /** The packer's two per-path points: the start of the current subpath
      and the current point. */
  datatype Cursor = Cursor(first: Point, last: Point)

  const START: Cursor := Cursor(ORIGIN, ORIGIN)

  predicate IsCurve(e: PathEl) {
    e.QuadTo? || e.CurveTo?
  }

  /** The packer only accepts paths without curve elements; any other element
      is a `todo!()` panic in the source. */
  predicate CurveFree(path: BezPath) {
    forall k :: 0 <= k < |path| ==> !IsCurve(path[k])
  }

  predicate AllCurveFree(paths: seq<BezPath>) {
    forall i :: 0 <= i < |paths| ==> CurveFree(paths[i])
  }

  /** True of the elements that emit a primitive. */
  predicate Draws(e: PathEl) {
    e.LineTo? || e.ClosePath?
  }

  /** The cursor after processing one element. */
  function Advance(c: Cursor, e: PathEl): Cursor
    requires !IsCurve(e)
  {
    match e
    case MoveTo(p) => Cursor(p, p)
    case LineTo(p) => Cursor(c.first, p)
    case ClosePath => Cursor(c.first, c.first)
  }

  /** The lines one element emits from cursor c. */
  function Emitted(c: Cursor, e: PathEl): seq<Line>
    requires !IsCurve(e)
  {
    match e
    case MoveTo(_) => []
    case LineTo(p) => [Line(c.last, p)]
    case ClosePath => [Line(c.last, c.first)]
  }

  /** The cursor after walking a whole path from the origin. */
  function CursorAfter(path: BezPath): Cursor
    requires CurveFree(path)
  {
    if path == [] then START
    else Advance(CursorAfter(path[..|path| - 1]), path[|path| - 1])
  }

  /** The lines the packer emits for one path, in order. */
  function PathLines(path: BezPath): seq<Line>
    requires CurveFree(path)
  {
    if path == [] then []
    else
      var init := path[..|path| - 1];
      PathLines(init) + Emitted(CursorAfter(init), path[|path| - 1])
  }

  /** The lines of all paths, path after path. */
  function AllLines(paths: seq<BezPath>): seq<Line>
    requires AllCurveFree(paths)
  {
    if paths == [] then []
    else AllLines(paths[..|paths| - 1]) + PathLines(paths[|paths| - 1])
  }

  function LineWords(l: Line): seq<real> {
    [l.p0.x, l.p0.y, l.p1.x, l.p1.y]
  }

  /** The data words of a sequence of lines. */
  function Coords(lines: seq<Line>): seq<real> {
    if lines == [] then []
    else Coords(lines[..|lines| - 1]) + LineWords(lines[|lines| - 1])
  }

  /** The primitive tags of a sequence of lines. */
  function Tags(lines: seq<Line>): seq<u32> {
    seq(|lines|, _ => PRIMITIVE_LINE)
  }

  function BboxWords(r: Rect): seq<real> {
    [r.x0, r.y0, r.x1, r.y1]
  }

  /** The object record of path i: the primitive counts before and after
      the path, the data length before it, and its bounding box. */
  function ObjectFor(paths: seq<BezPath>, i: nat, boundingBox: BezPath -> Rect): Object
    requires AllCurveFree(paths) && i < |paths|
  {
    var before := AllLines(paths[..i]);
    var after := AllLines(paths[..i + 1]);
    Object(AsU32(|Tags(before)|), AsU32(|Tags(after)|), AsU32(|Coords(before)|),
           BboxWords(boundingBox(paths[i])))
  }

  function Objects(paths: seq<BezPath>, boundingBox: BezPath -> Rect): seq<Object>
    requires AllCurveFree(paths)
  {
    seq(|paths|, i requires 0 <= i < |paths| => ObjectFor(paths, i, boundingBox))
  }

  /** The three output vectors owned by the packer. */
  class GpuData {
    var objects: seq<Object>
    var primitives: seq<u32>
    var data: seq<real>

    constructor ()
      ensures objects == [] && primitives == [] && data == []
    {
      objects := [];
      primitives := [];
      data := [];
    }

    /** Appends one line primitive: its tag, then the words x0, y0, x1, y1. */
    method PushLine(p0: Point, p1: Point)
      modifies this`primitives, this`data
      ensures primitives == old(primitives) + [PRIMITIVE_LINE]
      ensures data == old(data) + LineWords(Line(p0, p1))
    {
      primitives := primitives + [PRIMITIVE_LINE];
      data := data + [p0.x, p0.y, p1.x, p1.y];
    }
  }

  /** Packs the paths, in input order, into one GpuData. */
  method GenerateGpuData(paths: seq<BezPath>, boundingBox: BezPath -> Rect) returns (g: GpuData)
    requires AllCurveFree(paths)
    ensures fresh(g)
    ensures g.primitives == Tags(AllLines(paths))
    ensures g.data == Coords(AllLines(paths))
    ensures g.objects == Objects(paths, boundingBox)
  {
    g := new GpuData();
    for i := 0 to |paths|
      invariant g.primitives == Tags(AllLines(paths[..i]))
      invariant g.data == Coords(AllLines(paths[..i]))
      invariant g.objects == Objects(paths[..i], boundingBox)
    {
      var path := paths[i];
      var aabb := boundingBox(path);
      var dataOffset := |g.data|;
      var primitiveStart := |g.primitives|;
      PackPath(g, path);
      var primitiveEnd := |g.primitives|;
      g.objects := g.objects + [Object(AsU32(primitiveStart), AsU32(primitiveEnd), AsU32(dataOffset),
                                       [aabb.x0, aabb.y0, aabb.x1, aabb.y1])];
      StepPaths(paths, i);
      CoordsAppend(AllLines(paths[..i]), PathLines(path));
      ObjectsStep(paths, i, boundingBox);
    }
    assert paths[..|paths|] == paths;
  }

  /** The body of the packer's loop over one path's elements: tracks the
      subpath start and the current point, both starting at the origin, and
      appends one tag and four words per LineTo and per ClosePath. */
  method PackPath(g: GpuData, path: BezPath)
    requires CurveFree(path)
    modifies g`primitives, g`data
    ensures g.primitives == old(g.primitives) + Tags(PathLines(path))
    ensures g.data == old(g.data) + Coords(PathLines(path))
  {
    ghost var tags0, data0 := g.primitives, g.data;
    ghost var lines: seq<Line> := [];
    var first, last := ORIGIN, ORIGIN;
    assert path[..0] == [];
    for k := 0 to |path|
      invariant lines == PathLines(path[..k])
      invariant Cursor(first, last) == CursorAfter(path[..k])
      invariant g.primitives == tags0 + Tags(lines)
      invariant g.data == data0 + Coords(lines)
    {
      StepPath(path, k);
      match path[k] {
        case MoveTo(p) =>
          first := p;
          last := p;
        case LineTo(p) =>
          PushStep(tags0, data0, lines, Line(last, p));
          g.PushLine(last, p);
          lines := lines + [Line(last, p)];
          last := p;
        case ClosePath =>
          PushStep(tags0, data0, lines, Line(last, first));
          g.PushLine(last, first);
          lines := lines + [Line(last, first)];
          last := first;
        case _ =>
          assert false;
      }
    }
    assert path[..|path|] == path;
  }

  // ---------------------------------------------------------------------
  // Unfolding lemmas used by the loops

  lemma CurveFreePrefix(path: BezPath, k: nat)
    requires CurveFree(path) && k <= |path|
    ensures CurveFree(path[..k])
  {
  }

  lemma StepPath(path: BezPath, k: nat)
    requires CurveFree(path) && k < |path|
    ensures CurveFree(path[..k]) && CurveFree(path[..k + 1])
    ensures CursorAfter(path[..k + 1]) == Advance(CursorAfter(path[..k]), path[k])
    ensures PathLines(path[..k + 1]) == PathLines(path[..k]) + Emitted(CursorAfter(path[..k]), path[k])
  {
    assert path[..k + 1][..k] == path[..k];
  }

  lemma StepPaths(paths: seq<BezPath>, i: nat)
    requires AllCurveFree(paths) && i < |paths|
    ensures AllCurveFree(paths[..i]) && AllCurveFree(paths[..i + 1])
    ensures AllLines(paths[..i + 1]) == AllLines(paths[..i]) + PathLines(paths[i])
  {
    assert paths[..i + 1][..i] == paths[..i];
  }

  lemma ObjectsStep(paths: seq<BezPath>, i: nat, boundingBox: BezPath -> Rect)
    requires AllCurveFree(paths) && i < |paths|
    ensures AllCurveFree(paths[..i]) && AllCurveFree(paths[..i + 1])
    ensures Objects(paths[..i + 1], boundingBox)
         == Objects(paths[..i], boundingBox) + [ObjectFor(paths, i, boundingBox)]
  {
    var a := Objects(paths[..i + 1], boundingBox);
    var b := Objects(paths[..i], boundingBox) + [ObjectFor(paths, i, boundingBox)];
    forall j | 0 <= j <= i ensures a[j] == b[j] {
      assert paths[..i + 1][..j] == paths[..j];
      assert paths[..i + 1][..j + 1] == paths[..j + 1];
      if j < i {
        assert paths[..i][..j] == paths[..j];
        assert paths[..i][..j + 1] == paths[..j + 1];
      }
    }
  }

  /** One more line adds one tag and its four words behind those already written. */
  lemma PushStep(tags0: seq<u32>, data0: seq<real>, lines: seq<Line>, l: Line)
    ensures tags0 + Tags(lines) + [PRIMITIVE_LINE] == tags0 + Tags(lines + [l])
    ensures data0 + Coords(lines) + LineWords(l) == data0 + Coords(lines + [l])
  {
    assert (lines + [l])[..|lines|] == lines;
  }

  /** Coordinate words distribute over concatenation. */
  lemma {:induction false} CoordsAppend(a: seq<Line>, b: seq<Line>)
    ensures Coords(a + b) == Coords(a) + Coords(b)
    decreases |b|
  {
    if b != [] {
      var b' := b[..|b| - 1];
      assert (a + b)[..|a + b| - 1] == a + b';
      CoordsAppend(a, b');
    } else {
      assert a + b == a;
    }
  }
}

module SvgLayout {
  import opened Common
  import opened Svg

  /** The number of elements of a path that emit a primitive, counted from
      the front: one per LineTo and per ClosePath. */
  function DrawCount(path: BezPath): nat {
    if path == [] then 0 else (if Draws(path[0]) then 1 else 0) + DrawCount(path[1..])
  }

  /** Together the paths stay within the source's u32 object fields. */
  predicate Fits(paths: seq<BezPath>)
    requires AllCurveFree(paths)
  {
    4 * |AllLines(paths)| < U32_LIMIT
  }

  lemma {:induction false} DrawCountAppend(a: BezPath, b: BezPath)
    ensures DrawCount(a + b) == DrawCount(a) + DrawCount(b)
    decreases |a|
  {
    if a == [] {
      assert a + b == b;
    } else {
      assert (a + b)[1..] == a[1..] + b;
      DrawCountAppend(a[1..], b);
    }
  }

  /** Every data word belongs to a line: four words per primitive. */
  lemma {:induction false} CoordsLength(lines: seq<Line>)
    ensures |Coords(lines)| == 4 * |lines|
    decreases |lines|
  {
    if lines != [] {
      CoordsLength(lines[..|lines| - 1]);
    }
  }

  /** A path emits exactly one primitive per LineTo and per ClosePath; a
      MoveTo emits none. */
  lemma {:induction false} LineCount(path: BezPath)
    requires CurveFree(path)
    ensures |PathLines(path)| == DrawCount(path)
    decreases |path|
  {
    if path != [] {
      var init, e := path[..|path| - 1], path[|path| - 1];
      LineCount(init);
      DrawCountAppend(init, [e]);
      assert init + [e] == path;
      assert [e][1..] == [];
    }
  }

  lemma AllCurveFreeAppend(a: seq<BezPath>, b: seq<BezPath>)
    requires AllCurveFree(a) && AllCurveFree(b)
    ensures AllCurveFree(a + b)
  {
    forall i | 0 <= i < |a + b| ensures CurveFree((a + b)[i]) {
      if i < |a| { assert (a + b)[i] == a[i]; } else { assert (a + b)[i] == b[i - |a|]; }
    }
  }

  /** The lines of a document split at any point into the lines of its two parts. */
  lemma {:induction false} AllLinesAppend(a: seq<BezPath>, b: seq<BezPath>)
    requires AllCurveFree(a) && AllCurveFree(b)
    ensures AllCurveFree(a + b)
    ensures AllLines(a + b) == AllLines(a) + AllLines(b)
    decreases |b|
  {
    AllCurveFreeAppend(a, b);
    if b == [] {
      assert a + b == a;
    } else {
      var b' := b[..|b| - 1];
      var ab := a + b;
      assert ab[..|ab| - 1] == a + b';
      assert ab[|ab| - 1] == b[|b| - 1];
      AllLinesAppend(a, b');
      assert AllLines(ab) == AllLines(a + b') + PathLines(b[|b| - 1]);
      assert AllLines(b) == AllLines(b') + PathLines(b[|b| - 1]);
    }
  }

  lemma AllLinesSplit(paths: seq<BezPath>, j: nat)
    requires AllCurveFree(paths) && j <= |paths|
    ensures AllCurveFree(paths[..j]) && AllCurveFree(paths[j..])
    ensures AllLines(paths) == AllLines(paths[..j]) + AllLines(paths[j..])
  {
    assert paths[..j] + paths[j..] == paths;
    AllLinesAppend(paths[..j], paths[j..]);
  }

  /** The start and end of object i are the primitive counts before and
      after path i; its data offset is four times its start; it spans one
      primitive per drawing element of the path; and its bbox is the
      bounding box of the path as passed in. */
  lemma ObjectRange(paths: seq<BezPath>, boundingBox: BezPath -> Rect, i: nat)
    requires AllCurveFree(paths) && Fits(paths) && i < |paths|
    ensures AllCurveFree(paths[..i])
    ensures |Objects(paths, boundingBox)| == |paths|
    ensures var o := Objects(paths, boundingBox)[i];
      && o.primitiveStart == |AllLines(paths[..i])|
      && o.primitiveEnd == o.primitiveStart + DrawCount(paths[i])
      && o.primitiveEnd <= |Tags(AllLines(paths))|
      && o.offsetData == 4 * o.primitiveStart
      && o.bbox == BboxWords(boundingBox(paths[i]))
  {
    StepPaths(paths, i);
    AllLinesSplit(paths, i + 1);
    LineCount(paths[i]);
    CoordsLength(AllLines(paths[..i]));
  }

  /** Every primitive is a line with four data words, and there is one
      object per path. */
  lemma LayoutCounts(paths: seq<BezPath>, boundingBox: BezPath -> Rect)
    requires AllCurveFree(paths)
    ensures var objects, primitives, data := Objects(paths, boundingBox), Tags(AllLines(paths)), Coords(AllLines(paths));
      && |objects| == |paths|
      && |data| == 4 * |primitives|
      && (forall t :: 0 <= t < |primitives| ==> primitives[t] == PRIMITIVE_LINE)
  {
    CoordsLength(AllLines(paths));
  }

  /** Object 0 starts at primitive 0 and the last object ends at the end of
      the primitive array. */
  lemma LayoutEnds(paths: seq<BezPath>, boundingBox: BezPath -> Rect)
    requires AllCurveFree(paths) && Fits(paths) && |paths| > 0
    ensures var objects := Objects(paths, boundingBox);
      && objects[0].primitiveStart == 0
      && objects[|paths| - 1].primitiveEnd == |Tags(AllLines(paths))|
  {
    ObjectRange(paths, boundingBox, 0);
    assert paths[..0] == [];
    var n := |paths| - 1;
    ObjectRange(paths, boundingBox, n);
    StepPaths(paths, n);
    assert paths[..n + 1] == paths;
  }

  /** Each object starts where the previous one ends. */
  lemma LayoutContiguous(paths: seq<BezPath>, boundingBox: BezPath -> Rect, i: nat)
    requires AllCurveFree(paths) && Fits(paths) && i + 1 < |paths|
    ensures Objects(paths, boundingBox)[i + 1].primitiveStart == Objects(paths, boundingBox)[i].primitiveEnd
  {
    ObjectRange(paths, boundingBox, i);
    ObjectRange(paths, boundingBox, i + 1);
    StepPaths(paths, i);
    LineCount(paths[i]);
  }

  /** Object ranges tile the primitive array: object 0 starts at 0, each
      object starts where the previous one ends and no later than it ends,
      and the last one ends at the end of the array. */
  lemma LayoutTiles(paths: seq<BezPath>, boundingBox: BezPath -> Rect)
    requires AllCurveFree(paths) && Fits(paths)
    ensures var objects, primitives := Objects(paths, boundingBox), Tags(AllLines(paths));
      && |objects| == |paths|
      && (|objects| > 0 ==> objects[0].primitiveStart == 0)
      && (forall i :: 0 <= i < |objects| - 1 ==> objects[i + 1].primitiveStart == objects[i].primitiveEnd)
      && (|objects| > 0 ==> objects[|objects| - 1].primitiveEnd == |primitives|)
      && (forall i :: 0 <= i < |objects| ==>
            objects[i].primitiveStart <= objects[i].primitiveEnd <= |primitives|)
  {
    var objects := Objects(paths, boundingBox);
    if |paths| > 0 {
      LayoutEnds(paths, boundingBox);
    }
    forall i | 0 <= i < |objects| - 1
      ensures objects[i + 1].primitiveStart == objects[i].primitiveEnd
    {
      LayoutContiguous(paths, boundingBox, i);
    }
    forall i | 0 <= i < |objects|
      ensures objects[i].primitiveStart <= objects[i].primitiveEnd <= |Tags(AllLines(paths))|
    {
      ObjectRange(paths, boundingBox, i);
    }
  }

  /** The data words object i references, from its offset over four words
      per primitive of its range, are exactly the words of path i's lines. */
  lemma ObjectData(paths: seq<BezPath>, boundingBox: BezPath -> Rect, i: nat)
    requires AllCurveFree(paths) && Fits(paths) && i < |paths|
    ensures var o, data := Objects(paths, boundingBox)[i], Coords(AllLines(paths));
      && o.primitiveStart <= o.primitiveEnd
      && o.offsetData + 4 * (o.primitiveEnd - o.primitiveStart) <= |data|
      && data[o.offsetData .. o.offsetData + 4 * (o.primitiveEnd - o.primitiveStart)]
         == Coords(PathLines(paths[i]))
  {
    ObjectRange(paths, boundingBox, i);
    StepPaths(paths, i);
    AllLinesSplit(paths, i + 1);
    var before, mine, after := AllLines(paths[..i]), PathLines(paths[i]), AllLines(paths[i + 1..]);
    assert AllLines(paths) == before + mine + after;
    CoordsAppend(before + mine, after);
    CoordsAppend(before, mine);
    CoordsLength(before);
    CoordsLength(mine);
    LineCount(paths[i]);
  }

  /** Packing is append-only: the output for a prefix of the document is a
      prefix of the output for the whole document, so later paths never
      alter what earlier paths wrote. */
  lemma PrefixStable(paths: seq<BezPath>, j: nat)
    requires AllCurveFree(paths) && j <= |paths|
    ensures AllCurveFree(paths[..j])
    ensures Tags(AllLines(paths[..j])) <= Tags(AllLines(paths))
    ensures Coords(AllLines(paths[..j])) <= Coords(AllLines(paths))
  {
    AllLinesSplit(paths, j);
    CoordsAppend(AllLines(paths[..j]), AllLines(paths[j..]));
  }

  /** The objects of a document prefix are a prefix of the document's objects. */
  lemma ObjectsPrefixStable(paths: seq<BezPath>, boundingBox: BezPath -> Rect, j: nat)
    requires AllCurveFree(paths) && j <= |paths|
    ensures AllCurveFree(paths[..j])
    ensures Objects(paths[..j], boundingBox) == Objects(paths, boundingBox)[..j]
  {
    var a, b := Objects(paths[..j], boundingBox), Objects(paths, boundingBox)[..j];
    forall i | 0 <= i < j ensures a[i] == b[i] {
      assert paths[..j][..i] == paths[..i];
      assert paths[..j][..i + 1] == paths[..i + 1];
    }
  }
}
