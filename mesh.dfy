/** The value types of Font.h and the glyph mesh builder of Font.cpp as
    functions over the font's build state. The class in module Fonts runs the
    same steps in place and is proved against these functions. */
module Mesh {

  /** Number of values of GLushort, the type of every index and range field. */
  const Limit: nat := 0x1_0000

  type UInt16 = n: int | 0 <= n < 0x1_0000

  /** A glm::vec4 vertex: position (x, y) and curve-space coordinates (z, w). */
  datatype Vertex = Vertex(x: real, y: real, z: real, w: real)

  /** The hub of every contour's triangle fan, appended at the origin. */
  const Pivot := Vertex(0.0, 0.0, 0.0, 0.0)

  /** An on-curve vertex (pivot, contour start, line or curve end) has w = 0. */
  predicate OnCurve(v: Vertex)
  {
    v.w == 0.0
  }

  /** A curve's control vertex has curve-space coordinates (0, 1). */
  predicate Control(v: Vertex)
  {
    v.z == 0.0 && v.w == 1.0
  }

  /** A range of an index buffer: `length` indices from offset `start`. */
  datatype DrawParams = DrawParams(start: UInt16, length: UInt16)
  {
    function End(): nat
    {
      start + length
    }
  }

  /** A glyph: its fan ranges, its one triangle range and its advance width. */
  datatype Glyph = Glyph(fans: seq<DrawParams>, triangles: DrawParams, advance: real)

  /** The state a Font builds: the glyph map and the three CPU-side buffers
      shared by every glyph, so that ranges are absolute offsets into them. */
  datatype Atlas = Atlas(
    glyphs: map<char, Glyph>,
    points: seq<Vertex>,
    fan: seq<UInt16>,
    triangles: seq<UInt16>)

  /** A glyph under construction: the atlas and the DrawParams cursor whose
      `start` is the fan offset of the contour now open. */
  datatype Progress = Progress(atlas: Atlas, params: DrawParams)

  // ---------------------------------------------------------------------
  // Invariants
  // ---------------------------------------------------------------------

  predicate IndicesBelow(s: seq<UInt16>, n: nat)
  {
    forall i :: 0 <= i < |s| ==> s[i] < n
  }

  /** triangles[i..i+3] is a correction triangle: three consecutive vertices,
      on-curve, control, on-curve. */
  predicate CorrectionAt(points: seq<Vertex>, triangles: seq<UInt16>, i: nat)
  {
    && i + 2 < |triangles|
    && triangles[i + 1] as int == triangles[i] as int + 1
    && triangles[i + 2] as int == triangles[i] as int + 2
    && triangles[i + 2] < |points|
    && OnCurve(points[triangles[i]])
    && Control(points[triangles[i] + 1])
    && OnCurve(points[triangles[i] + 2])
  }

  predicate Corrections(points: seq<Vertex>, triangles: seq<UInt16>)
  {
    && |triangles| % 3 == 0
    && forall i :: 0 <= i < |triangles| && i % 3 == 0 ==> CorrectionAt(points, triangles, i)
  }

  predicate EndsOnCurve(points: seq<Vertex>)
  {
    |points| > 0 ==> OnCurve(points[|points| - 1])
  }

  /** Fan ranges: each longer than 2, inside the buffer, in increasing order
      and pairwise disjoint. */
  predicate FansWithin(fans: seq<DrawParams>, bound: nat)
  {
    && (forall j :: 0 <= j < |fans| ==> fans[j].length > 2 && fans[j].End() <= bound)
    && (forall i, j :: 0 <= i < j < |fans| ==> fans[i].End() <= fans[j].start)
  }

  /** A triangle range covers whole correction triangles inside the buffer. */
  predicate TrianglesWithin(r: DrawParams, bound: nat)
  {
    r.start % 3 == 0 && r.length % 3 == 0 && r.End() <= bound
  }

  predicate GlyphWithin(g: Glyph, fanBound: nat, triangleBound: nat)
  {
    FansWithin(g.fans, fanBound) && TrianglesWithin(g.triangles, triangleBound)
  }

  predicate GlyphsWithin(glyphs: map<char, Glyph>, fanBound: nat, triangleBound: nat)
  {
    forall c :: c in glyphs ==> GlyphWithin(glyphs[c], fanBound, triangleBound)
  }

  /** The build invariant: every index names an appended vertex, the triangle
      buffer is a list of correction triangles, the last vertex is on-curve,
      and every glyph's ranges lie inside the buffers. */
  predicate Good(a: Atlas)
  {
    && |a.points| <= Limit
    && |a.fan| <= |a.points|
    && IndicesBelow(a.fan, |a.points|)
    && IndicesBelow(a.triangles, |a.points|)
    && Corrections(a.points, a.triangles)
    && EndsOnCurve(a.points)
    && GlyphsWithin(a.glyphs, |a.fan|, |a.triangles|)
  }

  /** Glyph c is being built: its open contour starts at params.start, after
      all of c's closed ranges, and its triangle length is still unset. */
  predicate Open(pr: Progress, c: char)
  {
    && c in pr.atlas.glyphs
    && pr.params.start <= |pr.atlas.fan|
    && pr.atlas.glyphs[c].triangles.start <= |pr.atlas.triangles|
    && pr.atlas.glyphs[c].triangles.length == 0
    && forall f :: f in pr.atlas.glyphs[c].fans ==> f.End() <= pr.params.start
  }

  // ---------------------------------------------------------------------
  // Builder steps
  // ---------------------------------------------------------------------

  /** The range of the open contour once the fan buffer has `fanSize` entries. */
  function Closed(params: DrawParams, fanSize: UInt16): (r: DrawParams)
    requires params.start <= fanSize
    ensures r.start == params.start && r.End() == fanSize
  {
    DrawParams(params.start, fanSize - params.start)
  }

  /** A closed range is stored only if it has more than 2 indices. */
  function Keep(fans: seq<DrawParams>, range: DrawParams): (r: seq<DrawParams>)
    ensures |r| == |fans| + (if range.length > 2 then 1 else 0)
    ensures r[..|fans|] == fans
    ensures range.length > 2 ==> r[|fans|] == range
  {
    if range.length > 2 then fans + [range] else fans
  }

  /** CreateGlyph: a fresh glyph for c with the advance, its triangle range
      starting at the end of the triangle buffer, and a cursor at the end of
      the fan buffer. */
  function Create(a: Atlas, c: char, advance: real): (r: Progress)
    requires c !in a.glyphs
    requires |a.fan| < Limit && |a.triangles| < Limit
    ensures c in r.atlas.glyphs && r.atlas.glyphs.Keys == a.glyphs.Keys + {c}
    ensures forall d :: d in a.glyphs ==> r.atlas.glyphs[d] == a.glyphs[d]
    ensures r.atlas.glyphs[c].advance == advance && r.atlas.glyphs[c].fans == []
    ensures r.atlas.glyphs[c].triangles == DrawParams(|a.triangles|, 0)
    ensures r.params == DrawParams(|a.fan|, 0)
    ensures r.atlas.points == a.points && r.atlas.fan == a.fan && r.atlas.triangles == a.triangles
  {
    Progress(
      a.(glyphs := a.glyphs[c := Glyph([], DrawParams(|a.triangles|, 0), advance)]),
      DrawParams(|a.fan|, 0))
  }

  /** AddContour: close the open contour, open a new one at the end of the fan
      buffer, and append the pivot and the contour's first vertex. */
  function Contour(pr: Progress, c: char, x: real, y: real, t: real): (r: Progress)
    requires c in pr.atlas.glyphs
    requires pr.params.start <= |pr.atlas.fan| <= |pr.atlas.points|
    requires |pr.atlas.points| + 2 <= Limit
  {
    var a := pr.atlas;
    var index := |a.points|;
    var closed := Closed(pr.params, |a.fan|);
    var g := a.glyphs[c];
    Progress(
      Atlas(
        a.glyphs[c := g.(fans := Keep(g.fans, closed))],
        a.points + [Pivot, Vertex(x, y, t, 0.0)],
        a.fan + [index, index + 1],
        a.triangles),
      DrawParams(|a.fan|, closed.length))
  }

  /** AddLine: append one on-curve vertex and its fan index. */
  function Line(pr: Progress, x: real, y: real, t: real): (r: Progress)
    requires |pr.atlas.points| < Limit
  {
    var a := pr.atlas;
    pr.(atlas := a.(points := a.points + [Vertex(x, y, t, 0.0)], fan := a.fan + [|a.points|]))
  }

  /** AddCurve: append the control vertex and the end vertex, the end vertex's
      fan index, and the correction triangle (previous vertex, control, end). */
  function Curve(pr: Progress, px: real, py: real, x: real, y: real, t: real): (r: Progress)
    requires 0 < |pr.atlas.points| && |pr.atlas.points| + 2 <= Limit
  {
    var a := pr.atlas;
    var index := |a.points|;
    pr.(atlas := a.(
      points := a.points + [Vertex(px, py, 0.0, 1.0), Vertex(x, y, t, 0.0)],
      fan := a.fan + [index + 1],
      triangles := a.triangles + [index - 1, index, index + 1]))
  }

  /** FinishGlyph: close the last contour and set the triangle range's length
      to cover everything appended to the triangle buffer since CreateGlyph. */
  function Finish(pr: Progress, c: char): (r: Atlas)
    requires c in pr.atlas.glyphs
    requires |pr.atlas.fan| < Limit && |pr.atlas.triangles| < Limit
    requires pr.params.start <= |pr.atlas.fan|
    requires pr.atlas.glyphs[c].triangles.start <= |pr.atlas.triangles|
  {
    var a := pr.atlas;
    var g := a.glyphs[c];
    var closed := Closed(pr.params, |a.fan|);
    a.(glyphs := a.glyphs[c := g.(
      fans := Keep(g.fans, closed),
      triangles := DrawParams(g.triangles.start, |a.triangles| - g.triangles.start))])
  }

  // ---------------------------------------------------------------------
  // What each step promises
  // ---------------------------------------------------------------------

  /** Appending a closed range after every stored one keeps the fan list
      ordered, and it is kept exactly when it holds more than 2 indices. */
  lemma {:induction false} KeepWithin(fans: seq<DrawParams>, range: DrawParams, bound: nat)
    requires FansWithin(fans, bound) && range.End() <= bound
    requires forall f :: f in fans ==> f.End() <= range.start
    ensures FansWithin(Keep(fans, range), bound)
    ensures range.length > 2 <==> Keep(fans, range) == fans + [range]
    ensures range.length <= 2 <==> Keep(fans, range) == fans
  {
    if range.length > 2 {
      var r := fans + [range];
      forall i, j | 0 <= i < j < |r| ensures r[i].End() <= r[j].start {
        if j == |fans| {
          assert r[i] in fans;
        }
      }
    }
  }

  lemma CorrectionsExtend(points: seq<Vertex>, triangles: seq<UInt16>, more: seq<Vertex>)
    requires Corrections(points, triangles)
    ensures Corrections(points + more, triangles)
  {
    var p := points + more;
    forall i | 0 <= i < |triangles| && i % 3 == 0 ensures CorrectionAt(p, triangles, i) {
      assert CorrectionAt(points, triangles, i);
    }
  }

  /** Fans stay within a buffer that only grows. */
  lemma GlyphsWithinGrow(glyphs: map<char, Glyph>, nf: nat, nt: nat, nf': nat, nt': nat)
    requires GlyphsWithin(glyphs, nf, nt) && nf <= nf' && nt <= nt'
    ensures GlyphsWithin(glyphs, nf', nt')
  {
  }

  /** CreateGlyph keeps the build invariant and opens glyph c. */
  lemma CreateKeepsGood(a: Atlas, c: char, advance: real)
    requires Good(a) && c !in a.glyphs
    requires |a.fan| < Limit && |a.triangles| < Limit
    ensures Good(Create(a, c, advance).atlas) && Open(Create(a, c, advance), c)
  {
    var r := Create(a, c, advance);
    assert GlyphWithin(r.atlas.glyphs[c], |a.fan|, |a.triangles|);
  }

  /** AddContour keeps the build invariant: the closed range is stored after
      glyph c's other ranges, and the new contour opens at the old fan end. */
  lemma ContourKeepsGood(pr: Progress, c: char, x: real, y: real, t: real)
    requires Good(pr.atlas) && Open(pr, c)
    requires |pr.atlas.points| + 2 <= Limit
    ensures Good(Contour(pr, c, x, y, t).atlas) && Open(Contour(pr, c, x, y, t), c)
  {
    var a := pr.atlas;
    var r := Contour(pr, c, x, y, t);
    var g := a.glyphs[c];
    var closed := Closed(pr.params, |a.fan|);
    assert GlyphWithin(g, |a.fan|, |a.triangles|);
    KeepWithin(g.fans, closed, |a.fan|);
    CorrectionsExtend(a.points, a.triangles, [Pivot, Vertex(x, y, t, 0.0)]);
    IndicesGrow(a.fan, |a.points|, |r.atlas.points|);
    IndicesGrow(a.triangles, |a.points|, |r.atlas.points|);
    var g' := g.(fans := Keep(g.fans, closed));
    assert GlyphWithin(g', |a.fan|, |a.triangles|);
    GlyphsUpdate(a.glyphs, c, g', |a.fan|, |a.triangles|);
    GlyphsWithinGrow(a.glyphs[c := g'], |a.fan|, |a.triangles|, |r.atlas.fan|, |r.atlas.triangles|);
    assert r.atlas.glyphs == a.glyphs[c := g'];
    forall f | f in g'.fans ensures f.End() <= r.params.start {
      if f !in g.fans {
        assert f == closed;
      }
    }
  }

  lemma LineKeepsGood(pr: Progress, c: char, x: real, y: real, t: real)
    requires Good(pr.atlas) && Open(pr, c)
    requires |pr.atlas.points| < Limit
    ensures Good(Line(pr, x, y, t).atlas) && Open(Line(pr, x, y, t), c)
  {
    var a := pr.atlas;
    CorrectionsExtend(a.points, a.triangles, [Vertex(x, y, t, 0.0)]);
    var r := Line(pr, x, y, t);
    GlyphsWithinGrow(a.glyphs, |a.fan|, |a.triangles|, |r.atlas.fan|, |r.atlas.triangles|);
  }

  /** Appending vertices keeps every index below the vertex count. */
  lemma IndicesGrow(s: seq<UInt16>, n: nat, n': nat)
    requires IndicesBelow(s, n) && n <= n'
    ensures IndicesBelow(s, n')
  {
  }

  /** A correction triangle over the last on-curve vertex and two appended
      vertices, control then on-curve, keeps the triangle list well formed. */
  lemma {:induction false} CorrectionsAppend(points: seq<Vertex>, triangles: seq<UInt16>, control: Vertex, end: Vertex)
    requires Corrections(points, triangles) && EndsOnCurve(points)
    requires 0 < |points| && |points| + 2 <= Limit
    requires Control(control) && OnCurve(end)
    ensures var n := |points|;
      Corrections(points + [control, end], triangles + [n - 1, n, n + 1])
  {
    var n := |points|;
    var p := points + [control, end];
    var tr := triangles + [n - 1, n, n + 1];
    CorrectionsExtend(points, triangles, [control, end]);
    assert CorrectionAt(p, tr, |triangles|);
    forall i | 0 <= i < |tr| && i % 3 == 0 ensures CorrectionAt(p, tr, i) {
      if i < |triangles| {
        assert CorrectionAt(p, triangles, i);
      }
    }
  }

  lemma CurveKeepsGood(pr: Progress, c: char, px: real, py: real, x: real, y: real, t: real)
    requires Good(pr.atlas) && Open(pr, c)
    requires 0 < |pr.atlas.points| && |pr.atlas.points| + 2 <= Limit
    ensures Good(Curve(pr, px, py, x, y, t).atlas) && Open(Curve(pr, px, py, x, y, t), c)
  {
    var a := pr.atlas;
    var r := Curve(pr, px, py, x, y, t).atlas;
    CorrectionsAppend(a.points, a.triangles, Vertex(px, py, 0.0, 1.0), Vertex(x, y, t, 0.0));
    IndicesGrow(a.fan, |a.points|, |r.points|);
    IndicesGrow(a.triangles, |a.points|, |r.points|);
    GlyphsWithinGrow(a.glyphs, |a.fan|, |a.triangles|, |r.fan|, |r.triangles|);
  }

  /** Replacing one glyph by a glyph within the same bounds keeps the map within them. */
  lemma GlyphsUpdate(glyphs: map<char, Glyph>, c: char, g: Glyph, fanBound: nat, triangleBound: nat)
    requires GlyphsWithin(glyphs, fanBound, triangleBound) && GlyphWithin(g, fanBound, triangleBound)
    ensures GlyphsWithin(glyphs[c := g], fanBound, triangleBound)
  {
  }

  lemma MultipleOfThree(n: nat, m: nat)
    requires n % 3 == 0 && m % 3 == 0 && m <= n
    ensures (n - m) % 3 == 0
  {
    assert n - m == 3 * (n / 3 - m / 3);
  }

  /** FinishGlyph keeps the build invariant: the last range is stored by the
      same rule, and the triangle range covers whole triangles. */
  lemma FinishKeepsGood(pr: Progress, c: char)
    requires Good(pr.atlas) && Open(pr, c)
    requires |pr.atlas.fan| < Limit && |pr.atlas.triangles| < Limit
    ensures Good(Finish(pr, c))
  {
    var a := pr.atlas;
    var g := a.glyphs[c];
    var closed := Closed(pr.params, |a.fan|);
    assert GlyphWithin(g, |a.fan|, |a.triangles|);
    KeepWithin(g.fans, closed, |a.fan|);
    MultipleOfThree(|a.triangles|, g.triangles.start);
    var g' := g.(fans := Keep(g.fans, closed), triangles := DrawParams(g.triangles.start, |a.triangles| - g.triangles.start));
    assert GlyphWithin(g', |a.fan|, |a.triangles|);
    GlyphsUpdate(a.glyphs, c, g', |a.fan|, |a.triangles|);
    assert Finish(pr, c) == a.(glyphs := a.glyphs[c := g']);
  }

  /** AddContour appends the pivot (0,0,0,0) at index n = |points| and the
      contour's first vertex (x,y,t,0) at n + 1, appends the fan indices n and
      n + 1, stores the closed range by the more-than-2 rule, and opens the new
      contour at the old end of the fan buffer. */
  lemma ContourAppends(pr: Progress, c: char, x: real, y: real, t: real)
    requires c in pr.atlas.glyphs
    requires pr.params.start <= |pr.atlas.fan| <= |pr.atlas.points|
    requires |pr.atlas.points| + 2 <= Limit
    ensures var a := pr.atlas; var b := Contour(pr, c, x, y, t).atlas; var n := |a.points|;
      && |b.points| == n + 2 && b.points[..n] == a.points
      && b.points[n] == Pivot && b.points[n + 1] == Vertex(x, y, t, 0.0)
      && |b.fan| == |a.fan| + 2 && b.fan[..|a.fan|] == a.fan
      && b.fan[|a.fan|] == n && b.fan[|a.fan| + 1] == n + 1
      && b.triangles == a.triangles
    ensures var a := pr.atlas; var b := Contour(pr, c, x, y, t).atlas;
      && c in b.glyphs && b.glyphs == a.glyphs[c := b.glyphs[c]]
      && b.glyphs[c].fans == Keep(a.glyphs[c].fans, Closed(pr.params, |a.fan|))
      && b.glyphs[c].triangles == a.glyphs[c].triangles && b.glyphs[c].advance == a.glyphs[c].advance
    ensures Contour(pr, c, x, y, t).params.start == |pr.atlas.fan| && Contour(pr, c, x, y, t).params.length == |pr.atlas.fan| - pr.params.start
  {
  }

  /** AddLine appends one on-curve vertex (x,y,t,0) at n = |points| and the fan
      index n; triangles, glyphs and the cursor are unchanged. */
  lemma LineAppends(pr: Progress, x: real, y: real, t: real)
    requires |pr.atlas.points| < Limit
    ensures var a := pr.atlas; var b := Line(pr, x, y, t).atlas; var n := |a.points|;
      && |b.points| == n + 1 && b.points[..n] == a.points && b.points[n] == Vertex(x, y, t, 0.0)
      && |b.fan| == |a.fan| + 1 && b.fan[..|a.fan|] == a.fan && b.fan[|a.fan|] == n
      && b.triangles == a.triangles && b.glyphs == a.glyphs
    ensures Line(pr, x, y, t).params == pr.params
  {
  }

  /** AddCurve appends the control vertex (px,py,0,1) at n = |points| and the
      end vertex (x,y,t,0) at n + 1, the fan index n + 1, and the triangle
      (n - 1, n, n + 1); glyphs and the cursor are unchanged. */
  lemma CurveAppends(pr: Progress, px: real, py: real, x: real, y: real, t: real)
    requires 0 < |pr.atlas.points| && |pr.atlas.points| + 2 <= Limit
    ensures var a := pr.atlas; var b := Curve(pr, px, py, x, y, t).atlas; var n := |a.points|;
      && |b.points| == n + 2 && b.points[..n] == a.points
      && b.points[n] == Vertex(px, py, 0.0, 1.0) && b.points[n + 1] == Vertex(x, y, t, 0.0)
      && |b.fan| == |a.fan| + 1 && b.fan[..|a.fan|] == a.fan && b.fan[|a.fan|] == n + 1
      && |b.triangles| == |a.triangles| + 3 && b.triangles[..|a.triangles|] == a.triangles
      && b.triangles[|a.triangles|] == n - 1 && b.triangles[|a.triangles| + 1] == n
      && b.triangles[|a.triangles| + 2] == n + 1
      && b.glyphs == a.glyphs
    ensures Curve(pr, px, py, x, y, t).params == pr.params
  {
  }

  /** FinishGlyph leaves the buffers alone, stores the last contour's range by
      the more-than-2 rule, and makes glyph c's triangle range end at the end
      of the triangle buffer. */
  lemma FinishCloses(pr: Progress, c: char)
    requires c in pr.atlas.glyphs
    requires |pr.atlas.fan| < Limit && |pr.atlas.triangles| < Limit
    requires pr.params.start <= |pr.atlas.fan|
    requires pr.atlas.glyphs[c].triangles.start <= |pr.atlas.triangles|
    ensures var a := pr.atlas; var r := Finish(pr, c);
      && r.points == a.points && r.fan == a.fan && r.triangles == a.triangles
      && c in r.glyphs && r.glyphs == a.glyphs[c := r.glyphs[c]]
      && r.glyphs[c].fans == Keep(a.glyphs[c].fans, Closed(pr.params, |a.fan|))
      && r.glyphs[c].triangles.start == a.glyphs[c].triangles.start
      && r.glyphs[c].triangles.End() == |a.triangles|
      && r.glyphs[c].advance == a.glyphs[c].advance
  {
  }

  /** AddCurve's correction triangle starts at the vertex appended just before
      it, which is on-curve, then uses the new control and end vertices. */
  lemma CurveCorner(pr: Progress, px: real, py: real, x: real, y: real, t: real)
    requires Good(pr.atlas)
    requires 0 < |pr.atlas.points| && |pr.atlas.points| + 2 <= Limit
    ensures var n := |pr.atlas.points|;
      var r := Curve(pr, px, py, x, y, t).atlas;
      && r.triangles == pr.atlas.triangles + [n - 1, n, n + 1]
      && OnCurve(r.points[n - 1]) && r.points[n - 1] == pr.atlas.points[n - 1]
      && r.points[n] == Vertex(px, py, 0.0, 1.0) && Control(r.points[n])
      && r.points[n + 1] == Vertex(x, y, t, 0.0)
  {
  }
}
