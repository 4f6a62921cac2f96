/** The Font class of Font.h / Font.cpp: the glyph map and the three build
    buffers, updated in place by the builder methods, and Print, which lays
    the glyphs of a string along a baseline with the renderer's model stack. */
module Fonts {
  import opened Mesh
  import opened Transform

  /** The primitive of one glDrawElementsInstanced call. */
  datatype Primitive = Triangles | TriangleFan

  /** One draw call: `count` indices of an index buffer from element offset
      `first` (the source passes `first * sizeof(GLushort)` bytes), drawn under
      the model matrix `model`. */
  datatype DrawCall = DrawCall(primitive: Primitive, first: nat, count: nat, model: Mat)

  // ---------------------------------------------------------------------
  // What Print draws
  // ---------------------------------------------------------------------

  /** The model matrix after laying out s from `base`: each glyph in the map
      moves the pen right by its advance; a character without a glyph does not. */
  function Pen(glyphs: map<char, Glyph>, base: Mat, s: string): Mat
    decreases |s|
  {
    if s == [] then base
    else
      var pen := Pen(glyphs, base, s[..|s| - 1]);
      var c := s[|s| - 1];
      if c in glyphs then Mul(pen, Translate(glyphs[c].advance, 0.0, 0.0)) else pen
  }

  /** The draws of the curve pass: one triangle draw per glyph whose triangle
      range is not empty, at the pen position of that character. */
  function CurvePass(glyphs: map<char, Glyph>, base: Mat, s: string): seq<DrawCall>
    decreases |s|
  {
    if s == [] then []
    else
      var prefix := s[..|s| - 1];
      var c := s[|s| - 1];
      CurvePass(glyphs, base, prefix)
        + if c in glyphs && glyphs[c].triangles.length > 0
          then [DrawCall(Triangles, glyphs[c].triangles.start, glyphs[c].triangles.length, Pen(glyphs, base, prefix))]
          else []
  }

  /** The fan draws of one glyph under model matrix m, in range order. */
  function FanDraws(fans: seq<DrawParams>, m: Mat): (r: seq<DrawCall>)
    ensures |r| == |fans|
    ensures forall k :: 0 <= k < |fans| ==> r[k] == DrawCall(TriangleFan, fans[k].start, fans[k].length, m)
  {
    seq(|fans|, k requires 0 <= k < |fans| => DrawCall(TriangleFan, fans[k].start, fans[k].length, m))
  }

  /** The draws of the fan pass: every fan range of every glyph in the map. */
  function FanPass(glyphs: map<char, Glyph>, base: Mat, s: string): seq<DrawCall>
    decreases |s|
  {
    if s == [] then []
    else
      var prefix := s[..|s| - 1];
      var c := s[|s| - 1];
      FanPass(glyphs, base, prefix)
        + if c in glyphs then FanDraws(glyphs[c].fans, Pen(glyphs, base, prefix)) else []
  }

  /** The characters of s that have a glyph, in order. */
  function Present(glyphs: map<char, Glyph>, s: string): string
    decreases |s|
  {
    if s == [] then []
    else
      var c := s[|s| - 1];
      Present(glyphs, s[..|s| - 1]) + if c in glyphs then [c] else []
  }

  /** A string none of whose characters has a glyph leaves the pen where it
      started. */
  lemma {:induction false} PenStays(glyphs: map<char, Glyph>, base: Mat, s: string)
    requires forall i :: 0 <= i < |s| ==> s[i] !in glyphs
    ensures Pen(glyphs, base, s) == base
    decreases |s|
  {
    if s != [] {
      PenStays(glyphs, base, s[..|s| - 1]);
    }
  }

  /** The curve pass issues at most one draw per character, each a non-empty
      triangle draw. */
  lemma {:induction false} CurvePassShape(glyphs: map<char, Glyph>, base: Mat, s: string)
    ensures |CurvePass(glyphs, base, s)| <= |s|
    ensures forall d :: d in CurvePass(glyphs, base, s) ==> d.primitive == Triangles && d.count > 0
    decreases |s|
  {
    if s != [] {
      CurvePassShape(glyphs, base, s[..|s| - 1]);
    }
  }

  /** The fan pass issues only fan draws, and none when no glyph of s has a
      fan range. */
  lemma {:induction false} FanPassShape(glyphs: map<char, Glyph>, base: Mat, s: string)
    ensures forall d :: d in FanPass(glyphs, base, s) ==> d.primitive == TriangleFan
    ensures (forall i :: 0 <= i < |s| ==> s[i] in glyphs ==> glyphs[s[i]].fans == []) ==> FanPass(glyphs, base, s) == []
    decreases |s|
  {
    if s != [] {
      FanPassShape(glyphs, base, s[..|s| - 1]);
    }
  }

  /** Present keeps exactly the characters that have a glyph, and all of s
      when every character has one. */
  lemma {:induction false} PresentFilters(glyphs: map<char, Glyph>, s: string)
    ensures |Present(glyphs, s)| <= |s|
    ensures forall c :: c in Present(glyphs, s) <==> c in s && c in glyphs
    ensures (forall i :: 0 <= i < |s| ==> s[i] in glyphs) ==> Present(glyphs, s) == s
    decreases |s|
  {
    if s != [] {
      var prefix := s[..|s| - 1];
      PresentFilters(glyphs, prefix);
      assert s == prefix + [s[|s| - 1]];
    }
  }

  /** Present keeps the order of s: filtering a concatenation concatenates
      the filtered parts. */
  lemma {:induction false} PresentAppend(glyphs: map<char, Glyph>, s: string, t: string)
    ensures Present(glyphs, s + t) == Present(glyphs, s) + Present(glyphs, t)
    decreases |t|
  {
    if t == [] {
      assert s + t == s;
    } else {
      var u := t[..|t| - 1];
      PresentAppend(glyphs, s, u);
      assert (s + t)[..|s + t| - 1] == s + u;
    }
  }

  predicate DrawWithin(d: DrawCall, fanBound: nat, triangleBound: nat)
  {
    d.count > 0 && d.first + d.count <= if d.primitive == Triangles then triangleBound else fanBound
  }

  /** Printing skips characters without a glyph entirely: the draws and the
      final pen are those of the string with those characters removed. */
  lemma {:induction false} SkipsAbsent(glyphs: map<char, Glyph>, base: Mat, s: string)
    ensures Pen(glyphs, base, s) == Pen(glyphs, base, Present(glyphs, s))
    ensures CurvePass(glyphs, base, s) == CurvePass(glyphs, base, Present(glyphs, s))
    ensures FanPass(glyphs, base, s) == FanPass(glyphs, base, Present(glyphs, s))
    decreases |s|
  {
    if s != [] {
      var prefix := s[..|s| - 1];
      var c := s[|s| - 1];
      SkipsAbsent(glyphs, base, prefix);
      var p := Present(glyphs, prefix);
      if c in glyphs {
        assert Present(glyphs, s) == p + [c];
        assert (p + [c])[..|p + [c]| - 1] == p;
      } else {
        assert Present(glyphs, s) == p;
      }
    }
  }

  /** Every draw Print issues lies inside the index buffer it reads and is not
      empty, provided every glyph's ranges lie inside those buffers. */
  lemma {:induction false} PassesWithin(glyphs: map<char, Glyph>, base: Mat, s: string, fanBound: nat, triangleBound: nat)
    requires GlyphsWithin(glyphs, fanBound, triangleBound)
    ensures forall d :: d in CurvePass(glyphs, base, s) ==> d.primitive == Triangles && DrawWithin(d, fanBound, triangleBound)
    ensures forall d :: d in FanPass(glyphs, base, s) ==> d.primitive == TriangleFan && DrawWithin(d, fanBound, triangleBound)
    decreases |s|
  {
    if s != [] {
      var c := s[|s| - 1];
      PassesWithin(glyphs, base, s[..|s| - 1], fanBound, triangleBound);
      if c in glyphs {
        assert GlyphWithin(glyphs[c], fanBound, triangleBound);
      }
    }
  }

  // ---------------------------------------------------------------------
  // The Font
  // ---------------------------------------------------------------------

  class Font {
    var glyphs: map<char, Glyph>
    var points: seq<Vertex>
    var fan: seq<UInt16>
    var triangles: seq<UInt16>

    /** Set by FillBuffers: the build phase is over. */
    ghost var frozen: bool
    /** What FillBuffers uploaded to the GPU buffers. */
    ghost var gpuPoints: seq<Vertex>
    ghost var gpuFan: seq<UInt16>
    ghost var gpuTriangles: seq<UInt16>

    function State(): Atlas
      reads this
    {
      Atlas(glyphs, points, fan, triangles)
    }

    ghost function Uploaded(): Atlas
      reads this
    {
      Atlas(glyphs, gpuPoints, gpuFan, gpuTriangles)
    }

    /** While building, the CPU buffers keep the build invariant; once frozen
        they are empty and the uploaded buffers keep it. */
    ghost predicate Valid()
      reads this
    {
      if frozen then Good(Uploaded()) && points == [] && fan == [] && triangles == []
      else Good(State())
    }

    constructor ()
      ensures Valid() && !frozen
      ensures glyphs == map[] && points == [] && fan == [] && triangles == []
    {
      glyphs, points, fan, triangles := map[], [], [], [];
      frozen := false;
      gpuPoints, gpuFan, gpuTriangles := [], [], [];
    }

    function HasGlyph(c: char): (r: bool)
      reads this
      ensures r <==> c in glyphs
    {
      c in glyphs
    }

    /** The caller checks HasGlyph first; `glyphs[c]` would otherwise reuse the
        existing entry and keep its old fan list. */
    method CreateGlyph(c: char, advance: real) returns (params: DrawParams)
      requires Valid() && !frozen
      requires !HasGlyph(c)
      requires |fan| < Limit && |triangles| < Limit
      modifies this
      ensures Valid() && !frozen && Uploaded() == old(Uploaded()).(glyphs := glyphs)
      ensures Progress(State(), params) == Create(old(State()), c, advance)
      ensures Open(Progress(State(), params), c)
    {
      CreateKeepsGood(State(), c, advance);
      glyphs := glyphs[c := Glyph([], DrawParams(|triangles|, 0), advance)];
      params := DrawParams(|fan|, 0);
    }

    method AddContour(c: char, x: real, y: real, t: real, params: DrawParams) returns (next: DrawParams)
      requires Valid() && !frozen && Open(Progress(State(), params), c)
      requires |points| + 2 <= Limit
      modifies this
      ensures Valid() && !frozen && Uploaded() == old(Uploaded()).(glyphs := glyphs)
      ensures Progress(State(), next) == Contour(Progress(old(State()), params), c, x, y, t)
      ensures Open(Progress(State(), next), c)
    {
      ghost var r := Contour(Progress(State(), params), c, x, y, t);
      ContourKeepsGood(Progress(State(), params), c, x, y, t);
      var index := |points|;
      var fanSize := |fan|;
      var closed := params.(length := fanSize - params.start);
      var g := glyphs[c];
      if closed.length > 2 {
        g := g.(fans := g.fans + [closed]);
      }
      glyphs := glyphs[c := g];
      next := closed.(start := fanSize);
      fan := fan + [index, index + 1];
      points := points + [Pivot, Vertex(x, y, t, 0.0)];
      assert State() == r.atlas;
    }

    /** The source passes the glyph being built but does not use it. */
    method AddLine(ghost c: char, x: real, y: real, t: real, ghost params: DrawParams)
      requires Valid() && !frozen && Open(Progress(State(), params), c)
      requires |points| < Limit
      modifies this
      ensures Valid() && !frozen && Uploaded() == old(Uploaded())
      ensures Progress(State(), params) == Line(Progress(old(State()), params), x, y, t)
      ensures Open(Progress(State(), params), c)
    {
      LineKeepsGood(Progress(State(), params), c, x, y, t);
      var index := |points|;
      fan := fan + [index];
      points := points + [Vertex(x, y, t, 0.0)];
    }

    /** Needs a vertex already present: the triangle's first corner is the
        vertex appended last. */
    method AddCurve(ghost c: char, px: real, py: real, x: real, y: real, t: real, ghost params: DrawParams)
      requires Valid() && !frozen && Open(Progress(State(), params), c)
      requires 0 < |points| && |points| + 2 <= Limit
      modifies this
      ensures Valid() && !frozen && Uploaded() == old(Uploaded())
      ensures Progress(State(), params) == Curve(Progress(old(State()), params), px, py, x, y, t)
      ensures Open(Progress(State(), params), c)
    {
      ghost var r := Curve(Progress(State(), params), px, py, x, y, t);
      CurveKeepsGood(Progress(State(), params), c, px, py, x, y, t);
      var index := |points|;
      points := points + [Vertex(px, py, 0.0, 1.0), Vertex(x, y, t, 0.0)];
      fan := fan + [index + 1];
      triangles := triangles + [index - 1, index, index + 1];
      assert State() == r.atlas;
    }

    method FinishGlyph(c: char, params: DrawParams)
      requires Valid() && !frozen && Open(Progress(State(), params), c)
      requires |fan| < Limit && |triangles| < Limit
      modifies this
      ensures Valid() && !frozen && Uploaded() == old(Uploaded()).(glyphs := glyphs)
      ensures State() == Finish(Progress(old(State()), params), c)
    {
      ghost var r := Finish(Progress(State(), params), c);
      FinishKeepsGood(Progress(State(), params), c);
      var fanSize := |fan|;
      var closed := params.(length := fanSize - params.start);
      var g := glyphs[c];
      if closed.length > 2 {
        g := g.(fans := g.fans + [closed]);
      }
      g := g.(triangles := g.triangles.(length := |triangles| - g.triangles.start));
      glyphs := glyphs[c := g];
      assert State() == r;
    }

    /** Uploads the three buffers (recorded in the ghost GPU copies) and clears
        the CPU side; the glyph map is unchanged. A second call would upload
        from empty vectors, so it is not allowed. */
    method FillBuffers()
      requires Valid() && !frozen
      modifies this
      ensures Valid() && frozen
      ensures glyphs == old(glyphs)
      ensures points == [] && fan == [] && triangles == []
      ensures gpuPoints == old(points) && gpuFan == old(fan) && gpuTriangles == old(triangles)
    {
      gpuPoints, gpuFan, gpuTriangles := points, fan, triangles;
      frozen := true;
      points := [];
      triangles := [];
      fan := [];
    }

    /** Draws str at (x, y): the curve pass over every glyph's triangle range,
        then the fan pass over every fan range, each from the same baseline
        origin. Characters without a glyph are skipped. The model stack ends as
        it started. The returned sequence stands for the GL draw calls. */
    method Print(x: real, y: real, str: string, renderer: Renderer) returns (draws: seq<DrawCall>)
      requires Valid() && renderer.Valid()
      modifies renderer
      ensures renderer.Valid()
      ensures renderer.model == old(renderer.model) && renderer.projection == old(renderer.projection)
      ensures renderer.width == old(renderer.width) && renderer.height == old(renderer.height)
      ensures var base := Mul(Top(old(renderer.model)), Translate(x, y, 0.0));
        draws == CurvePass(glyphs, base, str) + FanPass(glyphs, base, str)
      ensures frozen ==> forall d :: d in draws ==> DrawWithin(d, |gpuFan|, |gpuTriangles|)
    {
      ghost var stack := renderer.model;
      renderer.Push();
      renderer.Multiply(Translate(x, y, 0.0));
      ghost var base := renderer.Model();
      ghost var scoped := stack + [base];
      assert renderer.model == scoped;

      renderer.Push();
      var curves := DrawCurves(str, renderer);
      renderer.Pop();
      assert renderer.model == scoped;

      renderer.Push();
      var fans := DrawFans(str, renderer);
      renderer.Pop();
      renderer.Pop();
      assert renderer.model == stack;
      draws := curves + fans;

      if frozen {
        PassesWithin(glyphs, base, str, |gpuFan|, |gpuTriangles|);
      }
    }

    /** The first loop of Print: per character with a glyph, a triangle draw
        when its range is not empty, then a move of the pen by its advance. */
    method DrawCurves(str: string, renderer: Renderer) returns (draws: seq<DrawCall>)
      requires renderer.Valid()
      modifies renderer
      ensures renderer.Valid() && renderer.projection == old(renderer.projection)
      ensures renderer.width == old(renderer.width) && renderer.height == old(renderer.height)
      ensures |renderer.model| == |old(renderer.model)|
      ensures renderer.model == old(renderer.model)[|old(renderer.model)| - 1 := Pen(glyphs, old(renderer.Model()), str)]
      ensures draws == CurvePass(glyphs, old(renderer.Model()), str)
    {
      ghost var base := renderer.Model();
      ghost var below := renderer.model[..|renderer.model| - 1];
      draws := [];
      var i := 0;
      while i < |str|
        invariant 0 <= i <= |str|
        invariant renderer.Valid() && renderer.projection == old(renderer.projection)
        invariant renderer.width == old(renderer.width) && renderer.height == old(renderer.height)
        invariant renderer.model == below + [Pen(glyphs, base, str[..i])]
        invariant draws == CurvePass(glyphs, base, str[..i])
      {
        assert str[..i + 1][..i] == str[..i];
        var c := str[i];
        if HasGlyph(c) {
          var model := renderer.Model();
          var g := glyphs[c];
          if g.triangles.length > 0 {
            draws := draws + [DrawCall(Triangles, g.triangles.start, g.triangles.length, model)];
          }
          renderer.Multiply(Translate(g.advance, 0.0, 0.0));
        }
        i := i + 1;
      }
      assert str[..|str|] == str;
    }

    /** The second loop of Print: per character with a glyph, one fan draw per
        fan range, then a move of the pen by its advance. */
    method DrawFans(str: string, renderer: Renderer) returns (draws: seq<DrawCall>)
      requires renderer.Valid()
      modifies renderer
      ensures renderer.Valid() && renderer.projection == old(renderer.projection)
      ensures renderer.width == old(renderer.width) && renderer.height == old(renderer.height)
      ensures |renderer.model| == |old(renderer.model)|
      ensures renderer.model == old(renderer.model)[|old(renderer.model)| - 1 := Pen(glyphs, old(renderer.Model()), str)]
      ensures draws == FanPass(glyphs, old(renderer.Model()), str)
    {
      ghost var base := renderer.Model();
      ghost var below := renderer.model[..|renderer.model| - 1];
      draws := [];
      var i := 0;
      while i < |str|
        invariant 0 <= i <= |str|
        invariant renderer.Valid() && renderer.projection == old(renderer.projection)
        invariant renderer.width == old(renderer.width) && renderer.height == old(renderer.height)
        invariant renderer.model == below + [Pen(glyphs, base, str[..i])]
        invariant draws == FanPass(glyphs, base, str[..i])
      {
        assert str[..i + 1][..i] == str[..i];
        var c := str[i];
        if HasGlyph(c) {
          var model := renderer.Model();
          var g := glyphs[c];
          var k := 0;
          ghost var before := draws;
          while k < |g.fans|
            invariant 0 <= k <= |g.fans|
            invariant draws == before + FanDraws(g.fans[..k], model)
          {
            var f := g.fans[k];
            assert g.fans[..k + 1] == g.fans[..k] + [f];
            draws := draws + [DrawCall(TriangleFan, f.start, f.length, model)];
            k := k + 1;
          }
          assert g.fans[..|g.fans|] == g.fans;
          renderer.Multiply(Translate(g.advance, 0.0, 0.0));
        }
        i := i + 1;
      }
      assert str[..|str|] == str;
    }
  }
}
