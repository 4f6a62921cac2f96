/** The renderer's transform stack (Renderer.h): a stack of model matrices
    and one projection matrix. Matrices are opaque payloads here: the model
    keeps them as symbolic terms and never evaluates matrix arithmetic. */
module Transform {

  /** A 4x4 matrix, as the glm constructors that the program uses build it. */
  datatype Mat =
    | Identity
    | Translate(dx: real, dy: real, dz: real)
    | Scale(sx: real, sy: real, sz: real)
    | Ortho(left: real, right: real, bottom: real, top: real)
    | Product(lhs: Mat, rhs: Mat)

  /** Matrix product `a * b`; kept as an uninterpreted product term. */
  function Mul(a: Mat, b: Mat): Mat
  {
    Product(a, b)
  }

  /** The top of a stack whose last element is the top. */
  function Top(s: seq<Mat>): Mat
    requires |s| > 0
  {
    s[|s| - 1]
  }

  /** `model.push(model.top())`: the stack gains a copy of its top. */
  function Pushed(s: seq<Mat>): (r: seq<Mat>)
    requires |s| > 0
    ensures |r| == |s| + 1
    ensures r[..|s|] == s && Top(r) == Top(s)
  {
    s + [Top(s)]
  }

  /** `model.pop()`: the entry below the top becomes the top again. */
  function Popped(s: seq<Mat>): (r: seq<Mat>)
    requires |s| >= 2
    ensures |r| == |s| - 1
    ensures Top(r) == s[|s| - 2]
    ensures forall i :: 0 <= i < |r| ==> r[i] == s[i]
  {
    s[..|s| - 1]
  }

  /** `model.top() *= m`: only the top changes, to `top * m`. */
  function Multiplied(s: seq<Mat>, m: Mat): (r: seq<Mat>)
    requires |s| > 0
    ensures |r| == |s|
    ensures Top(r) == Mul(Top(s), m)
    ensures forall i :: 0 <= i < |s| - 1 ==> r[i] == s[i]
  {
    s[|s| - 1 := Mul(Top(s), m)]
  }

  /** A push followed by a pop gives back the original stack. */
  lemma PushThenPop(s: seq<Mat>)
    requires |s| > 0
    ensures Popped(Pushed(s)) == s
  {
  }

  /** Push, multiply the copy, pop: the multiplication is undone with the copy,
      which is how Print scopes its per-string translation. */
  lemma ScopedMultiply(s: seq<Mat>, m: Mat)
    requires |s| > 0
    ensures Popped(Multiplied(Pushed(s), m)) == s
  {
    assert Multiplied(Pushed(s), m)[..|s|] == s;
  }

  /** The renderer's matrix state: the projection and the model stack
      (std::stack<glm::mat4>, its top at the end of the sequence), together
      with the surface size the projection was computed for. */
  class Renderer {
    var width: int
    var height: int
    var projection: Mat
    var model: seq<Mat>

    /** The stack is never empty. */
    ghost predicate Valid()
      reads this
    {
      |model| >= 1
    }

    /** The stack starts with exactly one identity entry (Renderer.cpp). */
    constructor ()
      ensures Valid()
      ensures model == [Identity] && projection == Identity
      ensures width == 0 && height == 0
    {
      width, height := 0, 0;
      projection := Identity;
      model := [Identity];
    }

    /** The projection matrix; reading it changes nothing. */
    function Projection(): (p: Mat)
      reads this
      ensures p == projection
    {
      projection
    }

    /** The current model matrix, the top of the stack. */
    function Model(): (m: Mat)
      reads this
      requires Valid()
      ensures m == model[|model| - 1]
    {
      Top(model)
    }

    method Multiply(m: Mat)
      requires Valid()
      modifies this
      ensures Valid()
      ensures model == Multiplied(old(model), m)
      ensures projection == old(projection)
      ensures width == old(width) && height == old(height)
    {
      model := model[|model| - 1 := Mul(model[|model| - 1], m)];
    }

    method Push()
      requires Valid()
      modifies this
      ensures Valid()
      ensures model == Pushed(old(model))
      ensures projection == old(projection)
      ensures width == old(width) && height == old(height)
    {
      model := model + [model[|model| - 1]];
    }

    /** Popping the last entry is a programming error, so at least two are required. */
    method Pop()
      requires Valid() && |model| >= 2
      modifies this
      ensures Valid()
      ensures model == Popped(old(model))
      ensures projection == old(projection)
      ensures width == old(width) && height == old(height)
    {
      model := model[..|model| - 1];
    }

    /** The matrix part of BeginFrame: on a change to a non-zero surface size
        the projection becomes the centred orthographic projection of that size. */
    method BeginFrame(w: int, h: int)
      requires Valid()
      modifies this
      ensures Valid() && model == old(model)
      ensures if (old(width) != w || old(height) != h) && w != 0 && h != 0
        then width == w && height == h
          && projection == Ortho(-(w as real) / 2.0, (w as real) / 2.0, -(h as real) / 2.0, (h as real) / 2.0)
        else width == old(width) && height == old(height) && projection == old(projection)
    {
      if (width != w || height != h) && w != 0 && h != 0 {
        width, height := w, h;
        projection := Ortho(-(w as real) / 2.0, (w as real) / 2.0, -(h as real) / 2.0, (h as real) / 2.0);
      }
    }
  }
}
