/** PointSampler of main.py: turns a mesh (vertex rows and face rows)
    into output_size points drawn on its surface. A face is picked with
    probability proportional to its area (random.choices over the face
    areas), then a point is drawn uniformly on that triangle from two
    random numbers (sample_point).

    Floating point is modelled by real numbers. The Euclidean norm and
    the square root are parameters (norm, sqrt), and so are the random
    numbers: us[k] is the random() that random.choices draws for the
    k-th pick, draws[k] the two random() calls of sample_point for the
    k-th point. */
module Sampler {
  import opened Wrappers

  datatype Vec3 = Vec3(x: real, y: real, z: real)

  function Sub(a: Vec3, b: Vec3): Vec3 {
    Vec3(a.x - b.x, a.y - b.y, a.z - b.z)
  }

  function Add(a: Vec3, b: Vec3): Vec3 {
    Vec3(a.x + b.x, a.y + b.y, a.z + b.z)
  }

  function Neg(a: Vec3): Vec3 {
    Vec3(-a.x, -a.y, -a.z)
  }

  // ---------------------------------------------------------------
  // triangle_area: Heron's formula, clamped at zero.

  /** s(s-a)(s-b)(s-c) for the half perimeter s. */
  function HeronProduct(a: real, b: real, c: real): real {
    var s := 0.5 * (a + b + c);
    s * (s - a) * (s - b) * (s - c)
  }

  /** max(s(s-a)(s-b)(s-c), 0): the radicand triangle_area takes the
      square root of. */
  function Radicand(a: real, b: real, c: real): (r: real)
    ensures r >= 0.0
    ensures HeronProduct(a, b, c) >= 0.0 ==> r == HeronProduct(a, b, c)
    ensures HeronProduct(a, b, c) < 0.0 ==> r == 0.0
  {
    var p := HeronProduct(a, b, c);
    if p >= 0.0 then p else 0.0
  }

  /** Heron's product in factored form: 16 s(s-a)(s-b)(s-c) is the
      product of the perimeter and the three triangle-inequality
      slacks. */
  lemma HeronFactored(a: real, b: real, c: real)
    ensures 16.0 * HeronProduct(a, b, c) == (a + b + c) * (b + c - a) * (a + c - b) * (a + b - c)
  {
    var s := 0.5 * (a + b + c);
    assert s - a == 0.5 * (b + c - a);
    assert s - b == 0.5 * (a + c - b);
    assert s - c == 0.5 * (a + b - c);
    var p, q, u, v := a + b + c, b + c - a, a + c - b, a + b - c;
    assert HeronProduct(a, b, c) == (0.5 * p) * (0.5 * q) * (0.5 * u) * (0.5 * v);
    assert (0.5 * p) * (0.5 * q) == 0.25 * (p * q);
    assert (0.5 * u) * (0.5 * v) == 0.25 * (u * v);
  }

  /** For side lengths that satisfy the triangle inequality, Heron's
      product is never negative, so the clamp at zero changes nothing
      in exact arithmetic: it only guards against rounding. */
  lemma HeronOfTriangle(a: real, b: real, c: real)
    requires a >= 0.0 && b >= 0.0 && c >= 0.0
    requires a <= b + c && b <= a + c && c <= a + b
    ensures HeronProduct(a, b, c) >= 0.0
    ensures Radicand(a, b, c) == HeronProduct(a, b, c)
  {
    HeronFactored(a, b, c);
    var p, q, u, v := a + b + c, b + c - a, a + c - b, a + b - c;
    assert p * q >= 0.0;
    assert u * v >= 0.0;
    assert p * q * u * v == (p * q) * (u * v);
  }

  /** The radicand is positive exactly when the sides (non-negative)
      form a proper triangle: each side strictly shorter than the sum of
      the other two. */
  lemma RadicandPositive(a: real, b: real, c: real)
    requires a >= 0.0 && b >= 0.0 && c >= 0.0
    ensures Radicand(a, b, c) > 0.0 <==> (a < b + c && b < a + c && c < a + b)
  {
    HeronFactored(a, b, c);
    var p, q, u, v := a + b + c, b + c - a, a + c - b, a + b - c;
    assert p * q * u * v == (p * q) * (u * v);
    if a < b + c && b < a + c && c < a + b {
      assert p * q > 0.0;
      assert u * v > 0.0;
    } else if q <= 0.0 && u <= 0.0 {
      // two slacks cannot both be negative: they add up to 2c
      assert q == 0.0 || u == 0.0;
    } else if q <= 0.0 && v <= 0.0 {
      assert q == 0.0 || v == 0.0;
    } else if u <= 0.0 && v <= 0.0 {
      assert u == 0.0 || v == 0.0;
    } else if q <= 0.0 {
      assert p * q <= 0.0;
      assert u * v > 0.0;
    } else if u <= 0.0 {
      assert u * v <= 0.0;
      assert p * q >= 0.0;
    } else {
      assert v <= 0.0;
      assert u * v <= 0.0;
      assert p * q >= 0.0;
    }
  }

  /** A degenerate triangle (one side the sum of the other two: its
      corners are on a line) has radicand zero. */
  lemma DegenerateRadicand(a: real, b: real)
    requires a >= 0.0 && b >= 0.0
    ensures Radicand(a, b, a + b) == 0.0
  {
    HeronFactored(a, b, a + b);
    var p, q, u := a + b + (a + b), b + (a + b) - a, a + (a + b) - b;
    assert (a + b - (a + b)) == 0.0;
    assert p * q * u * 0.0 == 0.0;
  }

  /** A square root function: non-negative, and it squares back. */
  ghost predicate IsSqrt(sqrt: real -> real) {
    forall x :: x >= 0.0 ==> sqrt(x) >= 0.0 && sqrt(x) * sqrt(x) == x
  }

  /** A norm: non-negative, symmetric, and it obeys the triangle
      inequality. */
  ghost predicate IsNorm(norm: Vec3 -> real) {
    && (forall u :: norm(u) >= 0.0)
    && (forall u :: norm(Neg(u)) == norm(u))
    && (forall u, v :: norm(Add(u, v)) <= norm(u) + norm(v))
  }

  /** triangle_area(pt1, pt2, pt3). */
  function TriangleArea(p1: Vec3, p2: Vec3, p3: Vec3, norm: Vec3 -> real, sqrt: real -> real): (r: real)
    // with a true square root the area is a non-negative number whose
    // square is the clamped Heron radicand of the three side lengths
    ensures IsSqrt(sqrt) ==>
      r >= 0.0 && r * r == Radicand(norm(Sub(p1, p2)), norm(Sub(p2, p3)), norm(Sub(p3, p1)))
  {
    var a := norm(Sub(p1, p2));
    var b := norm(Sub(p2, p3));
    var c := norm(Sub(p3, p1));
    sqrt(Radicand(a, b, c))
  }

  /** With a true norm, the three side lengths of any three points obey
      the triangle inequality, so the area is the square root of
      Heron's product itself. */
  lemma SidesFormTriangle(p1: Vec3, p2: Vec3, p3: Vec3, norm: Vec3 -> real)
    requires IsNorm(norm)
    ensures var a, b, c := norm(Sub(p1, p2)), norm(Sub(p2, p3)), norm(Sub(p3, p1));
      Radicand(a, b, c) == HeronProduct(a, b, c)
  {
    var u, v, w := Sub(p1, p2), Sub(p2, p3), Sub(p3, p1);
    assert Add(u, v) == Neg(w);
    assert Add(v, w) == Neg(u);
    assert Add(w, u) == Neg(v);
    assert norm(Neg(w)) <= norm(u) + norm(v);
    assert norm(Neg(u)) <= norm(v) + norm(w);
    assert norm(Neg(v)) <= norm(w) + norm(u);
    HeronOfTriangle(norm(u), norm(v), norm(w));
  }

  // ---------------------------------------------------------------
  // sample_point: barycentric coordinates from two sorted draws.

  function Min(a: real, b: real): real {
    if a <= b then a else b
  }

  function Max(a: real, b: real): real {
    if a <= b then b else a
  }

  /** s, t = sorted([r1, r2]); the weights of pt1, pt2, pt3 are s,
      t - s and 1 - t. */
  function Weights(r1: real, r2: real): (real, real, real) {
    var s, t := Min(r1, r2), Max(r1, r2);
    (s, t - s, 1.0 - t)
  }

  /** For draws in [0, 1] the weights are barycentric coordinates:
      non-negative, adding up to one. */
  lemma WeightsConvex(r1: real, r2: real)
    requires 0.0 <= r1 <= 1.0 && 0.0 <= r2 <= 1.0
    ensures var w := Weights(r1, r2);
      w.0 >= 0.0 && w.1 >= 0.0 && w.2 >= 0.0 && w.0 + w.1 + w.2 == 1.0
  {
  }

  /** Every point of the triangle can be drawn: any barycentric
      coordinates are the weights of some pair of draws in [0, 1], in
      either order. */
  lemma WeightsCoverTriangle(w0: real, w1: real, w2: real)
    requires w0 >= 0.0 && w1 >= 0.0 && w2 >= 0.0 && w0 + w1 + w2 == 1.0
    ensures 0.0 <= w0 <= 1.0 && 0.0 <= w0 + w1 <= 1.0
    ensures Weights(w0, w0 + w1) == (w0, w1, w2)
    ensures Weights(w0 + w1, w0) == (w0, w1, w2)
  {
  }

  function Combine(w: (real, real, real), a: real, b: real, c: real): real {
    w.0 * a + w.1 * b + w.2 * c
  }

  /** sample_point(pt1, pt2, pt3) given the two random() values. */
  function SamplePoint(p1: Vec3, p2: Vec3, p3: Vec3, draws: (real, real)): (r: Vec3)
    // the point is inside the box of the triangle's corners
    ensures 0.0 <= draws.0 <= 1.0 && 0.0 <= draws.1 <= 1.0 ==>
      InBox(r, p1, p2, p3)
  {
    var w := Weights(draws.0, draws.1);
    var r := Vec3(Combine(w, p1.x, p2.x, p3.x), Combine(w, p1.y, p2.y, p3.y), Combine(w, p1.z, p2.z, p3.z));
    if 0.0 <= draws.0 <= 1.0 && 0.0 <= draws.1 <= 1.0 then
      WeightsConvex(draws.0, draws.1);
      ConvexBetween(w, p1.x, p2.x, p3.x);
      ConvexBetween(w, p1.y, p2.y, p3.y);
      ConvexBetween(w, p1.z, p2.z, p3.z);
      r
    else r
  }

  predicate Between(v: real, a: real, b: real, c: real) {
    Min(a, Min(b, c)) <= v <= Max(a, Max(b, c))
  }

  /** Each coordinate of p lies between the smallest and the largest
      of that coordinate over the three corners. */
  predicate InBox(p: Vec3, p1: Vec3, p2: Vec3, p3: Vec3) {
    && Between(p.x, p1.x, p2.x, p3.x)
    && Between(p.y, p1.y, p2.y, p3.y)
    && Between(p.z, p1.z, p2.z, p3.z)
  }

  lemma MulNonNegative(x: real, y: real)
    requires x >= 0.0 && y >= 0.0
    ensures x * y >= 0.0
  {
  }

  /** A convex combination of three numbers lies between their
      minimum and their maximum. */
  lemma ConvexBetween(w: (real, real, real), a: real, b: real, c: real)
    requires w.0 >= 0.0 && w.1 >= 0.0 && w.2 >= 0.0 && w.0 + w.1 + w.2 == 1.0
    ensures Between(Combine(w, a, b, c), a, b, c)
  {
    var lo, hi := Min(a, Min(b, c)), Max(a, Max(b, c));
    MulNonNegative(w.0, a - lo);
    MulNonNegative(w.1, b - lo);
    MulNonNegative(w.2, c - lo);
    MulNonNegative(w.0, hi - a);
    MulNonNegative(w.1, hi - b);
    MulNonNegative(w.2, hi - c);
    assert Combine(w, a, b, c) - lo == w.0 * (a - lo) + w.1 * (b - lo) + w.2 * (c - lo);
    assert hi - Combine(w, a, b, c) == w.0 * (hi - a) + w.1 * (hi - b) + w.2 * (hi - c);
  }

  // ---------------------------------------------------------------
  // Corners of a face: verts[faces[i][k]] for k = 0, 1, 2.

  /** verts[face[k]]: the face must have a k-th entry and it must index
      the vertex list. */
  function Corner(verts: seq<Vec3>, face: seq<int>, k: nat): Option<Vec3> {
    if k < |face| then
      match PyIndex(|verts|, face[k])
      case Some(i) => Some(verts[i])
      case None => None
    else None
  }

  predicate HasCorners(verts: seq<Vec3>, face: seq<int>) {
    Corner(verts, face, 0).Some? && Corner(verts, face, 1).Some? && Corner(verts, face, 2).Some?
  }

  /** A face can be looked up exactly when it has at least three
      entries and each of the first three is a valid index. */
  lemma HasCornersIff(verts: seq<Vec3>, face: seq<int>)
    ensures HasCorners(verts, face) <==>
      |face| >= 3 && forall k :: 0 <= k < 3 ==> -(|verts| as int) <= face[k] < |verts|
  {
    if |face| >= 3 {
    }
  }

  function AreaOf(verts: seq<Vec3>, face: seq<int>, norm: Vec3 -> real, sqrt: real -> real): real
    requires HasCorners(verts, face)
  {
    TriangleArea(Corner(verts, face, 0).value, Corner(verts, face, 1).value, Corner(verts, face, 2).value, norm, sqrt)
  }

  function PointOn(verts: seq<Vec3>, face: seq<int>, draws: (real, real)): Vec3
    requires HasCorners(verts, face)
  {
    SamplePoint(Corner(verts, face, 0).value, Corner(verts, face, 1).value, Corner(verts, face, 2).value, draws)
  }

  // ---------------------------------------------------------------
  // random.choices(faces, weights=areas, k=output_size)

  /** The sum of the weights. */
  function Sum(w: seq<real>): real {
    if w == [] then 0.0 else Sum(w[..|w| - 1]) + w[|w| - 1]
  }

  /** The sum of non-negative weights is at least each prefix sum. */
  lemma {:induction false} SumPrefixMono(w: seq<real>, i: nat, j: nat)
    requires i <= j <= |w|
    requires forall k :: 0 <= k < |w| ==> w[k] >= 0.0
    ensures Sum(w[..i]) <= Sum(w[..j])
  {
    if i < j {
      SumPrefixMono(w, i, j - 1);
      assert w[..j][..j - 1] == w[..j - 1];
    }
  }

  /** The pick for the value x in [0, total): the first index from i on
      whose cumulative weight exceeds x, or the last index if none of
      the others does. This is what random.choices' bisect_right over
      the first n - 1 cumulative weights returns when the cumulative
      weights do not decrease, that is for non-negative weights such as
      face areas (PickInInterval); for negative weights the two differ. */
  function Pick(w: seq<real>, x: real, i: nat): (r: nat)
    requires i < |w|
    ensures i <= r < |w|
    decreases |w| - i
  {
    if i == |w| - 1 || Sum(w[..i + 1]) > x then i else Pick(w, x, i + 1)
  }

  /** With non-negative weights and x in [0, total), the pick is the
      face whose cumulative interval holds x; in particular its weight
      is positive, so a face of area zero is never picked. */
  lemma {:induction false} PickInInterval(w: seq<real>, x: real, i: nat)
    requires i < |w|
    requires forall k :: 0 <= k < |w| ==> w[k] >= 0.0
    requires Sum(w[..i]) <= x < Sum(w)
    ensures var r := Pick(w, x, i);
      Sum(w[..r]) <= x < Sum(w[..r + 1]) && w[r] > 0.0
    decreases |w| - i
  {
    var r := Pick(w, x, i);
    assert w[..i + 1][..i] == w[..i];
    if i == |w| - 1 {
      assert w[..i + 1] == w;
    } else if Sum(w[..i + 1]) > x {
    } else {
      PickInInterval(w, x, i + 1);
    }
    assert w[..r + 1][..r] == w[..r];
  }

  /** The faces random.choices picks, one per value in us. */
  function Choices(w: seq<real>, us: seq<real>): (r: seq<nat>)
    requires |w| >= 1
    ensures |r| == |us|
    ensures forall k :: 0 <= k < |r| ==> r[k] < |w|
  {
    if us == [] then [] else [Pick(w, us[0] * Sum(w), 0)] + Choices(w, us[1..])
  }

  /** With a positive total and every random() value in [0, 1), each
      picked face has a positive weight. */
  lemma {:induction false} ChoicesPositive(w: seq<real>, us: seq<real>)
    requires |w| >= 1 && Sum(w) > 0.0
    requires forall k :: 0 <= k < |w| ==> w[k] >= 0.0
    requires forall k :: 0 <= k < |us| ==> 0.0 <= us[k] < 1.0
    ensures forall k :: 0 <= k < |us| ==> w[Choices(w, us)[k]] > 0.0
  {
    if us != [] {
      var x := us[0] * Sum(w);
      MulNonNegative(us[0], Sum(w));
      MulNonNegative(1.0 - us[0], Sum(w));
      assert Sum(w) - x == (1.0 - us[0]) * Sum(w);
      assert w[..0] == [];
      PickInInterval(w, x, 0);
      ChoicesPositive(w, us[1..]);
      assert w[Choices(w, us)[0]] > 0.0;
      forall k | 1 <= k < |us| ensures w[Choices(w, us)[k]] > 0.0 {
        assert Choices(w, us)[k] == Choices(w, us[1..])[k - 1];
      }
    }
  }

  // ---------------------------------------------------------------
  // PointSampler

  datatype SampleError =
    | BadFace(index: nat) // IndexError: face index has fewer than three entries or a bad vertex index
    | NoFaces             // random.choices on an empty population (IndexError)
    | ZeroTotalArea       // random.choices: total of weights not greater than zero (ValueError)
    | NegativeSize        // np.zeros with a negative output_size (ValueError)

  /** The areas of all faces, when every face has its corners. */
  function Areas(verts: seq<Vec3>, faces: seq<seq<int>>, norm: Vec3 -> real, sqrt: real -> real): (r: seq<real>)
    requires forall i :: 0 <= i < |faces| ==> HasCorners(verts, faces[i])
    ensures |r| == |faces|
    ensures IsSqrt(sqrt) ==> forall i :: 0 <= i < |r| ==> r[i] >= 0.0
  {
    seq(|faces|, i requires 0 <= i < |faces| => AreaOf(verts, faces[i], norm, sqrt))
  }

  class PointSampler {
    const outputSize: int

    constructor (outputSize: int)
      ensures this.outputSize == outputSize
    {
      this.outputSize := outputSize;
    }

    /** The first loop of __call__: areas = np.zeros(len(faces)), then
        the area of each face in turn. The first face that cannot be
        looked up raises. */
    method FaceAreas(verts: seq<Vec3>, faces: seq<seq<int>>, norm: Vec3 -> real, sqrt: real -> real)
      returns (r: Result<array<real>, SampleError>)
      ensures r.Failure? ==> r.error.BadFace? && r.error.index < |faces|
      ensures r.Failure? ==>
        !HasCorners(verts, faces[r.error.index]) &&
        forall j :: 0 <= j < r.error.index ==> HasCorners(verts, faces[j])
      ensures r.Success? <==> forall j :: 0 <= j < |faces| ==> HasCorners(verts, faces[j])
      ensures r.Success? ==> r.value[..] == Areas(verts, faces, norm, sqrt)
      ensures r.Success? ==> fresh(r.value)
    {
      var areas := new real[|faces|](_ => 0.0);
      var i := 0;
      while i < |faces|
        invariant 0 <= i <= |faces|
        invariant forall j :: 0 <= j < i ==> HasCorners(verts, faces[j])
        invariant forall j :: 0 <= j < i ==> areas[j] == AreaOf(verts, faces[j], norm, sqrt)
      {
        if !HasCorners(verts, faces[i]) {
          return Failure(BadFace(i));
        }
        areas[i] := AreaOf(verts, faces[i], norm, sqrt);
        i := i + 1;
      }
      return Success(areas);
    }

    /** The second loop of __call__: sampled_points =
        np.zeros((output_size, 3)), then row i is a point drawn on the
        i-th picked face. */
    method SamplePoints(verts: seq<Vec3>, faces: seq<seq<int>>, chosen: seq<nat>, draws: seq<(real, real)>)
      returns (points: array<Vec3>)
      requires forall j :: 0 <= j < |faces| ==> HasCorners(verts, faces[j])
      requires forall k :: 0 <= k < |chosen| ==> chosen[k] < |faces|
      requires |draws| == |chosen|
      ensures fresh(points)
      ensures points.Length == |chosen|
      ensures forall k :: 0 <= k < |chosen| ==> points[k] == PointOn(verts, faces[chosen[k]], draws[k])
    {
      points := new Vec3[|chosen|](_ => Vec3(0.0, 0.0, 0.0));
      var i := 0;
      while i < |chosen|
        invariant 0 <= i <= |chosen|
        invariant forall k :: 0 <= k < i ==> points[k] == PointOn(verts, faces[chosen[k]], draws[k])
      {
        points[i] := PointOn(verts, faces[chosen[i]], draws[i]);
        i := i + 1;
      }
    }

    /** __call__((verts, faces)): the sampled points, one row per
        output point. */
    method Apply(verts: seq<Vec3>, faces: seq<seq<int>>, norm: Vec3 -> real, sqrt: real -> real,
                 us: seq<real>, draws: seq<(real, real)>)
      returns (r: Result<array<Vec3>, SampleError>)
      requires |us| == Max0(outputSize) && |draws| == Max0(outputSize)
      requires forall k :: 0 <= k < |us| ==> 0.0 <= us[k] < 1.0
      requires forall k :: 0 <= k < |draws| ==> 0.0 <= draws[k].0 < 1.0 && 0.0 <= draws[k].1 < 1.0
      requires IsSqrt(sqrt)
      // errors, in the order __call__ meets them
      ensures r.Failure? && r.error.BadFace? ==>
        r.error.index < |faces| &&
        !HasCorners(verts, faces[r.error.index]) &&
        forall j :: 0 <= j < r.error.index ==> HasCorners(verts, faces[j])
      ensures (forall j :: 0 <= j < |faces| ==> HasCorners(verts, faces[j])) <==>
        !(r.Failure? && r.error.BadFace?)
      ensures r == Failure(NoFaces) <==>
        (forall j :: 0 <= j < |faces| ==> HasCorners(verts, faces[j])) && |faces| == 0
      ensures r == Failure(ZeroTotalArea) <==>
        (forall j :: 0 <= j < |faces| ==> HasCorners(verts, faces[j])) && |faces| > 0 &&
        Sum(Areas(verts, faces, norm, sqrt)) <= 0.0
      ensures r == Failure(NegativeSize) <==>
        (forall j :: 0 <= j < |faces| ==> HasCorners(verts, faces[j])) && |faces| > 0 &&
        Sum(Areas(verts, faces, norm, sqrt)) > 0.0 && outputSize < 0
      // otherwise a new array with one point per pick, on a face of positive area
      ensures r.Success? ==> fresh(r.value)
      ensures r.Success? ==>
        (forall j :: 0 <= j < |faces| ==> HasCorners(verts, faces[j])) && |faces| > 0 &&
        r.value.Length == outputSize &&
        var areas := Areas(verts, faces, norm, sqrt);
        var chosen := Choices(areas, us);
        forall k :: 0 <= k < r.value.Length ==>
          areas[chosen[k]] > 0.0 &&
          r.value[k] == PointOn(verts, faces[chosen[k]], draws[k]) &&
          InBox(r.value[k], Corner(verts, faces[chosen[k]], 0).value,
                Corner(verts, faces[chosen[k]], 1).value, Corner(verts, faces[chosen[k]], 2).value)
    {
      var ar := FaceAreas(verts, faces, norm, sqrt);
      if ar.Failure? {
        return Failure(ar.error);
      }
      var areas := ar.value;
      if areas.Length == 0 {
        return Failure(NoFaces);
      }
      if Sum(areas[..]) <= 0.0 {
        return Failure(ZeroTotalArea);
      }
      ghost var weights := areas[..];
      var chosen := Choices(areas[..], us);
      ChoicesPositive(weights, us);
      if outputSize < 0 {
        return Failure(NegativeSize);
      }
      var points := SamplePoints(verts, faces, chosen, draws);
      return Success(points);
    }
  }
}
