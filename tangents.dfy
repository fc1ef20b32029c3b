/**
 * `generateTangents`: one tangent per triangle, from the triangle's positions and texture
 * coordinates, written three times, once for each of its vertices. The triangles' vertex
 * indices come from an iterator over an index array, or over the positions themselves.
 *
 * A JavaScript number that may be NaN is an `Option<real>` here, `None` standing for NaN;
 * reading past the end of an array gives `undefined`, which arithmetic turns into NaN.
 */
module Tangents {
  import opened Wrappers

  /** A vector of three components, the kind `m4` works on. */
  type Vec3 = v: seq<real> | |v| == 3 witness [0.0, 0.0, 0.0]

  // ---------------------------------------------------------------------------------
  // The index iterators

  /** The vertex index the `k`-th call of the iterator returns: `indices[k]`, or `k` without indices. */
  function VertexIndex(indices: Option<seq<nat>>, k: nat): (n: Option<nat>)
    ensures indices.None? ==> n == Some(k)
    ensures indices.Some? ==> (n.Some? <==> k < |indices.value|)
    ensures indices.Some? && k < |indices.value| ==> n == Some(indices.value[k])
  {
    match indices
    case None => Some(k)
    case Some(ix) => if k < |ix| then Some(ix[k]) else None
  }

  /**
   * `makeIndexIterator(indices)` and `makeUnindexedIterator(positions)`: a counter `ndx`
   * that each call advances, and the `numElements` the caller reads.
   */
  class IndexIterator {
    /** The index array, or `None` for the unindexed iterator. */
    const indices: Option<seq<nat>>
    const numElements: real
    var ndx: nat

    /** `makeIndexIterator(indices)`. */
    constructor OverIndices(indices: seq<nat>)
      ensures this.indices == Some(indices) && numElements == |indices| as real && ndx == 0
    {
      this.indices := Some(indices);
      numElements := |indices| as real;
      ndx := 0;
    }

    /** `makeUnindexedIterator(positions)`: `positions.length / 3` vertices. */
    constructor OverPositions(positions: seq<real>)
      ensures indices == None && numElements == |positions| as real / 3.0 && ndx == 0
    {
      indices := None;
      numElements := |positions| as real / 3.0;
      ndx := 0;
    }

    /** `fn()`: the index at the counter, and the counter moves on by one. */
    method Next() returns (n: Option<nat>)
      modifies this
      ensures n == VertexIndex(indices, old(ndx)) && ndx == old(ndx) + 1
    {
      n := VertexIndex(indices, ndx);
      ndx := ndx + 1;
    }

    /** `fn.reset()`. */
    method Reset()
      modifies this
      ensures ndx == 0
    {
      ndx := 0;
    }
  }

  // ---------------------------------------------------------------------------------
  // The arithmetic of one triangle

  /** `buffer.slice(n * width, n * width + width)`; an undefined index slices nothing. */
  function Slice(buffer: seq<real>, n: Option<nat>, width: nat): seq<real> {
    match n
    case None => []
    case Some(k) =>
      var start := if k * width <= |buffer| then k * width else |buffer|;
      var end := if k * width + width <= |buffer| then k * width + width else |buffer|;
      buffer[start..end]
  }

  /** A slice holds the elements asked for where the buffer has them, and never more. */
  lemma SliceContents(buffer: seq<real>, n: Option<nat>, width: nat)
    ensures n.Some? && n.value * width + width <= |buffer| ==>
      Slice(buffer, n, width) == buffer[n.value * width .. n.value * width + width]
    ensures n.None? ==> Slice(buffer, n, width) == []
    ensures |Slice(buffer, n, width)| <= width
  {
  }

  /** `subtractVector2(a, b)`: `a.map((v, ndx) => v - b[ndx])`, NaN where `b` has no element. */
  function SubtractVector2(a: seq<real>, b: seq<real>): (r: seq<Option<real>>)
    ensures |r| == |a|
    ensures forall i :: 0 <= i < |a| ==> (r[i].Some? <==> i < |b|)
    ensures forall i :: 0 <= i < |a| && i < |b| ==> b[i] + r[i].value == a[i]
  {
    seq(|a|, i requires 0 <= i < |a| => if i < |b| then Some(a[i] - b[i]) else None)
  }

  /** `v[i]`, NaN past the end. */
  function Component(v: seq<Option<real>>, i: nat): Option<real> {
    if i < |v| then v[i] else None
  }

  function Times(x: Option<real>, y: Option<real>): Option<real> {
    if x.Some? && y.Some? then Some(x.value * y.value) else None
  }

  function Minus(x: Option<real>, y: Option<real>): Option<real> {
    if x.Some? && y.Some? then Some(x.value - y.value) else None
  }

  /** `duv12[0] * duv13[1] - duv13[0] * duv12[1]`. */
  function Determinant(duv12: seq<Option<real>>, duv13: seq<Option<real>>): Option<real> {
    Minus(Times(Component(duv12, 0), Component(duv13, 1)), Times(Component(duv13, 0), Component(duv12, 1)))
  }

  /** `duv12[0] * duv13[1] - duv13[0] * duv12[1]` once every coordinate exists. */
  function Det(uv1: seq<real>, uv2: seq<real>, uv3: seq<real>): real
    requires |uv1| >= 2 && |uv2| >= 2 && |uv3| >= 2
  {
    (uv2[0] - uv1[0]) * (uv3[1] - uv1[1]) - (uv3[0] - uv1[0]) * (uv2[1] - uv1[1])
  }

  /** `Number.isFinite(f)` for `f = 1.0 / det`: every coordinate exists and the determinant is not zero. */
  predicate FiniteFactor(uv1: seq<real>, uv2: seq<real>, uv3: seq<real>) {
    |uv1| >= 2 && |uv2| >= 2 && |uv3| >= 2 && Det(uv1, uv2, uv3) != 0.0
  }

  /**
   * The test is the source's: the determinant computed through `subtractVector2`, with
   * NaN for a missing coordinate, is a number other than zero exactly when the factor is finite.
   */
  lemma FiniteFactorIsSourceTest(uv1: seq<real>, uv2: seq<real>, uv3: seq<real>)
    ensures var det := Determinant(SubtractVector2(uv2, uv1), SubtractVector2(uv3, uv1));
      (det.Some? && det.value != 0.0) <==> FiniteFactor(uv1, uv2, uv3)
    ensures FiniteFactor(uv1, uv2, uv3) ==>
      Determinant(SubtractVector2(uv2, uv1), SubtractVector2(uv3, uv1)) == Some(Det(uv1, uv2, uv3))
  {
    var duv12 := SubtractVector2(uv2, uv1);
    var duv13 := SubtractVector2(uv3, uv1);
    if |uv1| >= 2 && |uv2| >= 2 && |uv3| >= 2 {
      assert Component(duv12, 0) == Some(uv2[0] - uv1[0]) && Component(duv12, 1) == Some(uv2[1] - uv1[1]);
      assert Component(duv13, 0) == Some(uv3[0] - uv1[0]) && Component(duv13, 1) == Some(uv3[1] - uv1[1]);
      var x, y := (uv2[0] - uv1[0]) * (uv3[1] - uv1[1]), (uv3[0] - uv1[0]) * (uv2[1] - uv1[1]);
      var det := Determinant(duv12, duv13);
      assert Times(Component(duv12, 0), Component(duv13, 1)).value == x;
      assert Times(Component(duv13, 0), Component(duv12, 1)).value == y;
      assert det.Some? && det.value == x - y == Det(uv1, uv2, uv3);
    } else {
      assert Component(duv12, 0).None? || Component(duv12, 1).None?
          || Component(duv13, 0).None? || Component(duv13, 1).None?;
    }
  }

  /** `m4.subtractVectors(a, b)`. */
  function Sub3(a: Vec3, b: Vec3): Vec3 {
    seq(3, j requires 0 <= j < 3 => a[j] - b[j])
  }

  /** `m4.scaleVector(v, k)`. */
  function Scale3(v: Vec3, k: real): Vec3 {
    seq(3, j requires 0 <= j < 3 => v[j] * k)
  }

  /**
   * The tangent before normalisation, for a triangle with a finite factor:
   * `(dp12 * duv13[1] - dp13 * duv12[1]) * f` with `f = 1 / det`.
   */
  function RawTangent(p1: Vec3, p2: Vec3, p3: Vec3, uv1: seq<real>, uv2: seq<real>, uv3: seq<real>): Vec3
    requires FiniteFactor(uv1, uv2, uv3)
  {
    Scale3(Sub3(Scale3(Sub3(p2, p1), uv3[1] - uv1[1]), Scale3(Sub3(p3, p1), uv2[1] - uv1[1])), 1.0 / Det(uv1, uv2, uv3))
  }

  /**
   * The tangent is the direction in which the texture's first coordinate grows: when the
   * triangle's edges are `t` and `b` combined by the differences of its texture
   * coordinates, the raw tangent is `t`.
   */
  lemma RawTangentIsUDirection(p1: Vec3, p2: Vec3, p3: Vec3, uv1: seq<real>, uv2: seq<real>, uv3: seq<real>,
                               t: Vec3, b: Vec3)
    requires FiniteFactor(uv1, uv2, uv3)
    requires forall j :: 0 <= j < 3 ==> p2[j] - p1[j] == (uv2[0] - uv1[0]) * t[j] + (uv2[1] - uv1[1]) * b[j]
    requires forall j :: 0 <= j < 3 ==> p3[j] - p1[j] == (uv3[0] - uv1[0]) * t[j] + (uv3[1] - uv1[1]) * b[j]
    ensures RawTangent(p1, p2, p3, uv1, uv2, uv3) == t
  {
    var a, c := uv2[0] - uv1[0], uv3[0] - uv1[0];
    var bb, d := uv2[1] - uv1[1], uv3[1] - uv1[1];
    var det := Det(uv1, uv2, uv3);
    assert det == a * d - c * bb;
    var r := RawTangent(p1, p2, p3, uv1, uv2, uv3);
    forall j | 0 <= j < 3
      ensures r[j] == t[j]
    {
      var e12, e13 := p2[j] - p1[j], p3[j] - p1[j];
      assert r[j] == (e12 * d - e13 * bb) * (1.0 / det) by { RawTangentComponent(p1, p2, p3, uv1, uv2, uv3, j); }
      UDirectionComponent(e12, e13, a, bb, c, d, t[j], b[j]);
    }
    assert r == t;
  }

  lemma RawTangentComponent(p1: Vec3, p2: Vec3, p3: Vec3, uv1: seq<real>, uv2: seq<real>, uv3: seq<real>, j: nat)
    requires FiniteFactor(uv1, uv2, uv3)
    requires j < 3
    ensures RawTangent(p1, p2, p3, uv1, uv2, uv3)[j]
         == ((p2[j] - p1[j]) * (uv3[1] - uv1[1]) - (p3[j] - p1[j]) * (uv2[1] - uv1[1]))
            * (1.0 / Det(uv1, uv2, uv3))
  {
    var det := Det(uv1, uv2, uv3);
    var u := Scale3(Sub3(p2, p1), uv3[1] - uv1[1]);
    var v := Scale3(Sub3(p3, p1), uv2[1] - uv1[1]);
    assert RawTangent(p1, p2, p3, uv1, uv2, uv3) == Scale3(Sub3(u, v), 1.0 / det);
    assert u[j] == (p2[j] - p1[j]) * (uv3[1] - uv1[1]);
    assert v[j] == (p3[j] - p1[j]) * (uv2[1] - uv1[1]);
  }

  lemma UDirectionComponent(e12: real, e13: real, a: real, bb: real, c: real, d: real, t: real, b: real)
    requires a * d - c * bb != 0.0
    requires e12 == a * t + bb * b && e13 == c * t + d * b
    ensures (e12 * d - e13 * bb) * (1.0 / (a * d - c * bb)) == t
  {
    var det := a * d - c * bb;
    calc {
      e12 * d - e13 * bb;
      (a * t + bb * b) * d - (c * t + d * b) * bb;
      { assert (a * t + bb * b) * d == a * d * t + bb * d * b; assert (c * t + d * b) * bb == c * bb * t + bb * d * b; }
      (a * d - c * bb) * t;
    }
    assert det * t * (1.0 / det) == t;
  }

  /**
   * The tangent of one triangle: the normalised raw tangent when the factor is finite,
   * and `[1, 0, 0]` otherwise. `m4.normalize` is the parameter `normalize`.
   */
  function FaceTangent(p1: seq<real>, p2: seq<real>, p3: seq<real>, uv1: seq<real>, uv2: seq<real>, uv3: seq<real>,
                       normalize: Vec3 -> Vec3): Vec3
    requires FiniteFactor(uv1, uv2, uv3) ==> |p1| == 3 && |p2| == 3 && |p3| == 3
  {
    if FiniteFactor(uv1, uv2, uv3) then normalize(RawTangent(p1, p2, p3, uv1, uv2, uv3))
    else [1.0, 0.0, 0.0]
  }

  /** When the determinant is zero the tangent is `[1, 0, 0]`, whatever the positions. */
  lemma DegenerateCoordinatesGiveDefault(p1: seq<real>, p2: seq<real>, p3: seq<real>,
                                         uv1: seq<real>, uv2: seq<real>, uv3: seq<real>, normalize: Vec3 -> Vec3)
    requires |uv1| >= 2 && |uv2| >= 2 && |uv3| >= 2
    requires (uv2[0] - uv1[0]) * (uv3[1] - uv1[1]) - (uv3[0] - uv1[0]) * (uv2[1] - uv1[1]) == 0.0
    ensures FaceTangent(p1, p2, p3, uv1, uv2, uv3, normalize) == [1.0, 0.0, 0.0]
  {
    assert !FiniteFactor(uv1, uv2, uv3);
  }

  /** A vertex without texture coordinates, one past the end of `texcoord`, gives `[1, 0, 0]` too. */
  lemma MissingCoordinatesGiveDefault(p1: seq<real>, p2: seq<real>, p3: seq<real>,
                                      uv1: seq<real>, uv2: seq<real>, uv3: seq<real>, normalize: Vec3 -> Vec3)
    requires |uv1| < 2 || |uv2| < 2 || |uv3| < 2
    ensures FaceTangent(p1, p2, p3, uv1, uv2, uv3, normalize) == [1.0, 0.0, 0.0]
  {
  }

  /**
   * Otherwise the tangent is the normalised direction in which the first texture
   * coordinate grows along the triangle.
   */
  lemma FiniteFactorGivesUDirection(p1: Vec3, p2: Vec3, p3: Vec3, uv1: seq<real>, uv2: seq<real>, uv3: seq<real>,
                                    normalize: Vec3 -> Vec3, t: Vec3, b: Vec3)
    requires FiniteFactor(uv1, uv2, uv3)
    requires forall j :: 0 <= j < 3 ==> p2[j] - p1[j] == (uv2[0] - uv1[0]) * t[j] + (uv2[1] - uv1[1]) * b[j]
    requires forall j :: 0 <= j < 3 ==> p3[j] - p1[j] == (uv3[0] - uv1[0]) * t[j] + (uv3[1] - uv1[1]) * b[j]
    ensures FaceTangent(p1, p2, p3, uv1, uv2, uv3, normalize) == normalize(t)
  {
    RawTangentIsUDirection(p1, p2, p3, uv1, uv2, uv3, t, b);
  }

  // ---------------------------------------------------------------------------------
  // The loop over triangles

  /** The arrays `generateTangents` is given. */
  datatype Arrays = Arrays(position: seq<real>, texcoord: seq<real>, indices: Option<seq<nat>>)

  /** `getNextIndex.numElements`. */
  function NumFaceVerts(a: Arrays): real {
    match a.indices
    case None => |a.position| as real / 3.0
    case Some(ix) => |ix| as real
  }

  /**
   * How often the loop `for (let i = 0; i < numFaces; ++i)` runs: `numFaces` rounded up,
   * that is `position.length / 9` or `indices.length / 3` rounded up.
   */
  function FaceCount(a: Arrays): nat {
    match a.indices
    case None => (|a.position| + 8) / 9
    case Some(ix) => (|ix| + 2) / 3
  }

  /** The counter passes the loop's test `i < numFaces` exactly while it is below the count. */
  lemma LoopTest(a: Arrays, i: nat)
    ensures (i as real) < NumFaceVerts(a) / 3.0 <==> i < FaceCount(a)
  {
    match a.indices
    case None =>
      assert NumFaceVerts(a) / 3.0 == |a.position| as real / 9.0;
      assert (i as real) < |a.position| as real / 9.0 <==> 9 * i < |a.position|;
    case Some(ix) =>
      assert NumFaceVerts(a) / 3.0 == |ix| as real / 3.0;
      assert (i as real) < |ix| as real / 3.0 <==> 3 * i < |ix|;
  }

  /** The three vertex indices of triangle `face`: the iterator's calls `3 * face` to `3 * face + 2`. */
  function Corner(a: Arrays, face: nat, k: nat): Option<nat>
    requires k < 3
  {
    VertexIndex(a.indices, 3 * face + k)
  }

  function P(a: Arrays, face: nat, k: nat): seq<real>
    requires k < 3
  {
    Slice(a.position, Corner(a, face, k), 3)
  }

  function Uv(a: Arrays, face: nat, k: nat): seq<real>
    requires k < 3
  {
    Slice(a.texcoord, Corner(a, face, k), 2)
  }

  /** The positions of triangle `face` exist where its tangent needs them. */
  predicate FaceCovered(a: Arrays, face: nat) {
    FiniteFactor(Uv(a, face, 0), Uv(a, face, 1), Uv(a, face, 2)) ==>
      |P(a, face, 0)| == 3 && |P(a, face, 1)| == 3 && |P(a, face, 2)| == 3
  }

  /** The positions of every triangle exist where its tangent needs them. */
  predicate Covered(a: Arrays) {
    forall face :: 0 <= face < FaceCount(a) ==> FaceCovered(a, face)
  }

  /** Every vertex index the iterator yields names a whole position: the arrays are covered. */
  lemma WholePositionsCover(a: Arrays)
    requires forall k :: 0 <= k < 3 * FaceCount(a) ==>
      VertexIndex(a.indices, k).Some? ==> 3 * VertexIndex(a.indices, k).value + 3 <= |a.position|
    ensures Covered(a)
  {
    forall face | 0 <= face < FaceCount(a)
      ensures FaceCovered(a, face)
    {
      assert Corner(a, face, 0) == VertexIndex(a.indices, 3 * face);
      assert Corner(a, face, 1) == VertexIndex(a.indices, 3 * face + 1);
      assert Corner(a, face, 2) == VertexIndex(a.indices, 3 * face + 2);
    }
  }

  /** The tangent of triangle `face`. */
  function TangentAt(a: Arrays, normalize: Vec3 -> Vec3, face: nat): Vec3
    requires FaceCovered(a, face)
  {
    FaceTangent(P(a, face, 0), P(a, face, 1), P(a, face, 2), Uv(a, face, 0), Uv(a, face, 1), Uv(a, face, 2), normalize)
  }

  /** The tangents of the first `k` triangles, in order. */
  function FaceTangents(a: Arrays, normalize: Vec3 -> Vec3, k: nat): (ts: seq<Vec3>)
    requires forall face :: 0 <= face < k ==> FaceCovered(a, face)
    ensures |ts| == k
  {
    if k == 0 then [] else FaceTangents(a, normalize, k - 1) + [TangentAt(a, normalize, k - 1)]
  }

  /** Element `face` of the list is the tangent of triangle `face`. */
  lemma {:induction false} FaceTangentsAt(a: Arrays, normalize: Vec3 -> Vec3, k: nat, face: nat)
    requires forall f :: 0 <= f < k ==> FaceCovered(a, f)
    requires face < k
    ensures FaceTangents(a, normalize, k)[face] == TangentAt(a, normalize, face)
  {
    if face < k - 1 {
      FaceTangentsAt(a, normalize, k - 1, face);
    }
  }

  /** `...tangent, ...tangent, ...tangent`. */
  function Thrice(t: Vec3): seq<real> {
    t + t + t
  }

  /** `tangents.push(...tangent, ...tangent, ...tangent)` for each tangent in turn. */
  function Repeat3(ts: seq<Vec3>): seq<real> {
    if |ts| == 0 then []
    else
      Repeat3(ts[..|ts| - 1]) + Thrice(ts[|ts| - 1])
  }

  /** `generateTangents(position, texcoord, indices)`. */
  function Tangents(a: Arrays, normalize: Vec3 -> Vec3): (r: seq<real>)
    requires Covered(a)
    ensures |r| == 9 * FaceCount(a)
  {
    Repeat3Length(FaceTangents(a, normalize, FaceCount(a)));
    Repeat3(FaceTangents(a, normalize, FaceCount(a)))
  }

  /** Nine numbers per tangent. */
  lemma {:induction false} Repeat3Length(ts: seq<Vec3>)
    ensures |Repeat3(ts)| == 9 * |ts|
  {
    if |ts| > 0 {
      Repeat3Length(ts[..|ts| - 1]);
    }
  }

  /** Tangent `face` fills positions `9 * face` to `9 * face + 8`, three times over. */
  lemma {:induction false} Repeat3Face(ts: seq<Vec3>, face: nat)
    requires face < |ts|
    ensures 9 * face + 9 <= |Repeat3(ts)|
    ensures Repeat3(ts)[9 * face .. 9 * face + 9] == Thrice(ts[face])
  {
    var before := Repeat3(ts[..|ts| - 1]);
    var last := Thrice(ts[|ts| - 1]);
    Repeat3Length(ts[..|ts| - 1]);
    Repeat3Length(ts);
    assert Repeat3(ts) == before + last;
    if face < |ts| - 1 {
      Repeat3Face(ts[..|ts| - 1], face);
      assert (before + last)[9 * face .. 9 * face + 9] == before[9 * face .. 9 * face + 9];
    } else {
      assert (before + last)[9 * face .. 9 * face + 9] == last;
    }
  }

  /** Appending one tangent appends its three copies. */
  lemma Repeat3Snoc(ts: seq<Vec3>, t: Vec3)
    ensures Repeat3(ts + [t]) == Repeat3(ts) + Thrice(t)
  {
    assert (ts + [t])[..|ts|] == ts;
  }

  /** The nine numbers of tangent `face` are its three components, three times over. */
  lemma Repeat3Copies(ts: seq<Vec3>, face: nat)
    requires face < |ts|
    ensures |Repeat3(ts)| == 9 * |ts|
    ensures forall j :: 0 <= j < 3 ==>
      Repeat3(ts)[9 * face + j] == ts[face][j]
      && Repeat3(ts)[9 * face + 3 + j] == ts[face][j]
      && Repeat3(ts)[9 * face + 6 + j] == ts[face][j]
  {
    Repeat3Length(ts);
    Repeat3Face(ts, face);
    var r := Repeat3(ts);
    var t := ts[face];
    forall j | 0 <= j < 3
      ensures r[9 * face + j] == t[j] && r[9 * face + 3 + j] == t[j] && r[9 * face + 6 + j] == t[j]
    {
      assert r[9 * face + j] == r[9 * face .. 9 * face + 9][j];
      assert r[9 * face + 3 + j] == r[9 * face .. 9 * face + 9][3 + j];
      assert r[9 * face + 6 + j] == r[9 * face .. 9 * face + 9][6 + j];
    }
  }

  /**
   * The whole result: nine numbers per triangle, and the nine of triangle `face` are its
   * tangent three times over, one copy for each of its vertices.
   */
  lemma TangentsShape(a: Arrays, normalize: Vec3 -> Vec3, face: nat)
    requires Covered(a)
    requires face < FaceCount(a)
    ensures |Tangents(a, normalize)| == 9 * FaceCount(a)
    ensures forall j :: 0 <= j < 3 ==>
      Tangents(a, normalize)[9 * face + j] == TangentAt(a, normalize, face)[j]
      && Tangents(a, normalize)[9 * face + 3 + j] == TangentAt(a, normalize, face)[j]
      && Tangents(a, normalize)[9 * face + 6 + j] == TangentAt(a, normalize, face)[j]
  {
    var ts := FaceTangents(a, normalize, FaceCount(a));
    FaceTangentsAt(a, normalize, FaceCount(a), face);
    Repeat3Copies(ts, face);
  }

  /**
   * Without indices there are `position.length / 3 / 3` triangles, rounded up: a position
   * buffer of whole triangles gives one tangent component per position component.
   */
  lemma UnindexedFaceCount(a: Arrays)
    requires a.indices.None?
    ensures |a.position| % 9 == 0 ==> 9 * FaceCount(a) == |a.position|
    ensures |a.position| % 9 != 0 ==> 9 * FaceCount(a) > |a.position| > 9 * (FaceCount(a) - 1)
  {
  }

  /** One more triangle appends its tangent three times. */
  lemma TangentsStep(a: Arrays, normalize: Vec3 -> Vec3, k: nat)
    requires forall face :: 0 <= face < k + 1 ==> FaceCovered(a, face)
    ensures Repeat3(FaceTangents(a, normalize, k + 1))
         == Repeat3(FaceTangents(a, normalize, k)) + Thrice(TangentAt(a, normalize, k))
  {
    Repeat3Snoc(FaceTangents(a, normalize, k), TangentAt(a, normalize, k));
  }

  /**
   * The iterator's calls `3 * face` to `3 * face + 2` give triangle `face`: the slices the
   * loop takes for the indices they return satisfy the tangent's precondition and give its tangent.
   */
  lemma CallsOfFace(a: Arrays, normalize: Vec3 -> Vec3, face: nat, n1: Option<nat>, n2: Option<nat>, n3: Option<nat>)
    requires Covered(a) && face < FaceCount(a)
    requires n1 == VertexIndex(a.indices, 3 * face)
    requires n2 == VertexIndex(a.indices, 3 * face + 1)
    requires n3 == VertexIndex(a.indices, 3 * face + 2)
    ensures FiniteFactor(Slice(a.texcoord, n1, 2), Slice(a.texcoord, n2, 2), Slice(a.texcoord, n3, 2)) ==>
      |Slice(a.position, n1, 3)| == 3 && |Slice(a.position, n2, 3)| == 3 && |Slice(a.position, n3, 3)| == 3
    ensures FaceTangent(Slice(a.position, n1, 3), Slice(a.position, n2, 3), Slice(a.position, n3, 3),
                        Slice(a.texcoord, n1, 2), Slice(a.texcoord, n2, 2), Slice(a.texcoord, n3, 2), normalize)
         == TangentAt(a, normalize, face)
  {
    assert FaceCovered(a, face);
    assert Corner(a, face, 0) == n1 && Corner(a, face, 1) == n2 && Corner(a, face, 2) == n3;
  }

  /**
   * The body of the loop of `generateTangents` up to the push: three calls of the iterator,
   * the slices for the indices they return, and the triangle's tangent.
   */
  method NextTangent(getNextIndex: IndexIterator, position: seq<real>, texcoord: seq<real>,
                     normalize: Vec3 -> Vec3, ghost face: nat) returns (tangent: Vec3)
    requires getNextIndex.ndx == 3 * face
    requires Covered(Arrays(position, texcoord, getNextIndex.indices))
    requires face < FaceCount(Arrays(position, texcoord, getNextIndex.indices))
    modifies getNextIndex
    ensures getNextIndex.ndx == 3 * face + 3
    ensures tangent == TangentAt(Arrays(position, texcoord, getNextIndex.indices), normalize, face)
  {
    ghost var a := Arrays(position, texcoord, getNextIndex.indices);
    var n1 := getNextIndex.Next();
    var n2 := getNextIndex.Next();
    var n3 := getNextIndex.Next();

    var p1 := Slice(position, n1, 3);
    var p2 := Slice(position, n2, 3);
    var p3 := Slice(position, n3, 3);

    var uv1 := Slice(texcoord, n1, 2);
    var uv2 := Slice(texcoord, n2, 2);
    var uv3 := Slice(texcoord, n3, 2);

    CallsOfFace(a, normalize, face, n1, n2, n3);
    tangent := FaceTangent(p1, p2, p3, uv1, uv2, uv3, normalize);
  }

  /** `generateTangents` as the source runs it, with the iterator as an object. */
  method GenerateTangents(position: seq<real>, texcoord: seq<real>, indices: Option<seq<nat>>,
                          normalize: Vec3 -> Vec3) returns (tangents: seq<real>)
    requires Covered(Arrays(position, texcoord, indices))
    ensures tangents == Tangents(Arrays(position, texcoord, indices), normalize)
  {
    ghost var a := Arrays(position, texcoord, indices);
    var getNextIndex: IndexIterator;
    if indices.Some? {
      getNextIndex := new IndexIterator.OverIndices(indices.value);
    } else {
      getNextIndex := new IndexIterator.OverPositions(position);
    }
    var numFaceVerts := getNextIndex.numElements;
    var numFaces := numFaceVerts / 3.0;
    assert numFaceVerts == NumFaceVerts(a);

    tangents := [];
    var i := 0;
    while (i as real) < numFaces
      invariant 0 <= i <= FaceCount(a)
      invariant getNextIndex.indices == indices && getNextIndex.ndx == 3 * i
      invariant tangents == Repeat3(FaceTangents(a, normalize, i))
      decreases FaceCount(a) - i
    {
      LoopTest(a, i);
      var tangent := NextTangent(getNextIndex, position, texcoord, normalize, i);
      TangentsStep(a, normalize, i);
      tangents := tangents + Thrice(tangent);
      i := i + 1;
    }
    LoopTest(a, i);
    assert i == FaceCount(a);
  }
}
