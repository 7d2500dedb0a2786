/**
 * 4x4 matrices in the D3DX convention: points are row vectors, so a
 * transform applied after another is multiplied on the right, and the
 * translation lives in the fourth row (_41, _42, _43).
 *
 * A product is kept as the pair of its factors and its rows are computed on
 * demand, so that a product that is only ever handed to the opaque vector
 * library is never expanded.
 */
module Matrices {
  import opened Vectors

  datatype Row = Row(x: real, y: real, z: real, w: real)

  datatype Matrix =
    | Rows(r1: Row, r2: Row, r3: Row, r4: Row)
    | Product(left: Matrix, right: Matrix)

  const Identity: Matrix := Rows(
    Row(1.0, 0.0, 0.0, 0.0),
    Row(0.0, 1.0, 0.0, 0.0),
    Row(0.0, 0.0, 1.0, 0.0),
    Row(0.0, 0.0, 0.0, 1.0))

  function AddRow(a: Row, b: Row): Row {
    Row(a.x + b.x, a.y + b.y, a.z + b.z, a.w + b.w)
  }

  function ScaleRow(a: Row, k: real): Row {
    Row(a.x * k, a.y * k, a.z * k, a.w * k)
  }

  /** Row k (1 to 4) of a matrix; row k of a * b is row k of a times b. */
  function RowAt(m: Matrix, k: nat): Row
    requires 1 <= k <= 4
    decreases m, 0
  {
    match m
    case Rows(r1, r2, r3, r4) => if k == 1 then r1 else if k == 2 then r2 else if k == 3 then r3 else r4
    case Product(a, b) => RowTimes(RowAt(a, k), b)
  }

  /** A row vector times a matrix. */
  function RowTimes(r: Row, m: Matrix): Row
    decreases m, 1
  {
    AddRow(AddRow(ScaleRow(RowAt(m, 1), r.x), ScaleRow(RowAt(m, 2), r.y)),
           AddRow(ScaleRow(RowAt(m, 3), r.z), ScaleRow(RowAt(m, 4), r.w)))
  }

  /** The translation part of a matrix: entries _41, _42 and _43. */
  function Position(m: Matrix): Vec3 {
    var r := RowAt(m, 4);
    Vec3(r.x, r.y, r.z)
  }

  /** A scale matrix, as a transform holding only a scale produces. */
  function ScaleMatrix(s: Vec3): (m: Matrix)
    ensures Position(m) == Zero
  {
    Rows(
      Row(s.x, 0.0, 0.0, 0.0),
      Row(0.0, s.y, 0.0, 0.0),
      Row(0.0, 0.0, s.z, 0.0),
      Row(0.0, 0.0, 0.0, 1.0))
  }

  /** A pure translation, as a transform holding only a position produces. */
  function TranslationMatrix(p: Vec3): (m: Matrix)
    ensures Position(m) == p
  {
    Rows(
      Row(1.0, 0.0, 0.0, 0.0),
      Row(0.0, 1.0, 0.0, 0.0),
      Row(0.0, 0.0, 1.0, 0.0),
      Row(p.x, p.y, p.z, 1.0))
  }

  /**
   * Scaling an object in its own frame before placing it with a parent
   * matrix does not move it: the product sits where the parent sits.
   */
  lemma ScaledFramePosition(s: Vec3, parent: Matrix)
    ensures Position(Product(ScaleMatrix(s), parent)) == Position(parent)
  {
    assert RowAt(ScaleMatrix(s), 4) == Row(0.0, 0.0, 0.0, 1.0);
    UnitRowPicksLast(parent);
  }

  /** The row (0, 0, 0, 1) picks out the translation row of any matrix. */
  lemma UnitRowPicksLast(m: Matrix)
    ensures RowTimes(Row(0.0, 0.0, 0.0, 1.0), m) == RowAt(m, 4)
  {
    var u := Row(0.0, 0.0, 0.0, 1.0);
    var zero := Row(0.0, 0.0, 0.0, 0.0);
    calc {
      RowTimes(u, m);
      AddRow(AddRow(ScaleRow(RowAt(m, 1), u.x), ScaleRow(RowAt(m, 2), u.y)),
             AddRow(ScaleRow(RowAt(m, 3), u.z), ScaleRow(RowAt(m, 4), u.w)));
      { assert ScaleRow(RowAt(m, 1), 0.0) == zero; assert ScaleRow(RowAt(m, 2), 0.0) == zero;
        assert ScaleRow(RowAt(m, 3), 0.0) == zero; assert ScaleRow(RowAt(m, 4), 1.0) == RowAt(m, 4); }
      AddRow(AddRow(zero, zero), AddRow(zero, RowAt(m, 4)));
    }
  }
}
