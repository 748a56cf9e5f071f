/** The 4×4 matrix of the viewer (`Matrix4` of src/matrix.js), over exact reals.
    `Mat` is the value a `Matrix4` holds, row by row; the class `Matrix4` keeps the
    source's in-place updates of `data`. Trigonometry and square roots are foreign:
    rotations take the sine and cosine, `Decompose` takes the row lengths. */
module Matrix {

  type Mat = m: seq<seq<real>> | |m| == 4 && forall i | 0 <= i < 4 :: |m[i]| == 4
    witness [[0.0, 0.0, 0.0, 0.0], [0.0, 0.0, 0.0, 0.0], [0.0, 0.0, 0.0, 0.0], [0.0, 0.0, 0.0, 0.0]]

  type Vec3 = v: seq<real> | |v| == 3 witness [0.0, 0.0, 0.0]

  /** Two three-vectors with the same entries are equal. */
  lemma Ext3(a: Vec3, b: Vec3)
    requires a[0] == b[0] && a[1] == b[1] && a[2] == b[2]
    ensures a == b
  {
  }

  /** Two matrices with the same sixteen entries are equal. */
  lemma Ext(a: Mat, b: Mat)
    requires forall i, j | 0 <= i < 4 && 0 <= j < 4 :: a[i][j] == b[i][j]
    ensures a == b
  {
    forall i | 0 <= i < 4 ensures a[i] == b[i] { }
  }

  function Zero(): (r: Mat)
    ensures forall i, j | 0 <= i < 4 && 0 <= j < 4 :: r[i][j] == 0.0
  {
    [[0.0, 0.0, 0.0, 0.0],
     [0.0, 0.0, 0.0, 0.0],
     [0.0, 0.0, 0.0, 0.0],
     [0.0, 0.0, 0.0, 0.0]]
  }

  function Unit(): (r: Mat)
    ensures forall i, j | 0 <= i < 4 && 0 <= j < 4 :: r[i][j] == if i == j then 1.0 else 0.0
  {
    [[1.0, 0.0, 0.0, 0.0],
     [0.0, 1.0, 0.0, 0.0],
     [0.0, 0.0, 1.0, 0.0],
     [0.0, 0.0, 0.0, 1.0]]
  }

  /** Rotation about x, given `sin` and `cos` of the angle. */
  function RotX(sin: real, cos: real): Mat
  {
    [[1.0, 0.0, 0.0, 0.0],
     [0.0, cos, -sin, 0.0],
     [0.0, sin, cos, 0.0],
     [0.0, 0.0, 0.0, 1.0]]
  }

  function RotY(sin: real, cos: real): Mat
  {
    [[cos, 0.0, sin, 0.0],
     [0.0, 1.0, 0.0, 0.0],
     [-sin, 0.0, cos, 0.0],
     [0.0, 0.0, 0.0, 1.0]]
  }

  function RotZ(sin: real, cos: real): Mat
  {
    [[cos, -sin, 0.0, 0.0],
     [sin, cos, 0.0, 0.0],
     [0.0, 0.0, 1.0, 0.0],
     [0.0, 0.0, 0.0, 1.0]]
  }

  function Transpose(m: Mat): (t: Mat)
    ensures forall i, j | 0 <= i < 4 && 0 <= j < 4 :: t[i][j] == m[j][i]
  {
    seq(4, i requires 0 <= i < 4 => seq(4, j requires 0 <= j < 4 => m[j][i]))
  }

  /** The identity is its own transpose. */
  lemma TransposeUnit()
    ensures Transpose(Unit()) == Unit()
  {
    Ext(Transpose(Unit()), Unit());
  }

  /** Row `axis` and column `axis` of `m` are the unit vector of that axis. */
  ghost predicate KeepsAxis(m: Mat, axis: nat)
    requires axis < 4
  {
    forall k | 0 <= k < 4 :: m[axis][k] == m[k][axis] == (if k == axis then 1.0 else 0.0)
  }

  /** The rotation block is orthonormal: `m · mᵀ` is the identity. */
  ghost predicate Orthonormal(m: Mat)
  {
    Product(m, Transpose(m)) == Unit()
  }

  /** Σ_{k<n} a[i][k]·b[k][j], the partial dot product `mul` accumulates into c[i][j]. */
  function RowCol(a: Mat, b: Mat, i: nat, j: nat, n: nat): real
    requires i < 4 && j < 4 && n <= 4
  {
    if n == 0 then 0.0 else RowCol(a, b, i, j, n - 1) + a[i][n - 1] * b[n - 1][j]
  }

  /** The matrix product a·b. */
  function Product(a: Mat, b: Mat): Mat
  {
    seq(4, i requires 0 <= i < 4 => seq(4, j requires 0 <= j < 4 => RowCol(a, b, i, j, |a|)))
  }

  lemma MulEntry(a: Mat, b: Mat, i: nat, j: nat)
    requires i < 4 && j < 4
    ensures Product(a, b)[i][j]
         == a[i][0] * b[0][j] + a[i][1] * b[1][j] + a[i][2] * b[2][j] + a[i][3] * b[3][j]
  {
    assert RowCol(a, b, i, j, 1) == a[i][0] * b[0][j];
    assert RowCol(a, b, i, j, 2) == RowCol(a, b, i, j, 1) + a[i][1] * b[1][j];
    assert RowCol(a, b, i, j, 3) == RowCol(a, b, i, j, 2) + a[i][2] * b[2][j];
    assert RowCol(a, b, i, j, 4) == RowCol(a, b, i, j, 3) + a[i][3] * b[3][j];
  }

  lemma {:induction false} UnitLeft(a: Mat)
    ensures Product(Unit(), a) == a
  {
    forall i, j | 0 <= i < 4 && 0 <= j < 4 ensures Product(Unit(), a)[i][j] == a[i][j] {
      MulEntry(Unit(), a, i, j);
    }
    Ext(Product(Unit(), a), a);
  }

  lemma {:induction false} UnitRight(a: Mat)
    ensures Product(a, Unit()) == a
  {
    forall i, j | 0 <= i < 4 && 0 <= j < 4 ensures Product(a, Unit())[i][j] == a[i][j] {
      MulEntry(a, Unit(), i, j);
    }
    Ext(Product(a, Unit()), a);
  }

  lemma {:induction false} MulAssoc(a: Mat, b: Mat, c: Mat)
    ensures Product(Product(a, b), c) == Product(a, Product(b, c))
  {
    var l, r := Product(Product(a, b), c), Product(a, Product(b, c));
    forall i, j | 0 <= i < 4 && 0 <= j < 4 ensures l[i][j] == r[i][j] {
      AssocEntry(a, b, c, i, j);
    }
    Ext(l, r);
  }

  /** One entry of the associativity law: both sides are the sum over m and k of
      a[i][m]·b[m][k]·c[k][j]. */
  lemma AssocEntry(a: Mat, b: Mat, c: Mat, i: nat, j: nat)
    requires i < 4 && j < 4
    ensures Product(Product(a, b), c)[i][j] == Product(a, Product(b, c))[i][j]
  {
    var y := [c[0][j], c[1][j], c[2][j], c[3][j]];
    LeftEntry(a, b, c, i, j);
    RightEntry(a, b, c, i, j);
    SumSwap(a[i], b[0], b[1], b[2], b[3], y);
  }

  lemma LeftEntry(a: Mat, b: Mat, c: Mat, i: nat, j: nat)
    requires i < 4 && j < 4
    ensures Product(Product(a, b), c)[i][j] ==
      (a[i][0] * b[0][0] + a[i][1] * b[1][0] + a[i][2] * b[2][0] + a[i][3] * b[3][0]) * c[0][j] +
      (a[i][0] * b[0][1] + a[i][1] * b[1][1] + a[i][2] * b[2][1] + a[i][3] * b[3][1]) * c[1][j] +
      (a[i][0] * b[0][2] + a[i][1] * b[1][2] + a[i][2] * b[2][2] + a[i][3] * b[3][2]) * c[2][j] +
      (a[i][0] * b[0][3] + a[i][1] * b[1][3] + a[i][2] * b[2][3] + a[i][3] * b[3][3]) * c[3][j]
  {
    MulEntry(Product(a, b), c, i, j);
    MulEntry(a, b, i, 0); MulEntry(a, b, i, 1); MulEntry(a, b, i, 2); MulEntry(a, b, i, 3);
  }

  lemma RightEntry(a: Mat, b: Mat, c: Mat, i: nat, j: nat)
    requires i < 4 && j < 4
    ensures Product(a, Product(b, c))[i][j] ==
      a[i][0] * (b[0][0] * c[0][j] + b[0][1] * c[1][j] + b[0][2] * c[2][j] + b[0][3] * c[3][j]) +
      a[i][1] * (b[1][0] * c[0][j] + b[1][1] * c[1][j] + b[1][2] * c[2][j] + b[1][3] * c[3][j]) +
      a[i][2] * (b[2][0] * c[0][j] + b[2][1] * c[1][j] + b[2][2] * c[2][j] + b[2][3] * c[3][j]) +
      a[i][3] * (b[3][0] * c[0][j] + b[3][1] * c[1][j] + b[3][2] * c[2][j] + b[3][3] * c[3][j])
  {
    MulEntry(a, Product(b, c), i, j);
    MulEntry(b, c, 0, j); MulEntry(b, c, 1, j); MulEntry(b, c, 2, j); MulEntry(b, c, 3, j);
  }

  /** Σ_k (Σ_m x[m]·r_m[k])·y[k] == Σ_m x[m]·(Σ_k r_m[k]·y[k]): the two orders of summing
      the sixteen products x[m]·r_m[k]·y[k]. */
  lemma SumSwap(x: seq<real>, r0: seq<real>, r1: seq<real>, r2: seq<real>, r3: seq<real>, y: seq<real>)
    requires |x| == 4 && |r0| == 4 && |r1| == 4 && |r2| == 4 && |r3| == 4 && |y| == 4
    ensures (x[0] * r0[0] + x[1] * r1[0] + x[2] * r2[0] + x[3] * r3[0]) * y[0] +
            (x[0] * r0[1] + x[1] * r1[1] + x[2] * r2[1] + x[3] * r3[1]) * y[1] +
            (x[0] * r0[2] + x[1] * r1[2] + x[2] * r2[2] + x[3] * r3[2]) * y[2] +
            (x[0] * r0[3] + x[1] * r1[3] + x[2] * r2[3] + x[3] * r3[3]) * y[3]
         == x[0] * (r0[0] * y[0] + r0[1] * y[1] + r0[2] * y[2] + r0[3] * y[3]) +
            x[1] * (r1[0] * y[0] + r1[1] * y[1] + r1[2] * y[2] + r1[3] * y[3]) +
            x[2] * (r2[0] * y[0] + r2[1] * y[1] + r2[2] * y[2] + r2[3] * y[3]) +
            x[3] * (r3[0] * y[0] + r3[1] * y[1] + r3[2] * y[2] + r3[3] * y[3])
  {
  }

  /** `mul` is not commutative: the quarter turns about x and about y give different products. */
  lemma MulNotCommutative()
    ensures Product(RotX(1.0, 0.0), RotY(1.0, 0.0)) != Product(RotY(1.0, 0.0), RotX(1.0, 0.0))
  {
    MulEntry(RotX(1.0, 0.0), RotY(1.0, 0.0), 0, 1);
    MulEntry(RotY(1.0, 0.0), RotX(1.0, 0.0), 0, 1);
  }

  lemma RotationsKeepTheirAxis(sin: real, cos: real)
    ensures KeepsAxis(RotX(sin, cos), 0) && KeepsAxis(RotX(sin, cos), 3)
    ensures KeepsAxis(RotY(sin, cos), 1) && KeepsAxis(RotY(sin, cos), 3)
    ensures KeepsAxis(RotZ(sin, cos), 2) && KeepsAxis(RotZ(sin, cos), 3)
  {
  }

  /** With sin² + cos² = 1 each rotation is orthonormal. */
  lemma {:induction false} RotationsOrthonormal(sin: real, cos: real)
    requires sin * sin + cos * cos == 1.0
    ensures Orthonormal(RotX(sin, cos)) && Orthonormal(RotY(sin, cos)) && Orthonormal(RotZ(sin, cos))
  {
    var ms := [RotX(sin, cos), RotY(sin, cos), RotZ(sin, cos)];
    forall n | 0 <= n < 3 ensures Orthonormal(ms[n]) {
      var m := ms[n];
      forall i, j | 0 <= i < 4 && 0 <= j < 4 ensures Product(m, Transpose(m))[i][j] == Unit()[i][j] {
        MulEntry(m, Transpose(m), i, j);
      }
      Ext(Product(m, Transpose(m)), Unit());
    }
    assert Orthonormal(ms[0]) && Orthonormal(ms[1]) && Orthonormal(ms[2]);
  }

  /** `aspect(a)`: row 0 divided by `a`, rows 1–3 as they were. */
  function Aspected(m: Mat, a: real): (r: Mat)
    requires a != 0.0
    ensures forall j | 0 <= j < 4 :: r[0][j] * a == m[0][j]
    ensures r[1..] == m[1..]
  {
    [seq(4, j requires 0 <= j < 4 => m[0][j] / a), m[1], m[2], m[3]]
  }

  /** `scale(s)`: rows 0–2 (translation column included) times `s`, row 3 as it was. */
  function Scaled(m: Mat, s: real): (r: Mat)
    ensures forall i, j | 0 <= i < 3 && 0 <= j < 4 :: r[i][j] == s * m[i][j]
    ensures r[3] == m[3]
  {
    seq(4, i requires 0 <= i < 4 => if i == 3 then m[3] else seq(4, j requires 0 <= j < 4 => s * m[i][j]))
  }

  /** Σ_{j<n} v[j]·m[i][j]. */
  function RowDot(m: Mat, v: Vec3, i: nat, n: nat): real
    requires i < 4 && n <= 3
  {
    if n == 0 then 0.0 else RowDot(m, v, i, n - 1) + v[n - 1] * m[i][n - 1]
  }

  /** `apply3(v)`: the affine image of `v`; row 3 is never read. */
  function Applied3(m: Mat, v: Vec3): Vec3
  {
    [RowDot(m, v, 0, 3) + m[0][3], RowDot(m, v, 1, 3) + m[1][3], RowDot(m, v, 2, 3) + m[2][3]]
  }

  lemma {:induction false} AffineEntry(m: Mat, v: Vec3, i: nat)
    requires i < 3
    ensures Applied3(m, v)[i] == v[0] * m[i][0] + v[1] * m[i][1] + v[2] * m[i][2] + m[i][3]
  {
    assert RowDot(m, v, i, 1) == v[0] * m[i][0];
    assert RowDot(m, v, i, 2) == RowDot(m, v, i, 1) + v[1] * m[i][1];
    assert RowDot(m, v, i, 3) == RowDot(m, v, i, 2) + v[2] * m[i][2];
  }

  lemma {:induction false} AffineIgnoresRow3(m: Mat, v: Vec3, row: seq<real>)
    requires |row| == 4
    ensures Applied3(m[3 := row], v) == Applied3(m, v)
  {
    var m' := m[3 := row];
    AffineEntry(m, v, 0); AffineEntry(m, v, 1); AffineEntry(m, v, 2);
    AffineEntry(m', v, 0); AffineEntry(m', v, 1); AffineEntry(m', v, 2);
    Ext3(Applied3(m', v), Applied3(m, v));
  }

  lemma {:induction false} AffineUnit(v: Vec3)
    ensures Applied3(Unit(), v) == v
  {
    AffineEntry(Unit(), v, 0); AffineEntry(Unit(), v, 1); AffineEntry(Unit(), v, 2);
    Ext3(Applied3(Unit(), v), v);
  }

  /** The rotation part of `decompose()`: the upper 3×3 block with row r divided by
      `scale[r]`, the rest of the identity kept. */
  function DecomposeRotation(m: Mat, scale: Vec3): (rot: Mat)
    requires scale[0] != 0.0 && scale[1] != 0.0 && scale[2] != 0.0
    ensures forall r, c | 0 <= r < 3 && 0 <= c < 3 :: rot[r][c] * scale[r] == m[r][c]
    ensures KeepsAxis(rot, 3)
  {
    seq(4, r requires 0 <= r < 4 =>
      seq(4, c requires 0 <= c < 4 => if r < 3 && c < 3 then m[r][c] / scale[r] else if r == c then 1.0 else 0.0))
  }

  /** `decompose()` translation: the fourth column of rows 0–2. */
  function Translation(m: Mat): (t: Vec3)
    ensures forall r | 0 <= r < 3 :: t[r] == m[r][3]
  {
    [m[0][3], m[1][3], m[2][3]]
  }

  /** The row-major list `data.flat()` that `setUniform` uploads. */
  function Flat(m: Mat): (f: seq<real>)
    ensures |f| == 16
    ensures forall i, j | 0 <= i < 4 && 0 <= j < 4 :: f[4 * i + j] == m[i][j]
  {
    m[0] + m[1] + m[2] + m[3]
  }

  /** How GLSL reads a `mat4` uniform from a flat list uploaded with transpose = false:
      column-major, entry (row r, column c) is element 4c + r (section 2.10.4 of the
      OpenGL ES 2.0 specification). */
  function ColumnMajor(f: seq<real>): (m: Mat)
    requires |f| == 16
  {
    seq(4, r requires 0 <= r < 4 => seq(4, c requires 0 <= c < 4 => f[4 * c + r]))
  }

  /** The shader therefore sees the transpose of the `Matrix4` it was given. */
  lemma {:induction false} UploadTransposes(m: Mat)
    ensures ColumnMajor(Flat(m)) == Transpose(m)
  {
    var l := ColumnMajor(Flat(m));
    forall i, j | 0 <= i < 4 && 0 <= j < 4 ensures l[i][j] == Transpose(m)[i][j] {
      assert l[i][j] == Flat(m)[4 * j + i];
    }
    Ext(l, Transpose(m));
  }

  /** A `Matrix4`: `data` is the 4×4 grid the source keeps as four row arrays. */
  class Matrix4 {
    const data: array2<real>

    ghost predicate Valid()
    {
      data.Length0 == 4 && data.Length1 == 4
    }

    ghost function Value(): (m: Mat)
      reads data
      requires Valid()
      ensures forall i, j | 0 <= i < 4 && 0 <= j < 4 :: m[i][j] == data[i, j]
    {
      var d := data;
      seq(4, i requires 0 <= i < 4 reads d => seq(4, j requires 0 <= j < 4 reads d => d[i, j]))
    }

    /** `new Matrix4(rows)` with the rows given as a `Mat`. */
    constructor (m: Mat)
      ensures Valid() && fresh(data) && Value() == m
    {
      data := new real[4, 4]((i, j) requires 0 <= i < 4 && 0 <= j < 4 => m[i][j]);
      new;
      Ext(Value(), m);
    }

    static method MakeZero() returns (r: Matrix4)
      ensures fresh(r) && fresh(r.data) && r.Valid() && r.Value() == Zero()
    {
      r := new Matrix4(Zero());
    }

    static method MakeUnit() returns (r: Matrix4)
      ensures fresh(r) && fresh(r.data) && r.Valid() && r.Value() == Unit()
    {
      r := new Matrix4(Unit());
    }

    static method MakeRotX(sin: real, cos: real) returns (r: Matrix4)
      ensures fresh(r) && fresh(r.data) && r.Valid() && r.Value() == RotX(sin, cos)
    {
      r := new Matrix4(RotX(sin, cos));
    }

    static method MakeRotY(sin: real, cos: real) returns (r: Matrix4)
      ensures fresh(r) && fresh(r.data) && r.Valid() && r.Value() == RotY(sin, cos)
    {
      r := new Matrix4(RotY(sin, cos));
    }

    static method MakeRotZ(sin: real, cos: real) returns (r: Matrix4)
      ensures fresh(r) && fresh(r.data) && r.Valid() && r.Value() == RotZ(sin, cos)
    {
      r := new Matrix4(RotZ(sin, cos));
    }

    /** Divides row 0 in place and returns the receiver. */
    method Aspect(aspect: real) returns (self: Matrix4)
      requires Valid() && aspect != 0.0
      modifies data
      ensures self == this && Valid()
      ensures Value() == Aspected(old(Value()), aspect)
    {
      ghost var m := Value();
      var i := 0;
      while i < 4
        invariant 0 <= i <= 4
        invariant forall j | 0 <= j < 4 :: data[0, j] == if j < i then m[0][j] / aspect else m[0][j]
        invariant forall r, j | 1 <= r < 4 && 0 <= j < 4 :: data[r, j] == m[r][j]
      {
        data[0, i] := data[0, i] / aspect;
        i := i + 1;
      }
      Ext(Value(), Aspected(m, aspect));
      self := this;
    }

    /** Multiplies rows 0–2 in place and returns the receiver. */
    method Scale(scale: real) returns (self: Matrix4)
      requires Valid()
      modifies data
      ensures self == this && Valid()
      ensures Value() == Scaled(old(Value()), scale)
    {
      ghost var m := Value();
      var i := 0;
      while i < 3
        invariant 0 <= i <= 3
        invariant forall r, j | 0 <= r < 4 && 0 <= j < 4 ::
          data[r, j] == if r < i then scale * m[r][j] else m[r][j]
      {
        var j := 0;
        while j < 4
          invariant 0 <= j <= 4
          invariant forall r, c | 0 <= r < 4 && 0 <= c < 4 ::
            data[r, c] == if r < i || (r == i && c < j) then scale * m[r][c] else m[r][c]
        {
          data[i, j] := data[i, j] * scale;
          j := j + 1;
        }
        i := i + 1;
      }
      Ext(Value(), Scaled(m, scale));
      self := this;
    }

    /** Entry (i, j) of this·other: row i of this against column j of other. */
    method Entry(other: Matrix4, i: nat, j: nat) returns (sum: real)
      requires Valid() && other.Valid() && i < 4 && j < 4
      ensures sum == RowCol(Value(), other.Value(), i, j, 4)
    {
      ghost var a, b := Value(), other.Value();
      sum := 0.0;
      var k := 0;
      while k < 4
        invariant 0 <= k <= 4
        invariant sum == RowCol(a, b, i, j, k)
      {
        sum := sum + data[i, k] * other.data[k, j];
        k := k + 1;
      }
    }

    /** Row `i` of this·other into `c`, which is neither operand's storage; the other
        rows of `c` keep their values. */
    method MulRow(other: Matrix4, c: array2<real>, i: nat)
      requires Valid() && other.Valid() && c.Length0 == 4 && c.Length1 == 4 && i < 4
      requires c != data && c != other.data
      modifies c
      ensures forall r, s | 0 <= r < 4 && 0 <= s < 4 ::
        c[r, s] == if r == i then RowCol(Value(), other.Value(), i, s, 4) else old(c[r, s])
    {
      var j := 0;
      while j < 4
        invariant 0 <= j <= 4
        invariant forall r, s | 0 <= r < 4 && 0 <= s < 4 ::
          c[r, s] == if r == i && s < j then RowCol(Value(), other.Value(), i, s, 4) else old(c[r, s])
      {
        c[i, j] := Entry(other, i, j);
        j := j + 1;
      }
    }

    /** A fresh matrix holding this·other; neither operand changes. */
    method Mul(other: Matrix4) returns (out: Matrix4)
      requires Valid() && other.Valid()
      ensures fresh(out) && fresh(out.data) && out.Valid()
      ensures out.Value() == Product(Value(), other.Value())
    {
      ghost var a, b := Value(), other.Value();
      out := MakeZero();
      var c := out.data;
      var i := 0;
      while i < 4
        invariant 0 <= i <= 4
        invariant out.data == c && out.Valid() && fresh(c)
        invariant forall r, s | 0 <= r < i && 0 <= s < 4 :: c[r, s] == RowCol(a, b, r, s, 4)
      {
        MulRow(other, c, i);
        i := i + 1;
      }
      Ext(out.Value(), Product(a, b));
    }

    /** The affine image of `vec`, in a fresh list. */
    method Apply3(vec: Vec3) returns (out: Vec3)
      requires Valid()
      ensures out == Applied3(Value(), vec)
    {
      ghost var m := Value();
      out := [0.0, 0.0, 0.0];
      var i := 0;
      while i < 3
        invariant 0 <= i <= 3
        invariant forall r | 0 <= r < 3 :: out[r] == if r < i then Applied3(m, vec)[r] else 0.0
      {
        var j := 0;
        while j < 3
          invariant 0 <= j <= 3
          invariant out[i] == RowDot(m, vec, i, j)
          invariant forall r | 0 <= r < 3 && r != i :: out[r] == if r < i then Applied3(m, vec)[r] else 0.0
        {
          out := out[i := out[i] + vec[j] * data[i, j]];
          j := j + 1;
        }
        out := out[i := out[i] + data[i, 3]];
        i := i + 1;
      }
    }

    /** Columns 0–2 of row `row` of `rot`, another matrix's storage, become this matrix's
        entries divided by `scale[row]`; the rest of `rot` keeps its values. */
    method DivideRow(rot: array2<real>, row: nat, scale: Vec3)
      requires Valid() && rot.Length0 == 4 && rot.Length1 == 4 && rot != data && row < 3 && scale[row] != 0.0
      modifies rot
      ensures forall r, c | 0 <= r < 4 && 0 <= c < 4 ::
        rot[r, c] == if r == row && c < 3 then data[r, c] / scale[r] else old(rot[r, c])
    {
      var col := 0;
      while col < 3
        invariant 0 <= col <= 3
        invariant forall r, c | 0 <= r < 4 && 0 <= c < 4 ::
          rot[r, c] == if r == row && c < col then data[r, c] / scale[r] else old(rot[r, c])
      {
        rot[row, col] := data[row, col] / scale[row];
        col := col + 1;
      }
    }

    /** `decompose()`, with the row lengths `scale` (a square root, foreign here) given. */
    method Decompose(scale: Vec3) returns (translation: Vec3, rotation: Matrix4)
      requires Valid() && scale[0] != 0.0 && scale[1] != 0.0 && scale[2] != 0.0
      ensures translation == Translation(Value())
      ensures fresh(rotation) && fresh(rotation.data) && rotation.Valid()
      ensures rotation.Value() == DecomposeRotation(Value(), scale)
    {
      ghost var m := Value();
      translation := [data[0, 3], data[1, 3], data[2, 3]];
      rotation := MakeUnit();
      var rot := rotation.data;
      var row := 0;
      while row < 3
        invariant 0 <= row <= 3
        invariant rotation.data == rot && rotation.Valid() && fresh(rot)
        invariant forall r, c | 0 <= r < 4 && 0 <= c < 4 ::
          rot[r, c] == if r < row && c < 3 then m[r][c] / scale[r] else Unit()[r][c]
      {
        DivideRow(rot, row, scale);
        row := row + 1;
      }
      Ext(rotation.Value(), DecomposeRotation(m, scale));
    }
  }
}
