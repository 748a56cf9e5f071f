/** The shaders of the first pass (src/shaders/initial.js): the shared vertex shader that
    places a unit-sphere vertex for one instance, the colour fragment shader and the
    layers fragment shader that writes depth, atom index and group. */
module InitialShader {
  import opened Matrix
  import opened GlslPack

  /** The per-vertex and per-instance attributes. `aIndex` and `aGroup` arrive as two
      unsigned shorts each (low half first). */
  datatype Attributes = Attributes(
    aPos: Vec3, aLocation: Vec3, aColor: Vec3, aRadius: real,
    aIndex: (real, real), aGroup: (real, real))

  /** The uniforms: a time and the 16 floats of `uViewMatrix` as uploaded. */
  datatype Uniforms = Uniforms(uTime: real, uViewMatrix: seq<real>)

  datatype Varyings = Varyings(vPos: Vec3, vColor: Vec3, vIndex: real, vGroup: real)

  /** `dot(h, vec2(1.0, 65536.0))`: a value rebuilt from its low and high 16-bit halves. */
  function FromHalves(h: (real, real)): real
  {
    h.0 * 1.0 + h.1 * 65536.0
  }

  /** `aLocation * vec3(1.0, 1.0, -1.0)`. */
  function Mirror(loc: Vec3): (r: Vec3)
    ensures r[0] == loc[0] && r[1] == loc[1] && r[2] == -loc[2]
  {
    [loc[0] * 1.0, loc[1] * 1.0, loc[2] * -1.0]
  }

  /** `aPos * aRadius + loc`: the unit mesh scaled by the radius, then moved to `loc`. */
  function Placed(a: Attributes): Vec3
  {
    var loc := Mirror(a.aLocation);
    [a.aPos[0] * a.aRadius + loc[0], a.aPos[1] * a.aRadius + loc[1], a.aPos[2] * a.aRadius + loc[2]]
  }

  /** A GLSL `mat4 * vec4` where `cols` is the matrix as GLSL indexes it, `cols[c][r]`. */
  function MatVec(f: seq<real>, v: Vec4): Vec4
    requires |f| == 16
  {
    var m := ColumnMajor(f);
    Vec4(m[0][0] * v.x + m[0][1] * v.y + m[0][2] * v.z + m[0][3] * v.w,
         m[1][0] * v.x + m[1][1] * v.y + m[1][2] * v.z + m[1][3] * v.w,
         m[2][0] * v.x + m[2][1] * v.y + m[2][2] * v.z + m[2][3] * v.w,
         m[3][0] * v.x + m[3][1] * v.y + m[3][2] * v.z + m[3][3] * v.w)
  }

  /** The shared vertex shader. `sin(uTime·rate)` and `cos(uTime·rate)` are computed in the
      source but never read, so they are not part of the model. */
  function SharedVertex(u: Uniforms, a: Attributes): (v: Varyings)
    requires |u.uViewMatrix| == 16
    ensures v.vColor == a.aColor
  {
    var p := Placed(a);
    var pos := MatVec(u.uViewMatrix, Vec4(p[0], p[1], p[2], 1.0));
    Varyings([pos.x, pos.y, pos.z], a.aColor, FromHalves(a.aIndex), FromHalves(a.aGroup))
  }

  /** With the row-major `data.flat()` upload, the vertex lands at the affine image of the
      placed point under the TRANSPOSE of the Matrix4. */
  lemma {:induction false} PositionUsesTranspose(m: Mat, time: real, a: Attributes)
    ensures SharedVertex(Uniforms(time, Flat(m)), a).vPos == Applied3(Transpose(m), Placed(a))
  {
    UploadTransposes(m);
    var t := Transpose(m);
    var p := Placed(a);
    AffineEntry(t, p, 0);
    AffineEntry(t, p, 1);
    AffineEntry(t, p, 2);
    Ext3(SharedVertex(Uniforms(time, Flat(m)), a).vPos, Applied3(t, p));
  }

  /** With the identity view matrix the vertex is the radius-scaled mesh point moved to the
      z-mirrored instance location. */
  lemma {:induction false} PlacementUnderIdentity(time: real, a: Attributes)
    ensures var v := SharedVertex(Uniforms(time, Flat(Unit())), a).vPos;
      v[0] == a.aPos[0] * a.aRadius + a.aLocation[0] &&
      v[1] == a.aPos[1] * a.aRadius + a.aLocation[1] &&
      v[2] == a.aPos[2] * a.aRadius - a.aLocation[2]
  {
    PositionUsesTranspose(Unit(), time, a);
    TransposeUnit();
    AffineUnit(Placed(a));
  }

  /** The vertex shader's outputs do not depend on the time uniform. */
  lemma IgnoresTime(t1: real, t2: real, f: seq<real>, a: Attributes)
    requires |f| == 16
    ensures SharedVertex(Uniforms(t1, f), a) == SharedVertex(Uniforms(t2, f), a)
  {
  }

  // ---------------------------------------------------------------------------
  // Rebuilding a uint32 from two unsigned shorts
  // ---------------------------------------------------------------------------

  /** The four bytes of a uint32 written through a `Uint32Array` on a little-endian host. */
  function LittleEndianBytes(u: int): (b: seq<int>)
    requires 0 <= u < 4294967296
    ensures |b| == 4 && forall i | 0 <= i < 4 :: 0 <= b[i] < 256
  {
    [u % 256, (u / 256) % 256, (u / 65536) % 256, u / 16777216]
  }

  /** An UNSIGNED_SHORT attribute component read from two bytes, little-endian. */
  function UnsignedShort(lo: int, hi: int): (s: int)
    requires 0 <= lo < 256 && 0 <= hi < 256
    ensures 0 <= s < 65536
  {
    lo + 256 * hi
  }

  /** The two shorts the attribute reads from the four bytes of one 4-byte slot. */
  function Halves(b: seq<int>): (h: (real, real))
    requires |b| == 4 && forall i | 0 <= i < 4 :: 0 <= b[i] < 256
  {
    (UnsignedShort(b[0], b[1]) as real, UnsignedShort(b[2], b[3]) as real)
  }

  /** A uint32 written into a slot and read back as two shorts is rebuilt exactly. */
  lemma {:induction false} HalvesRebuild(u: int)
    requires 0 <= u < 4294967296
    ensures FromHalves(Halves(LittleEndianBytes(u))) == u as real
  {
    var b := LittleEndianBytes(u);
    var lo, hi := UnsignedShort(b[0], b[1]), UnsignedShort(b[2], b[3]);
    assert lo == u % 65536;
    assert hi == u / 65536;
  }

  // ---------------------------------------------------------------------------
  // Fragment shaders
  // ---------------------------------------------------------------------------

  /** `colorShader`: the colour with alpha 1. */
  function ColorFragment(v: Varyings): (c: Vec4)
    ensures c.w == 1.0
    ensures [c.x, c.y, c.z] == v.vColor
  {
    Vec4(v.vColor[0], v.vColor[1], v.vColor[2], 1.0)
  }

  /** `layersShader`: ((1 − z)/2, index, group, 1). */
  function LayersFragment(v: Varyings): Vec4
  {
    Vec4((1.0 - v.vPos[2]) / 2.0, v.vIndex, v.vGroup, 1.0)
  }

  /** The layers depth channel maps z in [−1, 1] onto [0, 1], strictly decreasing, and
      carries index and group unchanged. */
  lemma LayersDepthOrder(v1: Varyings, v2: Varyings)
    ensures v1.vPos[2] < v2.vPos[2] ==> LayersFragment(v1).x > LayersFragment(v2).x
    ensures -1.0 <= v1.vPos[2] <= 1.0 ==> 0.0 <= LayersFragment(v1).x <= 1.0
    ensures LayersFragment(v1).y == v1.vIndex && LayersFragment(v1).z == v1.vGroup
    ensures LayersFragment(v1).w == 1.0
  {
  }
}
