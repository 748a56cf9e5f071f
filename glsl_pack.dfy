/** The base-256 value codec of the shaders (`floatPack` in src/shaders/glsl-pack.js and
    the `depthShader` of the prototype), over exact reals.

    The built-ins follow the OpenGL ES Shading Language 1.00, section 8.3
    (`floor`, `fract`, `mod`, `step`, `clamp`, `min`, `max`) and section 8.4 (`dot`).
    Vector operations are component-wise. */
module GlslPack {

  // ---------------------------------------------------------------------------
  // Built-in functions, section 8.3 and 8.4 of the GLSL ES 1.00 specification
  // ---------------------------------------------------------------------------

  function Floor(x: real): (r: real)
    ensures r <= x < r + 1.0
  {
    x.Floor as real
  }

  /** fract(x) = x − floor(x): the unique value in [0, 1) that differs from x by an integer. */
  function Fract(x: real): (f: real)
    ensures 0.0 <= f < 1.0
    ensures x - f == (x - f).Floor as real
  {
    x - Floor(x)
  }

  /** mod(x, y) = x − y·floor(x/y). */
  function Mod(x: real, y: real): real
    requires y != 0.0
  {
    x - y * Floor(x / y)
  }

  function Min(a: real, b: real): (r: real)
    ensures r <= a && r <= b && (r == a || r == b)
  {
    if b < a then b else a
  }

  function Max(a: real, b: real): (r: real)
    ensures r >= a && r >= b && (r == a || r == b)
  {
    if a < b then b else a
  }

  /** clamp(x, lo, hi) = min(max(x, lo), hi). */
  function Clamp(x: real, lo: real, hi: real): (r: real)
    requires lo <= hi
    ensures lo <= r <= hi
    ensures lo <= x <= hi ==> r == x
    ensures x < lo ==> r == lo
    ensures x > hi ==> r == hi
  {
    Min(Max(x, lo), hi)
  }

  /** step(edge, x) is 0 below the edge and 1 from it on. */
  function Step(edge: real, x: real): (r: real)
    ensures r == 0.0 || r == 1.0
    ensures r == 1.0 <==> x >= edge
  {
    if x < edge then 0.0 else 1.0
  }

  datatype Vec4 = Vec4(x: real, y: real, z: real, w: real)

  function Dot(a: Vec4, b: Vec4): real
  {
    a.x * b.x + a.y * b.y + a.z * b.z + a.w * b.w
  }

  function Splat(s: real): Vec4 { Vec4(s, s, s, s) }
  function Times(a: Vec4, b: Vec4): Vec4 { Vec4(a.x * b.x, a.y * b.y, a.z * b.z, a.w * b.w) }
  function Minus(a: Vec4, b: Vec4): Vec4 { Vec4(a.x - b.x, a.y - b.y, a.z - b.z, a.w - b.w) }
  function Over(a: Vec4, b: Vec4): Vec4
    requires b.x != 0.0 && b.y != 0.0 && b.z != 0.0 && b.w != 0.0
  {
    Vec4(a.x / b.x, a.y / b.y, a.z / b.z, a.w / b.w)
  }
  function FractV(a: Vec4): Vec4 { Vec4(Fract(a.x), Fract(a.y), Fract(a.z), Fract(a.w)) }
  function FloorV(a: Vec4): Vec4 { Vec4(Floor(a.x), Floor(a.y), Floor(a.z), Floor(a.w)) }
  function ModV(a: Vec4, y: real): Vec4
    requires y != 0.0
  {
    Vec4(Mod(a.x, y), Mod(a.y, y), Mod(a.z, y), Mod(a.w, y))
  }
  /** The swizzle `v.xxyz`. */
  function Xxyz(a: Vec4): Vec4 { Vec4(a.x, a.x, a.y, a.z) }

  // ---------------------------------------------------------------------------
  // The codec constants and functions
  // ---------------------------------------------------------------------------

  /** bitSh: the place values 256³, 256², 256, 1 of the four channels. */
  const BitSh: Vec4 := Vec4(16777216.0, 65536.0, 256.0, 1.0)
  /** bitMsk = vec4(0., vec3(1./256.)). */
  const BitMsk: Vec4 := Vec4(0.0, 1.0 / 256.0, 1.0 / 256.0, 1.0 / 256.0)
  /** bitShifts = vec4(1.) / bitSh. */
  const BitShifts: Vec4 := Over(Splat(1.0), BitSh)

  /** pack_f: `comp = fract(value * bitSh); comp -= comp.xxyz * bitMsk`. */
  function PackF(value: real): Vec4
  {
    var comp := FractV(Times(Splat(value), BitSh));
    Minus(comp, Times(Xxyz(comp), BitMsk))
  }

  /** unpack_f: `dot(color, bitShifts)`. */
  function UnpackF(color: Vec4): real
  {
    Dot(color, BitShifts)
  }

  /** pack_i: `floor(mod(vec4(value / bitSh), 256.0)) / 255.0`. */
  function PackI(value: real): Vec4
  {
    Over(FloorV(ModV(Over(Splat(value), BitSh), 256.0)), Splat(255.0))
  }

  /** unpack_i: `dot(color * 255.0, bitSh)`. */
  function UnpackI(color: Vec4): real
  {
    Dot(Times(color, Splat(255.0)), BitSh)
  }

  // ---------------------------------------------------------------------------
  // Float codec
  // ---------------------------------------------------------------------------

  /** The fractional part of 256^k·v, the raw channel k before the correction. */
  function Frac256(v: real, k: nat): (f: real)
    requires k < 4
    ensures 0.0 <= f < 1.0
  {
    if k == 0 then Fract(v)
    else if k == 1 then Fract(256.0 * v)
    else if k == 2 then Fract(65536.0 * v)
    else Fract(16777216.0 * v)
  }

  /** The correction `comp.xxyz * bitMsk` is read before `comp` is updated, so each of
      y, z, w loses 1/256 of the raw channel to its left, and x is the raw top channel. */
  lemma PackFChannels(v: real)
    ensures PackF(v) == Vec4(Frac256(v, 3),
                             Frac256(v, 2) - Frac256(v, 3) / 256.0,
                             Frac256(v, 1) - Frac256(v, 2) / 256.0,
                             Frac256(v, 0) - Frac256(v, 1) / 256.0)
  {
    var f0, f1, f2, f3 := Frac256(v, 0), Frac256(v, 1), Frac256(v, 2), Frac256(v, 3);
    assert Times(Splat(v), BitSh) == Vec4(16777216.0 * v, 65536.0 * v, 256.0 * v, v) by {
      assert v * 16777216.0 == 16777216.0 * v && v * 65536.0 == 65536.0 * v && v * 256.0 == 256.0 * v && v * 1.0 == v;
    }
    var comp := FractV(Times(Splat(v), BitSh));
    assert comp == Vec4(f3, f2, f1, f0);
    assert Times(Xxyz(comp), BitMsk) == Vec4(0.0, f3 / 256.0, f2 / 256.0, f1 / 256.0) by {
      assert f3 * 0.0 == 0.0;
      assert f3 * (1.0 / 256.0) == f3 / 256.0 && f2 * (1.0 / 256.0) == f2 / 256.0 && f1 * (1.0 / 256.0) == f1 / 256.0;
    }
  }

  /** The float codec telescopes: unpacking a packed value gives back its fractional
      part, so values in [0, 1) round-trip and others wrap. */
  lemma {:induction false} FloatRoundTrip(v: real)
    ensures UnpackF(PackF(v)) == Fract(v)
  {
    PackFChannels(v);
    Telescope(Frac256(v, 0), Frac256(v, 1), Frac256(v, 2), Frac256(v, 3));
  }

  /** unpack_f of the corrected channels: every correction cancels the next place value. */
  lemma Telescope(f0: real, f1: real, f2: real, f3: real)
    ensures UnpackF(Vec4(f3, f2 - f3 / 256.0, f1 - f2 / 256.0, f0 - f1 / 256.0)) == f0
  {
    assert BitShifts == Vec4(1.0 / 16777216.0, 1.0 / 65536.0, 1.0 / 256.0, 1.0);
  }

  lemma {:induction false} FloatRoundTripInUnitInterval(v: real)
    requires 0.0 <= v < 1.0
    ensures UnpackF(PackF(v)) == v
  {
    FloatRoundTrip(v);
    FractOfUnit(v);
  }

  lemma FractOfUnit(v: real)
    requires 0.0 <= v < 1.0
    ensures Fract(v) == v
  {
    assert v.Floor == 0;
  }

  /** Shifting by a whole number does not change the fractional part. */
  lemma FractShift(x: real, n: int)
    ensures Fract(x + n as real) == Fract(x)
  {
    assert (x + n as real).Floor == x.Floor + n;
  }

  /** fract(u) − fract(256u)/256 is floor(256·fract(u))/256. */
  lemma CorrectedChannel(u: real)
    ensures Fract(u) - Fract(256.0 * u) / 256.0 == Floor(256.0 * Fract(u)) / 256.0
  {
    var f := Fract(u);
    var n := u.Floor;
    assert 256.0 * u == 256.0 * f + (256 * n) as real;
    FractShift(256.0 * f, 256 * n);
  }

  /** A channel that holds d/256 for a whole number d in 0..255. */
  ghost predicate IsByteOver256(c: real)
  {
    exists d: int | 0 <= d < 256 :: c == Over256(d)
  }

  function Over256(d: int): real { d as real / 256.0 }
  function Over255(d: int): real { d as real / 255.0 }

  /** Channels y, z and w hold multiples of 1/256 below 1; channel x lies in [0, 1). */
  lemma {:induction false} PackFQuantised(v: real)
    ensures 0.0 <= PackF(v).x < 1.0
    ensures IsByteOver256(PackF(v).y) && IsByteOver256(PackF(v).z) && IsByteOver256(PackF(v).w)
  {
    PackFChannels(v);
    ByteChannel(65536.0 * v);
    assert 256.0 * (65536.0 * v) == 16777216.0 * v;
    ByteChannel(256.0 * v);
    assert 256.0 * (256.0 * v) == 65536.0 * v;
    ByteChannel(v);
  }

  lemma ByteChannel(u: real)
    ensures IsByteOver256(Fract(u) - Fract(256.0 * u) / 256.0)
  {
    CorrectedChannel(u);
    var d := (256.0 * Fract(u)).Floor;
    assert 0 <= d < 256;
    assert Fract(u) - Fract(256.0 * u) / 256.0 == Over256(d);
  }

  /** The prototype depth pass writes `pack(vPos.z)`. */
  function DepthFragment(z: real): Vec4
  {
    PackF(z)
  }

  /** Depths in [0, 1) decode to themselves, but the negative half of the unit sphere
      [-1, 0) decodes to z + 1: the codec cannot carry a sign. */
  lemma {:induction false} DepthDecode(z: real)
    requires -1.0 <= z < 1.0
    ensures 0.0 <= z ==> UnpackF(DepthFragment(z)) == z
    ensures z < 0.0 ==> UnpackF(DepthFragment(z)) == z + 1.0
  {
    FloatRoundTrip(z);
    if z < 0.0 {
      FractShift(z, 1);
      FractOfUnit(z + 1.0);
    } else {
      FractOfUnit(z);
    }
  }

  // ---------------------------------------------------------------------------
  // Integer codec
  // ---------------------------------------------------------------------------

  /** Base-256 digit k of n (k = 0 least significant); Euclidean `/` and `%` here agree
      with floor division for the positive divisors used. */
  function Digit(n: int, k: nat): (d: int)
    requires k < 4
    ensures 0 <= d < 256
  {
    if k == 0 then n % 256
    else if k == 1 then (n / 256) % 256
    else if k == 2 then (n / 65536) % 256
    else (n / 16777216) % 256
  }

  /** floor(q + f) == q for a whole q and f in [0, 1). */
  lemma FloorOfSplit(q: int, f: real)
    requires 0.0 <= f < 1.0
    ensures Floor(q as real + f) == q as real
  {
    assert (q as real + f).Floor == q;
  }

  /** floor(n / m) over the reals is integer division. */
  lemma FloorOfQuotient(n: int, m: int)
    requires m > 0
    ensures Floor(n as real / m as real) == (n / m) as real
  {
    var q, r := n / m, n % m;
    var mr := m as real;
    assert n == q * m + r;
    assert (n as real) == (q as real) * mr + r as real;
    assert (n as real) / mr == (q as real) + (r as real) / mr;
    assert (r as real) / mr < 1.0 by {
      assert r as real < mr;
    }
    FloorOfSplit(q, (r as real) / mr);
  }

  /** floor(n / 256^k) over the reals is integer division, for each place value used. */
  lemma FloorOfQuotients(n: int)
    ensures Floor(n as real / 1.0) == (n / 1) as real
    ensures Floor(n as real / 256.0) == (n / 256) as real
    ensures Floor(n as real / 65536.0) == (n / 65536) as real
    ensures Floor(n as real / 16777216.0) == (n / 16777216) as real
    ensures Floor(n as real / 4294967296.0) == (n / 4294967296) as real
  {
    FloorOfQuotient(n, 1);
    FloorOfQuotient(n, 256);
    FloorOfQuotient(n, 65536);
    FloorOfQuotient(n, 16777216);
    FloorOfQuotient(n, 4294967296);
  }

  /** Subtracting a whole number commutes with floor. */
  lemma FloorShift(x: real, k: int)
    ensures Floor(x - k as real) == Floor(x) - k as real
  {
    assert (x - k as real).Floor == x.Floor - k;
  }

  /** floor(mod(n / m, 256)) == (n / m) % 256 when floor(n/m) and floor(n/(256m)) are the
      integer quotients a and a / 256. */
  lemma FloorModOfQuotient(x: real, a: int)
    requires Floor(x) == a as real && Floor(x / 256.0) == (a / 256) as real
    ensures Floor(Mod(x, 256.0)) == (a % 256) as real
  {
    FloorShift(x, 256 * (a / 256));
  }

  /** Channel c of pack_i(n) is the base-256 digit of n at place 256^(3−c), over 255:
      the most significant digit sits in x. */
  lemma {:induction false} PackIDigits(n: int)
    ensures PackI(n as real) == Vec4(Over255(Digit(n, 3)), Over255(Digit(n, 2)),
                                     Over255(Digit(n, 1)), Over255(Digit(n, 0)))
  {
    var x0, x1, x2, x3 := n as real / 1.0, n as real / 256.0, n as real / 65536.0, n as real / 16777216.0;
    assert Over(Splat(n as real), BitSh) == Vec4(x3, x2, x1, x0);
    PlaceDigit(n, 1, x0);
    PlaceDigit(n, 256, x1);
    PlaceDigit(n, 65536, x2);
    PlaceDigit(n, 16777216, x3);
    DivDivs(n);
  }

  /** floor(mod(n / c, 256)) is the digit (n / c) % 256. */
  lemma PlaceDigit(n: int, c: int, x: real)
    requires c > 0 && x == n as real / c as real
    ensures Floor(Mod(x, 256.0)) == ((n / c) % 256) as real
  {
    FloorOfQuotient(n, c);
    FloorOfQuotient(n, c * 256);
    assert x / 256.0 == n as real / (c * 256) as real;
    DivDiv(n, c);
    FloorModOfQuotient(x, n / c);
  }

  /** Every pack_i channel is k/255 for a whole k in 0..255, exactly representable in an
      8-bit normalised target. */
  lemma {:induction false} PackIQuantised(n: int)
    ensures var c := PackI(n as real);
      forall ch | ch in [c.x, c.y, c.z, c.w] :: exists k: int | 0 <= k < 256 :: ch == Over255(k)
  {
    PackIDigits(n);
  }

  /** Dividing by c and then by 256 is dividing by 256c. */
  lemma DivDiv(n: int, c: int)
    requires c > 0
    ensures n / (c * 256) == (n / c) / 256
  {
    var a := n / c;
    var b := a / 256;
    var r0, r1 := n % c, a % 256;
    assert n == c * a + r0;
    assert c * a == c * (256 * b + r1);
    assert n == (c * 256) * b + (c * r1 + r0);
    assert c * r1 <= c * 255 by { MulMono(c, r1, 255); }
    UniqueDivision(n, c * 256, b, c * r1 + r0);
  }

  lemma MulMono(c: int, a: int, b: int)
    requires c > 0 && a <= b
    ensures c * a <= c * b
  {
    assert c * b - c * a == c * (b - a);
  }

  lemma UniqueDivision(n: int, c: int, q: int, r: int)
    requires c > 0 && n == c * q + r && 0 <= r < c
    ensures n / c == q && n % c == r
  {
    var q', r' := n / c, n % c;
    assert c * q + r == c * q' + r';
    if q' < q {
      MulMono(c, q' + 1, q);
    } else if q < q' {
      MulMono(c, q + 1, q');
    }
  }

  lemma DivDivs(n: int)
    ensures (n / 1) / 256 == n / 256 && (n / 256) / 256 == n / 65536
    ensures (n / 65536) / 256 == n / 16777216 && (n / 16777216) / 256 == n / 4294967296
  {
    DivDiv(n, 1);
    DivDiv(n, 256);
    DivDiv(n, 65536);
    DivDiv(n, 16777216);
  }

  /** Four digits rebuild n modulo 2^32. */
  lemma DigitsRebuild(n: int)
    ensures Digit(n, 3) * 16777216 + Digit(n, 2) * 65536 + Digit(n, 1) * 256 + Digit(n, 0)
      == n % 4294967296
  {
    DivDiv(n, 256);
    DivDiv(n, 65536);
    DivDiv(n, 16777216);
    var a1, a2, a3, a4 := n / 256, n / 65536, n / 16777216, n / 4294967296;
    var d0, d1, d2, d3 := n % 256, a1 % 256, a2 % 256, a3 % 256;
    assert n == 256 * a1 + d0;
    assert a1 == 256 * a2 + d1;
    assert a2 == 256 * a3 + d2;
    assert a3 == 256 * a4 + d3;
    var rest := d3 * 16777216 + d2 * 65536 + d1 * 256 + d0;
    assert n == 4294967296 * a4 + rest;
    assert 0 <= rest < 4294967296;
    UniqueDivision(n, 4294967296, a4, rest);
  }

  /** unpack_i(pack_i(n)) == n mod 2^32 for every whole n: exact below 2^32, and the top
      digit wraps above. */
  lemma {:induction false} IntRoundTrip(n: int)
    ensures UnpackI(PackI(n as real)) == (n % 4294967296) as real
  {
    PackIDigits(n);
    DigitsRebuild(n);
  }

  lemma {:induction false} IntRoundTripBelow32Bits(n: int)
    requires 0 <= n < 4294967296
    ensures UnpackI(PackI(n as real)) == n as real
  {
    IntRoundTrip(n);
    UniqueDivision(n, 4294967296, 0, n);
  }
}
