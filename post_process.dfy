/** The compositing fragment shader of src/shaders/post-process.js: ambient occlusion from
    a depth neighbourhood, a group-boundary outline, a depth-discontinuity outline, and
    the final shading of one pixel.

    The layers texture is a total function from integer pixel offsets (relative to the
    shaded pixel) to the sample stored there; clamping to the edge and the conversion
    `uvStep = 1/uRes` from pixels to texture coordinates happen inside that function.
    `length(delta)` needs a square root and is a parameter. */
module PostProcess {
  import opened GlslPack

  /** One texel of the layers target: (depth, index, group). */
  datatype Sample = Sample(depth: real, index: real, group: real)

  type Texture = (int, int) -> Sample

  function Abs(x: real): (r: real)
    ensures r >= 0.0 && (r == x || r == -x)
  {
    if x < 0.0 then -x else x
  }

  // ---------------------------------------------------------------------------
  // ssao
  // ---------------------------------------------------------------------------

  const RCone: real := 1.0 / 80.0

  /** One term of the occlusion sum: the offset lies inside the radius-50 disc and the
      sample there is nearer the far plane than the centre by at least the cone margin. */
  function Vote(tex: Texture, len: (int, int) -> real, z: real, i: int, j: int): (v: real)
    ensures v == 0.0 || v == 1.0
    ensures v == 1.0 <==> len(i, j) <= 50.0 && tex(i, j).depth - RCone - len(i, j) / 400.0 >= z
  {
    var dr := len(i, j);
    var sz := tex(i, j).depth;
    Step(dr, 50.0) * Step(z, sz - RCone - dr / 400.0)
  }

  /** Votes of the first n columns j = −50, −45, … of row i. */
  function RowVotes(tex: Texture, len: (int, int) -> real, z: real, i: int, n: nat): (s: real)
    ensures 0.0 <= s <= n as real
  {
    if n == 0 then 0.0 else RowVotes(tex, len, z, i, n - 1) + Vote(tex, len, z, i, -50 + 5 * (n - 1))
  }

  /** Votes of the first n rows i = −50, −45, … of the 21×21 grid. */
  function GridVotes(tex: Texture, len: (int, int) -> real, z: real, n: nat): (s: real)
    ensures 0.0 <= s <= 21.0 * n as real
  {
    if n == 0 then 0.0 else GridVotes(tex, len, z, n - 1) + RowVotes(tex, len, z, -50 + 5 * (n - 1), 21)
  }

  /** The occlusion of the centre pixel: nothing for background, else 0.002 per vote. */
  function SsaoOf(tex: Texture, len: (int, int) -> real): real
  {
    var z := tex(0, 0).depth;
    if z <= 0.0 then 0.0 else GridVotes(tex, len, z, 21) * 0.002
  }

  /** `ssao(p, uvStep)`: the two nested loops over the grid of offsets in steps of 5. */
  method Ssao(tex: Texture, len: (int, int) -> real) returns (ao: real)
    ensures ao == SsaoOf(tex, len)
  {
    var z := tex(0, 0).depth;
    if z <= 0.0 {
      return 0.0;
    }
    var total := 0.0;
    var i := -50;
    ghost var rows: nat := 0;
    while i <= 50
      invariant i == -50 + 5 * rows && rows <= 21
      invariant total == GridVotes(tex, len, z, rows)
    {
      var j := -50;
      ghost var cols: nat := 0;
      while j <= 50
        invariant j == -50 + 5 * cols && cols <= 21
        invariant total == GridVotes(tex, len, z, rows) + RowVotes(tex, len, z, i, cols)
      {
        var dr := len(i, j);
        var sz := tex(i, j).depth;
        total := total + Step(dr, 50.0) * Step(z, sz - RCone - dr / 400.0);
        j := j + 5;
        cols := cols + 1;
      }
      i := i + 5;
      rows := rows + 1;
    }
    ao := total * 0.002;
  }

  /** The occlusion lies in [0, 0.882], 0.882 being 441 votes. */
  lemma {:induction false} SsaoBounds(tex: Texture, len: (int, int) -> real)
    ensures 0.0 <= SsaoOf(tex, len) <= 0.882
  {
  }

  /** Background pixels are not occluded. */
  lemma {:induction false} SsaoBackground(tex: Texture, len: (int, int) -> real)
    requires tex(0, 0).depth <= 0.0
    ensures SsaoOf(tex, len) == 0.0
  {
  }

  /** A flat depth field gives no occlusion: a sample at the centre's own depth never
      clears the cone margin. */
  lemma {:induction false} SsaoFlat(tex: Texture, len: (int, int) -> real, z: real)
    requires forall i, j :: tex(i, j).depth == z
    requires forall i, j :: len(i, j) >= 0.0
    ensures SsaoOf(tex, len) == 0.0
  {
    if z > 0.0 {
      FlatGrid(tex, len, z, 21);
    }
  }

  lemma {:induction false} FlatRow(tex: Texture, len: (int, int) -> real, z: real, i: int, n: nat)
    requires forall i, j :: tex(i, j).depth == z
    requires forall i, j :: len(i, j) >= 0.0
    ensures RowVotes(tex, len, z, i, n) == 0.0
  {
    if n > 0 {
      FlatRow(tex, len, z, i, n - 1);
      var j := -50 + 5 * (n - 1);
      assert tex(i, j).depth == z && len(i, j) >= 0.0;
    }
  }

  lemma {:induction false} FlatGrid(tex: Texture, len: (int, int) -> real, z: real, n: nat)
    requires forall i, j :: tex(i, j).depth == z
    requires forall i, j :: len(i, j) >= 0.0
    ensures GridVotes(tex, len, z, n) == 0.0
  {
    if n > 0 {
      FlatGrid(tex, len, z, n - 1);
      FlatRow(tex, len, z, -50 + 5 * (n - 1), 21);
    }
  }

  // ---------------------------------------------------------------------------
  // subunit_outline
  // ---------------------------------------------------------------------------

  const RLow: real := 3.0
  const RHigh: real := 10.0

  function Differs(tex: Texture, group: real, dx: int, dy: int): (d: real)
    ensures d == 0.0 || d == 1.0
    ensures d == 1.0 <==> tex(dx, dy).group != group
  {
    if group != tex(dx, dy).group then 1.0 else 0.0
  }

  /** Group changes among the first n offsets dx = −2, −1, … of row dy. */
  function RowChanges(tex: Texture, group: real, dy: int, n: nat): (s: real)
    ensures 0.0 <= s <= n as real
  {
    if n == 0 then 0.0 else RowChanges(tex, group, dy, n - 1) + Differs(tex, group, -2 + (n - 1), dy)
  }

  /** Group changes among the first n rows dy = −2, −1, … of the 5×5 window. */
  function WindowChanges(tex: Texture, group: real, n: nat): (s: real)
    ensures 0.0 <= s <= 5.0 * n as real
  {
    if n == 0 then 0.0 else WindowChanges(tex, group, n - 1) + RowChanges(tex, group, -2 + (n - 1), 5)
  }

  function SubunitOutlineOf(tex: Texture): real
  {
    (WindowChanges(tex, tex(0, 0).group, 5) - RLow) / (RHigh - RLow)
  }

  /** `subunit_outline(p, uvStep)`: counts the window's texels in another group. */
  method SubunitOutline(tex: Texture) returns (o: real)
    ensures o == SubunitOutlineOf(tex)
  {
    var r := 0.0;
    var group := tex(0, 0).group;
    var dy := -2;
    while dy <= 2
      invariant -2 <= dy <= 3
      invariant r == WindowChanges(tex, group, dy + 2)
    {
      var dx := -2;
      while dx <= 2
        invariant -2 <= dx <= 3
        invariant r == WindowChanges(tex, group, dy + 2) + RowChanges(tex, group, dy, dx + 2)
      {
        var sgroup := tex(dx, dy).group;
        if group != sgroup {
          r := r + 1.0;
        }
        dx := dx + 1;
      }
      dy := dy + 1;
    }
    o := (r - RLow) / (RHigh - RLow);
  }

  /** The centre is always in its own group, so at most 24 texels differ and the
      unclamped outline lies in [−3/7, 3]. */
  lemma {:induction false} SubunitOutlineBounds(tex: Texture)
    ensures -3.0 / 7.0 <= SubunitOutlineOf(tex) <= 3.0
  {
    var g := tex(0, 0).group;
    assert RowChanges(tex, g, 0, 3) <= 2.0;
    assert RowChanges(tex, g, 0, 5) <= 4.0;
    assert WindowChanges(tex, g, 3) == WindowChanges(tex, g, 2) + RowChanges(tex, g, 0, 5);
    assert WindowChanges(tex, g, 4) == WindowChanges(tex, g, 3) + RowChanges(tex, g, 1, 5);
    assert WindowChanges(tex, g, 5) == WindowChanges(tex, g, 4) + RowChanges(tex, g, 2, 5);
  }

  lemma {:induction false} SingleGroupRow(tex: Texture, g: real, dy: int, n: nat)
    requires forall dx, dy :: tex(dx, dy).group == g
    ensures RowChanges(tex, g, dy, n) == 0.0
  {
    if n > 0 {
      SingleGroupRow(tex, g, dy, n - 1);
      assert tex(-2 + (n - 1), dy).group == g;
    }
  }

  lemma {:induction false} SingleGroupWindow(tex: Texture, g: real, n: nat)
    requires forall dx, dy :: tex(dx, dy).group == g
    ensures WindowChanges(tex, g, n) == 0.0
  {
    if n > 0 {
      SingleGroupWindow(tex, g, n - 1);
      SingleGroupRow(tex, g, -2 + (n - 1), 5);
    }
  }

  // ---------------------------------------------------------------------------
  // subunit_second_outline
  // ---------------------------------------------------------------------------

  const LLow: real := 3.0
  const LHigh: real := 10.0
  const LDiffMin: real := 0.0
  const LDiffMax: real := 5.0

  /** The four corners of the 5×5 window are exactly the offsets with i²j² = 16. */
  lemma CornersSkipped(i: int, j: int)
    requires -2 <= i <= 2 && -2 <= j <= 2
    ensures i * i * j * j == 16 <==> (i == 2 || i == -2) && (j == 2 || j == -2)
  {
    if i == -2 || i == 2 {
      assert i * i * j * j == 4 * (j * j);
    } else if i == -1 || i == 1 {
      assert i * i * j * j == j * j;
    } else {
      assert i * i * j * j == 0;
    }
  }

  /** The contribution of the texel at (x, y) = (j, i): none at a corner or where the depth
      is unchanged, else min(1, 80·|sz − z| / 5). */
  function Discontinuity(tex: Texture, z: real, j: int, i: int): (c: real)
    ensures 0.0 <= c <= 1.0
    ensures tex(j, i).depth == z ==> c == 0.0
  {
    if i * i * j * j == 16 then 0.0
    else
      var rd := Abs(tex(j, i).depth - z) * 80.0;
      if rd <= LDiffMin then 0.0 else Min(1.0, (rd - LDiffMin) / (LDiffMax - LDiffMin))
  }

  /** Contributions of the first n offsets i = −2, −1, … of column j. */
  function ColumnJumps(tex: Texture, z: real, j: int, n: nat): (s: real)
    ensures 0.0 <= s <= n as real
  {
    if n == 0 then 0.0 else ColumnJumps(tex, z, j, n - 1) + Discontinuity(tex, z, j, -2 + (n - 1))
  }

  function WindowJumps(tex: Texture, z: real, n: nat): (s: real)
    ensures 0.0 <= s <= 5.0 * n as real
  {
    if n == 0 then 0.0 else WindowJumps(tex, z, n - 1) + ColumnJumps(tex, z, -2 + (n - 1), 5)
  }

  /** The second outline: none for background, else the remapped sum clamped to [0, 1]. */
  function SecondOutlineOf(tex: Texture): real
  {
    var z := tex(0, 0).depth;
    if z <= 0.0 then 0.0 else Clamp((WindowJumps(tex, z, 5) - LLow) / (LHigh - LLow), 0.0, 1.0)
  }

  /** `subunit_second_outline(p, uvStep)`. `l_count` is raised at most once, so the
      averaging branch never runs and the clamped sum is returned. */
  method SecondOutline(tex: Texture) returns (out: real)
    ensures out == SecondOutlineOf(tex)
    ensures 0.0 <= out <= 1.0
  {
    var lOpacity := 0.0;
    var lCount := 0.0;
    var z := tex(0, 0).depth;
    if z <= 0.0 {
      return 0.0;
    }
    var l := 0.0;
    var j := -2;
    while j <= 2
      invariant -2 <= j <= 3
      invariant l == WindowJumps(tex, z, j + 2)
    {
      var i := -2;
      while i <= 2
        invariant -2 <= i <= 3
        invariant l == WindowJumps(tex, z, j + 2) + ColumnJumps(tex, z, j, i + 2)
      {
        var sz := tex(j, i).depth;
        if i * i * j * j == 16 {
          i := i + 1;
          continue;
        }
        var rd := Abs(sz - z) * 80.0;
        if rd <= LDiffMin {
          i := i + 1;
          continue;
        }
        rd := (rd - LDiffMin) / (LDiffMax - LDiffMin);
        l := l + Min(1.0, rd);
        i := i + 1;
      }
      j := j + 1;
    }
    l := (l - LLow) / (LHigh - LLow);
    l := Clamp(l, 0.0, 1.0);
    if l > 0.0 {
      lCount := lCount + 1.0;
      lOpacity := lOpacity + l;
    }
    if lCount >= 6.0 {
      // `l_opacity / l_count`: unreachable, `l_count` is at most 1 here
      assert false;
    } else {
      out := l;
    }
  }

  lemma {:induction false} FlatColumn(tex: Texture, z: real, j: int, n: nat)
    requires forall x, y :: tex(x, y).depth == z
    ensures ColumnJumps(tex, z, j, n) == 0.0
  {
    if n > 0 {
      FlatColumn(tex, z, j, n - 1);
      assert tex(j, -2 + (n - 1)).depth == z;
    }
  }

  lemma {:induction false} FlatWindow(tex: Texture, z: real, n: nat)
    requires forall x, y :: tex(x, y).depth == z
    ensures WindowJumps(tex, z, n) == 0.0
  {
    if n > 0 {
      FlatWindow(tex, z, n - 1);
      FlatColumn(tex, z, -2 + (n - 1), 5);
    }
  }

  // ---------------------------------------------------------------------------
  // main
  // ---------------------------------------------------------------------------

  /** The shadow factor clamp(1 − ssao, 0.3, 1). */
  function ShadowOf(ao: real): (s: real)
    ensures 0.3 <= s <= 1.0
  {
    Clamp(1.0 - ao, 0.3, 1.0)
  }

  /** The outline term: the largest of 0 and the two outline functions. */
  function OutlineOf(sub: real, second: real): (o: real)
    ensures o >= 0.0 && o >= sub && o >= second
  {
    Max(Max(0.0, sub), second)
  }

  /** The factor rgb is multiplied by: shadow times the clamped 1 − outline, in [0, 1]. */
  function DarkeningOf(ao: real, outline: real): (f: real)
    ensures 0.0 <= f <= 1.0
  {
    var shadow := ShadowOf(ao);
    var keep := Clamp(1.0 - outline, 0.0, 1.0);
    ScaleBounds(shadow, keep);
    shadow * keep
  }

  /** The shading of `main`: rgb darkened by shadow and outline, alpha raised to the outline. */
  function Shade(color: Vec4, ao: real, sub: real, second: real): Vec4
  {
    var outline := OutlineOf(sub, second);
    var f := DarkeningOf(ao, outline);
    Vec4(color.x * f, color.y * f, color.z * f, Max(outline, color.w))
  }

  /** `main`: one pixel of the composite, from the three neighbourhood terms. */
  method Composite(color: Vec4, tex: Texture, len: (int, int) -> real) returns (out: Vec4)
    ensures out == Shade(color, SsaoOf(tex, len), SubunitOutlineOf(tex), SecondOutlineOf(tex))
  {
    var ao := Ssao(tex, len);
    var sub := SubunitOutline(tex);
    var second := SecondOutline(tex);
    out := ShadePixel(color, ao, sub, second);
  }

  /** The arithmetic of `main` once the three terms are known: `shadow` and `outline` are
      updated step by step, alpha is raised before `outline` is turned into a factor. */
  method ShadePixel(color: Vec4, ao: real, sub: real, second: real) returns (out: Vec4)
    ensures out == Shade(color, ao, sub, second)
  {
    var shadow := 1.0;
    shadow := shadow * Clamp(1.0 - ao, 0.3, 1.0);
    var outline := 0.0;
    outline := Max(outline, sub);
    outline := Max(outline, second);
    var alpha := Max(outline, color.w);
    outline := Clamp(1.0 - outline, 0.0, 1.0);
    var f := shadow * outline;
    out := Vec4(color.x * f, color.y * f, color.z * f, alpha);
  }

  /** Shading only darkens: each non-negative colour channel ends between 0 and its input,
      and alpha never drops. */
  lemma ShadeDarkens(color: Vec4, ao: real, sub: real, second: real)
    requires 0.0 <= color.x && 0.0 <= color.y && 0.0 <= color.z
    ensures var o := Shade(color, ao, sub, second);
      0.0 <= o.x <= color.x && 0.0 <= o.y <= color.y && 0.0 <= o.z <= color.z && o.w >= color.w
  {
    var f := DarkeningOf(ao, OutlineOf(sub, second));
    var o := Shade(color, ao, sub, second);
    ScaleBounds(color.x, f);
    assert 0.0 <= o.x <= color.x;
    ScaleBounds(color.y, f);
    assert 0.0 <= o.y <= color.y;
    ScaleBounds(color.z, f);
    assert 0.0 <= o.z <= color.z;
  }

  lemma ScaleBounds(c: real, f: real)
    requires 0.0 <= c && 0.0 <= f <= 1.0
    ensures 0.0 <= c * f <= c
  {
  }

  /** A neighbourhood at one depth z > 0 and in one group casts no shadow and draws no
      outline, so the pixel passes through unchanged (for a non-negative alpha). */
  lemma {:induction false} FlatPassesThrough(color: Vec4, tex: Texture, len: (int, int) -> real, z: real, g: real)
    requires z > 0.0 && 0.0 <= color.w
    requires forall x, y :: tex(x, y).depth == z && tex(x, y).group == g
    requires forall x, y :: len(x, y) >= 0.0
    ensures Shade(color, SsaoOf(tex, len), SubunitOutlineOf(tex), SecondOutlineOf(tex)) == color
  {
    SsaoFlat(tex, len, z);
    SingleGroupWindow(tex, g, 5);
    FlatWindow(tex, z, 5);
    assert SubunitOutlineOf(tex) == -3.0 / 7.0;
    assert SecondOutlineOf(tex) == 0.0;
  }
}
