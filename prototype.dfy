/** The prototype renderer of data/index.js: its free-standing `setAttribPointers` and
    `setUniform`, which take the GL and the program as arguments and report back instead of
    throwing, the caller's disabling of the arrays `setAttribPointers` enabled, and the
    `simpleShader` vertex stage that feeds the depth pass.  Its sphere buffer and instance
    data are the `Prototype` version of `InstanceBuffer`; its depth fragment is
    `GlslPack.DepthFragment`. */
module Prototype {
  import opened Outcomes
  import opened GlContext
  import opened Matrix
  import opened GlslPack

  // ---------------------------------------------------------------------------
  // setAttribPointers and the disabling loop of its caller
  // ---------------------------------------------------------------------------

  /** The locations the first `n` iterations push onto `updated`: those of the attributes
      the program has, in attribute order. */
  function Pushed(d: Driver, program: nat, buf: Buffer, n: nat): (r: seq<int>)
    requires n <= |buf.attribs|
    ensures |r| <= n
  {
    if n == 0 then []
    else Pushed(d, program, buf, n - 1) + (if Loc(d, program, buf, n - 1) != -1 then [Loc(d, program, buf, n - 1)] else [])
  }

  /** What is pushed is exactly what is enabled: the located attributes, never −1. */
  lemma {:induction false} PushedLocated(d: Driver, program: nat, buf: Buffer, n: nat)
    requires n <= |buf.attribs|
    ensures forall loc :: loc in Pushed(d, program, buf, n) <==> loc in Located(d, program, buf, n)
    ensures -1 !in Pushed(d, program, buf, n)
    decreases n
  {
    if n > 0 {
      PushedLocated(d, program, buf, n - 1);
    }
  }

  /** `setAttribPointers(gl, program, vbo)`: every attribute the program has gets its array
      enabled, its pointer (stride `stride || vbo.stride`) and, when `divide` is truthy, its
      divisor; its location is pushed onto the returned list.  An attribute the program
      lacks (location −1) is skipped. */
  method SetAttribPointers(g: GlState, d: Driver, program: nat, buf: Buffer) returns (g': GlState, updated: seq<int>)
    ensures g' == SetPointers(g, d, program, buf, |buf.attribs|)
    ensures updated == Pushed(d, program, buf, |buf.attribs|)
  {
    SetPointersNone(g, d, program, buf);
    g', updated := g, [];
    for i := 0 to |buf.attribs|
      invariant g' == SetPointers(g, d, program, buf, i)
      invariant updated == Pushed(d, program, buf, i)
    {
      SetPointersStep(g, d, program, buf, i);
      var location;
      g', location := PointAttrib(g', d, program, buf, i);
      if location != -1 {
        updated := updated + [location];
      }
    }
  }

  /** One iteration of `setAttribPointers`: nothing for an attribute the program lacks;
      otherwise enable its array, set its pointer, and its divisor when `divide` is
      truthy.  The location looked up is returned. */
  method PointAttrib(g: GlState, d: Driver, program: nat, buf: Buffer, i: nat) returns (g': GlState, location: int)
    requires i < |buf.attribs|
    ensures g' == PointerStep(g, d, program, buf, i) && location == Loc(d, program, buf, i)
  {
    var attr := buf.attribs[i];
    location := d.attribLocation(program, attr.name);
    if location == -1 {
      return g, location;
    }
    g' := EnableArray(g, location);
    g' := AttribPointer(g', location, attr.size, attr.glType, attr.normalized,
                        if attr.stride != 0 then attr.stride else buf.stride, attr.offset);
    if attr.divide != 0 {
      g' := SetDivisor(g', location, attr.divide);
    }
  }

  /** `attribs.forEach((attrib) => gl.disableVertexAttribArray(attrib))`: every listed
      array is disabled and nothing else changes. */
  method DisableArrays(g: GlState, locs: seq<int>) returns (g': GlState)
    ensures g' == g.(enabled := g.enabled - set l | l in locs)
  {
    g' := g;
    for i := 0 to |locs|
      invariant g' == g.(enabled := g.enabled - set j | 0 <= j < i :: locs[j])
    {
      g' := DisableArray(g', locs[i]);
    }
    assert (set j | 0 <= j < |locs| :: locs[j]) == set l | l in locs;
  }

  /** The pairing the prototype's `draw` relies on: disabling the list `setAttribPointers`
      returns turns off exactly the arrays it turned on, so the arrays that were off before
      are off again, and the pointers and divisors it set stay set. */
  lemma DisableUndoesEnable(g: GlState, d: Driver, program: nat, buf: Buffer)
    ensures var s := SetPointers(g, d, program, buf, |buf.attribs|);
      var r := s.(enabled := s.enabled - set l | l in Pushed(d, program, buf, |buf.attribs|));
      r.enabled == g.enabled - Located(d, program, buf, |buf.attribs|) &&
      r.divisors == s.divisors && r.log == s.log
    ensures g.enabled !! Located(d, program, buf, |buf.attribs|) ==>
      var s := SetPointers(g, d, program, buf, |buf.attribs|);
      s.enabled - (set l | l in Pushed(d, program, buf, |buf.attribs|)) == g.enabled
  {
    var u := Pushed(d, program, buf, |buf.attribs|);
    PushedLocated(d, program, buf, |buf.attribs|);
    forall l ensures l in (set l | l in u) <==> l in Located(d, program, buf, |buf.attribs|) {
    }
    assert (set l | l in u) == Located(d, program, buf, |buf.attribs|);
  }

  // ---------------------------------------------------------------------------
  // setUniform
  // ---------------------------------------------------------------------------

  /** `setUniform(gl, program, uniform, value)`: false, with nothing called, when the
      program's table names no method of the context for `uniform`; otherwise the named
      method is called with the uniform's location (null for an inactive uniform) and the
      value — two arguments, so no transpose flag — and the answer is true. */
  function SetUniform(g: GlState, d: Driver, shader: Shader, uniform: string, value: seq<real>): (r: (GlState, bool))
    ensures r.1 <==> Settable(d, shader, uniform)
    ensures uniform !in shader.uniforms ==> r == (g, false)
    ensures !r.1 ==> r.0 == g
    ensures r.1 ==> r.0 == g.(log := r.0.log) && |r.0.log| == |g.log| + 1 && r.0.log[..|g.log|] == g.log
    ensures r.1 ==> var e := r.0.log[|g.log|];
      e.Uniform? && e.fn == shader.uniforms[uniform] && e.value == value && e.transpose.None? &&
      (e.target.Some? <==> d.uniformActive(shader.program, uniform))
  {
    var location := if d.uniformActive(shader.program, uniform) then Some(UniformLocation(shader.program, uniform)) else None;
    // `location === -1` never holds: a uniform location is an object or null.
    if uniform !in shader.uniforms || !d.hasMethod(shader.uniforms[uniform]) then (g, false)
    else
      var e := Uniform(shader.uniforms[uniform], location, None, value);
      (g.(log := g.log + [e]), true)
  }

  /** Against the viewer's `Context.SetUniform`: the prototype succeeds exactly where the
      viewer's does (given an active shader), and uploads the same call for a vector or
      scalar setter; for a matrix setter it drops the transpose argument the viewer
      passes. */
  lemma SetUniformAgreesWithViewer(g: GlState, d: Driver, shader: Shader, uniform: string, value: seq<real>)
    requires Settable(d, shader, uniform)
    ensures var e := UniformCall(d, shader, uniform, value);
      !IsMatrixSetter(e.fn) <==> SetUniform(g, d, shader, uniform, value).0 == g.(log := g.log + [e])
  {
    var e := UniformCall(d, shader, uniform, value);
    var r := SetUniform(g, d, shader, uniform, value).0;
    if IsMatrixSetter(e.fn) {
      assert r.log[|g.log|].transpose.None?;
      assert !(r == g.(log := g.log + [e]));
    }
  }

  // ---------------------------------------------------------------------------
  // simpleShader and the depth pass
  // ---------------------------------------------------------------------------

  /** The attributes of `simpleShader`: the unit-mesh vertex and the instance's location,
      colour and radius. */
  datatype SimpleAttributes = SimpleAttributes(aPos: Vec3, aLocation: Vec3, aColor: Vec3, aRadius: real)

  datatype SimpleVaryings = SimpleVaryings(position: Vec4, vPos: Vec3, vColor: Vec3)

  /** The vertex stage shared by `simpleShader` and `depthShader`: the mesh vertex scaled by
      the radius and moved to the location, with no view transform, and the unscaled mesh
      vertex passed on as `vPos`. */
  function SimpleVertex(a: SimpleAttributes): (v: SimpleVaryings)
    ensures v.position.w == 1.0 && v.vColor == a.aColor
    ensures v.position.x - a.aLocation[0] == a.aRadius * a.aPos[0]
    ensures v.position.y - a.aLocation[1] == a.aRadius * a.aPos[1]
    ensures v.position.z - a.aLocation[2] == a.aRadius * a.aPos[2]
  {
    SimpleVaryings(Vec4(a.aPos[0] * a.aRadius + a.aLocation[0], a.aPos[1] * a.aRadius + a.aLocation[1],
                        a.aPos[2] * a.aRadius + a.aLocation[2], 1.0),
                   a.aPos, a.aColor)
  }

  /** `depthShader` writes `pack(vPos.z)` of the UNIT mesh vertex, whatever the instance's
      location and radius; for a vertex of the unit sphere (z in [−1, 1]) the colour
      decodes to z on the upper half, z + 1 on the lower half, and 0 at the top pole. */
  lemma {:induction false} DepthPassDecodes(a: SimpleAttributes)
    requires -1.0 <= a.aPos[2] <= 1.0
    ensures var z, depth := a.aPos[2], UnpackF(DepthFragment(SimpleVertex(a).vPos[2]));
      depth == (if z < 0.0 then z + 1.0 else if z < 1.0 then z else 0.0)
  {
    var z := a.aPos[2];
    if z < 1.0 {
      DepthDecode(z);
    } else {
      FloatRoundTrip(z);
      FractShift(0.0, 1);
      FractOfUnit(0.0);
    }
  }
}
