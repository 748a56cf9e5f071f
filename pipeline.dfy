/** One frame of the viewer (`draw`, `drawSpheres` and `postProcess` of src/index.js and
    dist/index.js), run against the abstract GL of `GlContext`.  Each G-buffer pass renders
    the instanced spheres into its own texture; pass 0 clears colour and depth under `LESS`,
    every later pass clears colour only under `EQUAL`, so it redraws exactly the surfaces
    pass 0 left in the depth buffer.  A composite pass then draws the viewport quad on the
    default framebuffer with the depth test off, reading the pass textures through texture
    units 0, 1, ... */
module Pipeline {
  import opened Outcomes
  import opened GlContext

  /** The passes and texture bindings of dist/index.js. */
  const DistPasses: seq<string> := ["color", "layers"]
  const DistBinds: seq<(string, string)> := [("color", "uColor"), ("layers", "uLayers")]

  /** The passes and texture bindings of src/index.js. */
  const SrcPasses: seq<string> := ["color", "depth", "index", "group"]
  const SrcBinds: seq<(string, string)> :=
    [("color", "uColor"), ("depth", "uDepth"), ("group", "uGroup"), ("index", "uIndex")]

  /** The uniform table shared by the colour and layers shaders. */
  const InitialUniforms: map<string, string> := map["uTime" := "uniform1f", "uViewMatrix" := "uniformMatrix4fv"]

  /** The uniform table of the post-process shader. */
  const PostProcessUniforms: map<string, string> :=
    map["uColor" := "uniform1i", "uLayers" := "uniform1i", "uDepth" := "uniform1i", "uRes" := "uniform2fv"]

  /** A pass can run: its shader is loaded and, where the pass sets `uTime` and
      `uViewMatrix`, the shader's table names setters for them. */
  predicate PassReady(d: Driver, shaders: map<string, Shader>, pass: string, viewUniforms: bool)
  {
    pass in shaders &&
    (viewUniforms ==> Settable(d, shaders[pass], "uTime") && Settable(d, shaders[pass], "uViewMatrix"))
  }

  /** The composite can run: the post-process shader is loaded and names setters for every
      bound sampler and for `uRes`. */
  predicate PostReady(d: Driver, shaders: map<string, Shader>, binds: seq<(string, string)>)
  {
    "post-process" in shaders &&
    (forall k | 0 <= k < |binds| :: Settable(d, shaders["post-process"], binds[k].1)) &&
    Settable(d, shaders["post-process"], "uRes")
  }

  predicate FrameReady(d: Driver, shaders: map<string, Shader>, passes: seq<string>, viewUniforms: bool, binds: seq<(string, string)>)
  {
    (forall i | 0 <= i < |passes| :: PassReady(d, shaders, passes[i], viewUniforms)) && PostReady(d, shaders, binds)
  }

  /** The depth function of pass `i`: `LESS` as set before the loop, `EQUAL` from pass 1 on. */
  function PassFunc(i: nat): DepthFunc
  {
    if i == 0 then Less else Equal
  }

  /** The clears and draws of the first `k` G-buffer passes. */
  function PassEvents(fb: nat, shaders: map<string, Shader>, passes: seq<string>, units: map<nat, Option<nat>>,
                      sphere: Buffer, k: nat): seq<Event>
    requires k <= |passes| && forall i | 0 <= i < k :: passes[i] in shaders
  {
    if k == 0 then []
    else
      var at := DepthState(true, PassFunc(k - 1), Some(fb));
      PassEvents(fb, shaders, passes, units, sphere, k - 1) +
      [Clear(true, k - 1 == 0, at),
       Draw(Some(shaders[passes[k - 1]].program), at, units, sphere.itemCount, sphere.instances)]
  }

  /** Pass i renders into the context's framebuffer with the depth test on; pass 0 clears
      colour and depth under `LESS`, every later pass clears colour only under `EQUAL`, and
      each pass draws the spheres with its own program under the same depth state as its
      clear. */
  lemma {:induction false} PassEventsAt(fb: nat, shaders: map<string, Shader>, passes: seq<string>,
                                         units: map<nat, Option<nat>>, sphere: Buffer, k: nat)
    requires k <= |passes| && forall i | 0 <= i < k :: passes[i] in shaders
    ensures |PassEvents(fb, shaders, passes, units, sphere, k)| == 2 * k
    ensures forall i | 0 <= i < k ::
      PassEvents(fb, shaders, passes, units, sphere, k)[2 * i] ==
        Clear(true, i == 0, DepthState(true, if i == 0 then Less else Equal, Some(fb))) &&
      PassEvents(fb, shaders, passes, units, sphere, k)[2 * i + 1] ==
        Draw(Some(shaders[passes[i]].program), DepthState(true, if i == 0 then Less else Equal, Some(fb)),
             units, sphere.itemCount, sphere.instances)
    decreases k
  {
    if k > 0 {
      PassEventsAt(fb, shaders, passes, units, sphere, k - 1);
      var prev := PassEvents(fb, shaders, passes, units, sphere, k - 1);
      var all := PassEvents(fb, shaders, passes, units, sphere, k);
      assert forall j | 0 <= j < |prev| :: all[j] == prev[j];
    }
  }

  lemma PassEventsStep(fb: nat, shaders: map<string, Shader>, passes: seq<string>,
                       units: map<nat, Option<nat>>, sphere: Buffer, k: nat)
    requires k < |passes| && forall i | 0 <= i <= k :: passes[i] in shaders
    ensures var at := DepthState(true, PassFunc(k), Some(fb));
      PassEvents(fb, shaders, passes, units, sphere, k + 1) ==
        PassEvents(fb, shaders, passes, units, sphere, k) +
        [Clear(true, k == 0, at), Draw(Some(shaders[passes[k]].program), at, units, sphere.itemCount, sphere.instances)]
  {
  }

  /** The texture units after the bind loop's first `n` iterations: unit k holds the texture
      named by `binds[k]` (null for an unknown name). */
  function BoundUnits(units: map<nat, Option<nat>>, textures: map<string, nat>, binds: seq<(string, string)>, n: nat): map<nat, Option<nat>>
    requires n <= |binds|
  {
    if n == 0 then units else BoundUnits(units, textures, binds, n - 1)[n - 1 := Lookup(textures, binds[n - 1].0)]
  }

  /** `postProcess` binds `textureBinds[k]` to unit k for every k, and leaves every other unit
      as it was. */
  lemma {:induction false} BoundUnitsAt(units: map<nat, Option<nat>>, textures: map<string, nat>, binds: seq<(string, string)>, n: nat)
    requires n <= |binds|
    ensures forall k | 0 <= k < n ::
      k in BoundUnits(units, textures, binds, n) && BoundUnits(units, textures, binds, n)[k] == Lookup(textures, binds[k].0)
    ensures forall u | u in units && u >= n ::
      u in BoundUnits(units, textures, binds, n) && BoundUnits(units, textures, binds, n)[u] == units[u]
    decreases n
  {
    if n > 0 {
      BoundUnitsAt(units, textures, binds, n - 1);
    }
  }

  /** `drawSpheres`: points the attributes at the sphere buffer, issues one instanced draw
      under the current program, depth state and texture bindings, and clears the pointers
      again.  It fails only without an active shader. */
  method DrawSpheres(ctx: Context, sphere: Buffer) returns (r: Result<()>)
    modifies ctx`gl
    ensures r.Err? <==> ctx.activeShader.None? && |sphere.attribs| > 0
    ensures r.Ok? ==>
      Passes(ctx.gl.log) == Passes(old(ctx.gl.log)) +
        [Draw(old(ctx.gl.program), DepthOf(old(ctx.gl)), old(ctx.gl.units), sphere.itemCount, sphere.instances)]
    ensures r.Ok? ==> ctx.gl.(enabled := old(ctx.gl.enabled), divisors := old(ctx.gl.divisors), log := old(ctx.gl.log)) == old(ctx.gl)
  {
    ghost var g0 := ctx.gl;
    r := ctx.SetAttribPointers(sphere);
    if r.Err? {
      return;
    }
    if ctx.activeShader.Some? {
      PointerCallsQuiet(ctx.driver, ctx.activeShader.value.program, sphere, |sphere.attribs|);
      QuietAppend(g0.log, PointerCalls(ctx.driver, ctx.activeShader.value.program, sphere, |sphere.attribs|));
    }
    ghost var before := ctx.gl.log;
    ctx.gl := DrawCall(ctx.gl, sphere.itemCount, sphere.instances);
    PassesPush(before, ctx.gl.log[|ctx.gl.log| - 1]);
    assert ctx.gl.log == before + [ctx.gl.log[|ctx.gl.log| - 1]];
    ghost var g1 := ctx.gl;
    r := ctx.ClearAttribPointers(sphere);
    if ctx.activeShader.Some? {
      ClearCallsAreResets(ctx.driver, ctx.activeShader.value.program, sphere, |sphere.attribs|);
      QuietAppend(g1.log, ClearCalls(ctx.driver, ctx.activeShader.value.program, sphere, |sphere.attribs|));
    }
  }

  /** The start of a G-buffer pass: target the pass texture and clear, colour and depth on
      the first pass, otherwise colour only after switching to `EQUAL`. */
  method TargetPass(ctx: Context, first: bool, pass: string)
    modifies ctx`gl
    ensures var at := DepthState(old(ctx.gl.depthTest), if first then old(ctx.gl.depthFunc) else Equal, Some(ctx.frameBuffer));
      Passes(ctx.gl.log) == Passes(old(ctx.gl.log)) + [Clear(true, first, at)] &&
      DepthOf(ctx.gl) == at && ctx.gl.units == old(ctx.gl.units)[old(ctx.gl.activeUnit) := None] &&
      ctx.gl.activeUnit == old(ctx.gl.activeUnit) && ctx.gl.program == old(ctx.gl.program)
  {
    ctx.BindDrawToTexture([pass]);
    if first {
      ctx.gl := ClearBuffers(ctx.gl, true, true);
    } else {
      ctx.gl := SetDepthFunc(ctx.gl, Equal);
      ctx.gl := ClearBuffers(ctx.gl, true, false);
    }
    PassesPush(old(ctx.gl.log), ctx.gl.log[|ctx.gl.log| - 1]);
    assert ctx.gl.log == old(ctx.gl.log) + [ctx.gl.log[|ctx.gl.log| - 1]];
  }

  /** One iteration of `draw`'s pass loop: target the pass texture, clear (colour and depth
      on the first pass; otherwise `EQUAL` and colour only), use the pass shader, set the
      view uniforms where the version sets them, draw the spheres, unuse the shader. */
  method RenderPass(ctx: Context, first: bool, pass: string, viewUniforms: Option<(real, seq<real>)>, sphere: Buffer)
    returns (r: Result<()>)
    modifies ctx`gl, ctx`activeShader
    ensures r.Ok? <==> PassReady(ctx.driver, ctx.shaders, pass, viewUniforms.Some?)
    ensures r.Ok? ==>
      var at := DepthState(old(ctx.gl.depthTest), if first then old(ctx.gl.depthFunc) else Equal, Some(ctx.frameBuffer));
      var units := old(ctx.gl.units)[old(ctx.gl.activeUnit) := None];
      Passes(ctx.gl.log) == Passes(old(ctx.gl.log)) +
        [Clear(true, first, at), Draw(Some(ctx.shaders[pass].program), at, units, sphere.itemCount, sphere.instances)] &&
      ctx.gl.depthTest == old(ctx.gl.depthTest) && ctx.gl.depthFunc == at.func &&
      ctx.gl.units == units && ctx.gl.activeUnit == old(ctx.gl.activeUnit) &&
      ctx.gl.program.None? && ctx.activeShader.None?
  {
    TargetPass(ctx, first, pass);
    r := ctx.UseShader(Some(pass));
    if r.Err? {
      return;
    }
    r := SetViewUniforms(ctx, viewUniforms);
    if r.Err? {
      return;
    }
    r := DrawSpheres(ctx, sphere);
    r := ctx.UseShader(None);
  }

  /** The two uniform uploads of a dist pass, `uTime` then `uViewMatrix`; none in src. */
  method SetViewUniforms(ctx: Context, viewUniforms: Option<(real, seq<real>)>) returns (r: Result<()>)
    requires ctx.activeShader.Some?
    modifies ctx`gl
    ensures r.Ok? <==> (viewUniforms.Some? ==> Settable(ctx.driver, ctx.activeShader.value, "uTime") && Settable(ctx.driver, ctx.activeShader.value, "uViewMatrix"))
    ensures r.Ok? ==> Passes(ctx.gl.log) == Passes(old(ctx.gl.log)) && ctx.gl.(log := old(ctx.gl.log)) == old(ctx.gl)
  {
    if viewUniforms.None? {
      return Ok(());
    }
    ghost var l0 := ctx.gl.log;
    r := ctx.SetUniform("uTime", [viewUniforms.value.0]);
    if r.Err? {
      return;
    }
    PassesPush(l0, ctx.gl.log[|ctx.gl.log| - 1]);
    assert ctx.gl.log == l0 + [ctx.gl.log[|ctx.gl.log| - 1]];
    ghost var l1 := ctx.gl.log;
    r := ctx.SetUniform("uViewMatrix", viewUniforms.value.1);
    if r.Err? {
      return;
    }
    PassesPush(l1, ctx.gl.log[|ctx.gl.log| - 1]);
    assert ctx.gl.log == l1 + [ctx.gl.log[|ctx.gl.log| - 1]];
  }

  /** The start of `postProcess`: the default framebuffer, the depth test off, and a
      colour and depth clear. */
  method TargetScreen(ctx: Context)
    modifies ctx`gl
    ensures Passes(ctx.gl.log) == Passes(old(ctx.gl.log)) + [Clear(true, true, DepthState(false, old(ctx.gl.depthFunc), None))]
    ensures ctx.gl == old(ctx.gl).(framebuffer := None, depthTest := false, log := ctx.gl.log)
  {
    ctx.gl := BindFramebuffer(ctx.gl, None);
    ctx.gl := DepthTest(ctx.gl, false);
    ctx.gl := ClearBuffers(ctx.gl, true, true);
    PassesPush(old(ctx.gl.log), ctx.gl.log[|ctx.gl.log| - 1]);
    assert ctx.gl.log == old(ctx.gl.log) + [ctx.gl.log[|ctx.gl.log| - 1]];
  }

  /** `postProcess`: draws the viewport quad with the post-process shader on the default
      framebuffer with the depth test off, after binding `binds[k]`'s texture to unit k and
      setting its sampler uniform to k; then unbinds every unit it bound. */
  method PostProcess(ctx: Context, binds: seq<(string, string)>) returns (r: Result<()>)
    modifies ctx`gl, ctx`activeShader
    ensures r.Ok? <==> PostReady(ctx.driver, ctx.shaders, binds)
    ensures r.Ok? ==>
      var at := DepthState(false, old(ctx.gl.depthFunc), None);
      Passes(ctx.gl.log) == Passes(old(ctx.gl.log)) +
        [Clear(true, true, at),
         Draw(Some(ctx.shaders["post-process"].program), at, BoundUnits(old(ctx.gl.units), ctx.textures, binds, |binds|),
              ctx.viewPortQuad.itemCount, None)] &&
      (forall k | 0 <= k < |binds| :: k in ctx.gl.units && ctx.gl.units[k].None?) &&
      !ctx.gl.depthTest && ctx.gl.framebuffer.None? && ctx.gl.program.None? && ctx.activeShader.None?
  {
    TargetScreen(ctx);
    r := ctx.UseShader(Some("post-process"));
    if r.Err? {
      return;
    }
    r := BindSamplers(ctx, binds);
    if r.Err? {
      return;
    }
    r := SetResolution(ctx);
    if r.Err? {
      return;
    }
    r := DrawQuad(ctx);
    UnbindUnits(ctx, |binds|);
    r := ctx.UseShader(None);
  }

  /** The `uRes` upload of `postProcess`: the canvas width and height. */
  method SetResolution(ctx: Context) returns (r: Result<()>)
    requires ctx.activeShader.Some?
    modifies ctx`gl
    ensures r.Ok? <==> Settable(ctx.driver, ctx.activeShader.value, "uRes")
    ensures r.Ok? ==> Passes(ctx.gl.log) == Passes(old(ctx.gl.log)) && ctx.gl.(log := old(ctx.gl.log)) == old(ctx.gl)
  {
    r := ctx.SetUniform("uRes", [ctx.width as real, ctx.height as real]);
    if r.Err? {
      return;
    }
    PassesPush(old(ctx.gl.log), ctx.gl.log[|ctx.gl.log| - 1]);
    assert ctx.gl.log == old(ctx.gl.log) + [ctx.gl.log[|ctx.gl.log| - 1]];
  }

  /** The bind loop of `postProcess`: unit k gets the texture of `binds[k]` and the sampler
      uniform of `binds[k]` the value k.  It fails at the first sampler the active shader
      does not declare. */
  method BindSamplers(ctx: Context, binds: seq<(string, string)>) returns (r: Result<()>)
    requires ctx.activeShader.Some?
    modifies ctx`gl
    ensures r.Ok? <==> forall k | 0 <= k < |binds| :: Settable(ctx.driver, ctx.activeShader.value, binds[k].1)
    ensures r.Ok? ==>
      Passes(ctx.gl.log) == Passes(old(ctx.gl.log)) &&
      ctx.gl == old(ctx.gl).(units := BoundUnits(old(ctx.gl.units), ctx.textures, binds, |binds|),
                             activeUnit := ctx.gl.activeUnit, log := ctx.gl.log)
  {
    var i := 0;
    while i < |binds|
      invariant 0 <= i <= |binds|
      invariant forall k | 0 <= k < i :: Settable(ctx.driver, ctx.activeShader.value, binds[k].1)
      invariant Passes(ctx.gl.log) == Passes(old(ctx.gl.log))
      invariant ctx.gl == old(ctx.gl).(units := BoundUnits(old(ctx.gl.units), ctx.textures, binds, i),
                                       activeUnit := ctx.gl.activeUnit, log := ctx.gl.log)
    {
      r := BindSampler(ctx, i, binds[i].0, binds[i].1);
      if r.Err? {
        return;
      }
      i := i + 1;
    }
    r := Ok(());
  }

  /** One iteration of the bind loop: unit `unit` gets the texture `name` (null for an
      unknown name) and the sampler uniform `uniform` the value `unit`. */
  method BindSampler(ctx: Context, unit: nat, name: string, uniform: string) returns (r: Result<()>)
    requires ctx.activeShader.Some?
    modifies ctx`gl
    ensures r.Ok? <==> Settable(ctx.driver, ctx.activeShader.value, uniform)
    ensures r.Ok? ==>
      Passes(ctx.gl.log) == Passes(old(ctx.gl.log)) &&
      ctx.gl == old(ctx.gl).(units := old(ctx.gl.units)[unit := Lookup(ctx.textures, name)], activeUnit := unit, log := ctx.gl.log)
  {
    ctx.gl := ActiveTexture(ctx.gl, unit);
    ctx.gl := BindTexture(ctx.gl, Lookup(ctx.textures, name));
    ghost var l0 := ctx.gl.log;
    r := ctx.SetUniform(uniform, [unit as real]);
    if r.Err? {
      return;
    }
    PassesPush(l0, ctx.gl.log[|ctx.gl.log| - 1]);
    assert ctx.gl.log == l0 + [ctx.gl.log[|ctx.gl.log| - 1]];
  }

  /** The unbind loop of `postProcess`: units 0..n−1 are left with no texture. */
  method UnbindUnits(ctx: Context, n: nat)
    modifies ctx`gl
    ensures forall k | 0 <= k < n :: k in ctx.gl.units && ctx.gl.units[k].None?
    ensures ctx.gl.(units := old(ctx.gl.units), activeUnit := old(ctx.gl.activeUnit)) == old(ctx.gl)
  {
    var i := 0;
    while i < n
      invariant 0 <= i <= n
      invariant forall k | 0 <= k < i :: k in ctx.gl.units && ctx.gl.units[k].None?
      invariant ctx.gl.(units := old(ctx.gl.units), activeUnit := old(ctx.gl.activeUnit)) == old(ctx.gl)
    {
      ctx.gl := ActiveTexture(ctx.gl, i);
      ctx.gl := BindTexture(ctx.gl, None);
      i := i + 1;
    }
  }

  /** The draw of the composite: the quad's attributes, one triangle-strip draw, cleared
      attributes. */
  method DrawQuad(ctx: Context) returns (r: Result<()>)
    requires ctx.activeShader.Some?
    modifies ctx`gl
    ensures r.Ok?
    ensures Passes(ctx.gl.log) == Passes(old(ctx.gl.log)) +
      [Draw(old(ctx.gl.program), DepthOf(old(ctx.gl)), old(ctx.gl.units), ctx.viewPortQuad.itemCount, None)]
    ensures ctx.gl.(enabled := old(ctx.gl.enabled), divisors := old(ctx.gl.divisors), log := old(ctx.gl.log)) == old(ctx.gl)
  {
    var quad := ctx.viewPortQuad.(instances := None);
    r := DrawSpheres(ctx, quad);
  }

  /** The state of `draw` after its first `i` passes: all of them could run, their clears
      and draws follow `base`, the depth test is on with the function pass `i` needs, and
      the active unit has no texture. */
  ghost predicate PassLoop(ctx: Context, passes: seq<string>, i: nat, viewUniforms: bool, sphere: Buffer,
                           units: map<nat, Option<nat>>, base: seq<Event>)
    reads ctx
  {
    i <= |passes| &&
    (forall k | 0 <= k < i :: PassReady(ctx.driver, ctx.shaders, passes[k], viewUniforms)) &&
    Passes(ctx.gl.log) == base + PassEvents(ctx.frameBuffer, ctx.shaders, passes, units, sphere, i) &&
    ctx.gl.depthTest && ctx.gl.depthFunc == (if i > 1 then Equal else Less) &&
    ctx.gl.units[ctx.gl.activeUnit := None] == units &&
    (i > 0 ==> ctx.gl.units == units)
  }

  /** Pass `i` of the pass loop extends the clears and draws of the first `i` passes to
      those of the first `i + 1`. */
  method NextPass(ctx: Context, passes: seq<string>, i: nat, viewUniforms: Option<(real, seq<real>)>, sphere: Buffer,
                  ghost units: map<nat, Option<nat>>, ghost base: seq<Event>) returns (r: Result<()>)
    requires i < |passes| && PassLoop(ctx, passes, i, viewUniforms.Some?, sphere, units, base)
    modifies ctx`gl, ctx`activeShader
    ensures r.Ok? <==> PassReady(ctx.driver, ctx.shaders, passes[i], viewUniforms.Some?)
    ensures r.Ok? ==> PassLoop(ctx, passes, i + 1, viewUniforms.Some?, sphere, units, base)
  {
    r := RenderPass(ctx, i == 0, passes[i], viewUniforms, sphere);
    if r.Err? {
      return;
    }
    PassEventsStep(ctx.frameBuffer, ctx.shaders, passes, units, sphere, i);
  }

  /** The G-buffer half of `draw`: depth test on with `LESS`, then the passes in order.
      It succeeds exactly when every pass can run, and then the passes' clears and draws are
      those of `PassEvents`. */
  method GBufferPasses(ctx: Context, passes: seq<string>, viewUniforms: Option<(real, seq<real>)>, sphere: Buffer)
    returns (r: Result<()>)
    modifies ctx`gl, ctx`activeShader
    ensures r.Ok? <==> forall k | 0 <= k < |passes| :: PassReady(ctx.driver, ctx.shaders, passes[k], viewUniforms.Some?)
    ensures r.Ok? ==>
      var units := if |passes| > 0 then old(ctx.gl.units)[old(ctx.gl.activeUnit) := None] else old(ctx.gl.units);
      Passes(ctx.gl.log) == Passes(old(ctx.gl.log)) + PassEvents(ctx.frameBuffer, ctx.shaders, passes, units, sphere, |passes|) &&
      ctx.gl.units == units && ctx.gl.depthFunc == (if |passes| > 1 then Equal else Less)
  {
    ctx.gl := DepthTest(ctx.gl, true);
    ctx.gl := SetDepthFunc(ctx.gl, Less);
    ghost var base := Passes(ctx.gl.log);
    ghost var units := ctx.gl.units[ctx.gl.activeUnit := None];
    r := Ok(());
    var i := 0;
    while i < |passes|
      invariant 0 <= i <= |passes|
      invariant PassLoop(ctx, passes, i, viewUniforms.Some?, sphere, units, base)
      invariant i == 0 ==> ctx.gl.units == old(ctx.gl.units)
      invariant r.Ok?
    {
      r := NextPass(ctx, passes, i, viewUniforms, sphere, units, base);
      if r.Err? {
        return;
      }
      i := i + 1;
    }
  }

  /** `draw`: the G-buffer passes, then the composite.  It succeeds exactly when every
      shader and uniform it names is there, and then the frame's clears and draws are those
      of `PassEvents` followed by the composite's clear and draw on the default framebuffer
      with the depth test off. */
  method DrawFrame(ctx: Context, passes: seq<string>, viewUniforms: Option<(real, seq<real>)>, sphere: Buffer,
              binds: seq<(string, string)>) returns (r: Result<()>)
    modifies ctx`gl, ctx`activeShader
    ensures r.Ok? <==> FrameReady(ctx.driver, ctx.shaders, passes, viewUniforms.Some?, binds)
    ensures r.Ok? ==>
      var units := if |passes| > 0 then old(ctx.gl.units)[old(ctx.gl.activeUnit) := None] else old(ctx.gl.units);
      var at := DepthState(false, if |passes| > 1 then Equal else Less, None);
      Passes(ctx.gl.log) == Passes(old(ctx.gl.log)) +
        PassEvents(ctx.frameBuffer, ctx.shaders, passes, units, sphere, |passes|) +
        [Clear(true, true, at),
         Draw(Some(ctx.shaders["post-process"].program), at, BoundUnits(units, ctx.textures, binds, |binds|),
              ctx.viewPortQuad.itemCount, None)] &&
      ctx.gl.program.None? && ctx.activeShader.None?
  {
    r := GBufferPasses(ctx, passes, viewUniforms, sphere);
    if r.Err? {
      return;
    }
    r := PostProcess(ctx, binds);
  }

  /** A WebGL 1.0 context has the four setters the initial and post-process tables name. */
  predicate HasUniformSetters(d: Driver)
  {
    d.hasMethod("uniform1f") && d.hasMethod("uniformMatrix4fv") && d.hasMethod("uniform1i") && d.hasMethod("uniform2fv")
  }

  /** With the shaders of dist/index.js loaded (colour and layers with the initial table,
      post-process with its own), the dist frame runs to the end. */
  lemma DistFrameRuns(d: Driver, shaders: map<string, Shader>)
    requires HasUniformSetters(d)
    requires "color" in shaders && "layers" in shaders && "post-process" in shaders
    requires shaders["color"].uniforms == InitialUniforms && shaders["layers"].uniforms == InitialUniforms
    requires shaders["post-process"].uniforms == PostProcessUniforms
    ensures FrameReady(d, shaders, DistPasses, true, DistBinds)
  {
  }

  /** src/index.js binds `uGroup` and `uIndex`, which the post-process shader does not
      declare, so its frame always fails in the composite, whatever the driver. */
  lemma SrcFrameFails(d: Driver, shaders: map<string, Shader>, viewUniforms: bool)
    requires "post-process" in shaders && shaders["post-process"].uniforms == PostProcessUniforms
    ensures !PostReady(d, shaders, SrcBinds)
    ensures !FrameReady(d, shaders, SrcPasses, viewUniforms, SrcBinds)
  {
    assert !Settable(d, shaders["post-process"], SrcBinds[2].1);
  }
}
