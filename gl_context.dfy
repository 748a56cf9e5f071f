/** The WebGL layer of the viewer (src/glutil.js, and the `setUniform` of dist/index.js).

    WebGL itself is modelled as a VALUE: `GlState` records the objects that are alive, the
    depth-test flag and function, the bound framebuffer and program, the texture bound to
    each texture unit, the enabled attribute arrays and their divisors, the framebuffer
    attachments, and a log of the calls whose order matters (clears, draws, attribute
    pointers, divisors, uniform uploads).  What the driver decides (shader compilation,
    linking, attribute and uniform locations) is a `Driver` parameter.  The `Context` class
    keeps the registries the source keeps: textures, shaders and the active shader. */
module GlContext {
  import opened Outcomes

  datatype DepthFunc = Less | Equal

  datatype GlType = Float | UnsignedShort | Short

  datatype Attachment = ColorAttachment(index: nat) | DepthAttachment

  /** What a clear or a draw sees of the depth machinery and the render target. */
  datatype DepthState = DepthState(test: bool, func: DepthFunc, framebuffer: Option<nat>)

  /** `getUniformLocation` yields a location object or null; never −1. */
  datatype UniformLocation = UniformLocation(program: nat, name: string)

  datatype Event =
    | Clear(color: bool, depth: bool, at: DepthState)
    | Draw(program: Option<nat>, at: DepthState, units: map<nat, Option<nat>>, count: int, instances: Option<real>)
    | Pointer(location: int, size: nat, glType: GlType, normalized: bool, stride: int, offset: int)
    | Divisor(location: int, divisor: int)
    | Uniform(fn: string, target: Option<UniformLocation>, transpose: Option<bool>, value: seq<real>)

  datatype GlState = GlState(
    next: nat,
    live: set<nat>,
    depthTest: bool,
    depthFunc: DepthFunc,
    framebuffer: Option<nat>,
    program: Option<nat>,
    activeUnit: nat,
    units: map<nat, Option<nat>>,
    enabled: set<int>,
    divisors: map<int, int>,
    attachments: map<(nat, Attachment), Option<nat>>,
    log: seq<Event>)

  /** What the driver decides: compile and link status, their info logs, the locations of
      attributes and uniforms in a linked program, and which names are methods of the
      rendering context. */
  datatype Driver = Driver(
    compiles: string -> bool,
    links: (string, string) -> bool,
    infoLog: string -> string,
    attribLocation: (nat, string) -> int,
    uniformActive: (nat, string) -> bool,
    hasMethod: string -> bool)

  /** Every live object has a handle below the next one to be handed out. */
  ghost predicate Tracked(g: GlState)
  {
    forall h | h in g.live :: h < g.next
  }

  /** The state of a fresh WebGL context: depth test off, `LESS`, texture unit 0. */
  function Initial(): (g: GlState)
    ensures Tracked(g) && !g.depthTest && g.depthFunc == Less && g.framebuffer.None?
  {
    GlState(0, {}, false, Less, None, None, 0, map[], {}, map[], map[], [])
  }

  // ---------------------------------------------------------------------------
  // GL entry points as state transformers
  // ---------------------------------------------------------------------------

  /** `createShader`/`createProgram`/`createTexture`/`createBuffer`/...: the new handle is
      `g.next`. */
  function Create(g: GlState): (r: GlState)
    ensures Tracked(g) ==> Tracked(r) && g.next !in g.live
    ensures r.live == g.live + {g.next} && r.next == g.next + 1
  {
    g.(next := g.next + 1, live := g.live + {g.next})
  }

  /** `deleteShader`/`deleteProgram`/`deleteTexture`; deleting null is a no-op. */
  function Delete(g: GlState, h: Option<nat>): (r: GlState)
    ensures Tracked(g) ==> Tracked(r)
    ensures r.live == (if h.Some? then g.live - {h.value} else g.live)
  {
    if h.Some? then g.(live := g.live - {h.value}) else g
  }

  function DepthOf(g: GlState): DepthState
  {
    DepthState(g.depthTest, g.depthFunc, g.framebuffer)
  }

  function UseProgram(g: GlState, p: Option<nat>): GlState
  {
    g.(program := p)
  }

  function BindTexture(g: GlState, t: Option<nat>): GlState
  {
    g.(units := g.units[g.activeUnit := t])
  }

  /** `createTexture` then `bindTexture` on the active unit and back to null: a new live
      handle, and the active unit left empty. */
  function NewTexture(g: GlState): (r: GlState)
    ensures Tracked(g) ==> Tracked(r) && g.next !in g.live
    ensures r == g.(next := g.next + 1, live := g.live + {g.next}, units := g.units[g.activeUnit := None])
  {
    BindTexture(BindTexture(Create(g), Some(g.next)), None)
  }

  /** The attachment points of framebuffer `fb` that `bindDrawToTexture` sets: colour
      attachments `0..n`, and the depth attachment when `depth` holds. */
  predicate SetBy(fb: nat, key: (nat, Attachment), n: nat, depth: bool)
  {
    key.0 == fb && ((key.1.ColorAttachment? && key.1.index < n) || (depth && key.1.DepthAttachment?))
  }

  /** Attachment map `m` differs from `m0` only at points `SetBy(fb, _, n, depth)`: every
      other point keeps its texture, and no other point is added. */
  ghost predicate FramedBy(m0: map<(nat, Attachment), Option<nat>>, m: map<(nat, Attachment), Option<nat>>,
                           fb: nat, n: nat, depth: bool)
  {
    (forall key | key in m0 && !SetBy(fb, key, n, depth) :: key in m && m[key] == m0[key]) &&
    (forall key | key in m :: key in m0 || SetBy(fb, key, n, depth))
  }

  /** Attaching colour point `n` extends the frame to `n + 1` colour points. */
  lemma FramedColor(m: map<(nat, Attachment), Option<nat>>, m0: map<(nat, Attachment), Option<nat>>,
                    fb: nat, n: nat, t: Option<nat>)
    requires FramedBy(m0, m, fb, n, false)
    ensures FramedBy(m0, m[(fb, ColorAttachment(n)) := t], fb, n + 1, false)
  {
  }

  /** Attaching the depth point extends the frame to the depth point. */
  lemma FramedDepth(m: map<(nat, Attachment), Option<nat>>, m0: map<(nat, Attachment), Option<nat>>,
                    fb: nat, n: nat, t: Option<nat>)
    requires FramedBy(m0, m, fb, n, false)
    ensures FramedBy(m0, m[(fb, DepthAttachment) := t], fb, n, true)
  {
  }

  /** `framebufferTexture2D` acts on the bound framebuffer; with the default framebuffer
      bound it is an error and changes nothing. */
  function FramebufferTexture(g: GlState, att: Attachment, t: Option<nat>): GlState
  {
    if g.framebuffer.Some? then g.(attachments := g.attachments[(g.framebuffer.value, att) := t]) else g
  }

  /** `enable(DEPTH_TEST)` / `disable(DEPTH_TEST)`. */
  function DepthTest(g: GlState, on: bool): GlState
  {
    g.(depthTest := on)
  }

  function SetDepthFunc(g: GlState, f: DepthFunc): GlState
  {
    g.(depthFunc := f)
  }

  /** `bindFramebuffer(FRAMEBUFFER, fb)`; `None` is the default framebuffer. */
  function BindFramebuffer(g: GlState, fb: Option<nat>): GlState
  {
    g.(framebuffer := fb)
  }

  /** `activeTexture(TEXTURE0 + unit)`. */
  function ActiveTexture(g: GlState, unit: nat): GlState
  {
    g.(activeUnit := unit)
  }

  function EnableArray(g: GlState, loc: int): GlState
  {
    g.(enabled := g.enabled + {loc})
  }

  function DisableArray(g: GlState, loc: int): GlState
  {
    g.(enabled := g.enabled - {loc})
  }

  function AttribPointer(g: GlState, loc: int, size: nat, t: GlType, normalized: bool, stride: int, offset: int): GlState
  {
    g.(log := g.log + [Pointer(loc, size, t, normalized, stride, offset)])
  }

  /** `vertexAttribDivisorANGLE`. */
  function SetDivisor(g: GlState, loc: int, divisor: int): GlState
  {
    g.(divisors := g.divisors[loc := divisor], log := g.log + [Divisor(loc, divisor)])
  }

  function ClearBuffers(g: GlState, color: bool, depth: bool): GlState
  {
    g.(log := g.log + [Clear(color, depth, DepthOf(g))])
  }

  function DrawCall(g: GlState, count: int, instances: Option<real>): GlState
  {
    g.(log := g.log + [Draw(g.program, DepthOf(g), g.units, count, instances)])
  }

  // ---------------------------------------------------------------------------
  // The clears and draws of a log, in order
  // ---------------------------------------------------------------------------

  function Passes(log: seq<Event>): (p: seq<Event>)
    ensures |p| <= |log|
  {
    if log == [] then []
    else
      var e := log[|log| - 1];
      Passes(log[..|log| - 1]) + (if e.Clear? || e.Draw? then [e] else [])
  }

  lemma {:induction false} PassesAppend(a: seq<Event>, b: seq<Event>)
    ensures Passes(a + b) == Passes(a) + Passes(b)
    decreases |b|
  {
    if b == [] {
      assert a + b == a;
    } else {
      var b' := b[..|b| - 1];
      assert (a + b)[..|a + b| - 1] == a + b';
      PassesAppend(a, b');
    }
  }

  /** Appending calls that neither clear nor draw leaves the clears and draws as they were. */
  lemma {:induction false} QuietAppend(a: seq<Event>, b: seq<Event>)
    requires forall e | e in b :: !e.Clear? && !e.Draw?
    ensures Passes(a + b) == Passes(a)
    decreases |b|
  {
    if b == [] {
      assert a + b == a;
    } else {
      var b' := b[..|b| - 1];
      assert b[|b| - 1] in b;
      assert forall e | e in b' :: e in b;
      assert (a + b)[..|a + b| - 1] == a + b';
      QuietAppend(a, b');
    }
  }

  lemma PassesPush(log: seq<Event>, e: Event)
    ensures Passes(log + [e]) == Passes(log) + (if e.Clear? || e.Draw? then [e] else [])
  {
    assert (log + [e])[..|log|] == log;
  }

  // ---------------------------------------------------------------------------
  // Buffers and attribute pointers
  // ---------------------------------------------------------------------------

  /** One entry of a buffer's `attribs`.  An absent `divide` or `stride` is 0, which is as
      falsy as `undefined`, so `divide` is set iff it is non-zero and `stride || vbo.stride`
      falls back iff `stride` is 0. */
  datatype Attrib = Attrib(name: string, size: nat, glType: GlType, normalized: bool,
                           divide: int, stride: int, offset: int)

  /** A vertex buffer as the viewer describes it; `ibo` and `instances` only for the
      instanced sphere buffer. */
  datatype Buffer = Buffer(vbo: nat, ibo: Option<nat>, instances: Option<real>,
                           itemCount: int, stride: int, attribs: seq<Attrib>)

  function EffectiveStride(a: Attrib, bufferStride: int): int
  {
    if a.stride != 0 then a.stride else bufferStride
  }

  /** The location of attribute `i` of `buf` in `program`. */
  function Loc(d: Driver, program: nat, buf: Buffer, i: nat): int
    requires i < |buf.attribs|
  {
    d.attribLocation(program, buf.attribs[i].name)
  }

  /** The locations of the first `n` attributes that the program has. */
  function Located(d: Driver, program: nat, buf: Buffer, n: nat): set<int>
    requires n <= |buf.attribs|
  {
    if n == 0 then {}
    else Located(d, program, buf, n - 1) + (if Loc(d, program, buf, n - 1) != -1 then {Loc(d, program, buf, n - 1)} else {})
  }

  /** The locations of the first `n` attributes that the program has and that are
      instanced (`divide` truthy). */
  function Divided(d: Driver, program: nat, buf: Buffer, n: nat): set<int>
    requires n <= |buf.attribs|
  {
    if n == 0 then {}
    else
      Divided(d, program, buf, n - 1) +
      (if Loc(d, program, buf, n - 1) != -1 && buf.attribs[n - 1].divide != 0 then {Loc(d, program, buf, n - 1)} else {})
  }

  /** A location is located (instanced) exactly when one of the first `n` attributes, one
      with a truthy `divide`, has it and it is not −1. */
  lemma {:induction false} LocatedMembers(d: Driver, program: nat, buf: Buffer, n: nat, loc: int)
    requires n <= |buf.attribs|
    ensures loc in Located(d, program, buf, n) <==>
      loc != -1 && exists i | 0 <= i < n :: Loc(d, program, buf, i) == loc
    ensures loc in Divided(d, program, buf, n) <==>
      loc != -1 && exists i | 0 <= i < n :: Loc(d, program, buf, i) == loc && buf.attribs[i].divide != 0
    decreases n
  {
    if n > 0 {
      LocatedMembers(d, program, buf, n - 1, loc);
    }
  }

  /** The pointer call for attribute `i`: its location, size, type, normalisation and offset,
      with the stride `attr.stride || vbo.stride`. */
  function PointerOf(d: Driver, program: nat, buf: Buffer, i: nat): Event
    requires i < |buf.attribs|
  {
    var a := buf.attribs[i];
    Pointer(Loc(d, program, buf, i), a.size, a.glType, a.normalized, EffectiveStride(a, buf.stride), a.offset)
  }

  /** The calls one iteration of `setAttribPointers` logs for attribute `i`. */
  function StepCalls(d: Driver, program: nat, buf: Buffer, i: nat): seq<Event>
    requires i < |buf.attribs|
  {
    var loc := Loc(d, program, buf, i);
    if loc == -1 then []
    else [PointerOf(d, program, buf, i)] + (if buf.attribs[i].divide != 0 then [Divisor(loc, buf.attribs[i].divide)] else [])
  }

  /** The calls the first `n` iterations of `setAttribPointers` log. */
  function PointerCalls(d: Driver, program: nat, buf: Buffer, n: nat): seq<Event>
    requires n <= |buf.attribs|
  {
    if n == 0 then [] else PointerCalls(d, program, buf, n - 1) + StepCalls(d, program, buf, n - 1)
  }

  /** One iteration of `setAttribPointers`: a located attribute's array is enabled and its
      pointer set, and an instanced one gets its divisor. */
  function PointerStep(g: GlState, d: Driver, program: nat, buf: Buffer, i: nat): GlState
    requires i < |buf.attribs|
  {
    var loc := Loc(d, program, buf, i);
    var a := buf.attribs[i];
    if loc == -1 then g
    else
      var g1 := AttribPointer(EnableArray(g, loc), loc, a.size, a.glType, a.normalized, EffectiveStride(a, buf.stride), a.offset);
      if a.divide != 0 then SetDivisor(g1, loc, a.divide) else g1
  }

  /** `setAttribPointers` logs nothing but pointer and divisor calls. */
  lemma {:induction false} PointerCallsQuiet(d: Driver, program: nat, buf: Buffer, n: nat)
    requires n <= |buf.attribs|
    ensures forall e | e in PointerCalls(d, program, buf, n) :: e.Pointer? || e.Divisor?
    decreases n
  {
    if n > 0 {
      PointerCallsQuiet(d, program, buf, n - 1);
    }
  }

  /** The divisors `m` becomes after the first `n` iterations of `setAttribPointers`, where
      each instanced located attribute gets its `divide`, or of `clearAttribPointers`
      (`reset`), where it gets 0. */
  function DivisorsAfter(m: map<int, int>, d: Driver, program: nat, buf: Buffer, n: nat, reset: bool): map<int, int>
    requires n <= |buf.attribs|
  {
    if n == 0 then m
    else
      var prev := DivisorsAfter(m, d, program, buf, n - 1, reset);
      var loc, a := Loc(d, program, buf, n - 1), buf.attribs[n - 1];
      if loc != -1 && a.divide != 0 then prev[loc := if reset then 0 else a.divide] else prev
  }

  /** `after` holds the divisors of `before` with every location of `given` set (to a
      non-zero value, or to 0 when `reset`) and no other location touched. */
  ghost predicate DivisorsGiven(before: map<int, int>, after: map<int, int>, given: set<int>, reset: bool)
  {
    (forall loc :: loc in after <==> loc in before || loc in given) &&
    (forall loc | loc in given :: loc in after && (after[loc] == 0 <==> reset)) &&
    (forall loc | loc in before && loc !in given :: loc in after && after[loc] == before[loc])
  }

  lemma DivisorsGivenStep(before: map<int, int>, mid: map<int, int>, given: set<int>, after: map<int, int>, given': set<int>,
                          reset: bool, instanced: bool, loc: int, v: int)
    requires DivisorsGiven(before, mid, given, reset)
    requires instanced ==> (v == 0 <==> reset)
    requires after == (if instanced then mid[loc := v] else mid)
    requires given' == (if instanced then given + {loc} else given)
    ensures DivisorsGiven(before, after, given', reset)
  {
  }

  /** After the first `n` iterations of `setAttribPointers` the instanced located attributes
      have a non-zero divisor, after those of `clearAttribPointers` they have divisor 0, and
      no other divisor has changed. */
  lemma {:induction false} DivisorsAfterGiven(m: map<int, int>, d: Driver, program: nat, buf: Buffer, n: nat, reset: bool)
    requires n <= |buf.attribs|
    ensures DivisorsGiven(m, DivisorsAfter(m, d, program, buf, n, reset), Divided(d, program, buf, n), reset)
    decreases n
  {
    if n > 0 {
      DivisorsAfterGiven(m, d, program, buf, n - 1, reset);
      var loc, a := Loc(d, program, buf, n - 1), buf.attribs[n - 1];
      DivisorsGivenStep(m, DivisorsAfter(m, d, program, buf, n - 1, reset), Divided(d, program, buf, n - 1),
                        DivisorsAfter(m, d, program, buf, n, reset), Divided(d, program, buf, n),
                        reset, loc != -1 && a.divide != 0, loc, if reset then 0 else a.divide);
    }
  }

  /** The state after the first `n` iterations of `setAttribPointers`: the located arrays are
      enabled, the instanced ones get their divisors, the log grows by the pointer calls, and
      nothing else changes (`SetPointersStep` shows this is what the iterations do). */
  function SetPointers(g: GlState, d: Driver, program: nat, buf: Buffer, n: nat): GlState
    requires n <= |buf.attribs|
  {
    g.(enabled := g.enabled + Located(d, program, buf, n),
       divisors := DivisorsAfter(g.divisors, d, program, buf, n, false),
       log := g.log + PointerCalls(d, program, buf, n))
  }

  lemma SetUnionAssoc(a: set<int>, b: set<int>, c: set<int>)
    ensures a + b + c == a + (b + c)
  {
  }

  lemma SetDiffAssoc(a: set<int>, b: set<int>, c: set<int>)
    ensures a - b - c == a - (b + c)
  {
  }

  /** No iteration leaves the state as it was. */
  lemma SetPointersNone(g: GlState, d: Driver, program: nat, buf: Buffer)
    ensures SetPointers(g, d, program, buf, 0) == g
  {
    assert g.log + [] == g.log;
  }

  /** One iteration of `setAttribPointers` enables a located attribute's array, gives an
      instanced one its divisor, appends its calls to the log, and changes nothing else. */
  lemma PointerStepEffect(g: GlState, d: Driver, program: nat, buf: Buffer, i: nat)
    requires i < |buf.attribs|
    ensures var loc := Loc(d, program, buf, i);
      var r := PointerStep(g, d, program, buf, i);
      r.enabled == (if loc != -1 then g.enabled + {loc} else g.enabled) &&
      r.divisors == (if loc != -1 && buf.attribs[i].divide != 0 then g.divisors[loc := buf.attribs[i].divide] else g.divisors) &&
      r.log == g.log + StepCalls(d, program, buf, i) &&
      r.(enabled := g.enabled, divisors := g.divisors, log := g.log) == g
  {
    var loc, a := Loc(d, program, buf, i), buf.attribs[i];
    if loc != -1 {
      var g1 := AttribPointer(EnableArray(g, loc), loc, a.size, a.glType, a.normalized, EffectiveStride(a, buf.stride), a.offset);
      assert g1.log == g.log + [PointerOf(d, program, buf, i)];
      if a.divide != 0 {
        assert SetDivisor(g1, loc, a.divide).log == g.log + [PointerOf(d, program, buf, i)] + [Divisor(loc, a.divide)];
      }
    }
  }

  /** One more iteration of `setAttribPointers` moves the state from the first `i`
      attributes to the first `i + 1`. */
  lemma SetPointersStep(g: GlState, d: Driver, program: nat, buf: Buffer, i: nat)
    requires i < |buf.attribs|
    ensures PointerStep(SetPointers(g, d, program, buf, i), d, program, buf, i) == SetPointers(g, d, program, buf, i + 1)
  {
    var loc := Loc(d, program, buf, i);
    var prev, next := SetPointers(g, d, program, buf, i), SetPointers(g, d, program, buf, i + 1);
    var r := PointerStep(prev, d, program, buf, i);
    PointerStepEffect(prev, d, program, buf, i);
    SetUnionAssoc(g.enabled, Located(d, program, buf, i), if loc != -1 then {loc} else {});
    assert r.enabled == next.enabled;
    assert r.divisors == next.divisors;
    assert r.log == next.log by {
      assert r.log == prev.log + StepCalls(d, program, buf, i);
      assert g.log + PointerCalls(d, program, buf, i) + StepCalls(d, program, buf, i) == g.log + PointerCalls(d, program, buf, i + 1);
    }
  }

  /** The calls one iteration of `clearAttribPointers` logs for attribute `i`. */
  function ClearStepCalls(d: Driver, program: nat, buf: Buffer, i: nat): seq<Event>
    requires i < |buf.attribs|
  {
    var loc := Loc(d, program, buf, i);
    if loc != -1 && buf.attribs[i].divide != 0 then [Divisor(loc, 0)] else []
  }

  /** The calls the first `n` iterations of `clearAttribPointers` log. */
  function ClearCalls(d: Driver, program: nat, buf: Buffer, n: nat): seq<Event>
    requires n <= |buf.attribs|
  {
    if n == 0 then [] else ClearCalls(d, program, buf, n - 1) + ClearStepCalls(d, program, buf, n - 1)
  }

  /** `clearAttribPointers` logs nothing but divisor resets of instanced located attributes. */
  lemma {:induction false} ClearCallsAreResets(d: Driver, program: nat, buf: Buffer, n: nat)
    requires n <= |buf.attribs|
    ensures forall e | e in ClearCalls(d, program, buf, n) ::
      e.Divisor? && e.divisor == 0 && e.location in Divided(d, program, buf, n)
    decreases n
  {
    if n > 0 {
      ClearCallsAreResets(d, program, buf, n - 1);
      assert Divided(d, program, buf, n - 1) <= Divided(d, program, buf, n);
      var i := n - 1;
      if Loc(d, program, buf, i) != -1 && buf.attribs[i].divide != 0 {
        assert Loc(d, program, buf, i) in Divided(d, program, buf, n);
      }
    }
  }

  /** One iteration of `clearAttribPointers`: enable then disable, and reset the divisor. */
  function ClearStep(g: GlState, d: Driver, program: nat, buf: Buffer, i: nat): GlState
    requires i < |buf.attribs|
  {
    var loc := Loc(d, program, buf, i);
    if loc == -1 then g
    else
      var g1 := DisableArray(EnableArray(g, loc), loc);
      if buf.attribs[i].divide != 0 then SetDivisor(g1, loc, 0) else g1
  }

  /** The state after the first `n` iterations of `clearAttribPointers`: the located arrays
      are disabled, the instanced ones get divisor 0, the log grows by the resets, and
      nothing else changes (`ClearPointersStep` shows this is what the iterations do). */
  function ClearPointers(g: GlState, d: Driver, program: nat, buf: Buffer, n: nat): GlState
    requires n <= |buf.attribs|
  {
    g.(enabled := g.enabled - Located(d, program, buf, n),
       divisors := DivisorsAfter(g.divisors, d, program, buf, n, true),
       log := g.log + ClearCalls(d, program, buf, n))
  }

  lemma ClearPointersNone(g: GlState, d: Driver, program: nat, buf: Buffer)
    ensures ClearPointers(g, d, program, buf, 0) == g
  {
    assert g.log + [] == g.log;
  }

  /** One iteration of `clearAttribPointers` disables a located attribute's array, resets
      an instanced one's divisor, appends the reset to the log, and changes nothing else. */
  lemma ClearStepEffect(g: GlState, d: Driver, program: nat, buf: Buffer, i: nat)
    requires i < |buf.attribs|
    ensures var loc := Loc(d, program, buf, i);
      var r := ClearStep(g, d, program, buf, i);
      r.enabled == (if loc != -1 then g.enabled - {loc} else g.enabled) &&
      r.divisors == (if loc != -1 && buf.attribs[i].divide != 0 then g.divisors[loc := 0] else g.divisors) &&
      r.log == g.log + ClearStepCalls(d, program, buf, i) &&
      r.(enabled := g.enabled, divisors := g.divisors, log := g.log) == g
  {
    var loc := Loc(d, program, buf, i);
    if loc != -1 {
      var g1 := DisableArray(EnableArray(g, loc), loc);
      assert g1.enabled == g.enabled - {loc};
      assert g1.log == g.log + [];
    } else {
      assert g.log == g.log + [];
    }
  }

  /** One more iteration of `clearAttribPointers` moves the state from the first `i`
      attributes to the first `i + 1`. */
  lemma ClearPointersStep(g: GlState, d: Driver, program: nat, buf: Buffer, i: nat)
    requires i < |buf.attribs|
    ensures ClearStep(ClearPointers(g, d, program, buf, i), d, program, buf, i) == ClearPointers(g, d, program, buf, i + 1)
  {
    var loc := Loc(d, program, buf, i);
    var prev, next := ClearPointers(g, d, program, buf, i), ClearPointers(g, d, program, buf, i + 1);
    var r := ClearStep(prev, d, program, buf, i);
    ClearStepEffect(prev, d, program, buf, i);
    SetDiffAssoc(g.enabled, Located(d, program, buf, i), if loc != -1 then {loc} else {});
    assert r.enabled == next.enabled;
    assert r.divisors == next.divisors;
    assert r.log == next.log by {
      assert g.log + ClearCalls(d, program, buf, i) + ClearStepCalls(d, program, buf, i) == g.log + ClearCalls(d, program, buf, i + 1);
    }
  }

  /** The call `e` comes from one of the first `n` attributes that the program has: it is
      that attribute's pointer call, or its divisor when `divide` is truthy. */
  ghost predicate FromAttrib(d: Driver, program: nat, buf: Buffer, n: nat, e: Event)
    requires n <= |buf.attribs|
  {
    exists i | 0 <= i < n ::
      Loc(d, program, buf, i) != -1 &&
      (e == PointerOf(d, program, buf, i) ||
       (buf.attribs[i].divide != 0 && e == Divisor(Loc(d, program, buf, i), buf.attribs[i].divide)))
  }

  /** Every call `setAttribPointers` logs comes from an attribute the program has: no call
      for a location −1, strides `attr.stride || vbo.stride`, divisors only for truthy
      `divide`. */
  lemma {:induction false} PointerCallsSound(d: Driver, program: nat, buf: Buffer, n: nat)
    requires n <= |buf.attribs|
    ensures forall e | e in PointerCalls(d, program, buf, n) :: FromAttrib(d, program, buf, n, e)
    decreases n
  {
    if n > 0 {
      PointerCallsSound(d, program, buf, n - 1);
      forall e | e in PointerCalls(d, program, buf, n) ensures FromAttrib(d, program, buf, n, e) {
        if e in PointerCalls(d, program, buf, n - 1) {
          var i :| 0 <= i < n - 1 && Loc(d, program, buf, i) != -1 &&
            (e == PointerOf(d, program, buf, i) ||
             (buf.attribs[i].divide != 0 && e == Divisor(Loc(d, program, buf, i), buf.attribs[i].divide)));
          assert 0 <= i < n;
        } else {
          assert e in StepCalls(d, program, buf, n - 1);
          assert 0 <= n - 1 < n;
        }
      }
    }
  }

  /** Conversely, every attribute the program has gets its pointer call, and its divisor
      call when `divide` is truthy. */
  lemma {:induction false} PointerCallsComplete(d: Driver, program: nat, buf: Buffer, n: nat)
    requires n <= |buf.attribs|
    ensures forall i | 0 <= i < n && Loc(d, program, buf, i) != -1 ::
      PointerOf(d, program, buf, i) in PointerCalls(d, program, buf, n) &&
      (buf.attribs[i].divide != 0 ==> Divisor(Loc(d, program, buf, i), buf.attribs[i].divide) in PointerCalls(d, program, buf, n))
    decreases n
  {
    if n > 0 {
      PointerCallsComplete(d, program, buf, n - 1);
      var c := PointerCalls(d, program, buf, n);
      var c' := PointerCalls(d, program, buf, n - 1);
      var s := StepCalls(d, program, buf, n - 1);
      assert c == c' + s;
      if Loc(d, program, buf, n - 1) != -1 {
        assert s[0] in c;
        if buf.attribs[n - 1].divide != 0 {
          assert s[1] in c;
        }
      }
    }
  }

  /** Resetting the locations a first pass gave divisors leaves them at 0 and every other
      divisor as it was before the first pass. */
  lemma DivisorsGivenThenReset(before: map<int, int>, mid: map<int, int>, after: map<int, int>, given: set<int>)
    requires DivisorsGiven(before, mid, given, false) && DivisorsGiven(mid, after, given, true)
    ensures DivisorsGiven(before, after, given, true)
  {
  }

  /** Clearing the pointers of a buffer right after setting them leaves enabled only the
      arrays that were enabled before and that no attribute of the program uses, sets every
      instanced location's divisor to 0 and keeps every other divisor, and changes nothing
      else but the log, which gains neither a clear nor a draw. */
  lemma {:induction false} ClearUndoesSet(g: GlState, d: Driver, program: nat, buf: Buffer)
    ensures var r := ClearPointers(SetPointers(g, d, program, buf, |buf.attribs|), d, program, buf, |buf.attribs|);
      r.enabled == g.enabled - Located(d, program, buf, |buf.attribs|) &&
      DivisorsGiven(g.divisors, r.divisors, Divided(d, program, buf, |buf.attribs|), true) &&
      r.(enabled := g.enabled, divisors := g.divisors, log := g.log) == g &&
      Passes(r.log) == Passes(g.log)
  {
    var n := |buf.attribs|;
    var s := SetPointers(g, d, program, buf, n);
    var r := ClearPointers(s, d, program, buf, n);
    assert r.enabled == g.enabled - Located(d, program, buf, n);
    DivisorsAfterGiven(g.divisors, d, program, buf, n, false);
    DivisorsAfterGiven(s.divisors, d, program, buf, n, true);
    DivisorsGivenThenReset(g.divisors, s.divisors, r.divisors, Divided(d, program, buf, n));
    PointerCallsQuiet(d, program, buf, n);
    QuietAppend(g.log, PointerCalls(d, program, buf, n));
    ClearCallsAreResets(d, program, buf, n);
    QuietAppend(s.log, ClearCalls(d, program, buf, n));
  }

  // ---------------------------------------------------------------------------
  // createShader and the viewport quad
  // ---------------------------------------------------------------------------

  /** `createShader`: compiles both stages and links them.  It fails on a vertex-compile,
      fragment-compile or link failure, in that order, and on every path the shader objects
      it created are deleted again; the program stays alive only on success. */
  method CreateShader(g: GlState, d: Driver, vs: string, fs: string) returns (g': GlState, r: Result<nat>)
    requires Tracked(g)
    ensures Tracked(g') && g.next <= g'.next
    ensures r.Ok? <==> d.compiles(vs) && d.compiles(fs) && d.links(vs, fs)
    ensures !d.compiles(vs) ==> r == Err("createShader, vertex shader compilation:\n" + d.infoLog(vs))
    ensures d.compiles(vs) && !d.compiles(fs) ==> r == Err("createShader, fragment shader compilation:\n" + d.infoLog(fs))
    ensures d.compiles(vs) && d.compiles(fs) && !d.links(vs, fs) ==> r == Err("createShader, linking:\n" + d.infoLog(vs + fs))
    ensures r.Ok? ==> r.value !in g.live && g'.live == g.live + {r.value}
    ensures r.Err? ==> g'.live == g.live
    ensures g'.(next := g.next, live := g.live) == g
  {
    var vsHandle := g.next;
    g' := Create(g);
    if !d.compiles(vs) {
      g' := Delete(g', Some(vsHandle));
      return g', Err("createShader, vertex shader compilation:\n" + d.infoLog(vs));
    }
    var fsHandle := g'.next;
    g' := Create(g');
    if !d.compiles(fs) {
      g' := Delete(g', Some(vsHandle));
      g' := Delete(g', Some(fsHandle));
      return g', Err("createShader, fragment shader compilation:\n" + d.infoLog(fs));
    }
    var program := g'.next;
    g' := Create(g');
    g' := Delete(g', Some(vsHandle));
    g' := Delete(g', Some(fsHandle));
    if !d.links(vs, fs) {
      g' := Delete(g', Some(program));
      return g', Err("createShader, linking:\n" + d.infoLog(vs + fs));
    }
    return g', Ok(program);
  }

  /** The Int16 vertex data of the viewport quad: (x, y, u, v) per vertex of a triangle
      strip. */
  function QuadData(): (q: seq<int>)
    ensures |q| == 16
  {
    [-1, -1, 0, 0,
      1, -1, 1, 0,
     -1,  1, 0, 1,
      1,  1, 1, 1]
  }

  /** `makeViewPortSquad`: a new buffer with two SHORT attributes in an 8-byte stride. */
  function ViewPortQuad(g: GlState): (r: (GlState, Buffer))
    ensures r.1.vbo == g.next && r.0 == Create(g)
  {
    (Create(g),
     Buffer(g.next, None, None, 4, 8,
            [Attrib("aPos", 2, Short, false, 0, 0, 0), Attrib("aUV", 2, Short, false, 0, 0, 4)]))
  }

  /** The quad's four vertices are the four distinct corners of [−1, 1]², and each vertex's texture coordinate is
      (pos + 1)/2; the attributes sit at byte offsets 0 and 4 of the 8-byte (4-short) vertex. */
  lemma QuadCoversViewport(g: GlState)
    ensures var b := ViewPortQuad(g).1;
      b.itemCount * 4 == |QuadData()| && b.stride == 4 * 2 &&
      b.attribs[0].offset == 0 && b.attribs[1].offset == b.attribs[0].size * 2
    ensures forall v | 0 <= v < 4 ::
      (QuadData()[4 * v] == -1 || QuadData()[4 * v] == 1) &&
      (QuadData()[4 * v + 1] == -1 || QuadData()[4 * v + 1] == 1) &&
      2 * QuadData()[4 * v + 2] == QuadData()[4 * v] + 1 &&
      2 * QuadData()[4 * v + 3] == QuadData()[4 * v + 1] + 1
    ensures forall v, w | 0 <= v < w < 4 ::
      QuadData()[4 * v] != QuadData()[4 * w] || QuadData()[4 * v + 1] != QuadData()[4 * w + 1]
  {
  }

  // ---------------------------------------------------------------------------
  // The Context registry
  // ---------------------------------------------------------------------------

  /** A loaded shader: its program and the table naming the uniform setter of each uniform. */
  datatype Shader = Shader(program: nat, uniforms: map<string, string>)

  /** The table of `shader` names, for `uniform`, a method the rendering context has
      (`typeof gl[fn] === 'function'`); a missing entry names nothing. */
  predicate Settable(d: Driver, shader: Shader, uniform: string)
  {
    uniform in shader.uniforms && d.hasMethod(shader.uniforms[uniform])
  }

  predicate IsMatrixSetter(fn: string)
  {
    |fn| >= 13 && fn[..13] == "uniformMatrix"
  }

  function Lookup(m: map<string, nat>, name: string): Option<nat>
  {
    if name in m then Some(m[name]) else None
  }

  /** The upload `setUniform` issues: the table's setter at the uniform's location (null when
      the program has no such active uniform), with transpose=false for a matrix setter. */
  function UniformCall(d: Driver, shader: Shader, uniform: string, value: seq<real>): (e: Event)
    requires uniform in shader.uniforms
    ensures e.Uniform? && e.fn == shader.uniforms[uniform] && e.value == value
    ensures e.transpose == (if IsMatrixSetter(e.fn) then Some(false) else None)
    ensures e.target.Some? <==> d.uniformActive(shader.program, uniform)
  {
    var fn := shader.uniforms[uniform];
    var location := if d.uniformActive(shader.program, uniform) then Some(UniformLocation(shader.program, uniform)) else None;
    Uniform(fn, location, if IsMatrixSetter(fn) then Some(false) else None, value)
  }

  class Context {
    var gl: GlState
    const driver: Driver
    var textures: map<string, nat>
    var shaders: map<string, Shader>
    var activeShader: Option<Shader>
    const frameBuffer: nat
    const renderBuffer: nat
    const width: int
    const height: int
    const viewPortQuad: Buffer

    /** The GL tracks its handles, every registered texture is alive, and no two names
        share a texture. */
    ghost predicate Valid()
      reads this
    {
      Tracked(gl) &&
      (forall n | n in textures :: textures[n] in gl.live) &&
      (forall a, b | a in textures && b in textures && a != b :: textures[a] != textures[b])
    }

    /** The constructor: empty registries, a framebuffer, a renderbuffer and the viewport
        quad. */
    constructor(d: Driver, w: int, h: int, g0: GlState)
      requires Tracked(g0)
      ensures Valid()
      ensures driver == d && width == w && height == h
      ensures textures == map[] && shaders == map[] && activeShader.None?
      ensures frameBuffer == g0.next && renderBuffer == g0.next + 1
      ensures viewPortQuad == ViewPortQuad(Create(Create(g0))).1
      ensures gl == Create(Create(Create(g0)))
    {
      driver := d;
      width, height := w, h;
      textures, shaders, activeShader := map[], map[], None;
      frameBuffer := g0.next;
      renderBuffer := g0.next + 1;
      var g := Create(Create(g0));
      var q := ViewPortQuad(g);
      viewPortQuad := q.1;
      gl := q.0;
    }

    /** `setUniform`: throws on a null active shader, and "uniform not found!" when the
        active shader's table names no setter for the uniform; otherwise uploads the value
        at the uniform's location (null when the program has no such active uniform), with
        transpose=false for a matrix setter. */
    method SetUniform(uniform: string, value: seq<real>) returns (r: Result<()>)
      modifies this`gl
      ensures r.Ok? <==> activeShader.Some? && Settable(driver, activeShader.value, uniform)
      ensures r.Err? && activeShader.Some? ==> r.message == "uniform not found! " + uniform
      ensures r.Err? ==> gl == old(gl)
      ensures r.Ok? ==> gl == old(gl).(log := old(gl.log) + [UniformCall(driver, activeShader.value, uniform, value)])
    {
      if activeShader.None? {
        return Err("TypeError: activeShader is null");
      }
      var p := activeShader.value.program;
      var location := if driver.uniformActive(p, uniform) then Some(UniformLocation(p, uniform)) else None;
      // The source also rejects a location equal to −1, which a WebGL location never is.
      if uniform !in activeShader.value.uniforms || !driver.hasMethod(activeShader.value.uniforms[uniform]) {
        return Err("uniform not found! " + uniform);
      }
      var fn := activeShader.value.uniforms[uniform];
      if IsMatrixSetter(fn) {
        gl := gl.(log := gl.log + [Uniform(fn, location, Some(false), value)]);
      } else {
        gl := gl.(log := gl.log + [Uniform(fn, location, None, value)]);
      }
      r := Ok(());
    }

    /** `setAttribPointers`: fails only when there is an attribute to look up and no active
        shader; otherwise the GL ends as `SetPointers` describes. */
    method SetAttribPointers(buf: Buffer) returns (r: Result<()>)
      modifies this`gl
      ensures r.Err? <==> activeShader.None? && |buf.attribs| > 0
      ensures activeShader.None? ==> gl == old(gl)
      ensures activeShader.Some? ==> gl == SetPointers(old(gl), driver, activeShader.value.program, buf, |buf.attribs|)
    {
      if activeShader.None? {
        return if |buf.attribs| > 0 then Err("TypeError: activeShader is null") else Ok(());
      }
      var p := activeShader.value.program;
      SetPointersNone(gl, driver, p, buf);
      var i := 0;
      while i < |buf.attribs|
        invariant 0 <= i <= |buf.attribs|
        invariant gl == SetPointers(old(gl), driver, p, buf, i)
      {
        SetPointersStep(old(gl), driver, p, buf, i);
        PointAttrib(p, buf, i);
        i := i + 1;
      }
      r := Ok(());
    }

    /** One iteration of `setAttribPointers`: nothing for an attribute the program lacks;
        otherwise enable its array, set its pointer, and its divisor when `divide` is
        truthy. */
    method PointAttrib(p: nat, buf: Buffer, i: nat)
      requires i < |buf.attribs|
      modifies this`gl
      ensures gl == PointerStep(old(gl), driver, p, buf, i)
    {
      var attr := buf.attribs[i];
      var location := driver.attribLocation(p, attr.name);
      if location == -1 {
        return;
      }
      gl := EnableArray(gl, location);
      gl := AttribPointer(gl, location, attr.size, attr.glType, attr.normalized,
                          if attr.stride != 0 then attr.stride else buf.stride, attr.offset);
      if attr.divide != 0 {
        gl := SetDivisor(gl, location, attr.divide);
      }
    }

    /** `clearAttribPointers`: the same failure condition; otherwise the GL ends as
        `ClearPointers` describes. */
    method ClearAttribPointers(buf: Buffer) returns (r: Result<()>)
      modifies this`gl
      ensures r.Err? <==> activeShader.None? && |buf.attribs| > 0
      ensures activeShader.None? ==> gl == old(gl)
      ensures activeShader.Some? ==> gl == ClearPointers(old(gl), driver, activeShader.value.program, buf, |buf.attribs|)
    {
      if activeShader.None? {
        return if |buf.attribs| > 0 then Err("TypeError: activeShader is null") else Ok(());
      }
      var p := activeShader.value.program;
      ClearPointersNone(gl, driver, p, buf);
      var i := 0;
      while i < |buf.attribs|
        invariant 0 <= i <= |buf.attribs|
        invariant gl == ClearPointers(old(gl), driver, p, buf, i)
      {
        ClearPointersStep(old(gl), driver, p, buf, i);
        ClearAttrib(p, buf, i);
        i := i + 1;
      }
      r := Ok(());
    }

    /** One iteration of `clearAttribPointers`: nothing for an attribute the program lacks;
        otherwise enable and disable its array, and reset its divisor when `divide` is
        truthy. */
    method ClearAttrib(p: nat, buf: Buffer, i: nat)
      requires i < |buf.attribs|
      modifies this`gl
      ensures gl == ClearStep(old(gl), driver, p, buf, i)
    {
      var attr := buf.attribs[i];
      var location := driver.attribLocation(p, attr.name);
      if location == -1 {
        return;
      }
      gl := EnableArray(gl, location);
      gl := DisableArray(gl, location);
      if attr.divide != 0 {
        gl := SetDivisor(gl, location, 0);
      }
    }

    /** `deleteTexture`: deletes the named texture (a no-op for an unknown name) and removes
        the name; other names keep their live textures. */
    method DeleteTexture(name: string)
      requires Valid()
      modifies this`gl, this`textures
      ensures Valid()
      ensures textures == old(textures) - {name}
      ensures gl == Delete(old(gl), Lookup(old(textures), name))
      ensures name in old(textures) ==> old(textures)[name] !in gl.live
    {
      gl := Delete(gl, Lookup(textures, name));
      textures := textures - {name};
    }

    /** `createTexture`: deletes any texture already under the name, then registers a fresh,
        live one (bound and unbound again on the active unit); other names are untouched. */
    method CreateTexture(name: string)
      requires Valid()
      modifies this`gl, this`textures
      ensures Valid()
      ensures name in textures && textures[name] !in old(gl.live) && textures[name] in gl.live
      ensures forall n | n in old(textures) && n != name :: n in textures && textures[n] == old(textures)[n]
      ensures textures.Keys == old(textures).Keys + {name}
      ensures name in old(textures) ==> old(textures)[name] !in gl.live
      ensures gl.units == old(gl.units)[old(gl.activeUnit) := None]
      ensures gl == old(gl).(next := gl.next, live := gl.live, units := gl.units)
      ensures textures[name] == old(gl.next) && gl.next == old(gl.next) + 1
      ensures gl.live == old(gl.live) - (if name in old(textures) then {old(textures)[name]} else {}) + {textures[name]}
    {
      if name in textures {
        DeleteTexture(name);
      }
      var t := gl.next;
      assert forall n | n in textures :: textures[n] != t;
      gl := NewTexture(gl);
      textures := textures[name := t];
    }

    /** `loadShader`: on success the name maps to the new program and the given table;
        a failure propagates and leaves the registry as it was. */
    method LoadShader(name: string, vs: string, fs: string, uniforms: map<string, string>) returns (r: Result<()>)
      requires Valid()
      modifies this`gl, this`shaders
      ensures Valid()
      ensures r.Ok? <==> driver.compiles(vs) && driver.compiles(fs) && driver.links(vs, fs)
      ensures r.Ok? ==>
        name in shaders && shaders == old(shaders)[name := shaders[name]] &&
        shaders[name].uniforms == uniforms && shaders[name].program !in old(gl.live) && shaders[name].program in gl.live
      ensures r.Err? ==> shaders == old(shaders) && gl.live == old(gl.live)
      ensures r.Ok? ==> gl.live == old(gl.live) + {shaders[name].program}
      ensures gl == old(gl).(next := gl.next, live := gl.live)
    {
      var g', p := CreateShader(gl, driver, vs, fs);
      gl := g';
      if p.Err? {
        return Err(p.message);
      }
      shaders := shaders[name := Shader(p.value, uniforms)];
      r := Ok(());
    }

    /** `useShader`: `Some(name)` makes `shaders[name]` active and uses its program, and
        throws when no shader has that name (after clearing the active shader);
        `None` clears the active shader and unbinds the program. */
    method UseShader(name: Option<string>) returns (r: Result<()>)
      modifies this`gl, this`activeShader
      ensures r.Err? <==> name.Some? && name.value !in shaders
      ensures name.Some? && name.value in shaders ==>
        activeShader == Some(shaders[name.value]) && gl == old(gl).(program := Some(shaders[name.value].program))
      ensures name.None? ==> activeShader.None? && gl == old(gl).(program := None)
      ensures r.Err? ==> activeShader.None? && gl == old(gl)
    {
      if name.Some? {
        if name.value !in shaders {
          activeShader := None;
          return Err("TypeError: activeShader is undefined");
        }
        activeShader := Some(shaders[name.value]);
        gl := UseProgram(gl, Some(activeShader.value.program));
      } else {
        activeShader := None;
        gl := UseProgram(gl, None);
      }
      r := Ok(());
    }

    /** `bindDrawToTexture(...names)`: binds the context's framebuffer, attaches the texture
        of `names[i]` (null for an unknown name) as colour attachment i and the `rawDepth`
        texture as depth attachment, and leaves no texture bound on the active unit.  Every
        other attachment point, of this or any framebuffer, is untouched.  The depth state, the program and the log are untouched. */
    method BindDrawToTexture(names: seq<string>)
      modifies this`gl
      ensures gl.framebuffer == Some(frameBuffer)
      ensures forall i | 0 <= i < |names| ::
        (frameBuffer, ColorAttachment(i)) in gl.attachments &&
        gl.attachments[(frameBuffer, ColorAttachment(i))] == Lookup(textures, names[i])
      ensures (frameBuffer, DepthAttachment) in gl.attachments &&
        gl.attachments[(frameBuffer, DepthAttachment)] == Lookup(textures, "rawDepth")
      ensures FramedBy(old(gl.attachments), gl.attachments, frameBuffer, |names|, true)
      ensures gl.units == old(gl.units)[gl.activeUnit := None]
      ensures gl == old(gl).(framebuffer := gl.framebuffer, attachments := gl.attachments, units := gl.units)
    {
      gl := BindFramebuffer(gl, Some(frameBuffer));
      var i := 0;
      while i < |names|
        invariant 0 <= i <= |names|
        invariant Attached(old(gl), names, i)
      {
        AttachColor(old(gl), names, i);
        i := i + 1;
      }
      AttachDepth(old(gl), names);
    }

    /** The end of `bindDrawToTexture`: attach `rawDepth` as the depth attachment and unbind
        the texture of the active unit. */
    method AttachDepth(ghost g0: GlState, names: seq<string>)
      requires Attached(g0, names, |names|)
      modifies this`gl
      ensures gl.framebuffer == Some(frameBuffer)
      ensures forall i | 0 <= i < |names| ::
        (frameBuffer, ColorAttachment(i)) in gl.attachments &&
        gl.attachments[(frameBuffer, ColorAttachment(i))] == Lookup(textures, names[i])
      ensures (frameBuffer, DepthAttachment) in gl.attachments &&
        gl.attachments[(frameBuffer, DepthAttachment)] == Lookup(textures, "rawDepth")
      ensures FramedBy(g0.attachments, gl.attachments, frameBuffer, |names|, true)
      ensures gl.units == g0.units[gl.activeUnit := None]
      ensures gl == g0.(framebuffer := gl.framebuffer, attachments := gl.attachments, units := gl.units)
    {
      FramedDepth(gl.attachments, g0.attachments, frameBuffer, |names|, Lookup(textures, "rawDepth"));
      gl := FramebufferTexture(gl, DepthAttachment, Lookup(textures, "rawDepth"));
      gl := BindTexture(gl, None);
    }

    /** The state of `bindDrawToTexture` after its first `i` colour attachments: the
        framebuffer is bound, attachment k holds the texture of `names[k]`, every other
        attachment point is untouched, the active unit holds the last texture bound,
        and nothing else has changed since `g0`. */
    ghost predicate Attached(g0: GlState, names: seq<string>, i: nat)
      reads this
    {
      i <= |names| &&
      gl == g0.(framebuffer := Some(frameBuffer), attachments := gl.attachments, units := gl.units) &&
      (forall k | 0 <= k < i ::
        (frameBuffer, ColorAttachment(k)) in gl.attachments &&
        gl.attachments[(frameBuffer, ColorAttachment(k))] == Lookup(textures, names[k])) &&
      FramedBy(g0.attachments, gl.attachments, frameBuffer, i, false) &&
      (i > 0 ==> gl.units == g0.units[gl.activeUnit := Lookup(textures, names[i - 1])]) &&
      (i == 0 ==> gl.units == g0.units)
    }

    /** One iteration of `bindDrawToTexture`: bind the texture of `names[i]` and attach it as
        colour attachment i. */
    method AttachColor(ghost g0: GlState, names: seq<string>, i: nat)
      requires i < |names| && Attached(g0, names, i)
      modifies this`gl
      ensures Attached(g0, names, i + 1)
    {
      var texture := Lookup(textures, names[i]);
      FramedColor(gl.attachments, g0.attachments, frameBuffer, i, texture);
      gl := BindTexture(gl, texture);
      gl := FramebufferTexture(gl, ColorAttachment(i), texture);
    }
  }
}
