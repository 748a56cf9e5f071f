# Molecule viewer core, modelled and proved in Dafny

This project models the sequential, deterministic core of a WebGL molecule viewer:

- the 4×4 matrix class `Matrix4`;
- the base-256 GLSL value codec (`pack_f`/`unpack_f`/`pack_i`/`unpack_i`);
- the first-pass and compositing shaders, as functions of their inputs;
- the instanced sphere buffer and its 9-slot (or 7-slot) instance records;
- the WebGL `Context` registry and the G-buffer pass sequence, against an abstract GL recorder. The recorder holds live handles, depth state, framebuffer, texture units, enabled arrays, divisors and a call log;
- PDB column slicing and first-match atom-group lookup;
- the `.inp` configuration parser;
- the view-matrix update;
- the prototype renderer of `data/index.js`;
- the mesh indexer `genidx.py`.

Arithmetic is over exact reals and unbounded integers. Whatever is foreign to the code is a parameter of the model:

- the driver's compile, link and location answers;
- `Number()` and `float()` parsing, and `'{:.2f}'` formatting;
- `sin`, `cos`, `exp` and `sqrt`;
- `Math.random()`.

Modules, one per file:

- `Outcomes` (outcomes.dfy): `Option` and `Result`.
- `Matrix` (matrix.dfy): values `Mat`, and the class `Matrix4` over an `array2<real>`.
- `GlslPack` (glsl_pack.dfy): the GLSL built-ins `floor`, `fract`, `mod`, `min`, `max`, `clamp` and `step`, and the codec.
- `InitialShader` (initial_shader.dfy): `sharedVs`, `colorShader` and `layersShader`.
- `PostProcess` (post_process.dfy): `ssao`, `subunit_outline`, `subunit_second_outline` and `main`.
- `InstanceBuffer` (instance_buffer.dfy): `makeSphereIndexedVbo` and `makeInstanceData`.
- `GlContext` (gl_context.dfy): the GL recorder, `createShader`, the viewport quad, and the class `Context`.
- `Pipeline` (pipeline.dfy): `draw`, `drawSpheres` and `postProcess`.
- `Pdb` (pdb.dfy): `parseAtom`, `findAtomGroup` and `loadPdb`.
- `Molecule` (molecule.dfy): `atomGroups` and the record loop of `loadData`.
- `View` (view.dfy): `updateViewMatrix`.
- `InpConfig` (config.dfy): the classes `Config` and `Lines`, and `parseInp`.
- `MeshIndex` (genidx.dfy): the dedup and triangle loop, `aligned` and `short`.
- `Prototype` (prototype.dfy): the free-standing `setAttribPointers`/`setUniform` and the depth pass.
- `Strings` (text.dfy): split and join on one character.

Where the source updates state in place, the model does too:

- `Matrix4`'s `aspect` and `scale` write its array.
- `Context` is a class whose methods change its `gl`, `textures`, `shaders` and `activeShader` fields.
- The record loops fill an `array`.
- `Config`, `Lines`, `MouseInfo` and `Viewer` are classes with the source's fields.

Each such method is proved against a function of the old state. The properties are lemmas about those functions.

## Model

A function that gives a source computation as a value has a row too. Its row names the lemmas that state its properties. The operations follow the program as written. Where that is wrong, the corrected version is listed under Findings and is used only there.

| member | source | states |
|---|---|---|
| Matrix.Zero | src/matrix.js:16-23 | all sixteen entries of `zero()` are 0 |
| Matrix.Unit | src/matrix.js:24-31 | entry (i, j) of `unit()` is 1 on the diagonal and 0 elsewhere |
| Matrix.Matrix4.MakeZero | src/matrix.js:16-23 | `Matrix4.zero()` is a fresh matrix whose value is `Zero()` |
| Matrix.Matrix4.MakeUnit | src/matrix.js:24-31 | `Matrix4.unit()` is a fresh matrix whose value is `Unit()` |
| Matrix.Matrix4.MakeRotX | src/matrix.js:32-41 | `rotX` is a fresh matrix holding the x rotation for the given sine and cosine |
| Matrix.Matrix4.MakeRotY | src/matrix.js:42-51 | `rotY` is a fresh matrix holding the y rotation for the given sine and cosine |
| Matrix.Matrix4.MakeRotZ | src/matrix.js:52-61 | `rotZ` is a fresh matrix holding the z rotation for the given sine and cosine |
| Matrix.RotX | src/matrix.js:32-41 | the entries of `rotX` for a given sine and cosine; `RotationsKeepTheirAxis` and `RotationsOrthonormal` state what a rotation keeps |
| Matrix.RotY | src/matrix.js:42-51 | the entries of `rotY`; the same two lemmas cover it |
| Matrix.RotZ | src/matrix.js:52-61 | the entries of `rotZ`; the same two lemmas cover it |
| Matrix.Product | src/matrix.js:72-86 | the value `mul` computes; `MulEntry` gives its entries, `MulAssoc`, `UnitLeft` and `UnitRight` its algebra, and `MulNotCommutative` that order matters |
| Matrix.RotationsKeepTheirAxis | src/matrix.js:32-61 | each rotation keeps its own axis row and column, and the homogeneous row and column, as unit vectors |
| Matrix.RotationsOrthonormal | src/matrix.js:32-61 | when sin² + cos² = 1, each rotation times its transpose is the identity |
| Matrix.MulEntry | src/matrix.js:72-86 | entry (i, j) of the product is Σ_k a[i][k]·b[k][j] |
| Matrix.UnitLeft | src/matrix.js:72-86 | `unit()` is a left identity of `mul` |
| Matrix.UnitRight | src/matrix.js:72-86 | `unit()` is a right identity of `mul` |
| Matrix.MulAssoc | src/matrix.js:72-86 | `mul` is associative over exact reals |
| Matrix.MulNotCommutative | src/matrix.js:72-86 | `mul` is not commutative: the quarter turns about x and about y give different products in the two orders |
| Matrix.Aspected | src/matrix.js:63-69 | row 0 is divided by the aspect; rows 1–3 are unchanged |
| Matrix.Scaled | src/matrix.js:88-96 | rows 0–2, translation column included, are multiplied by s; row 3 is unchanged |
| Matrix.AffineEntry | src/matrix.js:99-110 | `apply3(v)[i]` = v·row i + data[i][3] |
| Matrix.AffineIgnoresRow3 | src/matrix.js:99-110 | replacing row 3 does not change `apply3` |
| Matrix.AffineUnit | src/matrix.js:99-110 | `unit().apply3(v) == v` |
| Matrix.DecomposeRotation | src/matrix.js:123-129 | rotation[r][c]·scale[r] = data[r][c] for r, c < 3; row 3 and column 3 stay those of the identity |
| Matrix.Translation | src/matrix.js:117 | the translation is column 3 of rows 0–2 |
| Matrix.Flat | dist/index.js:883 | `data.flat()` has 16 entries, with entry (i, j) at 4i + j |
| Matrix.UploadTransposes | dist/index.js:421-422 | a row-major upload read column-major (transpose = false) gives the shader the transpose of the matrix |
| Matrix.Matrix4.constructor | src/matrix.js:13-15 | a new matrix holds exactly the given rows in fresh storage |
| Matrix.Matrix4.Aspect | src/matrix.js:63-69 | in place and returning the receiver, the new value is `Aspected` of the old one |
| Matrix.Matrix4.Scale | src/matrix.js:88-96 | in place and returning the receiver, the new value is `Scaled` of the old one |
| Matrix.Matrix4.Entry | src/matrix.js:80-82 | the inner loop of `mul` sums row i against column j |
| Matrix.Matrix4.MulRow | src/matrix.js:79-83 | one row of the product is written into the output; its other rows keep their values |
| Matrix.Matrix4.Mul | src/matrix.js:72-86 | a fresh matrix holds the product; neither operand changes |
| Matrix.Matrix4.Apply3 | src/matrix.js:99-110 | the result is the affine image of the vector |
| Matrix.Matrix4.DivideRow | src/matrix.js:126-128 | columns 0–2 of one rotation row are this matrix's row divided by the row length; nothing else changes |
| Matrix.Matrix4.Decompose | src/matrix.js:115-135 | the translation column, and a fresh rotation matrix equal to `DecomposeRotation` |
| GlslPack.Floor | src/shaders/glsl-pack.js:17 | floor(x) ≤ x < floor(x) + 1 |
| GlslPack.Fract | src/shaders/glsl-pack.js:7 | fract(x) lies in [0, 1) and differs from x by an integer |
| GlslPack.Min | src/shaders/post-process.js:93 | `min` is one of its arguments and at most both |
| GlslPack.Max | src/shaders/post-process.js:115-117 | `max` is one of its arguments and at least both |
| GlslPack.Clamp | src/shaders/post-process.js:97 | `clamp` lies in [lo, hi], is x inside the range, and is the nearer bound outside it |
| GlslPack.Step | src/shaders/post-process.js:36 | `step(edge, x)` is 1 exactly when x ≥ edge, and 0 otherwise |
| GlslPack.Frac256 | src/shaders/glsl-pack.js:7 | every raw channel fract(256^k·v) lies in [0, 1) |
| GlslPack.PackF | src/shaders/glsl-pack.js:6-10 | `pack_f` as a value; `PackFChannels` gives its channels and `FloatRoundTrip` that `UnpackF` recovers fract(v) from it |
| GlslPack.UnpackF | src/shaders/glsl-pack.js:12-14 | `unpack_f` as a value; on [0, 1) it inverts `PackF` (`FloatRoundTripInUnitInterval`) |
| GlslPack.PackFChannels | src/shaders/glsl-pack.js:6-10 | `pack_f(v)` = (f3, f2 − f3/256, f1 − f2/256, f0 − f1/256) with f_k = fract(256^k·v), because the correction reads `comp` before it is updated |
| GlslPack.FloatRoundTrip | src/shaders/glsl-pack.js:6-14 | `unpack_f(pack_f(v)) == fract(v)` for every v: values outside [0, 1) wrap |
| GlslPack.FloatRoundTripInUnitInterval | src/shaders/glsl-pack.js:6-14 | values in [0, 1) round-trip exactly |
| GlslPack.PackFQuantised | src/shaders/glsl-pack.js:6-10 | channels y, z and w are d/256 for a whole d in 0..255; channel x lies in [0, 1) |
| GlslPack.DepthDecode | data/index.js:269-284 | the prototype depth pass decodes depths in [0, 1) to themselves, and depths in [−1, 0) to z + 1 |
| GlslPack.Digit | src/shaders/glsl-pack.js:17 | each base-256 digit lies in 0..255 |
| GlslPack.PackI | src/shaders/glsl-pack.js:16-18 | `pack_i` as a value; `PackIDigits` shows its channels are the base-256 digits over 255 |
| GlslPack.UnpackI | src/shaders/glsl-pack.js:20-22 | `unpack_i` as a value; it inverts `PackI` modulo 2^32 (`IntRoundTrip`) |
| GlslPack.PackIDigits | src/shaders/glsl-pack.js:16-18 | channel c of `pack_i(n)` is the base-256 digit of n at place 256^(3−c), divided by 255 |
| GlslPack.PackIQuantised | src/shaders/glsl-pack.js:17 | every `pack_i` channel is k/255 for a whole k in 0..255 |
| GlslPack.DigitsRebuild | src/shaders/glsl-pack.js:21 | the four digits weighted by `bitSh` give n mod 2^32 |
| GlslPack.IntRoundTrip | src/shaders/glsl-pack.js:16-22 | `unpack_i(pack_i(n)) == n mod 2^32` for every whole n |
| GlslPack.IntRoundTripBelow32Bits | src/shaders/glsl-pack.js:16-22 | `unpack_i(pack_i(n)) == n` for 0 ≤ n < 2^32 |
| InitialShader.Mirror | src/shaders/initial.js:23 | the instance location is mirrored in z |
| InitialShader.SharedVertex | src/shaders/initial.js:1-26 | the vertex stage passes the colour through unchanged |
| InitialShader.PositionUsesTranspose | src/shaders/initial.js:24-25 | with the `data.flat()` upload, the vertex lands at the transpose's affine image of the radius-scaled, mirrored placement |
| InitialShader.PlacementUnderIdentity | src/shaders/initial.js:23-25 | under the identity view matrix, the vertex is aPos·aRadius + (x, y, −z) |
| InitialShader.IgnoresTime | src/shaders/initial.js:17-19 | the vertex outputs do not depend on `uTime` |
| InitialShader.LittleEndianBytes | src/index.js:70-72 | a uint32 written through a `Uint32Array` is four bytes in 0..255 |
| InitialShader.UnsignedShort | src/index.js:54-57 | an UNSIGNED_SHORT component read from two bytes lies in 0..65535 |
| InitialShader.HalvesRebuild | src/shaders/initial.js:21-22 | a uint32 written into a slot and read back as two 16-bit halves is rebuilt exactly as `vIndex`/`vGroup` |
| InitialShader.ColorFragment | src/shaders/initial.js:40 | the colour pass emits the colour with alpha 1 |
| InitialShader.LayersFragment | src/shaders/initial.js:55-60 | the `layersShader` colour; `LayersDepthOrder` states its depth order and channels |
| InitialShader.LayersDepthOrder | src/shaders/initial.js:55-60 | the layers depth channel maps z ∈ [−1, 1] strictly decreasingly onto [0, 1], and carries index, group and alpha 1 |
| InstanceBuffer.Uint32 | src/index.js:72 | a `Uint32Array` store keeps values below 2^32 and is congruent to the input modulo 2^32 |
| InstanceBuffer.NewSlots | src/index.js:21 | `new Float32Array(n)` is n zero slots |
| InstanceBuffer.Set | src/index.js:22-23 | `a.set(src, offset)` writes `src` from `offset` and leaves every other slot alone |
| InstanceBuffer.MakeSphereIndexedVbo | src/index.js:14-60 | the data is the sphere coordinates followed by the instances (or the default one); two buffers are created; item count, stride 12 and attribute layout; count = instances.length/9 (instances.length/7 in the prototype variant, data/index.js:313-355) |
| InstanceBuffer.AttribLayout | src/index.js:44-58 | `aPos` has offset 0, the buffer stride and no divisor; the instance fields sit at 4·coords + 4·{0,3,4,7,8}, stride 36, divisor 1, over disjoint byte ranges; in the prototype (data/index.js:344-353) at instOffset + {0,12,16}, stride 28 |
| InstanceBuffer.InstanceReadsOwnRecord | src/index.js:37-58 | instance n reads attribute j from its own record, at slot coords + n·width + field slot |
| InstanceBuffer.InstanceCount | src/index.js:15-42 | the count is exactly the record count for whole records, and 4/9 for the default instances (not floored); 4/7 in the prototype (data/index.js:314-341) |
| InstanceBuffer.DemoRecord | src/index.js:66-70 | every demonstration record has nine slots |
| InstanceBuffer.MakeInstanceData | src/index.js:62-75 | slot p of the result is slot p mod 9 of record p / 9 |
| InstanceBuffer.DemoIndexIsGroup | src/index.js:69-72 | each demonstration record has radius 0.03, and its own index as both uint32 index and group |
| InstanceBuffer.PrototypeRecord | data/index.js:360-364 | every prototype record has seven slots |
| InstanceBuffer.MakePrototypeInstanceData | data/index.js:357-368 | three 7-slot records, record i at slots 7i..7i+6 |
| GlContext.Initial | src/glutil.js:149 | a fresh context tracks its handles, has the depth test off with `LESS`, and uses the default framebuffer |
| GlContext.Create | src/glutil.js:159-160 | a created object gets the next handle, which was not live |
| GlContext.Delete | src/glutil.js:242 | deleting removes the handle from the live set; deleting null does nothing |
| GlContext.LocatedMembers | src/glutil.js:193-196 | a location is enabled (given a divisor) exactly when some attribute (with `divide`) that the program has is at it |
| GlContext.PointerCallsQuiet | src/glutil.js:187-209 | `setAttribPointers` logs only pointer and divisor calls, never a clear or a draw |
| GlContext.DivisorsAfterGiven | src/glutil.js:187-227 | after the loop, the instanced located attributes have their divisor (0 after a clear) and every other divisor is unchanged |
| GlContext.PointerStepEffect | src/glutil.js:190-208 | one iteration enables a located array, logs its pointer (stride `attr.stride` or else `vbo.stride`) and sets a divisor only when `divide` is truthy |
| GlContext.SetPointersStep | src/glutil.js:190-208 | one more iteration moves the closed form from i attributes to i + 1 |
| GlContext.ClearCallsAreResets | src/glutil.js:210-227 | `clearAttribPointers` logs only divisor resets to 0 of instanced located attributes |
| GlContext.ClearStepEffect | src/glutil.js:213-226 | one clear iteration disables a located array and resets the divisor of an instanced one |
| GlContext.ClearPointersStep | src/glutil.js:213-226 | one more clear iteration moves the closed form from i attributes to i + 1 |
| GlContext.PointerCallsSound | src/glutil.js:187-209 | every logged call comes from an attribute the program has; none targets −1 |
| GlContext.PointerCallsComplete | src/glutil.js:187-209 | every attribute the program has gets its pointer call, and its divisor call when instanced |
| GlContext.ClearUndoesSet | src/glutil.js:187-227 | clearing right after setting leaves enabled only what was enabled outside the located set, and every instanced divisor at 0 |
| GlContext.CreateShader | src/glutil.js:38-80 | it fails with the right message on vertex-compile, fragment-compile or link failure; only on success does a new live program remain; nothing else changes |
| GlContext.QuadData | src/glutil.js:91-96 | the quad data has 16 shorts |
| GlContext.ViewPortQuad | src/glutil.js:90-111 | the quad buffer is the next created handle |
| GlContext.QuadCoversViewport | src/glutil.js:90-111 | the four vertices are the distinct corners of [−1, 1]², each with UV = (pos + 1)/2, read as two SHORT attributes with stride 8 |
| GlContext.UniformCall | dist/index.js:414-426 | the upload calls the table's setter with the value, at the uniform's location (null when inactive), and passes transpose = false exactly for a matrix setter |
| GlContext.Context.constructor | src/glutil.js:143-162 | empty registries, no active shader, and a new framebuffer, renderbuffer and viewport quad |
| GlContext.Context.SetUniform | dist/index.js:414-426 | it succeeds exactly when there is an active shader whose table names an existing setter; the error is "uniform not found! " + name; on success exactly one upload is logged, otherwise nothing changes |
| GlContext.Context.SetAttribPointers | src/glutil.js:187-209 | it fails only without an active shader and with attributes to look up; otherwise the GL ends in the `SetPointers` closed form |
| GlContext.Context.PointAttrib | src/glutil.js:191-207 | one iteration is `PointerStep` |
| GlContext.Context.ClearAttribPointers | src/glutil.js:210-227 | the same failure condition; otherwise the GL ends in the `ClearPointers` closed form |
| GlContext.Context.ClearAttrib | src/glutil.js:214-225 | one iteration is `ClearStep` |
| GlContext.Context.DeleteTexture | src/glutil.js:241-244 | the name leaves the registry and its texture is deleted; an unknown name deletes nothing |
| GlContext.Context.CreateTexture | src/glutil.js:232-237 | the old texture of the name is deleted; the name maps to the next fresh handle, which becomes live; the live set loses exactly the old texture and gains exactly the new one; other names are untouched; nothing else in the GL state changes but the handle counter and the active unit's binding |
| GlContext.Context.LoadShader | src/glutil.js:249-256 | it succeeds exactly when both stages compile and link; then the name maps to the new program and table; on failure the registry is unchanged |
| GlContext.Context.UseShader | src/glutil.js:258-266 | an unknown name fails; a known one becomes active and its program is used; null clears the active shader |
| GlContext.Context.BindDrawToTexture | src/glutil.js:268-281 | the context's framebuffer is bound, names[i] is attached at COLOR_ATTACHMENT0+i, `rawDepth` is the depth attachment; every other attachment point, of this or another framebuffer, keeps its texture and no other point is added (`FramedBy`) |
| GlContext.Context.AttachColor | src/glutil.js:272-276 | one iteration attaches the next colour texture |
| GlContext.Context.AttachDepth | src/glutil.js:278-280 | after the colour loop, `rawDepth` is attached as depth, the active unit is unbound, and only the colour points and the depth point differ from the state before the call |
| GlContext.FramedColor | src/glutil.js:272-276 | attaching colour point n widens the set of changed attachment points by exactly that point |
| GlContext.FramedDepth | src/glutil.js:278 | attaching the depth point widens the set of changed attachment points by exactly that point |
| Pipeline.PassEvents | src/index.js:96-110 | the clears and draws of the first k G-buffer passes; `PassEventsAt` gives them event by event |
| Pipeline.PassEventsAt | src/index.js:90-110 | pass i draws into the framebuffer with the depth test on; pass 0 clears colour and depth under `LESS`; every later pass clears colour only under `EQUAL` |
| Pipeline.BoundUnits | src/index.js:143-148 | the texture units after the bind loop; `BoundUnitsAt` gives them unit by unit |
| Pipeline.BoundUnitsAt | src/index.js:143-148 | unit k holds the texture of `textureBinds[k]`; every other unit is unchanged |
| Pipeline.DrawSpheres | src/index.js:115-125 | it fails only without an active shader; on success one instanced draw is logged between setting and clearing the pointers, and nothing else changes |
| Pipeline.TargetPass | src/index.js:98-106 | a pass draws into its texture and clears colour and depth on pass 0, colour only under `EQUAL` after |
| Pipeline.RenderPass | dist/index.js:871-885 | a pass runs exactly when its shader is loaded with the setters it needs; its clear and draw are appended |
| Pipeline.SetViewUniforms | dist/index.js:882-883 | `uTime` and `uViewMatrix` upload exactly when both are settable, and they log no clear or draw |
| Pipeline.TargetScreen | src/index.js:136-140 | the default framebuffer with the depth test off, and one colour-and-depth clear |
| Pipeline.PostProcess | src/index.js:131-163 | the composite runs exactly when its shader names a setter for `uRes` and every sampler; it draws one quad on screen with the depth test off, and every unit it bound is unbound |
| Pipeline.SetResolution | src/index.js:150 | `uRes` uploads exactly when settable, with no clear or draw |
| Pipeline.BindSamplers | src/index.js:143-148 | it succeeds exactly when every sampler uniform is settable; then unit k holds `textureBinds[k]` |
| Pipeline.BindSampler | src/index.js:144-147 | one unit gets its texture and the sampler its unit number |
| Pipeline.UnbindUnits | src/index.js:158-161 | units 0..n−1 are left empty and nothing else changes |
| Pipeline.DrawQuad | src/index.js:152-156 | the quad is drawn as one strip and its pointers are cleared again |
| Pipeline.NextPass | src/index.js:96-110 | pass i runs exactly when ready, and extends the pass events of the first i passes |
| Pipeline.GBufferPasses | src/index.js:90-110 | the depth test is on with `LESS`; the passes run in order, each ready, with exactly the clears and draws of `PassEvents` |
| Pipeline.DrawFrame | dist/index.js:858-890 | a frame succeeds exactly when every pass and the composite are ready; its clears and draws are the G-buffer passes followed by the composite |
| Pipeline.DistFrameRuns | dist/index.js:856-905 | with dist's shaders loaded on a WebGL 1.0 context, the `['color','layers']` frame can run |
| Pipeline.SrcFrameFails | src/index.js:127-130 | src's bindings name `uGroup`/`uIndex`, which the post-process table lacks, so its frame always fails |
| PostProcess.Abs | src/shaders/post-process.js:90 | \|x\| is non-negative and is x or −x |
| PostProcess.Vote | src/shaders/post-process.js:33-36 | an offset votes (1) exactly when it lies in the radius-50 disc and its sample lies behind z + 1/80 + len/400 |
| PostProcess.RowVotes | src/shaders/post-process.js:32-37 | a row of n offsets has between 0 and n votes |
| PostProcess.GridVotes | src/shaders/post-process.js:31-38 | n rows have between 0 and 21n votes |
| PostProcess.SsaoOf | src/shaders/post-process.js:23-40 | the occlusion term as a value; `Ssao` computes it, `SsaoBounds`, `SsaoBackground` and `SsaoFlat` bound it |
| PostProcess.Ssao | src/shaders/post-process.js:23-40 | the nested loops compute `SsaoOf`: 0 for background, else 0.002 per vote |
| PostProcess.SsaoBounds | src/shaders/post-process.js:31-39 | the occlusion lies in [0, 0.882] |
| PostProcess.SsaoBackground | src/shaders/post-process.js:24-27 | a background pixel (depth ≤ 0) has no occlusion |
| PostProcess.SsaoFlat | src/shaders/post-process.js:31-39 | a flat depth field gives no occlusion (no self-occlusion) |
| PostProcess.Differs | src/shaders/post-process.js:60 | a texel counts exactly when its group differs from the centre's |
| PostProcess.RowChanges | src/shaders/post-process.js:55-63 | a row of n texels has between 0 and n changes |
| PostProcess.WindowChanges | src/shaders/post-process.js:54-64 | n rows have between 0 and 5n changes |
| PostProcess.SubunitOutlineOf | src/shaders/post-process.js:47-67 | the subunit outline as a value; `SubunitOutline` computes it, `SubunitOutlineBounds` and `SingleGroupWindow` bound it |
| PostProcess.SubunitOutline | src/shaders/post-process.js:47-67 | the loops compute (changes − 3)/7 |
| PostProcess.SubunitOutlineBounds | src/shaders/post-process.js:54-66 | the centre never differs, so the outline lies in [−3/7, 3] |
| PostProcess.CornersSkipped | src/shaders/post-process.js:89 | i²j² = 16 holds exactly at the four corners of the 5×5 window |
| PostProcess.Discontinuity | src/shaders/post-process.js:88-93 | a texel contributes between 0 and 1, and nothing when its depth equals the centre's |
| PostProcess.ColumnJumps | src/shaders/post-process.js:86-94 | n texels of a column contribute between 0 and n |
| PostProcess.WindowJumps | src/shaders/post-process.js:85-95 | n columns contribute between 0 and 5n |
| PostProcess.SecondOutlineOf | src/shaders/post-process.js:75-107 | the depth outline as a value; `SecondOutline` computes and bounds it, `FlatWindow` gives 0 on flat depth |
| PostProcess.SecondOutline | src/shaders/post-process.js:75-107 | the loops compute `SecondOutlineOf`, and the result lies in [0, 1]; `l_count` never exceeds 1, so the averaging branch is dead |
| PostProcess.ShadowOf | src/shaders/post-process.js:112-113 | the shadow factor lies in [0.3, 1] |
| PostProcess.OutlineOf | src/shaders/post-process.js:114-116 | the outline is at least 0 and at least both outline terms |
| PostProcess.DarkeningOf | src/shaders/post-process.js:112-119 | the factor applied to rgb lies in [0, 1] |
| PostProcess.Composite | src/shaders/post-process.js:109-121 | `main` is `Shade` of the three neighbourhood terms |
| PostProcess.Shade | src/shaders/post-process.js:109-121 | the final colour from the three terms; `ShadePixel`, `ShadeDarkens` and `FlatPassesThrough` state what it does |
| PostProcess.ShadePixel | src/shaders/post-process.js:112-120 | the arithmetic of `main`, given the three terms |
| PostProcess.ShadeDarkens | src/shaders/post-process.js:117-119 | every non-negative colour channel ends between 0 and its input, and alpha never drops |
| PostProcess.FlatPassesThrough | src/shaders/post-process.js:47-120 | a flat, single-group neighbourhood with z > 0 leaves the pixel unchanged |
| Pdb.Slice | src/pdb.js:17-20 | a slice inside the string is `s[a..b]`; one past the end is shortened |
| Pdb.TrimStartSpec | src/pdb.js:17 | what `trimStart` drops is white space, and what it keeps does not start with white space |
| Pdb.TrimEndSpec | src/pdb.js:19 | what `trimEnd` drops is white space, and what it keeps does not end with white space |
| Pdb.TrimEnds | src/pdb.js:17 | the trimmed text neither starts nor ends with white space |
| Pdb.TrimDropsSpaces | src/pdb.js:21 | the trimmed text is a piece of the input with only white space on either side |
| Pdb.SpaceFromSpec | src/pdb.js:21 | the first white space at or after i, or the end |
| Pdb.RunEndSpec | src/pdb.js:21 | the end of the white-space run that starts at i |
| Pdb.SplitTrimmed | src/pdb.js:21 | splitting trimmed text on `/\s+/` gives non-empty tokens free of white space; the empty text gives `[""]` |
| Pdb.NumbersAt | src/pdb.js:22 | `map(Number)` keeps the length and converts each token |
| Pdb.ParseAtom | src/pdb.js:16-23 | `parseAtom` as a value; `ParseAtomColumns` gives its columns and `CoordinateTokens` its coordinates |
| Pdb.ParseAtomColumns | src/pdb.js:16-20 | kind is columns 1–6 trimmed, descriptor columns 13–22, chain column 22, index `Number` of columns 23–26 trimmed; the descriptor's last character is the chain |
| Pdb.CoordinateTokens | src/pdb.js:21-23 | the coordinates are the tokens of the trimmed text from column 30, each through `Number` |
| Pdb.ToPattern | dist/index.js:1082 | the pattern has a wildcard exactly where the descriptor has '-', and literals elsewhere |
| Pdb.SearchFromSpec | src/pdb.js:31 | the search from k succeeds exactly when the pattern matches at some position from k on |
| Pdb.ExecOnTenColumns | src/pdb.js:31 | a 10-character pattern matches a 10-character descriptor only at position 0, column by column |
| Pdb.FirstMatch | src/pdb.js:26-38 | none exactly when no group matches; otherwise the group matches and no earlier one does |
| Pdb.LaterRowsIrrelevant | src/pdb.js:27-36 | rows after the first match are never consulted |
| Pdb.FindAtomGroup | src/pdb.js:26-38 | the loop with early return yields `FirstMatch` |
| Pdb.LineEndSpec | src/pdb.js:43-47 | the first line terminator at or after i, or the end |
| Pdb.LinesHaveNoTerminators | src/pdb.js:43-47 | no line holds a line terminator |
| Pdb.RecordsAreLines | src/pdb.js:43-47 | every kept record is a line of the file that starts with ATOM or HETATM |
| Pdb.RecordLinesAreKept | src/pdb.js:43-47 | every such line is kept |
| Pdb.ParseAllAt | src/pdb.js:45-46 | one atom per record, in order |
| Pdb.ParseAllPush | src/pdb.js:45-46 | pushing a record's atom extends the parsed list |
| Pdb.NextRecord | src/pdb.js:43-45 | `exec` yields the next record line and the position after it, or nothing when no record remains |
| Pdb.LoadPdb | src/pdb.js:40-50 | the atoms are the parsed record lines, in file order |
| Pdb.ScanLine | src/pdb.js:43 | the `.*` runs to the next line terminator or the end |
| Pdb.RecordsStep | src/pdb.js:43-47 | the records from a line on are that line (if it is a record) followed by the records after it |
| Molecule.AtomGroups | dist/index.js:1056-1084 | row i becomes a group with index i, its descriptor pattern, its range, colour and radius |
| Molecule.RowShape | dist/index.js:1056-1084 | every row has a 10-character descriptor and the range 0..9999 |
| Molecule.RowMatches | dist/index.js:1056-1084 | a row matches a well-formed atom exactly when the kind is equal, every non-wildcard column agrees, and the index is in range |
| Molecule.FirstMatchIs | src/pdb.js:26-38 | the first matching row is the one found |
| Molecule.FirstMatchIndex | src/pdb.js:26-38 | a found group is at some position k, and no row before k matches |
| Molecule.WaterIsHidden | dist/index.js:1057 | HETATM water (HOH) takes row 0, radius 0 |
| Molecule.HydrogensHidden | dist/index.js:1058-1059 | an ATOM whose name has H in column 13 or 14 takes a radius-0 row |
| Molecule.HeavyAtomRows | dist/index.js:1060-1068 | rows 3–11 have radius at least 1.5 |
| Molecule.NotHydrogenRows | dist/index.js:1058-1059 | an atom with no H in its first two name columns passes the hydrogen rows |
| Molecule.CatchAllRow | dist/index.js:1068 | row 11 accepts every ATOM in range |
| Molecule.ProteinAtomsDrawn | dist/index.js:1058-1068 | every non-hydrogen ATOM in range is drawn with radius at least 1.5 |
| Molecule.HemeRows | dist/index.js:1069-1071 | rows 12–14 are HETATM rows for HEM |
| Molecule.HetatmRowNames | dist/index.js:1056-1071 | a HETATM that matches any row names HOH or HEM |
| Molecule.HetatmOnlyWaterAndHeme | dist/index.js:1056-1071 | a HETATM in range is matched exactly when it is water or heme |
| Molecule.OutOfRangeSkipped | dist/index.js:1056-1071 | an index that is NaN or outside 0..9999 matches no row |
| Molecule.DrawnChains | dist/index.js:1097-1098 | one mark per atom |
| Molecule.CounterAfter | dist/index.js:1092-1111 | `subunits` and `prevChain` after the loop has seen n atoms; `CounterMonotone` and `SkippedRun` state how they move |
| Molecule.WrittenSubunit | dist/index.js:1104-1106 | the subunit written for atom i as the loop stands; `WrittenLagsOneAtom` and `FirstDrawnWrittenZero` characterise it |
| Molecule.ChainSubunit | dist/index.js:1104-1111 | the subunit with the chain test first; `ChainSubunitsFollowChains` characterises it |
| Molecule.CounterMonotone | dist/index.js:1092-1111 | the subunit counter never decreases, and grows by at most one per atom |
| Molecule.SkippedRun | dist/index.js:1098 | skipped atoms change neither the counter nor `prevChain` |
| Molecule.WrittenLagsOneAtom | dist/index.js:1104-1111 | as written, a drawn atom gets the subunit of the previous drawn atom's chain |
| Molecule.FirstDrawnWrittenZero | dist/index.js:1104-1111 | the first drawn atom is written with 0, though its chain is subunit 1 |
| Molecule.FirstChainSplit | dist/index.js:1104-1111 | two consecutive drawn atoms on the first chain are written with 0 and 1 |
| Molecule.ChainSubunitsFollowChains | dist/index.js:1104-1111 | with the chain test first, consecutive drawn atoms share a subunit exactly when they share a chain, and otherwise the next one is one higher |
| Molecule.Record | dist/index.js:1099-1106 | every record has nine slots |
| Molecule.RecordRadius | dist/index.js:1099-1106 | the radius slot is 0 exactly when the atom is skipped or its group has radius 0; a drawn atom carries uint32 i and its subunit in slots 7 and 8 |
| Molecule.WriteRecord | dist/index.js:1099-1106 | the nine slots of atom i are written; the rest of the array is unchanged |
| Molecule.WrittenLabels | dist/index.js:1090-1112 | one label per atom |
| Molecule.FillInstanceData | dist/index.js:1090-1112 | as written: slot p holds slot p mod 9 of atom p / 9's record, labelled with the counter before the chain test |
| Molecule.ChainLabels | dist/index.js:1090-1112 | one label per atom |
| Molecule.ChainRecords | dist/index.js:1090-1112 | 9 slots per atom |
| Molecule.FillInstanceDataByChain | dist/index.js:1090-1112 | corrected: the array is the atoms' records, each labelled with its own chain's subunit |
| Molecule.ChainStep | dist/index.js:1090-1112 | one turn of the corrected loop extends the filled prefix and steps the counter |
| Molecule.FilledByChain | dist/index.js:1090-1112 | a fully filled array is `ChainRecords` |
| Molecule.LoadData | dist/index.js:1086-1114 | the atoms are the parsed record lines; the data is the sphere followed by their records as the loop writes them (subunit before the chain test), with the viewer layout, two new buffers and one instance per atom |
| Molecule.WholeRecords | dist/index.js:814 | 9n slots report n instances |
| View.MouseInfo.constructor | dist/index.js:973-981 | no z rotation, and position and wheel at zero with nothing pending |
| View.MouseInfo.Consume | dist/index.js:948 | the previous position and wheel catch up with the current ones |
| View.MouseRotation | dist/index.js:949-955 | the rotation of one frame's drag; `IdleFrameKeepsRotation` and `RotationStaysOrthonormal` state what it keeps |
| View.ZoomAfter | dist/index.js:959 | the zoom after one frame's wheel input; `IdleFrameKeepsZoom` and `ZoomAccumulates` state how it moves |
| View.IdleFrameKeepsRotation | dist/index.js:943-956 | a frame with no drag leaves the rotation unchanged |
| View.IdleFrameKeepsZoom | dist/index.js:959-960 | a frame with no wheel movement leaves the zoom unchanged |
| View.ZoomAccumulates | dist/index.js:959-960 | wheel input consumed over two frames moves the zoom as far as in one frame |
| View.ViewOf | dist/index.js:962-964 | the view matrix as a value; `ViewEntries` gives its entries |
| View.ViewEntries | dist/index.js:962-964 | column 0 of the rotation is compressed by height/width, and rows 0–2 are scaled by exp(zoom); the rotation itself is not changed |
| View.OrthonormalProduct | dist/index.js:950-956 | a product of orthonormal matrices is orthonormal |
| View.RotationStaysOrthonormal | dist/index.js:950-956 | given sin² + cos² = 1 at the frame's angles, the rotation stays orthonormal |
| View.Viewer.constructor | dist/index.js:852-854 | identity rotation and view, zoom −3.7, and no pending input |
| View.Viewer.UpdateViewMatrix | dist/index.js:941-965 | the rotation is right-multiplied by the frame's drag; the zoom moves by (cur − prev)/−200; the input is consumed; the view is rebuilt from the new rotation and zoom in fresh matrices |
| View.NextMatrices | dist/index.js:949-964 | the new rotation and view matrices of one frame, both fresh |
| View.MakeMouseRotation | dist/index.js:950-955 | a fresh matrix holding the frame's drag rotation |
| View.MakeView | dist/index.js:962-964 | a fresh view matrix equal to `ViewOf` |
| InpConfig.Config.constructor | src/config.js:53-63 | a new `Config` holds the defaults |
| InpConfig.Lines.constructor | src/config.js:115 | the cursor starts before the first line |
| InpConfig.Lines.Next | src/config.js:117-118 | the next line and a step forward, or nothing at the end |
| InpConfig.ReadLineOrErr | src/config.js:65-72 | the next line, or "Unexpected end of input at: " + err with the cursor unmoved |
| InpConfig.EndFrom | src/config.js:78 | the first `END` at or after i, or the end |
| InpConfig.ReadBlock | src/config.js:74-82 | what `parseRead` reads, as a value; `ReadBlockSpec` characterises it |
| InpConfig.ReadBlockSpec | src/config.js:74-82 | `parseRead` succeeds exactly when there is a name line and a later `END`; the file name is the first line and the groups are the lines up to the `END` |
| InpConfig.ParseRead | src/config.js:74-82 | the method computes `ReadBlock` and moves the cursor past the `END` |
| InpConfig.ParseNumbers | src/config.js:84-91 | `parseNumbers` as a value; `NumberTokensSpec`, `NumberTokensError` and `ParseNumbersCount` characterise it |
| InpConfig.NumberTokensSpec | src/config.js:85-90 | the tokens parse exactly when every one converts; then one number per token |
| InpConfig.NumberTokensError | src/config.js:88 | a failure is "Not a number:" + the first token that does not convert |
| InpConfig.ParseNumbersCount | src/config.js:84-91 | one number per comma-separated token, and the empty string gives [0] |
| InpConfig.CommentStart | src/config.js:97 | the start found is a `#` or `!` |
| InpConfig.StripComment | src/config.js:97 | the comment replacement with no replacement argument; `CommentLineRejected` states its effect |
| InpConfig.CommentLineRejected | src/config.js:97-98 | a commented line becomes "…undefined" and so can never be read as numbers |
| InpConfig.TrimIdempotent | src/config.js:86 | trimming twice is trimming once |
| InpConfig.NumbersFrom | src/config.js:93-105 | a read ends at or after where it began |
| InpConfig.NumbersFromSpec | src/config.js:93-105 | `readNumbers` gathers at least `count` numbers from whole lines and stops at the first line that reaches it |
| InpConfig.ReadLineNumbers | src/config.js:96-98 | one line read, its comment replaced and its numbers parsed |
| InpConfig.NumbersFromStep | src/config.js:95-103 | reading numbers is one line's numbers followed by the rest |
| InpConfig.AppendAll | src/config.js:99-101 | the loop pushes the line's numbers onto the result |
| InpConfig.GatherLine | src/config.js:96-102 | one iteration of `readNumbers` advances the cursor and agrees with `NumbersFrom` |
| InpConfig.ReadNumbers | src/config.js:93-105 | the method computes `NumbersFrom` and moves the cursor as it does |
| InpConfig.KeywordNames | src/config.js:119-171 | a line selects a keyword exactly when it is that keyword's name |
| InpConfig.WorldOf | src/config.js:140-156 | `wor` maps background, fog, pfog and size; a shadow from numbers 9–12 only when number 8 is non-zero, otherwise the old shadow stays |
| InpConfig.IllustrateOf | src/config.js:157-166 | `illustrate` maps its ten numbers to the six fields, the kernel a number |
| InpConfig.KeywordBlock | src/config.js:119-171 | one keyword case of `parseInp`; on success the position moves forward and stays in the text, and `KeywordBlockSpec` gives the settings and errors |
| InpConfig.KeywordBlockSpec | src/config.js:119-171 | a keyword block assigns only its own fields; an unknown keyword throws "Unknown keyword: " + line; exhausted input throws with the keyword's error tag |
| InpConfig.RunKeepsShadow | src/config.js:60 | nothing in an input assigns the top-level `shadow` |
| InpConfig.RotationsCompose | src/config.js:132-139 | rotation blocks right-multiply `config.rotation` in file order |
| InpConfig.ApplyNumbers | src/config.js:126-166 | a numeric keyword reads its count with its tag and stores them as `WithNumbers` |
| InpConfig.ApplyKeyword | src/config.js:119-172 | one pass of the `switch` computes `KeywordBlock` on the config object |
| InpConfig.RunFrom | src/config.js:113-176 | the `parseInp` loop from a position; `RunKeepsShadow` and `RotationsCompose` state what it does to the settings |
| InpConfig.ParseWith | src/config.js:113-176 | the loop computes `RunFrom` from the defaults |
| InpConfig.ParseInp | src/config.js:113-176 | `parseInp` yields the configuration `RunFrom` computes, or its error |
| MeshIndex.Sub | data/genidx.py:17-18 | the difference of two points is a point |
| MeshIndex.Cross | data/genidx.py:11-16 | the cross product of two points is a point |
| MeshIndex.Triple | data/genidx.py:11-23 | the triple product a·((b−a)×(c−a)); `TripleIsDeterminant` and `SwapNegates` characterise it |
| MeshIndex.Aligned | data/genidx.py:21-23 | `aligned`: the triple product is negative; `OrientAligns` shows every emitted triangle is aligned unless degenerate |
| MeshIndex.TripleIsDeterminant | data/genidx.py:21-23 | a·((b−a)×(c−a)) is the determinant of the rows a, b, c |
| MeshIndex.SwapNegates | data/genidx.py:37-39 | swapping the first two corners negates the triple product |
| MeshIndex.Floats | data/genidx.py:32 | one float per piece |
| MeshIndex.VertexLines | data/genidx.py:26-27 | there are no more vertex lines than lines |
| MeshIndex.DistinctSpec | data/genidx.py:30-35 | the distinct lines hold every vertex line once and nothing else |
| MeshIndex.Corner | data/genidx.py:37 | `verts[i*3:i*3+3]` is a point |
| MeshIndex.Orient | data/genidx.py:36-39 | an oriented triangle has three valid corners |
| MeshIndex.OrientPermutes | data/genidx.py:39 | orienting keeps the corners, and at most swaps the first two |
| MeshIndex.OrientAligns | data/genidx.py:36-39 | every emitted triangle is aligned unless it is degenerate (triple product 0) |
| MeshIndex.AddKey | data/genidx.py:30-34 | a new key numbered `idx` keeps the keys numbered one to one onto 0..idx |
| MeshIndex.Step | data/genidx.py:25-42 | a step keeps the invariant: len(verts) = 3·idx = 3·len(vertd), and every index and pending corner is below idx |
| MeshIndex.Run | data/genidx.py:25-42 | the invariant holds after the loop |
| MeshIndex.StepTable | data/genidx.py:30-34 | a new line gets the next index and appends its coordinates; a repeated one changes nothing |
| MeshIndex.DedupSeen | data/genidx.py:30-35 | a repeated line leaves the table as it was |
| MeshIndex.DedupNew | data/genidx.py:30-35 | a new line becomes the next distinct line, with the next index and its coordinates |
| MeshIndex.DedupStep | data/genidx.py:30-35 | a vertex line keeps the dedup relation |
| MeshIndex.RunDedup | data/genidx.py:25-35 | after the loop the table's keys are the distinct vertex lines, numbered in first-seen order, with their coordinates |
| MeshIndex.Ids | data/genidx.py:35 | one index per line |
| MeshIndex.OrientStable | data/genidx.py:37 | adding vertices does not change an earlier triangle's orientation |
| MeshIndex.GroupsAt | data/genidx.py:35-42 | the t-th emitted triangle is the t-th group of three, oriented |
| MeshIndex.TrianglesAligned | data/genidx.py:36-41 | every emitted triangle is its group of corners, oriented, and aligned unless degenerate |
| MeshIndex.GroupStep | data/genidx.py:35-42 | a vertex line's index joins the pending corners, and a third flushes a triangle |
| MeshIndex.RunGroups | data/genidx.py:25-42 | after the loop, the vertex lines' indices, three at a time and oriented, are `indexes` followed by the pending ones |
| MeshIndex.RunTriangles | data/genidx.py:35-42 | triangle t is the oriented indices of vertex lines 3t..3t+2 |
| MeshIndex.RunCounts | data/genidx.py:35-42 | one triangle per full group of three vertex lines; a trailing partial group stays pending and is never emitted |
| MeshIndex.Index | data/genidx.py:25-42 | the loop computes `Run`'s table, coordinates and indices |
| MeshIndex.RunPrefix | data/genidx.py:25-27 | one more line steps the run, and a non-vertex line is ignored |
| MeshIndex.IndexVertex | data/genidx.py:28-42 | the loop body for a vertex line is `Step` |
| MeshIndex.FlushTriangle | data/genidx.py:36-42 | three pending corners are emitted, oriented |
| MeshIndex.StripStart | data/genidx.py:45 | `lstrip(c)` drops a run of c from the front, and what it keeps does not start with c |
| MeshIndex.StripEnd | data/genidx.py:45-46 | `rstrip(c)` drops a run of c from the end, and what it keeps does not end with c |
| MeshIndex.StripEndKeeps | data/genidx.py:45-46 | a character other than c stops `rstrip` |
| MeshIndex.ReplaceKeepsEnds | data/genidx.py:47 | replacing `0.` by `.` keeps the string non-empty, and never creates a trailing point |
| MeshIndex.ShortAsWritten | data/genidx.py:43-49 | `short` as written; `ShortAsWrittenShape` gives its shape and `ShortAsWrittenDropsDigit` the digit it loses |
| MeshIndex.Short | data/genidx.py:43-49 | the corrected `short`; `ShortShape` and `ShortKeepsWholePart` state what it keeps |
| MeshIndex.ShortAsWrittenDropsDigit | data/genidx.py:47 | as written, 10.5 (`'10.50'`) prints as `1.5`; the corrected `short` prints `10.5` |
| MeshIndex.TrimmedShape | data/genidx.py:45-46 | after stripping, the text neither starts with 0 nor ends in a point |
| MeshIndex.ShortShape | data/genidx.py:43-49 | corrected `short` is non-empty, does not end in a point, and does not start with 0 unless it is `0` |
| MeshIndex.ShortAsWrittenShape | data/genidx.py:43-49 | as written, `short` is non-empty and does not end in a point |
| MeshIndex.ShortKeepsWholePart | data/genidx.py:43-49 | corrected `short` keeps the signed whole part of a number at least one |
| MeshIndex.Decimal | data/genidx.py:51 | `str(n)` is a non-empty string of digits |
| MeshIndex.DecimalRoundTrip | data/genidx.py:51 | reading `str(n)` back gives n |
| MeshIndex.Output | data/genidx.py:50-51 | the two printed lines, with the coordinates through `short` as written; a line is empty exactly when its list is |
| MeshIndex.CorrectedOutput | data/genidx.py:50 | the coordinate line with the corrected `short` |
| MeshIndex.ShortAsWrittenAvoids | data/genidx.py:43-49 | `short` as written prints no character other than `.` and `0` that the formatted text lacks |
| MeshIndex.CoordinateLineRoundTrip | data/genidx.py:50 | splitting the coordinate line on commas gives each coordinate's `short` as written, when the formatting writes no comma |
| MeshIndex.OutputDropsDigit | data/genidx.py:47-50 | with 10.5 formatted as `10.50`, the coordinate line is `1.5` as written and `10.5` corrected |
| MeshIndex.IndexLineRoundTrip | data/genidx.py:51 | splitting the printed index line on commas and reading each piece gives `indexes` back |
| Prototype.Pushed | data/index.js:123 | at most one location per attribute |
| Prototype.PushedLocated | data/index.js:142-144 | the returned list holds exactly the enabled locations, and never −1 |
| Prototype.SetAttribPointers | data/index.js:121-145 | the GL ends as `SetPointers`, and the returned list is `Pushed` |
| Prototype.PointAttrib | data/index.js:125-141 | one iteration is `PointerStep`, and returns the location looked up |
| Prototype.DisableArrays | data/index.js:417 | every listed array is disabled and nothing else changes |
| Prototype.DisableUndoesEnable | data/index.js:414-417 | disabling the returned list turns off exactly the arrays that were turned on, and leaves pointers and divisors set |
| Prototype.SetUniform | data/index.js:156-164 | false with nothing called when the table names no setter; otherwise one upload with no transpose argument, and true |
| Prototype.SetUniformAgreesWithViewer | data/index.js:156-164 | the prototype uploads the same call as the viewer's `setUniform` exactly for non-matrix setters |
| Prototype.SimpleVertex | data/index.js:247-251 | position = aPos·aRadius + aLocation with w = 1, and the colour is passed through |
| Prototype.DepthPassDecodes | data/index.js:284 | the depth pass decodes the unit-mesh z to z on the upper half, z + 1 on the lower half, and 0 at the top pole |
| Strings.Split | src/config.js:85 | a split has at least one piece |
| Strings.JoinSplit | data/genidx.py:28 | joining the pieces of a split gives the string back |
| Strings.SplitPieces | data/genidx.py:28 | there is one more piece than separators, and no piece holds one |
| Strings.SplitJoin | data/genidx.py:50-51 | splitting a join gives the pieces back when none holds the separator |

## Left out

- I/O and scheduling are not modelled: XHR downloads, file reading in `genidx.py`, `requestAnimationFrame`, the `init` functions, `console.log`, and the `print('not aligned!')`.
- The mouse and wheel event handlers (src/mouse.js, dist/index.js:973-1019) are not modelled. Only their effect on `MouseInfo`, as `updateViewMatrix` consumes it, is kept.
- Real WebGL is not modelled, including buffer uploads, `drawElementsInstancedANGLE`, `getExtension`/`assertExt`, `getSupportedWebGLVersion` and framebuffer completeness. The GL is an abstract recorder of state and calls. Compile, link and location answers come from a `Driver` parameter.
- The recorder keeps no record of face culling, the viewport, the clear colour or buffer binding. These calls are therefore not modelled: `enable(CULL_FACE)`, `frontFace(CCW)` and `cullFace(BACK)` (src/index.js:90,93-94); `viewport` and `clearColor` (src/index.js:99-100, 138-139); and the `bindBuffer` pairs around each draw (src/index.js:117-118, 122-123, 152, 156). Back-face culling is why the mesh indexer fixes the winding of every triangle; the model states that winding as `MeshIndex.OrientAligns`, not as a culling test.
- `makeTexture` is left out; its parameters carry the `leve` typo (src/glutil.js:124). `drawTexture`, the progress shader and src/shaders/texture.js are left out too.
- sin, cos, exp, sqrt and atan2 are foreign: rotations take the sine and cosine, the zoom takes `exp`, and `decompose` takes the row lengths. `toEulerAngles` is left out.
- IEEE-754 and Float32 rounding, and 8-bit framebuffer quantisation, are not modelled. All arithmetic is exact. The codec round-trips are therefore exact only over the reals. The FLOAT layers texture keeps index and group exact only below 2^24 in the source.
- `Number()` parsing of PDB and `.inp` numbers is a parameter. So are Python's `float()` and `'{:.2f}'` formatting.
- `Math.random()` values are parameters (the `samples` sequences).
- The contents of the sphere mesh (`./sphere-data`) are a parameter.
- The `./iter` module is not part of this model. `Lines` is a cursor over given lines; how text is cut into lines, and whether blank lines are skipped, is unknown.
- dist/index.js's `makeInstanceData` is not modelled: it builds no records, with a count of 0. src/index.js's version is modelled.
- src/glutil.js:171-179 `setUniform` passes no transpose flag, which a matrix setter needs. The model follows dist/index.js:414-426, which does pass it.
- src/index.js:3-5 imports `depthShader`, `groupShader` and `indexShader`, which src/shaders/initial.js does not export. The src pass list is modelled by name only; `Pipeline.SrcFrameFails` shows that its composite cannot run anyway.
- data/index.js's `draw` and `init` are not modelled. They use an undefined `depthFunc` and `createTexture` (data/index.js:420, 466-467). Only their disabling loop is modelled.
- The `Pipeline` shaders run on texture samples given as functions of integer pixel offsets. `CLAMP_TO_EDGE` sampling and `length` are parameters of `PostProcess`.
- Matrix.Matrix4.Decompose: requires non-zero row lengths. In the source a zero row length divides by zero and gives Infinity or NaN; that case is not modelled.
- Matrix.Matrix4.Aspect: requires a non-zero aspect, because the division by zero of the source is not modelled.
- Matrix.Aspected: requires a non-zero aspect, for the same reason.
- View.Viewer.UpdateViewMatrix: requires a canvas of positive width and height, because the aspect divides by the height.
- MeshIndex.Index: requires every vertex line to hold exactly three coordinates (`WellFormed`). With any other count the source's `verts[i*3:i*3+3]` misaligns, and that is not modelled.
- MeshIndex.Run: requires `WellFormed`, for the same reason.
- Matrix.RotationsOrthonormal: holds only given sin² + cos² = 1, which the foreign trigonometry is assumed to provide.
- InpConfig.ParseInp: the `sin` and `cos` of an angle list are parameters, and `Number()` is the parameter `literal`.

## Findings

| source | as written | input that shows it | evidently intended | confidence | as-written member | corrected member |
|---|---|---|---|---|---|---|
| data/genidx.py:47 | `short` replaces every `0.` by `.`, not only a leading `0` or `-0` | 10.5 is formatted `10.50`, stripped to `10.5`, and printed as `1.5` | drop only the zero of a whole part `0`/`-0`, so 10.5 prints as `10.5` | not executed; follows from the string operations | MeshIndex.ShortAsWritten (shown by MeshIndex.ShortAsWrittenDropsDigit) | MeshIndex.Short (MeshIndex.ShortKeepsWholePart, MeshIndex.ShortShape), printed by MeshIndex.CorrectedOutput (MeshIndex.OutputDropsDigit) |
| dist/index.js:1104-1111 | the record is written with `subunits` before the chain comparison increments it | two consecutive drawn atoms on the molecule's first chain are written with subunits 0 and 1 | the atoms of one chain share one subunit number | not executed; follows from the loop order | Molecule.FillInstanceData (shown by Molecule.FirstChainSplit, Molecule.WrittenLagsOneAtom) | Molecule.FillInstanceDataByChain (Molecule.ChainSubunitsFollowChains) |
