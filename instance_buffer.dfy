/** The instanced sphere buffer (src/index.js, and the prototype in data/index.js).

    One `Float32Array` holds the icosphere coordinates followed by fixed-width instance
    records.  A `Uint32Array` over the same memory writes the index and group slots, so the
    array is modelled as a sequence of 4-byte slots, each holding what was last written
    into it: a float through the float view or a uint32 through the integer view.  Float32
    rounding is not modelled: a float slot holds the exact value written. */
module InstanceBuffer {
  import opened Outcomes
  import opened GlContext
  import opened Pdb

  /** A 4-byte slot of the vertex data. */
  datatype Slot = F(x: Num) | U(bits: int)

  /** What a new `Float32Array` holds in every slot. */
  const Zero: Slot := F(Val(0.0))

  function FloatSlot(x: real): Slot { F(Val(x)) }

  /** `ToUint32` of a non-negative integer, as a `Uint32Array` store applies it. */
  function Uint32(n: nat): (u: nat)
    ensures u < 0x1_0000_0000
    ensures n < 0x1_0000_0000 ==> u == n
    ensures (u - n) % 0x1_0000_0000 == 0
  {
    n % 0x1_0000_0000
  }

  /** `new Float32Array(n)`. */
  method NewSlots(n: nat) returns (a: array<Slot>)
    ensures fresh(a) && a.Length == n
    ensures forall p | 0 <= p < n :: a[p] == Zero
  {
    a := new Slot[n](_ => Zero);
  }

  /** `a.set(src, offset)`: the slots from `offset` on take the values of `src`, and every
      other slot keeps its value.  The source never writes past the end, where the call
      would throw a RangeError. */
  method Set(a: array<Slot>, src: seq<Slot>, offset: nat)
    requires offset + |src| <= a.Length
    modifies a
    ensures forall p | 0 <= p < a.Length ::
      a[p] == if offset <= p < offset + |src| then src[p - offset] else old(a[p])
  {
    var k := 0;
    while k < |src|
      invariant 0 <= k <= |src|
      invariant forall p | 0 <= p < a.Length ::
        a[p] == if offset <= p < offset + k then src[p - offset] else old(a[p])
    {
      a[offset + k] := src[k];
      k := k + 1;
    }
  }

  // ---------------------------------------------------------------------------
  // makeSphereIndexedVbo
  // ---------------------------------------------------------------------------

  /** The two variants of the buffer: the viewer's 9-slot records (location, radius,
      colour, index, group) and the prototype's 7-slot records (location, radius, colour). */
  datatype Version = Viewer | Prototype

  /** `IFIELDS`: the number of slots per instance record. */
  function Fields(v: Version): nat
  {
    match v
    case Viewer => 9
    case Prototype => 7
  }

  /** The icosphere of `./sphere-data`: vertex coordinates and triangle indices.  Its
      contents are not part of this model. */
  datatype SphereMesh = SphereMesh(coords: seq<real>, idx: seq<int>)

  /** The instances used when none are given: one sphere of radius 0.5 at the origin. */
  const DefaultInstances: seq<Slot> := [FloatSlot(0.0), FloatSlot(0.0), FloatSlot(0.0), FloatSlot(0.5)]

  function FloatSlots(c: seq<real>): (s: seq<Slot>)
    ensures |s| == |c| && forall k | 0 <= k < |c| :: s[k] == FloatSlot(c[k])
  {
    if c == [] then [] else [FloatSlot(c[0])] + FloatSlots(c[1..])
  }

  /** The per-instance attributes: divisor 1, the record width as stride, and offsets into
      the record counted from `instOffset`, the byte where the sphere data ends. */
  function InstanceAttribs(v: Version, instOffset: int): seq<Attrib>
  {
    var stride := Fields(v) * 4;
    [Attrib("aLocation", 3, Float, false, 1, stride, instOffset),
     Attrib("aRadius", 1, Float, false, 1, stride, instOffset + 3 * 4),
     Attrib("aColor", 3, Float, false, 1, stride, instOffset + 4 * 4)] +
    (match v
     case Viewer =>
       [Attrib("aIndex", 2, UnsignedShort, false, 1, stride, instOffset + 7 * 4),
        Attrib("aGroup", 2, UnsignedShort, false, 1, stride, instOffset + 8 * 4)]
     case Prototype => [])
  }

  /** All attributes: the per-vertex `aPos` (no divisor, no own stride) first. */
  function SphereAttribs(v: Version, instOffset: int): seq<Attrib>
  {
    [Attrib("aPos", 3, Float, false, 0, 0, 0)] + InstanceAttribs(v, instOffset)
  }

  /** `makeSphereIndexedVbo(gl, instances)`: a vertex buffer holding the sphere coordinates
      followed by the instances, and an index buffer holding the sphere's indices.  An
      absent `instances` (only `undefined` is falsy here: a typed array never is) falls
      back to the default instance.  The instance count is the slot count divided by the
      record width, not rounded. */
  method MakeSphereIndexedVbo(g: GlState, v: Version, mesh: SphereMesh, instances: Option<seq<Slot>>)
    returns (g': GlState, buf: Buffer, data: array<Slot>)
    ensures fresh(data)
    ensures var inst := if instances.Some? then instances.value else DefaultInstances;
      data.Length == |mesh.coords| + |inst| &&
      (forall k | 0 <= k < |mesh.coords| :: data[k] == FloatSlot(mesh.coords[k])) &&
      (forall k | 0 <= k < |inst| :: data[|mesh.coords| + k] == inst[k]) &&
      buf.instances == Some(|inst| as real / Fields(v) as real)
    ensures instances.Some? ==> buf.instances == Some(|instances.value| as real / Fields(v) as real)
    ensures g' == Create(Create(g)) && buf.vbo == g.next && buf.ibo == Some(g.next + 1)
    ensures buf.itemCount == |mesh.idx| && buf.stride == 3 * 4
    ensures buf.attribs == SphereAttribs(v, 4 * |mesh.coords|)
  {
    var inst := if instances.Some? then instances.value else DefaultInstances;
    data := NewSlots(|inst| + |mesh.coords|);
    Set(data, FloatSlots(mesh.coords), 0);
    Set(data, inst, |mesh.coords|);
    var vbo := g.next;
    g' := Create(g);
    var ibo := g'.next;
    g' := Create(g');
    var instOffset := 4 * |mesh.coords|;
    buf := Buffer(vbo, Some(ibo), Some(|inst| as real / Fields(v) as real), |mesh.idx|, 3 * 4,
                  SphereAttribs(v, instOffset));
  }

  /** The number of bytes an attribute reads per vertex or instance. */
  function AttribBytes(a: Attrib): int
  {
    a.size * match a.glType
      case Float => 4
      case UnsignedShort => 2
      case Short => 2
  }

  /** The slot of the record an instance attribute starts at. */
  function FieldSlot(a: Attrib, instOffset: int): int
  {
    (a.offset - instOffset) / 4
  }

  /** `aPos` steps through the sphere coordinates 12 bytes at a time with no divisor.  Every
      instance attribute has divisor 1 and the record width as its stride; the first starts
      at `instOffset`, each next one where the previous one's bytes end, and the last one
      ends with the record, so the fields tile the record without gap or overlap. */
  lemma AttribLayout(v: Version, instOffset: int)
    ensures var attribs := SphereAttribs(v, instOffset);
      attribs[0].offset == 0 && attribs[0].divide == 0 && EffectiveStride(attribs[0], 3 * 4) == 12 &&
      AttribBytes(attribs[0]) == 12
    ensures var inst := InstanceAttribs(v, instOffset);
      |inst| == (if v.Viewer? then 5 else 3) &&
      (forall i | 0 <= i < |inst| :: inst[i].divide == 1 && EffectiveStride(inst[i], 3 * 4) == 4 * Fields(v)) &&
      inst[0].offset == instOffset &&
      (forall i | 0 <= i < |inst| - 1 :: inst[i].offset + AttribBytes(inst[i]) == inst[i + 1].offset) &&
      inst[|inst| - 1].offset + AttribBytes(inst[|inst| - 1]) == instOffset + 4 * Fields(v)
  {
  }

  /** Where instance `n` reads attribute `j`: byte offset + n·stride is slot
      |coords| + Fields·n + FieldSlot of the vertex data, so each instance reads its own
      record and the field the record layout puts there. */
  lemma InstanceReadsOwnRecord(v: Version, coords: nat, n: nat, j: nat)
    requires j < |InstanceAttribs(v, 4 * coords)|
    ensures var a := InstanceAttribs(v, 4 * coords)[j];
      var byte := a.offset + n * EffectiveStride(a, 3 * 4);
      byte % 4 == 0 && byte / 4 == coords + Fields(v) * n + FieldSlot(a, 4 * coords) &&
      FieldSlot(a, 4 * coords) == [0, 3, 4, 7, 8][j]
  {
    var a := InstanceAttribs(v, 4 * coords)[j];
    var s := [0, 3, 4, 7, 8][j];
    assert a.offset == 4 * coords + 4 * s;
    assert EffectiveStride(a, 3 * 4) == 4 * Fields(v);
    var byte := a.offset + n * EffectiveStride(a, 3 * 4);
    assert byte == 4 * (coords + Fields(v) * n + s);
  }

  /** The reported instance count: exactly the number of records when the slots are a
      whole number of records; 4/9 (4/7 in the prototype) for the default instance. */
  lemma InstanceCount(v: Version, slots: nat, records: nat)
    ensures slots == Fields(v) * records ==> slots as real / Fields(v) as real == records as real
    ensures |DefaultInstances| as real / Fields(v) as real ==
      (if v.Viewer? then 4.0 / 9.0 else 4.0 / 7.0)
  {
  }

  // ---------------------------------------------------------------------------
  // makeInstanceData
  // ---------------------------------------------------------------------------

  /** The number of demonstration instances of src/index.js. */
  const DemoCount: nat := 5000

  /** `Math.random() * 2 - 1` for the sample `s` of `Math.random()`. */
  function Signed(s: real): real { s * 2.0 - 1.0 }

  /** Record `i` of src/index.js's `makeInstanceData`: its three `r()` calls take samples
      3i, 3i+1 and 3i+2, then radius 0.03, grey, and index = group = i. */
  function DemoRecord(samples: seq<real>, i: nat): (r: seq<Slot>)
    requires 3 * i + 3 <= |samples|
    ensures |r| == 9
  {
    [FloatSlot(Signed(samples[3 * i])), FloatSlot(Signed(samples[3 * i + 1])),
     FloatSlot(Signed(samples[3 * i + 2]) * 0.7), FloatSlot(0.03),
     FloatSlot(0.5), FloatSlot(0.5), FloatSlot(0.5),
     U(Uint32(i)), U(Uint32(i))]
  }

  /** src/index.js's `makeInstanceData`, with the values of `Math.random()` as `samples` in
      call order: record i occupies slots 9i..9i+8. */
  method MakeInstanceData(samples: seq<real>) returns (data: array<Slot>)
    requires |samples| == 3 * DemoCount
    ensures fresh(data) && data.Length == 9 * DemoCount
    ensures forall p | 0 <= p < data.Length :: data[p] == DemoRecord(samples, p / 9)[p % 9]
  {
    data := NewSlots(DemoCount * 9);
    var i := 0;
    while i < DemoCount
      invariant 0 <= i <= DemoCount
      invariant forall p | 0 <= p < 9 * i :: data[p] == DemoRecord(samples, p / 9)[p % 9]
      invariant forall p | 9 * i <= p < data.Length :: data[p] == Zero
    {
      var rec := DemoRecord(samples, i);
      Set(data, rec[..7], i * 9);
      Set(data, [U(Uint32(i)), U(Uint32(i))], i * 9 + 7);
      forall p | 9 * i <= p < 9 * i + 9
        ensures data[p] == DemoRecord(samples, p / 9)[p % 9]
      {
        SlotOf(p, i, 9);
      }
      i := i + 1;
    }
  }

  /** Slot `p` of record `i` in records of width `w`. */
  lemma SlotOf(p: int, i: int, w: int)
    requires (w == 7 || w == 9) && w * i <= p < w * i + w
    ensures p / w == i && p % w == p - w * i
  {
    if w == 7 {
      assert 7 * i <= p < 7 * i + 7;
    } else {
      assert 9 * i <= p < 9 * i + 9;
    }
  }

  /** The demonstration data gives every instance radius 0.03 and its own index as both
      index and group, each below 2^32 and so rebuilt exactly by the vertex shader. */
  lemma DemoIndexIsGroup(samples: seq<real>, i: nat)
    requires i < DemoCount && |samples| == 3 * DemoCount
    ensures DemoRecord(samples, i)[3] == FloatSlot(0.03)
    ensures DemoRecord(samples, i)[7] == DemoRecord(samples, i)[8] == U(i)
  {
  }

  /** The number of demonstration instances of data/index.js. */
  const PrototypeCount: nat := 3

  /** Record `i` of data/index.js's `makeInstanceData`: `r(), r(), 0.0, r2(), r2(), r2(),
      r2()` takes samples 6i..6i+5; the z coordinate is 0. */
  function PrototypeRecord(samples: seq<real>, i: nat): (r: seq<Slot>)
    requires 6 * i + 6 <= |samples|
    ensures |r| == 7
  {
    [FloatSlot(Signed(samples[6 * i])), FloatSlot(Signed(samples[6 * i + 1])), FloatSlot(0.0),
     FloatSlot(samples[6 * i + 2]), FloatSlot(samples[6 * i + 3]),
     FloatSlot(samples[6 * i + 4]), FloatSlot(samples[6 * i + 5])]
  }

  /** data/index.js's `makeInstanceData`: three records of 7 floats at slots 7i..7i+6. */
  method MakePrototypeInstanceData(samples: seq<real>) returns (data: array<Slot>)
    requires |samples| == 6 * PrototypeCount
    ensures fresh(data) && data.Length == 7 * PrototypeCount
    ensures forall p | 0 <= p < data.Length :: data[p] == PrototypeRecord(samples, p / 7)[p % 7]
  {
    data := NewSlots(PrototypeCount * 7);
    var i := 0;
    while i < PrototypeCount
      invariant 0 <= i <= PrototypeCount
      invariant forall p | 0 <= p < 7 * i :: data[p] == PrototypeRecord(samples, p / 7)[p % 7]
      invariant forall p | 7 * i <= p < data.Length :: data[p] == Zero
    {
      Set(data, PrototypeRecord(samples, i), i * 7);
      forall p | 7 * i <= p < 7 * i + 7
        ensures data[p] == PrototypeRecord(samples, p / 7)[p % 7]
      {
        SlotOf(p, i, 7);
      }
      i := i + 1;
    }
  }
}
