/** The molecule the viewer draws (dist/index.js): the atom-group table that decides which
    atoms are shown and how, and `loadData`, which turns the atoms of a PDB file into the
    9-slot instance records of the sphere buffer.

    Every atom gets a record at its own position in the buffer.  An atom no group matches
    keeps the all-zero record of a new `Float32Array` — a sphere of radius 0 at the origin,
    which draws nothing.  A matched atom gets its position, its group's radius and colour,
    its own index and a subunit number that counts chains. */
module Molecule {
  import opened Outcomes
  import opened Pdb
  import opened InstanceBuffer
  import opened GlContext

  // ---------------------------------------------------------------------------
  // The atom-group table
  // ---------------------------------------------------------------------------

  /** A row as written in the table: kind, descriptor with '-' for any character, the
      residue-number range, the colour and the radius. */
  datatype Row = Row(kind: string, descriptor: string, low: real, high: real,
                     color: (real, real, real), radius: real)

  const Rows: seq<Row> := [
    Row("HETATM", "-----HOH--", 0.0, 9999.0, (0.5, 0.5, 0.5), 0.0),
    Row("ATOM",   "-H--------", 0.0, 9999.0, (0.5, 0.5, 0.5), 0.0),
    Row("ATOM",   "H---------", 0.0, 9999.0, (0.5, 0.5, 0.5), 0.0),
    Row("ATOM",   "-C-------A", 0.0, 9999.0, (1.0, 0.6, 0.6), 1.6),
    Row("ATOM",   "-S-------A", 0.0, 9999.0, (1.0, 0.5, 0.5), 1.8),
    Row("ATOM",   "---------A", 0.0, 9999.0, (1.0, 0.5, 0.5), 1.5),
    Row("ATOM",   "-C-------C", 0.0, 9999.0, (1.0, 0.6, 0.6), 1.6),
    Row("ATOM",   "-S-------C", 0.0, 9999.0, (1.0, 0.5, 0.5), 1.8),
    Row("ATOM",   "---------C", 0.0, 9999.0, (1.0, 0.5, 0.5), 1.5),
    Row("ATOM",   "-C--------", 0.0, 9999.0, (1.0, 0.8, 0.6), 1.6),
    Row("ATOM",   "-S--------", 0.0, 9999.0, (1.0, 0.7, 0.5), 1.8),
    Row("ATOM",   "----------", 0.0, 9999.0, (1.0, 0.7, 0.5), 1.5),
    Row("HETATM", "FE---HEM--", 0.0, 9999.0, (1.0, 0.8, 0.0), 1.8),
    Row("HETATM", "-C---HEM--", 0.0, 9999.0, (1.0, 0.3, 0.3), 1.6),
    Row("HETATM", "-----HEM--", 0.0, 9999.0, (1.0, 0.1, 0.1), 1.5)
  ]

  /** The `map` callback: the descriptor becomes a regular expression, the position the
      group's `idx`. */
  function ToGroup(row: Row, idx: nat): Group
  {
    Group(row.kind, ToPattern(row.descriptor), idx, row.low, row.high, row.color, row.radius)
  }

  /** `atomGroups`. */
  function AtomGroups(): (gs: seq<Group>)
    ensures |gs| == |Rows|
    ensures forall i | 0 <= i < |Rows| :: gs[i] == ToGroup(Rows[i], i)
  {
    seq(|Rows|, i requires 0 <= i < |Rows| => ToGroup(Rows[i], i))
  }

  /** A descriptor as `parseAtom` slices it from a record line of at least 22 characters:
      ten characters, none a line terminator. */
  predicate TenColumns(a: Atom)
  {
    |a.descriptor| == 10 && forall j | 0 <= j < 10 :: !IsLineTerminator(a.descriptor[j])
  }

  /** The residue number lies in the range every row of the table allows. */
  predicate InRange(a: Atom)
  {
    a.index.Val? && 0.0 <= a.index.v <= 9999.0
  }

  /** Every row has a ten-character descriptor and admits residue numbers 0 to 9999; the
      group keeps the row's kind and radius and takes its position as `idx`. */
  lemma RowShape(i: nat)
    requires i < |Rows|
    ensures |Rows[i].descriptor| == 10
    ensures var g := AtomGroups()[i];
      g.kind == Rows[i].kind && g.radius == Rows[i].radius && g.idx == i &&
      g.low == 0.0 && g.high == 9999.0
  {
  }

  /** Whether row `i` matches a well-formed atom, column by column. */
  lemma RowMatches(i: nat, a: Atom)
    requires i < |Rows| && TenColumns(a)
    ensures Matches(AtomGroups()[i], a) <==>
      a.kind == Rows[i].kind && InRange(a) &&
      forall j | 0 <= j < 10 :: Rows[i].descriptor[j] == '-' || Rows[i].descriptor[j] == a.descriptor[j]
  {
    RowShape(i);
    ExecOnTenColumns(Rows[i].descriptor, a.descriptor);
  }

  /** The first matching row is the one FirstMatch returns. */
  lemma FirstMatchIs(groups: seq<Group>, a: Atom, i: nat)
    requires i < |groups| && Matches(groups[i], a)
    requires forall j | 0 <= j < i :: !Matches(groups[j], a)
    ensures FirstMatch(groups, a) == Some(groups[i])
  {
    var r := FirstMatch(groups, a);
    var k :| 0 <= k < |groups| && groups[k] == r.value && Matches(groups[k], a) &&
      forall j | 0 <= j < k :: !Matches(groups[j], a);
    assert k == i;
  }

  /** The index of the first matching row. */
  lemma FirstMatchIndex(groups: seq<Group>, a: Atom) returns (k: nat)
    requires FirstMatch(groups, a).Some?
    ensures k < |groups| && FirstMatch(groups, a) == Some(groups[k]) && Matches(groups[k], a)
    ensures forall j | 0 <= j < k :: !Matches(groups[j], a)
  {
    k :| 0 <= k < |groups| && groups[k] == FirstMatch(groups, a).value && Matches(groups[k], a) &&
      forall j | 0 <= j < k :: !Matches(groups[j], a);
  }

  /** Water: a HETATM whose residue name (columns 18–20) is HOH takes the first row, whose
      radius is 0, so water is hidden. */
  lemma WaterIsHidden(a: Atom)
    requires a.kind == "HETATM" && TenColumns(a) && InRange(a) && a.descriptor[5..8] == "HOH"
    ensures FirstMatch(AtomGroups(), a) == Some(AtomGroups()[0])
    ensures AtomGroups()[0].radius == 0.0
  {
    RowMatches(0, a);
    assert a.descriptor[5] == 'H' && a.descriptor[6] == 'O' && a.descriptor[7] == 'H';
    FirstMatchIs(AtomGroups(), a, 0);
    RowShape(0);
  }

  /** Hydrogen: an ATOM whose atom name starts with H (in column 13 or 14) takes row 1 or
      2, radius 0, so hydrogens are hidden. */
  lemma HydrogensHidden(a: Atom)
    requires a.kind == "ATOM" && TenColumns(a) && InRange(a)
    requires a.descriptor[0] == 'H' || a.descriptor[1] == 'H'
    ensures FirstMatch(AtomGroups(), a).Some? && FirstMatch(AtomGroups(), a).value.radius == 0.0
  {
    var gs := AtomGroups();
    RowMatches(0, a);
    RowMatches(1, a);
    if a.descriptor[1] == 'H' {
      FirstMatchIs(gs, a, 1);
      RowShape(1);
    } else {
      RowMatches(2, a);
      FirstMatchIs(gs, a, 2);
      RowShape(2);
    }
  }

  /** The ATOM rows after the hydrogen rows all have radius at least 1.5. */
  lemma HeavyAtomRows(k: nat)
    requires 3 <= k <= 11
    ensures AtomGroups()[k].radius >= 1.5
  {
    RowShape(k);
  }

  /** An atom whose name has no H in its first two columns passes the hydrogen rows. */
  lemma NotHydrogenRows(a: Atom)
    requires TenColumns(a) && a.descriptor[0] != 'H' && a.descriptor[1] != 'H'
    ensures !Matches(AtomGroups()[1], a) && !Matches(AtomGroups()[2], a)
  {
    RowMatches(1, a);
    RowMatches(2, a);
  }

  /** Row 11 accepts every ATOM with a residue number in range. */
  lemma CatchAllRow(a: Atom)
    requires a.kind == "ATOM" && TenColumns(a) && InRange(a)
    ensures Matches(AtomGroups()[11], a)
  {
    RowMatches(11, a);
  }

  /** Every other ATOM is drawn: the catch-all row 11 guarantees a match, and every ATOM
      row before it that can match has radius at least 1.5. */
  lemma ProteinAtomsDrawn(a: Atom)
    requires a.kind == "ATOM" && TenColumns(a) && InRange(a)
    requires a.descriptor[0] != 'H' && a.descriptor[1] != 'H'
    ensures FirstMatch(AtomGroups(), a).Some? && FirstMatch(AtomGroups(), a).value.radius >= 1.5
  {
    var gs := AtomGroups();
    RowShape(0);
    NotHydrogenRows(a);
    CatchAllRow(a);
    var k := FirstMatchIndex(gs, a);
    assert 3 <= k <= 11;
    HeavyAtomRows(k);
  }

  /** Rows 12 to 14 are heme rows: HETATM with residue name HEM. */
  lemma HemeRows(k: nat)
    requires 12 <= k < |Rows|
    ensures Rows[k].kind == "HETATM" && Rows[k].descriptor[5..8] == "HEM"
  {
  }

  /** A HETATM that matches a row names HOH or HEM in columns 18–20: row 0 is water,
      rows 1–11 are ATOM rows and rows 12–14 are heme. */
  lemma HetatmRowNames(a: Atom, k: nat)
    requires a.kind == "HETATM" && TenColumns(a) && k < |Rows| && Matches(AtomGroups()[k], a)
    ensures a.descriptor[5..8] == "HOH" || a.descriptor[5..8] == "HEM"
  {
    RowMatches(k, a);
    var name := if k == 0 then "HOH" else "HEM";
    if k == 0 {
      assert Rows[0].descriptor[5..8] == name;
    } else {
      RowShape(k);
      assert 12 <= k;
      HemeRows(k);
    }
    assert a.descriptor[5..8] == Rows[k].descriptor[5..8] by {
      assert a.descriptor[5] == Rows[k].descriptor[5];
      assert a.descriptor[6] == Rows[k].descriptor[6];
      assert a.descriptor[7] == Rows[k].descriptor[7];
    }
  }

  /** Of the HETATM records only water and heme match a row: any other ligand is left
      with the zero record and not drawn. */
  lemma HetatmOnlyWaterAndHeme(a: Atom)
    requires a.kind == "HETATM" && TenColumns(a) && InRange(a)
    ensures FirstMatch(AtomGroups(), a).Some? <==>
      a.descriptor[5..8] == "HOH" || a.descriptor[5..8] == "HEM"
  {
    var gs := AtomGroups();
    if a.descriptor[5..8] == "HOH" {
      WaterIsHidden(a);
    } else if a.descriptor[5..8] == "HEM" {
      RowMatches(14, a);
      assert a.descriptor[5] == 'H' && a.descriptor[6] == 'E' && a.descriptor[7] == 'M';
      assert Matches(gs[14], a);
    } else if FirstMatch(gs, a).Some? {
      var k := FirstMatchIndex(gs, a);
      HetatmRowNames(a, k);
    }
  }

  /** An atom whose residue number is NaN or outside 0..9999 matches no row. */
  lemma OutOfRangeSkipped(a: Atom)
    requires !InRange(a)
    ensures FirstMatch(AtomGroups(), a).None?
  {
    var gs := AtomGroups();
    forall i | 0 <= i < |gs| ensures !Matches(gs[i], a) {
      RowShape(i);
    }
  }

  // ---------------------------------------------------------------------------
  // Subunits
  // ---------------------------------------------------------------------------

  /** What the subunit counter sees of each atom: the chain of an atom some group matches,
      nothing for an atom the loop skips with `continue`. */
  function DrawnChains(groups: seq<Group>, atoms: seq<Atom>): (m: seq<Option<string>>)
    ensures |m| == |atoms|
  {
    seq(|atoms|, i requires 0 <= i < |atoms| =>
      if FirstMatch(groups, atoms[i]).Some? then Some(atoms[i].chain) else None)
  }

  /** The loop's `subunits` counter and `prevChain` (`undefined` at the start). */
  datatype Counter = Counter(subunits: nat, prevChain: Option<string>)

  /** The counter after the loop has seen atoms `0..n`: a skipped atom changes nothing; a
      drawn atom adds one when its chain differs from the previous drawn atom's (always,
      for the first one) and becomes the previous chain. */
  function CounterAfter(marks: seq<Option<string>>, n: nat): Counter
    requires n <= |marks|
  {
    if n == 0 then Counter(0, None)
    else
      var c := CounterAfter(marks, n - 1);
      match marks[n - 1]
      case None => c
      case Some(chain) =>
        Counter(if c.prevChain != Some(chain) then c.subunits + 1 else c.subunits, Some(chain))
  }

  /** The subunit number the source writes for atom `i`: the counter BEFORE atom `i`'s
      chain is looked at. */
  function WrittenSubunit(marks: seq<Option<string>>, i: nat): nat
    requires i < |marks|
  {
    CounterAfter(marks, i).subunits
  }

  /** The subunit number with the chain test moved before the write: the counter AFTER
      atom `i`, so the first chain is subunit 1, the next 2, and so on. */
  function ChainSubunit(marks: seq<Option<string>>, i: nat): nat
    requires i < |marks|
  {
    CounterAfter(marks, i + 1).subunits
  }

  /** The counter only grows, and by at most one per atom. */
  lemma {:induction false} CounterMonotone(marks: seq<Option<string>>, j: nat, n: nat)
    requires j <= n <= |marks|
    ensures CounterAfter(marks, j).subunits <= CounterAfter(marks, n).subunits
    ensures CounterAfter(marks, n).subunits <= CounterAfter(marks, j).subunits + (n - j)
    decreases n
  {
    if j < n {
      CounterMonotone(marks, j, n - 1);
    }
  }

  /** Skipped atoms leave the counter as it was: across a run of them after `j` the
      counter is the one after `j`. */
  lemma {:induction false} SkippedRun(marks: seq<Option<string>>, j: nat, n: nat)
    requires j <= n <= |marks|
    requires forall k | j <= k < n :: marks[k].None?
    ensures CounterAfter(marks, n) == CounterAfter(marks, j)
    decreases n
  {
    if j < n {
      SkippedRun(marks, j, n - 1);
    }
  }

  /** `j` and `i` are consecutive drawn atoms: both drawn, none drawn between them. */
  predicate Consecutive(marks: seq<Option<string>>, j: nat, i: nat)
  {
    j < i < |marks| && marks[j].Some? && marks[i].Some? &&
    forall k | j < k < i :: marks[k].None?
  }

  /** As written, a drawn atom is labelled with the subunit of the previous drawn atom. */
  lemma WrittenLagsOneAtom(marks: seq<Option<string>>, j: nat, i: nat)
    requires Consecutive(marks, j, i)
    ensures WrittenSubunit(marks, i) == ChainSubunit(marks, j)
  {
    SkippedRun(marks, j + 1, i);
  }

  /** The first drawn atom is written with subunit 0 and would be subunit 1 by its chain. */
  lemma FirstDrawnWrittenZero(marks: seq<Option<string>>, i: nat)
    requires i < |marks| && marks[i].Some?
    requires forall k | 0 <= k < i :: marks[k].None?
    ensures WrittenSubunit(marks, i) == 0
    ensures ChainSubunit(marks, i) == 1
  {
    SkippedRun(marks, 0, i);
  }

  /** The defect: the first two drawn atoms of a molecule can lie on the same chain and
      still be written with different subunits, 0 and 1. */
  lemma FirstChainSplit(marks: seq<Option<string>>, j: nat, i: nat)
    requires Consecutive(marks, j, i) && marks[j] == marks[i]
    requires forall k | 0 <= k < j :: marks[k].None?
    ensures WrittenSubunit(marks, j) == 0
    ensures WrittenSubunit(marks, i) == 1
  {
    FirstDrawnWrittenZero(marks, j);
    WrittenLagsOneAtom(marks, j, i);
  }

  /** With the chain test before the write, consecutive drawn atoms share a subunit exactly
      when they share a chain, and a new chain gets the next number. */
  lemma ChainSubunitsFollowChains(marks: seq<Option<string>>, j: nat, i: nat)
    requires Consecutive(marks, j, i)
    ensures ChainSubunit(marks, i) ==
      if marks[i] == marks[j] then ChainSubunit(marks, j) else ChainSubunit(marks, j) + 1
  {
    SkippedRun(marks, j + 1, i);
  }

  // ---------------------------------------------------------------------------
  // Instance records
  // ---------------------------------------------------------------------------

  /** `pos.x`, `pos.y`, `pos.z` stored in a float slot: `undefined` becomes NaN. */
  function CoordSlot(a: Atom, k: nat): Slot
  {
    match Coordinate(a, k)
    case Some(x) => F(x)
    case None => F(NaN)
  }

  /** The record of atom `i` given its subunit number: nine zero slots for an atom no
      group matches; otherwise position, radius, colour, index and subunit. */
  function Record(groups: seq<Group>, atoms: seq<Atom>, i: nat, subunit: nat): (r: seq<Slot>)
    requires i < |atoms|
    ensures |r| == 9
  {
    var a := atoms[i];
    match FirstMatch(groups, a)
    case None => [Zero, Zero, Zero, Zero, Zero, Zero, Zero, Zero, Zero]
    case Some(g) =>
      [CoordSlot(a, 0), CoordSlot(a, 1), CoordSlot(a, 2), FloatSlot(g.radius),
       FloatSlot(g.color.0), FloatSlot(g.color.1), FloatSlot(g.color.2),
       U(Uint32(i)), U(Uint32(subunit))]
  }

  /** An atom is invisible — radius slot 0 — exactly when it is skipped or its group has
      radius 0; a drawn atom carries its own index and the given subunit in slots 7 and 8. */
  lemma RecordRadius(groups: seq<Group>, atoms: seq<Atom>, i: nat, subunit: nat)
    requires i < |atoms|
    ensures Record(groups, atoms, i, subunit)[3] == FloatSlot(0.0) <==>
      FirstMatch(groups, atoms[i]).None? || FirstMatch(groups, atoms[i]).value.radius == 0.0
    ensures FirstMatch(groups, atoms[i]).Some? ==>
      Record(groups, atoms, i, subunit)[7] == U(Uint32(i)) &&
      Record(groups, atoms, i, subunit)[8] == U(Uint32(subunit))
  {
  }

  /** The body of the loop for atom `i`, given the group `findAtomGroup` returned: the
      record is written into slots `9i..9i+9`, every other slot is kept. */
  method WriteRecord(data: array<Slot>, groups: seq<Group>, atoms: seq<Atom>, i: nat,
                     group: Option<Group>, subunit: nat)
    requires i < |atoms| && data.Length == 9 * |atoms| && group == FirstMatch(groups, atoms[i])
    modifies data
    ensures forall p | 0 <= p < data.Length ::
      data[p] == if 9 * i <= p < 9 * i + 9 then Record(groups, atoms, i, subunit)[p - 9 * i] else old(data[p])
  {
    var atom := atoms[i];
    if group.None? {
      Set(data, [Zero, Zero, Zero, Zero, Zero, Zero, Zero, Zero, Zero], i * 9);
      return;
    }
    var instance := [CoordSlot(atom, 0), CoordSlot(atom, 1), CoordSlot(atom, 2), FloatSlot(group.value.radius),
                     FloatSlot(group.value.color.0), FloatSlot(group.value.color.1), FloatSlot(group.value.color.2)];
    Set(data, instance, i * 9);
    Set(data, [U(Uint32(i)), U(Uint32(subunit))], i * 9 + |instance|);
  }

  /** The loop state: records `0..i` written, atom `k` with subunit `labels[k]`, the rest
      of the array still zero. */
  ghost predicate Filled(data: array<Slot>, groups: seq<Group>, atoms: seq<Atom>, labels: seq<nat>, i: nat)
    reads data
  {
    i <= |atoms| == |labels| && data.Length == 9 * |atoms| &&
    (forall p | 0 <= p < 9 * i :: data[p] == Record(groups, atoms, p / 9, labels[p / 9])[p % 9]) &&
    (forall p | 9 * i <= p < data.Length :: data[p] == Zero)
  }

  /** Writing record `i` over the zero slots after a filled prefix extends the prefix. */
  lemma FilledStep(data: array<Slot>, groups: seq<Group>, atoms: seq<Atom>, labels: seq<nat>, i: nat,
                   before: seq<Slot>)
    requires i < |atoms| == |labels| && data.Length == 9 * |atoms| && |before| == data.Length
    requires forall p | 0 <= p < 9 * i :: before[p] == Record(groups, atoms, p / 9, labels[p / 9])[p % 9]
    requires forall p | 9 * i <= p < data.Length :: before[p] == Zero
    requires forall p | 0 <= p < data.Length ::
      data[p] == if 9 * i <= p < 9 * i + 9 then Record(groups, atoms, i, labels[i])[p - 9 * i] else before[p]
    ensures Filled(data, groups, atoms, labels, i + 1)
  {
    forall p | 9 * i <= p < 9 * i + 9
      ensures data[p] == Record(groups, atoms, p / 9, labels[p / 9])[p % 9]
    {
      SlotOf(p, i, 9);
    }
  }

  /** The subunit numbers the source writes, atom by atom. */
  function WrittenLabels(marks: seq<Option<string>>): (labels: seq<nat>)
    ensures |labels| == |marks|
  {
    seq(|marks|, i requires 0 <= i < |marks| => WrittenSubunit(marks, i))
  }

  /** The subunit numbers of the atoms' own chains, atom by atom. */
  function ChainLabels(marks: seq<Option<string>>): (labels: seq<nat>)
    ensures |labels| == |marks|
  {
    seq(|marks|, i requires 0 <= i < |marks| => ChainSubunit(marks, i))
  }

  /** The loop of `loadData` as written: the record of atom `i` carries the counter before
      atom `i`'s chain is compared, and the comparison follows the write. */
  method FillInstanceData(groups: seq<Group>, atoms: seq<Atom>) returns (data: array<Slot>)
    ensures fresh(data) && data.Length == 9 * |atoms|
    ensures forall p | 0 <= p < data.Length ::
      data[p] == Record(groups, atoms, p / 9, WrittenSubunit(DrawnChains(groups, atoms), p / 9))[p % 9]
  {
    ghost var marks := DrawnChains(groups, atoms);
    ghost var labels := WrittenLabels(marks);
    data := NewSlots(|atoms| * 9);
    var subunits := 0;
    var prevChain: Option<string> := None;
    var i := 0;
    while i < |atoms|
      invariant Filled(data, groups, atoms, labels, i)
      invariant Counter(subunits, prevChain) == CounterAfter(marks, i)
    {
      var atom := atoms[i];
      var group := FindAtomGroup(groups, atom);
      ghost var before := data[..];
      WriteRecord(data, groups, atoms, i, group, subunits);
      FilledStep(data, groups, atoms, labels, i, before);
      assert marks[i] == if group.Some? then Some(atom.chain) else None;
      if group.Some? {
        if prevChain != Some(atom.chain) {
          subunits := subunits + 1;
        }
        prevChain := Some(atom.chain);
      }
      i := i + 1;
    }
  }

  /** All records, each atom labelled with the subunit of its own chain. */
  function ChainRecords(groups: seq<Group>, atoms: seq<Atom>): (r: seq<Slot>)
    ensures |r| == 9 * |atoms|
  {
    var marks := DrawnChains(groups, atoms);
    seq(9 * |atoms|, p requires 0 <= p < 9 * |atoms| =>
      SlotOf(p, p / 9, 9);
      Record(groups, atoms, p / 9, ChainSubunit(marks, p / 9))[p % 9])
  }

  /** The loop with the chain comparison moved before the write, so that every drawn atom
      carries the subunit of its own chain. */
  method FillInstanceDataByChain(groups: seq<Group>, atoms: seq<Atom>) returns (data: array<Slot>)
    ensures fresh(data) && data[..] == ChainRecords(groups, atoms)
  {
    ghost var marks := DrawnChains(groups, atoms);
    ghost var labels := ChainLabels(marks);
    data := NewSlots(|atoms| * 9);
    var subunits := 0;
    var prevChain: Option<string> := None;
    var i := 0;
    while i < |atoms|
      invariant Filled(data, groups, atoms, labels, i)
      invariant Counter(subunits, prevChain) == CounterAfter(marks, i)
    {
      subunits, prevChain := ChainStep(data, groups, atoms, i, subunits, prevChain);
      i := i + 1;
    }
    FilledByChain(data, groups, atoms);
  }

  /** One turn of the corrected loop: compare the chain, then write the record. */
  method ChainStep(data: array<Slot>, groups: seq<Group>, atoms: seq<Atom>, i: nat,
                   subunits: nat, prevChain: Option<string>)
    returns (subunits': nat, prevChain': Option<string>)
    requires i < |atoms|
    requires Filled(data, groups, atoms, ChainLabels(DrawnChains(groups, atoms)), i)
    requires Counter(subunits, prevChain) == CounterAfter(DrawnChains(groups, atoms), i)
    modifies data
    ensures Filled(data, groups, atoms, ChainLabels(DrawnChains(groups, atoms)), i + 1)
    ensures Counter(subunits', prevChain') == CounterAfter(DrawnChains(groups, atoms), i + 1)
  {
    ghost var marks := DrawnChains(groups, atoms);
    var atom := atoms[i];
    var group := FindAtomGroup(groups, atom);
    assert marks[i] == if group.Some? then Some(atom.chain) else None;
    subunits', prevChain' := subunits, prevChain;
    if group.Some? {
      if prevChain' != Some(atom.chain) {
        subunits' := subunits' + 1;
      }
      prevChain' := Some(atom.chain);
    }
    ghost var before := data[..];
    WriteRecord(data, groups, atoms, i, group, subunits');
    FilledStep(data, groups, atoms, ChainLabels(marks), i, before);
  }

  /** Once every record is written with its chain's subunit, the array holds ChainRecords. */
  lemma FilledByChain(data: array<Slot>, groups: seq<Group>, atoms: seq<Atom>)
    requires Filled(data, groups, atoms, ChainLabels(DrawnChains(groups, atoms)), |atoms|)
    ensures data[..] == ChainRecords(groups, atoms)
  {
    var marks := DrawnChains(groups, atoms);
    var labels := ChainLabels(marks);
    var r := ChainRecords(groups, atoms);
    forall p | 0 <= p < data.Length ensures data[..][p] == r[p] {
      SlotOf(p, p / 9, 9);
      assert labels[p / 9] == ChainSubunit(marks, p / 9);
      assert data[p] == Record(groups, atoms, p / 9, labels[p / 9])[p % 9];
    }
  }

  /** `loadData` after the download: parse the atoms, fill their records as the loop is
      written (each drawn atom carries the counter before its own chain is compared) and
      build the sphere buffer over them, one instance per atom. */
  method LoadData(g: GlState, text: string, number: string -> Num, mesh: SphereMesh)
    returns (g': GlState, buf: Buffer, data: array<Slot>)
    ensures var atoms := ParseAll(Records(text), number);
      var marks := DrawnChains(AtomGroups(), atoms);
      data.Length == |mesh.coords| + 9 * |atoms| &&
      (forall k | 0 <= k < |mesh.coords| :: data[k] == FloatSlot(mesh.coords[k])) &&
      (forall k | 0 <= k < 9 * |atoms| ::
        data[|mesh.coords| + k] == Record(AtomGroups(), atoms, k / 9, WrittenSubunit(marks, k / 9))[k % 9]) &&
      buf.instances == Some(|atoms| as real)
    ensures fresh(data) && g' == Create(Create(g))
    ensures buf.attribs == SphereAttribs(Viewer, 4 * |mesh.coords|)
  {
    var atoms := LoadPdb(text, number);
    var records := FillInstanceData(AtomGroups(), atoms);
    var instances := records[..];
    g', buf, data := MakeSphereIndexedVbo(g, Viewer, mesh, Some(instances));
    WholeRecords(|atoms|, |instances|);
  }

  /** `9n` slots make `n` records. */
  lemma WholeRecords(n: nat, m: nat)
    requires m == 9 * n
    ensures m as real / Fields(Viewer) as real == n as real
  {
  }
}
