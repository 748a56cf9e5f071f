/** The mesh indexer (data/genidx.py).

    The indexer walks the lines of an ASCII STL file.  Every line that starts with
    `vertex` is a corner of a triangle: a line seen for the first time gets the next
    index and appends its three coordinates to `verts`, a repeated line reuses its first
    index.  Every three corners make a triangle, whose first two indices are swapped when
    its triple product is not negative, so that the emitted winding is the one `aligned`
    asks for.  A trailing group of fewer than three corners is dropped.  Python's `float`
    on a coordinate is the parameter `float`; reading the file and printing are not part
    of this model. */
module MeshIndex {
  import Pdb
  import Strings

  // ---------------------------------------------------------------------------
  // `cross`, `sub`, `dot`, `aligned`
  // ---------------------------------------------------------------------------

  predicate IsPoint(p: seq<real>)
  {
    |p| == 3
  }

  function Sub(a: seq<real>, b: seq<real>): (d: seq<real>)
    requires IsPoint(a) && IsPoint(b)
    ensures IsPoint(d)
  {
    [a[0] - b[0], a[1] - b[1], a[2] - b[2]]
  }

  function Cross(a: seq<real>, b: seq<real>): (c: seq<real>)
    requires IsPoint(a) && IsPoint(b)
    ensures IsPoint(c)
  {
    [a[1] * b[2] - a[2] * b[1],
     a[2] * b[0] - a[0] * b[2],
     a[0] * b[1] - a[1] * b[0]]
  }

  function Dot(a: seq<real>, b: seq<real>): real
    requires IsPoint(a) && IsPoint(b)
  {
    a[0] * b[0] + a[1] * b[1] + a[2] * b[2]
  }

  /** a·((b−a)×(c−a)), the quantity `aligned` tests. */
  function Triple(a: seq<real>, b: seq<real>, c: seq<real>): real
    requires IsPoint(a) && IsPoint(b) && IsPoint(c)
  {
    Dot(a, Cross(Sub(b, a), Sub(c, a)))
  }

  /** `aligned`: the triple product is negative. */
  predicate Aligned(a: seq<real>, b: seq<real>, c: seq<real>)
    requires IsPoint(a) && IsPoint(b) && IsPoint(c)
  {
    Triple(a, b, c) < 0.0
  }

  /** The triple product a·((b−a)×(c−a)) is the determinant of the rows a, b, c. */
  lemma TripleIsDeterminant(a: seq<real>, b: seq<real>, c: seq<real>)
    requires IsPoint(a) && IsPoint(b) && IsPoint(c)
    ensures Triple(a, b, c) ==
      a[0] * (b[1] * c[2] - b[2] * c[1]) - a[1] * (b[0] * c[2] - b[2] * c[0]) + a[2] * (b[0] * c[1] - b[1] * c[0])
  {
    var u, v := Sub(b, a), Sub(c, a);
    calc {
      Triple(a, b, c);
      a[0] * (u[1] * v[2] - u[2] * v[1]) + a[1] * (u[2] * v[0] - u[0] * v[2]) + a[2] * (u[0] * v[1] - u[1] * v[0]);
      a[0] * ((b[1] - a[1]) * (c[2] - a[2]) - (b[2] - a[2]) * (c[1] - a[1])) +
      a[1] * ((b[2] - a[2]) * (c[0] - a[0]) - (b[0] - a[0]) * (c[2] - a[2])) +
      a[2] * ((b[0] - a[0]) * (c[1] - a[1]) - (b[1] - a[1]) * (c[0] - a[0]));
    }
  }

  /** Swapping the first two corners negates the triple product. */
  lemma SwapNegates(a: seq<real>, b: seq<real>, c: seq<real>)
    requires IsPoint(a) && IsPoint(b) && IsPoint(c)
    ensures Triple(b, a, c) == -Triple(a, b, c)
  {
    TripleIsDeterminant(a, b, c);
    TripleIsDeterminant(b, a, c);
  }

  // ---------------------------------------------------------------------------
  // Vertex lines
  // ---------------------------------------------------------------------------

  /** `line.startswith('vertex')`. */
  predicate IsVertex(line: string)
  {
    Pdb.StartsWith(line, "vertex")
  }

  /** `[float(c) for c in pieces]`. */
  function Floats(pieces: seq<string>, float: string -> real): (r: seq<real>)
    ensures |r| == |pieces|
  {
    if pieces == [] then [] else [float(pieces[0])] + Floats(pieces[1..], float)
  }

  /** The coordinates of a vertex line: the pieces after the first of `line.split(' ')`. */
  function Coords(line: string, float: string -> real): seq<real>
  {
    Floats(Strings.Split(line, ' ')[1..], float)
  }

  /** Every vertex line holds exactly three coordinates after `vertex`, each separated by
      one space. */
  predicate WellFormed(lines: seq<string>)
  {
    forall i | 0 <= i < |lines| && IsVertex(lines[i]) :: |Strings.Split(lines[i], ' ')| == 4
  }

  /** The vertex lines among `lines`, in order. */
  function VertexLines(lines: seq<string>): (vl: seq<string>)
    ensures |vl| <= |lines|
  {
    if lines == [] then []
    else
      var n := |lines|;
      VertexLines(lines[..n - 1]) + (if IsVertex(lines[n - 1]) then [lines[n - 1]] else [])
  }

  /** The different lines of `vs` in the order they first appear. */
  function Distinct(vs: seq<string>): seq<string>
  {
    if vs == [] then []
    else
      var n := |vs|;
      Distinct(vs[..n - 1]) + (if vs[n - 1] in vs[..n - 1] then [] else [vs[n - 1]])
  }

  /** `Distinct` holds every line of `vs` once and nothing else. */
  lemma {:induction false} DistinctSpec(vs: seq<string>)
    ensures forall l :: l in Distinct(vs) <==> l in vs
    ensures forall i, j | 0 <= i < j < |Distinct(vs)| :: Distinct(vs)[i] != Distinct(vs)[j]
  {
    if vs != [] {
      var n := |vs|;
      DistinctSpec(vs[..n - 1]);
      assert vs == vs[..n - 1] + [vs[n - 1]];
    }
  }

  // ---------------------------------------------------------------------------
  // The indexing loop
  // ---------------------------------------------------------------------------

  /** The variables of the loop: `vertd`, `verts`, `indexes`, the pending corners `itmp`
      and the next index `idx`. */
  datatype State = State(vertd: map<string, nat>, verts: seq<real>, indexes: seq<nat>, itmp: seq<nat>, idx: nat)

  function Start(): State
  {
    State(map[], [], [], [], 0)
  }

  /** The coordinates of vertex `i`: `verts[i*3:i*3+3]`. */
  function Corner(verts: seq<real>, i: nat): (p: seq<real>)
    requires 3 * i + 3 <= |verts|
    ensures IsPoint(p)
  {
    verts[3 * i..3 * i + 3]
  }

  predicate InRange(ids: seq<nat>, idx: nat)
  {
    forall j | 0 <= j < |ids| :: ids[j] < idx
  }

  /** What the loop keeps: `idx` counts the keys of `vertd`, which are numbered
      `0 .. idx-1` one to one; `verts` holds three coordinates per index; every index
      emitted or pending is below `idx`; fewer than three corners are pending. */
  ghost predicate Valid(st: State)
  {
    Numbered(st.vertd, st.idx) && |st.verts| == 3 * st.idx && |st.itmp| < 3 && |st.indexes| % 3 == 0 &&
    InRange(st.itmp, st.idx) && InRange(st.indexes, st.idx)
  }

  /** The keys of `vertd` are numbered one to one onto `0 .. idx-1`. */
  ghost predicate Numbered(vertd: map<string, nat>, idx: nat)
  {
    idx == |vertd| &&
    (forall l | l in vertd :: vertd[l] < idx) &&
    (forall l1, l2 | l1 in vertd && l2 in vertd && l1 != l2 :: vertd[l1] != vertd[l2])
  }

  /** The triangle `ids` as emitted: swapped in its first two corners unless aligned. */
  function Orient(ids: seq<nat>, verts: seq<real>): (r: seq<nat>)
    requires |ids| == 3 && forall j | 0 <= j < 3 :: 3 * ids[j] + 3 <= |verts|
    ensures |r| == 3 && forall j | 0 <= j < 3 :: 3 * r[j] + 3 <= |verts|
  {
    if Aligned(Corner(verts, ids[0]), Corner(verts, ids[1]), Corner(verts, ids[2])) then ids
    else [ids[1], ids[0], ids[2]]
  }

  /** `Orient` keeps the three corners and only ever swaps the first two. */
  lemma OrientPermutes(ids: seq<nat>, verts: seq<real>)
    requires |ids| == 3 && forall j | 0 <= j < 3 :: 3 * ids[j] + 3 <= |verts|
    ensures var r := Orient(ids, verts);
      multiset(r) == multiset(ids) && r[2] == ids[2]
  {
    var r := Orient(ids, verts);
    if r != ids {
      assert ids == [ids[0]] + [ids[1]] + [ids[2]];
      assert r == [ids[1]] + [ids[0]] + [ids[2]];
    }
  }

  /** Every emitted triangle is aligned unless its corners are coplanar with the origin:
      its triple product is never positive, and negative when the triangle's is not 0. */
  lemma OrientAligns(ids: seq<nat>, verts: seq<real>)
    requires |ids| == 3 && forall j | 0 <= j < 3 :: 3 * ids[j] + 3 <= |verts|
    ensures var r, p := Orient(ids, verts), Corner(verts, ids[0]);
      var q, s := Corner(verts, ids[1]), Corner(verts, ids[2]);
      Triple(Corner(verts, r[0]), Corner(verts, r[1]), Corner(verts, r[2])) <= 0.0 &&
      (Triple(p, q, s) != 0.0 ==> Aligned(Corner(verts, r[0]), Corner(verts, r[1]), Corner(verts, r[2])))
  {
    SwapNegates(Corner(verts, ids[0]), Corner(verts, ids[1]), Corner(verts, ids[2]));
  }

  /** `Valid`, except that a full group of three corners may be pending. */
  ghost predicate Pending(st: State)
  {
    Numbered(st.vertd, st.idx) && |st.verts| == 3 * st.idx && |st.itmp| <= 3 && |st.indexes| % 3 == 0 &&
    InRange(st.itmp, st.idx) && InRange(st.indexes, st.idx)
  }

  /** A vertex line looked up in `vertd`, added with the next index and its coordinates
      when it is new, and its index appended to the pending corners. */
  function AddVertex(st: State, line: string, float: string -> real): State
  {
    var isNew := line !in st.vertd;
    var vertd := if isNew then st.vertd[line := st.idx] else st.vertd;
    var verts := if isNew then st.verts + Coords(line, float) else st.verts;
    var idx := if isNew then st.idx + 1 else st.idx;
    State(vertd, verts, st.indexes, st.itmp + [vertd[line]], idx)
  }

  /** Three pending corners become a triangle of `indexes`, oriented. */
  function Flush(st: State): State
    requires Pending(st)
  {
    if |st.itmp| == 3 then
      assert forall j | 0 <= j < 3 :: st.itmp[j] < st.idx;
      st.(indexes := st.indexes + Orient(st.itmp, st.verts), itmp := [])
    else st
  }

  /** A new key numbered `idx` keeps the numbering one to one onto `0 .. idx`. */
  lemma AddKey(vertd: map<string, nat>, idx: nat, line: string)
    requires Numbered(vertd, idx) && line !in vertd
    ensures Numbered(vertd[line := idx], idx + 1)
  {
    var m := vertd[line := idx];
    assert m.Keys == vertd.Keys + {line};
  }

  lemma AddVertexPending(st: State, line: string, float: string -> real)
    requires Valid(st) && |Coords(line, float)| == 3
    ensures Pending(AddVertex(st, line, float))
  {
    if line !in st.vertd {
      AddKey(st.vertd, st.idx, line);
    }
    var r := AddVertex(st, line, float);
    assert InRange(st.indexes, r.idx);
  }

  lemma FlushValid(st: State)
    requires Pending(st)
    ensures Valid(Flush(st))
  {
    if |st.itmp| == 3 {
      assert InRange(st.indexes + Orient(st.itmp, st.verts), st.idx);
    }
  }

  /** One line of the loop: nothing for a line that is not a vertex. */
  function Step(st: State, line: string, float: string -> real): (r: State)
    requires Valid(st) && (IsVertex(line) ==> |Coords(line, float)| == 3)
    ensures Valid(r)
  {
    if !IsVertex(line) then st
    else
      AddVertexPending(st, line, float);
      var added := AddVertex(st, line, float);
      FlushValid(added);
      Flush(added)
  }

  /** The loop over the first lines of `lines`. */
  function Run(lines: seq<string>, float: string -> real): (st: State)
    requires WellFormed(lines)
    ensures Valid(st)
  {
    if lines == [] then Start()
    else
      var n := |lines|;
      assert WellFormed(lines[..n - 1]);
      Step(Run(lines[..n - 1], float), lines[n - 1], float)
  }

  /** What `Step` does to `vertd`, `verts` and `idx` on a vertex line. */
  lemma StepTable(st: State, line: string, float: string -> real)
    requires Valid(st) && IsVertex(line) && |Coords(line, float)| == 3
    ensures var r, isNew := Step(st, line, float), line !in st.vertd;
      r.vertd == (if isNew then st.vertd[line := st.idx] else st.vertd) &&
      r.verts == (if isNew then st.verts + Coords(line, float) else st.verts) &&
      r.idx == (if isNew then st.idx + 1 else st.idx)
  {
  }

  /** Lines are deduplicated by their exact text: the keys of `vertd` are the vertex lines
      `vl` seen so far, the `i`-th different one in order of first appearance has index
      `i`, and its three coordinates are `verts[3*i .. 3*i+3]`. */
  ghost predicate Dedup(vertd: map<string, nat>, verts: seq<real>, idx: nat, vl: seq<string>, float: string -> real)
    requires |verts| == 3 * idx
  {
    var d := Distinct(vl);
    |d| == idx &&
    (forall l :: l in vertd <==> l in vl) &&
    (forall i | 0 <= i < |d| :: d[i] in vertd && vertd[d[i]] == i && Corner(verts, i) == Coords(d[i], float))
  }

  /** A repeated line changes nothing in the table. */
  lemma DedupSeen(vertd: map<string, nat>, verts: seq<real>, idx: nat, vl: seq<string>, line: string,
                  float: string -> real)
    requires |verts| == 3 * idx && Dedup(vertd, verts, idx, vl, float) && line in vertd
    ensures Dedup(vertd, verts, idx, vl + [line], float)
  {
    var vl2 := vl + [line];
    assert vl2[..|vl2| - 1] == vl;
    assert Distinct(vl2) == Distinct(vl);
    assert forall l :: l in vl2 <==> l in vl || l == line;
  }

  /** A new line becomes the next different line, with the next index and its coordinates
      after the others. */
  lemma DedupNew(vertd: map<string, nat>, verts: seq<real>, idx: nat, vl: seq<string>, line: string,
                 float: string -> real)
    requires |verts| == 3 * idx && Dedup(vertd, verts, idx, vl, float) && line !in vertd
    requires |Coords(line, float)| == 3
    ensures Dedup(vertd[line := idx], verts + Coords(line, float), idx + 1, vl + [line], float)
  {
    var vl2 := vl + [line];
    assert vl2[..|vl2| - 1] == vl;
    var d, d2 := Distinct(vl), Distinct(vl2);
    assert d2 == d + [line];
    var vertd2, verts2 := vertd[line := idx], verts + Coords(line, float);
    assert forall l :: l in vl2 <==> l in vl || l == line;
    DistinctSpec(vl);
    forall i | 0 <= i < |d|
      ensures d2[i] in vertd2 && vertd2[d2[i]] == i && Corner(verts2, i) == Coords(d2[i], float)
    {
      assert d[i] in vl;
      assert verts2[..|verts|] == verts;
      assert Corner(verts2, i) == Corner(verts, i);
    }
    assert Corner(verts2, idx) == Coords(line, float);
  }

  /** A vertex line keeps `Dedup`. */
  lemma DedupStep(st: State, vl: seq<string>, line: string, float: string -> real)
    requires Valid(st) && IsVertex(line) && |Coords(line, float)| == 3 && Dedup(st.vertd, st.verts, st.idx, vl, float)
    ensures var r := Step(st, line, float); Dedup(r.vertd, r.verts, r.idx, vl + [line], float)
  {
    StepTable(st, line, float);
    if line in st.vertd {
      DedupSeen(st.vertd, st.verts, st.idx, vl, line, float);
    } else {
      DedupNew(st.vertd, st.verts, st.idx, vl, line, float);
    }
  }

  /** The dedup property holds after the loop. */
  lemma {:induction false} RunDedup(lines: seq<string>, float: string -> real)
    requires WellFormed(lines)
    ensures var st := Run(lines, float); Dedup(st.vertd, st.verts, st.idx, VertexLines(lines), float)
  {
    if lines != [] {
      var n := |lines|;
      var prefix, line := lines[..n - 1], lines[n - 1];
      assert WellFormed(prefix);
      RunDedup(prefix, float);
      if IsVertex(line) {
        assert VertexLines(lines) == VertexLines(prefix) + [line];
        DedupStep(Run(prefix, float), VertexLines(prefix), line, float);
      } else {
        assert VertexLines(lines) == VertexLines(prefix);
        assert Run(lines, float) == Run(prefix, float);
      }
    }
  }

  /** The indices of the lines `ls` in `vertd`. */
  function Ids(ls: seq<string>, vertd: map<string, nat>): (ids: seq<nat>)
    requires forall l | l in ls :: l in vertd
    ensures |ids| == |ls| && forall j | 0 <= j < |ls| :: ids[j] == vertd[ls[j]]
  {
    seq(|ls|, j requires 0 <= j < |ls| => vertd[ls[j]])
  }

  /** Extending `verts` leaves the orientation of a triangle over the old vertices alone. */
  lemma OrientStable(ids: seq<nat>, verts: seq<real>, more: seq<real>)
    requires |ids| == 3 && forall j | 0 <= j < 3 :: 3 * ids[j] + 3 <= |verts|
    ensures Orient(ids, verts + more) == Orient(ids, verts)
  {
    forall j | 0 <= j < 3 ensures Corner(verts + more, ids[j]) == Corner(verts, ids[j]) {
      assert (verts + more)[..|verts|] == verts;
    }
  }

  /** Valid corner indices for `verts`. */
  predicate Corners(ids: seq<nat>, verts: seq<real>)
  {
    forall j | 0 <= j < |ids| :: 3 * ids[j] + 3 <= |verts|
  }

  /** The first `k` groups of three corner indices of `c`, each passed through `orient`. */
  function Groups(c: seq<nat>, k: nat, orient: seq<nat> -> seq<nat>): (r: seq<nat>)
    requires 3 * k <= |c|
  {
    if k == 0 then [] else Groups(c, k - 1, orient) + orient(c[3 * k - 3..3 * k])
  }

  /** `orient` turns every group of three into three. */
  ghost predicate Triples(orient: seq<nat> -> seq<nat>)
  {
    forall g: seq<nat> | |g| == 3 :: |orient(g)| == 3
  }

  /** The orientation step of the indexer, as a function on groups of three. */
  function Oriented(verts: seq<real>): seq<nat> -> seq<nat>
  {
    g => if |g| == 3 && Corners(g, verts) then Orient(g, verts) else g
  }

  lemma OrientedTriples(verts: seq<real>)
    ensures Triples(Oriented(verts))
  {
  }

  /** Only the first `k` groups of `c` matter. */
  lemma {:induction false} GroupsPrefix(c: seq<nat>, d: seq<nat>, k: nat, orient: seq<nat> -> seq<nat>)
    requires 3 * k <= |c|
    ensures Groups(c + d, k, orient) == Groups(c, k, orient)
  {
    if k > 0 {
      GroupsPrefix(c, d, k - 1, orient);
      assert (c + d)[3 * k - 3..3 * k] == c[3 * k - 3..3 * k];
    }
  }

  /** The `t`-th group of the result is the `t`-th group of `c`, through `orient`. */
  lemma {:induction false} GroupsAt(c: seq<nat>, k: nat, orient: seq<nat> -> seq<nat>, t: nat)
    requires 3 * k <= |c| && Triples(orient) && t < k
    ensures |Groups(c, k, orient)| == 3 * k
    ensures Groups(c, k, orient)[3 * t..3 * t + 3] == orient(c[3 * t..3 * t + 3])
  {
    var r := Groups(c, k, orient);
    var last := c[3 * k - 3..3 * k];
    assert |orient(last)| == 3;
    if t + 1 < k {
      GroupsAt(c, k - 1, orient, t);
      assert r[..3 * k - 3] == Groups(c, k - 1, orient);
    } else {
      if k > 1 {
        GroupsAt(c, k - 1, orient, 0);
      }
      assert r[3 * t..] == orient(last);
    }
  }

  /** Two orientations that agree on every group of corners of `verts` give the same
      triangles. */
  lemma {:induction false} GroupsSame(c: seq<nat>, k: nat, o1: seq<nat> -> seq<nat>, o2: seq<nat> -> seq<nat>,
                                      verts: seq<real>)
    requires 3 * k <= |c| && Corners(c, verts)
    requires forall g: seq<nat> | |g| == 3 && Corners(g, verts) :: o1(g) == o2(g)
    ensures Groups(c, k, o1) == Groups(c, k, o2)
  {
    if k > 0 {
      GroupsSame(c, k - 1, o1, o2, verts);
      assert Corners(c[3 * k - 3..3 * k], verts);
    }
  }

  /** Orienting a group of corners of `verts` does not change when `verts` grows. */
  lemma OrientedStable(verts: seq<real>, more: seq<real>)
    ensures forall g: seq<nat> | |g| == 3 && Corners(g, verts) :: Oriented(verts + more)(g) == Oriented(verts)(g)
  {
    forall g: seq<nat> | |g| == 3 && Corners(g, verts) ensures Oriented(verts + more)(g) == Oriented(verts)(g) {
      OrientStable(g, verts, more);
    }
  }

  /** So every triangle emitted for `c` is a group of three corners of `c`, oriented; its
      triple product is never positive, and negative unless the group's was 0. */
  lemma TrianglesAligned(c: seq<nat>, k: nat, verts: seq<real>, t: nat)
    requires 3 * k <= |c| && Corners(c, verts) && t < k
    ensures var r, g := Groups(c, k, Oriented(verts)), c[3 * t..3 * t + 3];
      Corners(g, verts) &&
      var o := Orient(g, verts);
      |r| == 3 * k && r[3 * t..3 * t + 3] == o &&
      Triple(Corner(verts, o[0]), Corner(verts, o[1]), Corner(verts, o[2])) <= 0.0 &&
      (Triple(Corner(verts, g[0]), Corner(verts, g[1]), Corner(verts, g[2])) != 0.0 ==>
        Aligned(Corner(verts, o[0]), Corner(verts, o[1]), Corner(verts, o[2])))
  {
    var g := c[3 * t..3 * t + 3];
    OrientedTriples(verts);
    GroupsAt(c, k, Oriented(verts), t);
    assert Corners(g, verts);
    OrientAligns(g, verts);
  }

  /** The corner indices `ids` seen so far are grouped: every full group of three became
      one triangle of `indexes`, in order, and the rest is pending in `itmp`. */
  ghost predicate Grouped(st: State, ids: seq<nat>)
  {
    Corners(ids, st.verts) && GroupedBy(st.indexes, st.itmp, ids, Oriented(st.verts))
  }

  /** `GroupedBy`, for any orientation `orient`. */
  ghost predicate GroupedBy(indexes: seq<nat>, itmp: seq<nat>, ids: seq<nat>, orient: seq<nat> -> seq<nat>)
  {
    var m := |indexes|;
    m + |itmp| == |ids| && itmp == ids[m..] && m % 3 == 0 && indexes == Groups(ids, m / 3, orient)
  }

  /** A new corner `id` joins the pending ones; an orientation that agrees on the corners
      of `verts` describes the same triangles. */
  lemma GroupedPending(indexes: seq<nat>, itmp: seq<nat>, ids: seq<nat>, id: nat,
                       o1: seq<nat> -> seq<nat>, o2: seq<nat> -> seq<nat>, verts: seq<real>)
    requires GroupedBy(indexes, itmp, ids, o1) && Corners(ids, verts)
    requires forall g: seq<nat> | |g| == 3 && Corners(g, verts) :: o2(g) == o1(g)
    ensures GroupedBy(indexes, itmp + [id], ids + [id], o2)
  {
    var m, k := |indexes|, |indexes| / 3;
    GroupsSame(ids, k, o2, o1, verts);
    GroupsPrefix(ids, [id], k, o2);
    assert (ids + [id])[m..] == itmp + [id];
  }

  /** A third pending corner completes the next triangle. */
  lemma GroupedFlush(indexes: seq<nat>, itmp: seq<nat>, ids: seq<nat>, orient: seq<nat> -> seq<nat>)
    requires GroupedBy(indexes, itmp, ids, orient) && |itmp| == 3 && |orient(itmp)| == 3
    ensures GroupedBy(indexes + orient(itmp), [], ids, orient)
  {
    var m, k := |indexes|, |indexes| / 3;
    assert m == 3 * k && |ids| == m + 3;
    assert ids[3 * k..3 * k + 3] == itmp;
    var next := indexes + orient(itmp);
    assert |next| == 3 * (k + 1);
    assert |next| / 3 == k + 1 && |next| % 3 == 0;
    assert Groups(ids, k + 1, orient) == Groups(ids, k, orient) + orient(ids[3 * k..3 * k + 3]);
    assert ids[|next|..] == [];
  }

  /** What `Step` does to `indexes` and `itmp` on a vertex line. */
  lemma StepGroups(st: State, line: string, float: string -> real)
    requires Valid(st) && IsVertex(line) && |Coords(line, float)| == 3
    ensures var r, a := Step(st, line, float), AddVertex(st, line, float);
      line in r.vertd && a.itmp == st.itmp + [r.vertd[line]] &&
      a.verts == r.verts && 3 * r.vertd[line] + 3 <= |r.verts| &&
      (|a.itmp| == 3 ==> r.indexes == st.indexes + Oriented(r.verts)(a.itmp) && r.itmp == []) &&
      (|a.itmp| < 3 ==> r.indexes == st.indexes && r.itmp == a.itmp)
  {
    AddVertexPending(st, line, float);
  }

  /** A vertex line keeps `Grouped`: its index joins the pending corners, and a third
      pending corner completes a triangle. */
  lemma GroupStep(st: State, ids: seq<nat>, line: string, float: string -> real)
    requires Valid(st) && IsVertex(line) && |Coords(line, float)| == 3 && Grouped(st, ids)
    ensures var r := Step(st, line, float);
      line in r.vertd && Grouped(r, ids + [r.vertd[line]])
  {
    StepTable(st, line, float);
    StepGroups(st, line, float);
    var r, a := Step(st, line, float), AddVertex(st, line, float);
    var id := r.vertd[line];
    var more := if line in st.vertd then [] else Coords(line, float);
    assert r.verts == st.verts + more;
    assert Corners(ids + [id], r.verts);
    OrientedStable(st.verts, more);
    GroupedPending(st.indexes, st.itmp, ids, id, Oriented(st.verts), Oriented(r.verts), st.verts);
    if |a.itmp| == 3 {
      OrientedTriples(r.verts);
      GroupedFlush(st.indexes, a.itmp, ids + [id], Oriented(r.verts));
    }
  }

  /** Every line of `vl` has an index, and their indices are grouped in `st`. */
  ghost predicate GroupedLines(st: State, vl: seq<string>)
  {
    (forall l | l in vl :: l in st.vertd) && Grouped(st, Ids(vl, st.vertd))
  }

  /** `GroupStep` for the vertex lines `vl` seen so far and the next one, `line`. */
  lemma GroupLine(st: State, vl: seq<string>, line: string, float: string -> real)
    requires Valid(st) && IsVertex(line) && |Coords(line, float)| == 3 && GroupedLines(st, vl)
    ensures GroupedLines(Step(st, line, float), vl + [line])
  {
    var r := Step(st, line, float);
    GroupStep(st, Ids(vl, st.vertd), line, float);
    StepTable(st, line, float);
    assert Ids(vl + [line], r.vertd) == Ids(vl, st.vertd) + [r.vertd[line]];
  }

  /** After the loop, the vertex lines' indices, three at a time and oriented, are
      `indexes`; the indices of a trailing partial group are left in `itmp`. */
  lemma {:induction false} RunGroups(lines: seq<string>, float: string -> real)
    requires WellFormed(lines)
    ensures GroupedLines(Run(lines, float), VertexLines(lines))
  {
    if lines != [] {
      var n := |lines|;
      var prefix, line := lines[..n - 1], lines[n - 1];
      assert WellFormed(prefix);
      RunGroups(prefix, float);
      var st, vl := Run(prefix, float), VertexLines(prefix);
      if IsVertex(line) {
        assert VertexLines(lines) == vl + [line];
        GroupLine(st, vl, line, float);
      } else {
        assert VertexLines(lines) == vl;
        assert Run(lines, float) == st;
      }
    }
  }

  /** The emitted triangles: one per full group of three vertex lines, in order, each the
      indices of its three lines with the first two swapped unless they are aligned; its
      triple product is never positive, and negative unless the group's is 0.  The
      corners of a trailing partial group are left pending. */
  lemma RunTriangles(lines: seq<string>, float: string -> real, t: nat)
    requires WellFormed(lines) && t < |VertexLines(lines)| / 3
    ensures var st, vl := Run(lines, float), VertexLines(lines);
      |st.indexes| == 3 * (|vl| / 3) && (forall l | l in vl :: l in st.vertd) &&
      var g := Ids(vl, st.vertd)[3 * t..3 * t + 3];
      Corners(g, st.verts) &&
      var o := Orient(g, st.verts);
      st.indexes[3 * t..3 * t + 3] == o &&
      Triple(Corner(st.verts, o[0]), Corner(st.verts, o[1]), Corner(st.verts, o[2])) <= 0.0 &&
      (Triple(Corner(st.verts, g[0]), Corner(st.verts, g[1]), Corner(st.verts, g[2])) != 0.0 ==>
        Aligned(Corner(st.verts, o[0]), Corner(st.verts, o[1]), Corner(st.verts, o[2])))
  {
    var st, vl := Run(lines, float), VertexLines(lines);
    RunCounts(lines, float);
    RunGroups(lines, float);
    var ids := Ids(vl, st.vertd);
    TrianglesAligned(ids, |st.indexes| / 3, st.verts, t);
  }

  /** One triangle per full group of three vertex lines; the rest stay pending. */
  lemma RunCounts(lines: seq<string>, float: string -> real)
    requires WellFormed(lines)
    ensures var st, n := Run(lines, float), |VertexLines(lines)|;
      |st.indexes| == 3 * (n / 3) && |st.itmp| == n % 3
  {
    var st := Run(lines, float);
    RunGroups(lines, float);
    SplitThrees(|st.indexes|, |st.itmp|);
  }

  /** A multiple of three plus less than three. */
  lemma SplitThrees(m: nat, p: nat)
    requires m % 3 == 0 && p < 3
    ensures m == 3 * ((m + p) / 3) && p == (m + p) % 3
  {
  }

  /** The loop of genidx.py over `lines`: the index table, the coordinates and the
      triangle indices it leaves. */
  method Index(lines: seq<string>, float: string -> real)
    returns (vertd: map<string, nat>, verts: seq<real>, indexes: seq<nat>)
    requires WellFormed(lines)
    ensures var st := Run(lines, float); vertd == st.vertd && verts == st.verts && indexes == st.indexes
  {
    vertd, verts, indexes := map[], [], [];
    var itmp: seq<nat> := [];
    var idx: nat := 0;
    for k := 0 to |lines|
      invariant State(vertd, verts, indexes, itmp, idx) == Run(lines[..k], float)
    {
      RunPrefix(lines, k, float);
      var line := lines[k];
      if !IsVertex(line) {
        continue;
      }
      vertd, verts, indexes, itmp, idx := IndexVertex(vertd, verts, indexes, itmp, idx, line, float);
    }
    assert lines[..|lines|] == lines;
  }

  /** One more line of the loop: the run over `k + 1` lines steps the run over `k`. */
  lemma RunPrefix(lines: seq<string>, k: nat, float: string -> real)
    requires WellFormed(lines) && k < |lines|
    ensures WellFormed(lines[..k]) && WellFormed(lines[..k + 1])
    ensures IsVertex(lines[k]) ==> |Coords(lines[k], float)| == 3
    ensures Run(lines[..k + 1], float) == Step(Run(lines[..k], float), lines[k], float)
    ensures !IsVertex(lines[k]) ==> Run(lines[..k + 1], float) == Run(lines[..k], float)
  {
    assert lines[..k + 1][..k] == lines[..k];
  }

  /** The body of the loop for a vertex line: look the line up, numbering and storing it
      when new, append its index to `itmp`, and flush a full `itmp`. */
  method IndexVertex(vertd: map<string, nat>, verts: seq<real>, indexes: seq<nat>, itmp: seq<nat>, idx: nat,
                     line: string, float: string -> real)
    returns (vertd': map<string, nat>, verts': seq<real>, indexes': seq<nat>, itmp': seq<nat>, idx': nat)
    requires Valid(State(vertd, verts, indexes, itmp, idx)) && IsVertex(line) && |Coords(line, float)| == 3
    ensures State(vertd', verts', indexes', itmp', idx') == Step(State(vertd, verts, indexes, itmp, idx), line, float)
  {
    var coord := Strings.Split(line, ' ')[1..];
    vertd', verts', idx' := vertd, verts, idx;
    if line !in vertd' {
      verts' := verts' + Floats(coord, float);
      vertd' := vertd'[line := idx'];
      idx' := idx' + 1;
    }
    itmp' := itmp + [vertd'[line]];
    assert State(vertd', verts', indexes, itmp', idx') == AddVertex(State(vertd, verts, indexes, itmp, idx), line, float);
    AddVertexPending(State(vertd, verts, indexes, itmp, idx), line, float);
    indexes', itmp' := FlushTriangle(vertd', verts', indexes, itmp', idx');
  }

  /** Three pending corners are emitted, the first two swapped unless aligned. */
  method FlushTriangle(ghost vertd: map<string, nat>, verts: seq<real>, indexes: seq<nat>, itmp: seq<nat>, ghost idx: nat)
    returns (indexes': seq<nat>, itmp': seq<nat>)
    requires Pending(State(vertd, verts, indexes, itmp, idx))
    ensures State(vertd, verts, indexes', itmp', idx) == Flush(State(vertd, verts, indexes, itmp, idx))
  {
    indexes', itmp' := indexes, itmp;
    if |itmp'| == 3 {
      assert forall j | 0 <= j < 3 :: itmp'[j] < idx;
      if !Aligned(Corner(verts, itmp'[0]), Corner(verts, itmp'[1]), Corner(verts, itmp'[2])) {
        itmp' := [itmp'[1], itmp'[0], itmp'[2]];
      }
      indexes' := indexes' + itmp';
      itmp' := [];
    }
  }

  // ---------------------------------------------------------------------------
  // `short` and the two printed lines
  // ---------------------------------------------------------------------------

  /** `s` without its leading characters `c`: Python's `lstrip(c)`. */
  function StripStart(s: string, c: char): (r: string)
    ensures |r| <= |s| && r == s[|s| - |r|..] && (r == [] || r[0] != c)
    ensures forall i | 0 <= i < |s| - |r| :: s[i] == c
  {
    if s != [] && s[0] == c then StripStart(s[1..], c) else s
  }

  /** `s` without its trailing characters `c`: Python's `rstrip(c)`. */
  function StripEnd(s: string, c: char): (r: string)
    ensures |r| <= |s| && r == s[..|r|] && (r == [] || r[|r| - 1] != c)
    ensures forall i | |r| <= i < |s| :: s[i] == c
  {
    if s != [] && s[|s| - 1] == c then StripEnd(s[..|s| - 1], c) else s
  }

  /** Python's `strip(c)`. */
  function Strip(s: string, c: char): string
  {
    StripEnd(StripStart(s, c), c)
  }

  /** A character other than `c` stops `StripEnd`: whatever precedes it is kept. */
  lemma StripEndKeeps(t: string, x: char, u: string, c: char)
    requires x != c
    ensures var r := StripEnd(t + [x] + u, c); |t| < |r| && r[..|t| + 1] == t + [x]
  {
    var s := t + [x] + u;
    assert s[|t|] == x;
  }

  /** `StartsWith` is the prefix relation. */
  lemma {:induction false} PrefixStarts(s: string, p: string)
    requires |p| <= |s| && s[..|p|] == p
    ensures Pdb.StartsWith(s, p)
  {
    if p != [] {
      PrefixStarts(s[1..], p[1..]);
    }
  }

  /** Python's `s.replace(pat, rep)`: every occurrence of `pat`, scanning from the left and
      without overlaps, becomes `rep`. */
  function Replace(s: string, pat: string, rep: string): string
    requires |pat| > 0
    decreases |s|
  {
    if |s| < |pat| then s
    else if s[..|pat|] == pat then rep + Replace(s[|pat|..], pat, rep)
    else [s[0]] + Replace(s[1..], pat, rep)
  }

  /** Replacing `0.` by `.` keeps a string non-empty, keeps a first character other than
      `0`, and keeps a last character other than `.`. */
  lemma {:induction false} ReplaceKeepsEnds(s: string)
    ensures var r := Replace(s, "0.", ".");
      (s != [] ==> r != []) &&
      (s != [] && s[0] != '0' ==> r[0] == s[0]) &&
      (s != [] && s[|s| - 1] != '.' ==> r[|r| - 1] == s[|s| - 1])
  {
    if |s| >= 2 {
      var r := Replace(s, "0.", ".");
      if s[..2] == "0." {
        ReplaceKeepsEnds(s[2..]);
        if s[|s| - 1] != '.' {
          assert |s| > 2;
        }
      } else {
        ReplaceKeepsEnds(s[1..]);
      }
    }
  }

  /** The formatted text with zeros stripped from both ends and then a trailing point. */
  function Trimmed(fixed: string): string
  {
    StripEnd(Strip(fixed, '0'), '.')
  }

  /** `short` as written: two decimals, zeros stripped from both ends, a trailing point
      dropped, every `0.` replaced by `.`, and `0` for what is left empty.  `fixed` is
      the text `'{:.2f}'.format` gives. */
  function ShortAsWritten(fixed: string): string
  {
    var g := Replace(Trimmed(fixed), "0.", ".");
    if g == "" then "0" else g
  }

  /** The replacement is meant to drop the zero of a number below one, as in `-0.50`
      becoming `-.5`; it also drops the last digit of a whole part ending in 0, so that
      10.5 is printed as `1.5`. */
  lemma ShortAsWrittenDropsDigit()
    ensures ShortAsWritten("10.50") == "1.5"
    ensures Short("10.50") == "10.5"
  {
    assert StripStart("10.50", '0') == "10.50";
    assert StripEnd("10.50", '0') == "10.5";
    assert StripEnd("10.5", '.') == "10.5";
    assert "10.5"[..2] == "10";
    assert "0.5"[..2] == "0.";
    assert Replace("5", "0.", ".") == "5";
    assert Replace("0.5", "0.", ".") == ".5";
    assert Replace("10.5", "0.", ".") == "1.5";
  }

  /** `short` as intended: as written, except that only the zero of a whole part `-0` is
      dropped (a whole part `0` is already gone with the leading zeros). */
  function Short(fixed: string): string
  {
    var f := Trimmed(fixed);
    var g := if |f| >= 3 && f[..3] == "-0." then "-" + f[2..] else f;
    if g == "" then "0" else g
  }

  /** `Trimmed` neither starts with a zero nor ends in a point. */
  lemma TrimmedShape(fixed: string)
    ensures var f := Trimmed(fixed); f == [] || (f[0] != '0' && f[|f| - 1] != '.')
  {
    var a := StripStart(fixed, '0');
    var b := StripEnd(a, '0');
    assert b == [] || b[0] == a[0];
  }

  /** What `short` promises: a non-empty text that neither ends in a point nor, unless it
      is `0`, starts with a zero. */
  lemma ShortShape(fixed: string)
    ensures var r := Short(fixed);
      r != [] && r[|r| - 1] != '.' && (r == "0" || r[0] != '0')
  {
    var f := Trimmed(fixed);
    TrimmedShape(fixed);
    if |f| >= 3 && f[..3] == "-0." {
      var g := "-" + f[2..];
      assert g[|g| - 1] == f[|f| - 1] && g[0] == '-';
    }
  }

  /** The same holds of `short` as written. */
  lemma ShortAsWrittenShape(fixed: string)
    ensures var r := ShortAsWritten(fixed);
      r != [] && r[|r| - 1] != '.' && (r == "0" || r[0] != '0')
  {
    TrimmedShape(fixed);
    ReplaceKeepsEnds(Trimmed(fixed));
  }

  /** The whole part of a number at least one, with its sign, survives `Short`. */
  lemma ShortKeepsWholePart(sign: string, whole: string, fraction: string)
    requires sign == "" || sign == "-"
    requires whole != [] && whole[0] != '0' && forall i | 0 <= i < |whole| :: '0' <= whole[i] <= '9'
    ensures Pdb.StartsWith(Short(sign + whole + "." + fraction), sign + whole)
  {
    var p := sign + whole;
    SignedWhole(sign, whole);
    TrimmedKeeps(p, fraction);
    var f := Trimmed(p + "." + fraction);
    assert Short(p + "." + fraction) == f;
    PrefixStarts(f, p);
  }

  /** A signed whole part at least one starts with neither a zero nor `-0`, and does not
      end in a point. */
  lemma SignedWhole(sign: string, whole: string)
    requires sign == "" || sign == "-"
    requires whole != [] && whole[0] != '0' && forall i | 0 <= i < |whole| :: '0' <= whole[i] <= '9'
    ensures var p := sign + whole;
      p[0] != '0' && p[|p| - 1] != '.' && !(|p| >= 2 && p[..2] == "-0")
  {
    var p := sign + whole;
    assert p[|p| - 1] == whole[|whole| - 1];
    if sign == "-" {
      assert p[1] == whole[0];
    }
  }

  /** A text that starts with neither a zero nor a point, nor ends in one, keeps itself
      as a prefix of `Trimmed` when followed by a point and the fraction digits. */
  lemma TrimmedKeeps(p: string, fraction: string)
    requires p != [] && p[0] != '0' && p[|p| - 1] != '.'
    ensures var f := Trimmed(p + "." + fraction); |p| <= |f| && f[..|p|] == p
  {
    var n := |p|;
    var s := p + "." + fraction;
    assert s[0] == p[0];
    assert StripStart(s, '0') == s;
    StripEndKeeps(p, '.', fraction, '0');
    var a := StripEnd(s, '0');
    assert a[..n] == p;
    var t, x := p[..n - 1], p[n - 1];
    assert a == t + [x] + a[n..];
    StripEndKeeps(t, x, a[n..], '.');
  }

  /** `StartsWith` gives the prefix. */
  lemma {:induction false} StartsPrefix(s: string, p: string)
    requires Pdb.StartsWith(s, p)
    ensures |p| <= |s| && s[..|p|] == p
  {
    if p != [] {
      StartsPrefix(s[1..], p[1..]);
    }
  }

  /** The decimal digits of `n`, as Python's `str` writes a non-negative integer. */
  function Decimal(n: nat): (r: string)
    ensures r != [] && forall i | 0 <= i < |r| :: '0' <= r[i] <= '9'
  {
    if n < 10 then [Digit(n)] else Decimal(n / 10) + [Digit(n % 10)]
  }

  function Digit(d: nat): (c: char)
    requires d < 10
    ensures '0' <= c <= '9'
  {
    '0' + d as char
  }

  /** The number a string of decimal digits stands for. */
  function DecimalValue(s: string): nat
    requires forall i | 0 <= i < |s| :: '0' <= s[i] <= '9'
  {
    if s == [] then 0 else 10 * DecimalValue(s[..|s| - 1]) + (s[|s| - 1] - '0') as nat
  }

  /** `Decimal` loses nothing. */
  lemma {:induction false} DecimalRoundTrip(n: nat)
    ensures DecimalValue(Decimal(n)) == n
  {
    var r := Decimal(n);
    if n >= 10 {
      DecimalRoundTrip(n / 10);
      assert r[..|r| - 1] == Decimal(n / 10);
    }
  }

  /** `','.join(items)`. */
  function JoinCommas(items: seq<string>): string
  {
    if items == [] then "" else Strings.Join(items, ',')
  }

  /** The two printed lines: every coordinate through `short` as written, and every
      triangle index.  A line is empty exactly when its list is. */
  function Output(verts: seq<real>, indexes: seq<nat>, fixed: real -> string): (r: (string, string))
    ensures r.0 == [] <==> verts == []
    ensures r.1 == [] <==> indexes == []
  {
    var coords := seq(|verts|, i requires 0 <= i < |verts| => ShortAsWritten(fixed(verts[i])));
    var ids := seq(|indexes|, i requires 0 <= i < |indexes| => Decimal(indexes[i]));
    JoinCommasEmpty(coords);
    JoinCommasEmpty(ids);
    (JoinCommas(coords), JoinCommas(ids))
  }

  /** The first printed line with the corrected `short`. */
  function CorrectedOutput(verts: seq<real>, fixed: real -> string): string
  {
    JoinCommas(seq(|verts|, i requires 0 <= i < |verts| => Short(fixed(verts[i]))))
  }

  /** Joining non-empty items gives the empty text only for no items. */
  lemma JoinCommasEmpty(items: seq<string>)
    requires forall k | 0 <= k < |items| :: items[k] != []
    ensures JoinCommas(items) == [] <==> items == []
  {
    if |items| > 1 {
      assert JoinCommas(items) == items[0] + [','] + Strings.Join(items[1..], ',');
    }
  }

  /** A character other than `.` that the formatted text lacks, `short` as written does not
      print either: stripping and replacing only remove characters or write a point. */
  lemma ShortAsWrittenAvoids(fixed: string, c: char)
    requires c != '.' && c != '0' && c !in fixed
    ensures c !in ShortAsWritten(fixed)
  {
    var a := StripStart(fixed, '0');
    assert a == fixed[|fixed| - |a|..];
    var b := StripEnd(a, '0');
    assert b == a[..|b|];
    var f := StripEnd(b, '.');
    assert f == b[..|f|];
    ReplaceAvoids(f, c);
  }

  /** The same for the replacement of `0.` by `.`. */
  lemma {:induction false} ReplaceAvoids(s: string, c: char)
    requires c != '.' && c !in s
    ensures c !in Replace(s, "0.", ".")
    decreases |s|
  {
    if |s| >= 2 {
      if s[..2] == "0." {
        assert s[2..] == s[1..][1..];
        ReplaceAvoids(s[2..], c);
      } else {
        ReplaceAvoids(s[1..], c);
      }
    }
  }

  /** Splitting the first printed line on commas gives each coordinate's `short` back, as
      long as the formatting never writes a comma. */
  lemma CoordinateLineRoundTrip(verts: seq<real>, indexes: seq<nat>, fixed: real -> string)
    requires verts != []
    requires forall i | 0 <= i < |verts| :: ',' !in fixed(verts[i])
    ensures Strings.Split(Output(verts, indexes, fixed).0, ',') ==
      seq(|verts|, i requires 0 <= i < |verts| => ShortAsWritten(fixed(verts[i])))
  {
    var items := seq(|verts|, i requires 0 <= i < |verts| => ShortAsWritten(fixed(verts[i])));
    forall k | 0 <= k < |items| ensures ',' !in items[k] {
      ShortAsWrittenAvoids(fixed(verts[k]), ',');
    }
    Strings.SplitJoin(items, ',');
  }

  /** On a coordinate whose whole part ends in 0, the printed line as written and the
      corrected one differ: 10.5 prints as `1.5`, and correctly as `10.5`. */
  lemma OutputDropsDigit(fixed: real -> string)
    requires fixed(10.5) == "10.50"
    ensures Output([10.5], [], fixed).0 == "1.5"
    ensures CorrectedOutput([10.5], fixed) == "10.5"
  {
    ShortAsWrittenDropsDigit();
    OutputSingle(10.5, fixed);
  }

  /** A single coordinate is printed as its `short`. */
  lemma OutputSingle(v: real, fixed: real -> string)
    ensures Output([v], [], fixed).0 == ShortAsWritten(fixed(v))
    ensures CorrectedOutput([v], fixed) == Short(fixed(v))
  {
    var coords := seq(1, i requires 0 <= i < 1 => ShortAsWritten(fixed([v][i])));
    assert coords[0] == ShortAsWritten(fixed(v));
    SingleItem(coords);
    var corrected := seq(1, i requires 0 <= i < 1 => Short(fixed([v][i])));
    assert corrected[0] == Short(fixed(v));
    SingleItem(corrected);
  }

  /** One item is printed as itself. */
  lemma SingleItem(items: seq<string>)
    requires |items| == 1
    ensures JoinCommas(items) == items[0]
  {
  }

  /** Splitting the second printed line on commas and reading each piece gives `indexes`
      back. */
  lemma IndexLineRoundTrip(verts: seq<real>, indexes: seq<nat>, fixed: real -> string)
    requires indexes != []
    ensures var pieces := Strings.Split(Output(verts, indexes, fixed).1, ',');
      |pieces| == |indexes| &&
      forall i | 0 <= i < |indexes| ::
        (forall j | 0 <= j < |pieces[i]| :: '0' <= pieces[i][j] <= '9') && DecimalValue(pieces[i]) == indexes[i]
  {
    var items := seq(|indexes|, i requires 0 <= i < |indexes| => Decimal(indexes[i]));
    forall k | 0 <= k < |items| ensures ',' !in items[k] {
      assert forall j | 0 <= j < |items[k]| :: items[k][j] != ',';
    }
    Strings.SplitJoin(items, ',');
    forall i | 0 <= i < |indexes| ensures DecimalValue(items[i]) == indexes[i] {
      DecimalRoundTrip(indexes[i]);
    }
  }
}
