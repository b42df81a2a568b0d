/**
 * Volume marking of src/brainload/brainwrite.py: an array filled with a
 * background value whose marked cells are then overwritten, entry by entry
 * and coordinate by coordinate, so that the last entry naming a cell wins.
 */
module BrainWrite {
  import opened Wrappers
  import opened PyStr

  // ---------------------------------------------------------------------------
  // What the marking loops compute

  /**
   * The value a cell holds after the marks are applied in list order to a
   * background: the value of the last entry whose positions include it.
   */
  function Painted<P(==), V>(marks: seq<(seq<P>, V)>, background: V, p: P): V {
    if marks == [] then background
    else if p in marks[|marks| - 1].0 then marks[|marks| - 1].1
    else Painted(marks[..|marks| - 1], background, p)
  }

  /** A cell that no entry names keeps the background. */
  lemma {:induction false} PaintedUnmarked<P, V>(marks: seq<(seq<P>, V)>, background: V, p: P)
    requires forall m :: 0 <= m < |marks| ==> p !in marks[m].0
    ensures Painted(marks, background, p) == background
  {
    if marks != [] {
      PaintedUnmarked(marks[..|marks| - 1], background, p);
    }
  }

  /** A cell named by entry m and by no later entry holds entry m's value. */
  lemma {:induction false} PaintedLastWins<P, V>(marks: seq<(seq<P>, V)>, background: V, p: P, m: nat)
    requires m < |marks| && p in marks[m].0
    requires forall later :: m < later < |marks| ==> p !in marks[later].0
    ensures Painted(marks, background, p) == marks[m].1
  {
    if m < |marks| - 1 {
      PaintedLastWins(marks[..|marks| - 1], background, p, m);
    }
  }

  /** The value of a cell is the background or the value of an entry that names it. */
  lemma {:induction false} PaintedSource<P, V>(marks: seq<(seq<P>, V)>, background: V, p: P)
    ensures || Painted(marks, background, p) == background
            || exists m :: 0 <= m < |marks| && p in marks[m].0 && Painted(marks, background, p) == marks[m].1
  {
    if marks != [] && p !in marks[|marks| - 1].0 {
      var front := marks[..|marks| - 1];
      PaintedSource(front, background, p);
      if Painted(front, background, p) != background {
        var m :| 0 <= m < |front| && p in front[m].0 && Painted(front, background, p) == front[m].1;
        assert marks[m] == front[m];
      }
    }
  }

  /** Applying one more entry changes exactly the cells it names. */
  lemma {:induction false} PaintedAppend<P, V>(marks: seq<(seq<P>, V)>, entry: (seq<P>, V), background: V, p: P)
    ensures Painted(marks + [entry], background, p) == if p in entry.0 then entry.1 else Painted(marks, background, p)
  {
    assert (marks + [entry])[..|marks|] == marks;
  }

  // ---------------------------------------------------------------------------
  // get_volume_data_with_custom_marks

  /** A voxel coordinate row as given: three ints, each possibly negative. */
  type Coord = (int, int, int)

  /** A voxel position inside the volume. */
  type Pos = (nat, nat, nat)

  /** numpy's indexing of a cell with a coordinate row: each axis wraps once from the end, else IndexError. */
  function Resolve3(shape: Pos, c: Coord): (r: Option<Pos>)
    ensures r.Some? ==> r.value.0 < shape.0 && r.value.1 < shape.1 && r.value.2 < shape.2
    ensures r.Some? <==> PyIndex(shape.0, c.0).Some? && PyIndex(shape.1, c.1).Some? && PyIndex(shape.2, c.2).Some?
  {
    match (PyIndex(shape.0, c.0), PyIndex(shape.1, c.1), PyIndex(shape.2, c.2))
    case (Some(i), Some(j), Some(k)) => Some((i, j, k))
    case _ => None
  }

  predicate Resolves3(shape: Pos, coords: seq<Coord>) {
    forall c :: 0 <= c < |coords| ==> Resolve3(shape, coords[c]).Some?
  }

  function ResolvedCoords(shape: Pos, coords: seq<Coord>): (r: seq<Pos>)
    requires Resolves3(shape, coords)
    ensures |r| == |coords|
  {
    seq(|coords|, c requires 0 <= c < |coords| && Resolves3(shape, coords) => Resolve3(shape, coords[c]).value)
  }

  /** Every coordinate of every entry names a cell of the volume. */
  predicate MarksResolve(shape: Pos, marks: seq<(seq<Coord>, int)>) {
    forall m :: 0 <= m < |marks| ==> Resolves3(shape, marks[m].0)
  }

  function ResolvedMarks(shape: Pos, marks: seq<(seq<Coord>, int)>): (r: seq<(seq<Pos>, int)>)
    requires MarksResolve(shape, marks)
    ensures |r| == |marks|
  {
    seq(|marks|, m requires 0 <= m < |marks| && MarksResolve(shape, marks)
      => (ResolvedCoords(shape, marks[m].0), marks[m].1))
  }

  /** The value the returned volume holds at p. */
  function VolumeValue(shape: Pos, marks: seq<(seq<Coord>, int)>, background: int, p: Pos): int
    requires MarksResolve(shape, marks)
  {
    Painted(ResolvedMarks(shape, marks), background, p)
  }

  predicate HasShape(a: array3<int>, shape: Pos) {
    a.Length0 == shape.0 && a.Length1 == shape.1 && a.Length2 == shape.2
  }

  /** Sets every cell the coordinates name to value; IndexError at the first coordinate outside the volume. */
  method MarkVoxels(a: array3<int>, coords: seq<Coord>, value: int) returns (r: Result<()>)
    modifies a
    ensures r.Ok? <==> Resolves3((a.Length0, a.Length1, a.Length2), coords)
    ensures r.Err? ==> r.error == IndexError
    ensures r.Ok? ==> forall i, j, k :: 0 <= i < a.Length0 && 0 <= j < a.Length1 && 0 <= k < a.Length2 ==>
      a[i, j, k] == if (i, j, k) in ResolvedCoords((a.Length0, a.Length1, a.Length2), coords) then value else old(a[i, j, k])
  {
    var shape: Pos := (a.Length0, a.Length1, a.Length2);
    var c := 0;
    while c < |coords|
      invariant 0 <= c <= |coords|
      invariant Resolves3(shape, coords[..c])
      invariant forall i, j, k :: 0 <= i < a.Length0 && 0 <= j < a.Length1 && 0 <= k < a.Length2 ==>
        a[i, j, k] == if (i, j, k) in ResolvedCoords(shape, coords[..c]) then value else old(a[i, j, k])
    {
      var p := Resolve3(shape, coords[c]);
      if p.None? {
        return Err(IndexError);
      }
      a[p.value.0, p.value.1, p.value.2] := value;
      assert ResolvedCoords(shape, coords[..c + 1]) == ResolvedCoords(shape, coords[..c]) + [p.value];
      c := c + 1;
    }
    assert coords[..c] == coords;
    r := Ok(());
  }

  /**
   * get_volume_data_with_custom_marks: a fresh volume of the requested shape
   * holding VolumeValue everywhere; IndexError when a coordinate lies outside.
   */
  method VolumeDataWithCustomMarks(marks: seq<(seq<Coord>, int)>, background: int, shape: Pos)
    returns (r: Result<array3<int>>)
    ensures r.Ok? <==> MarksResolve(shape, marks)
    ensures r.Err? ==> r.error == IndexError
    ensures r.Ok? ==> fresh(r.value) && HasShape(r.value, shape)
    ensures r.Ok? ==> forall i, j, k :: 0 <= i < shape.0 && 0 <= j < shape.1 && 0 <= k < shape.2 ==>
      r.value[i, j, k] == VolumeValue(shape, marks, background, (i, j, k))
  {
    var a := new int[shape.0, shape.1, shape.2]((i, j, k) => background);
    var m := 0;
    while m < |marks|
      invariant 0 <= m <= |marks|
      invariant HasShape(a, shape)
      invariant MarksResolve(shape, marks[..m])
      invariant forall i, j, k :: 0 <= i < shape.0 && 0 <= j < shape.1 && 0 <= k < shape.2 ==>
        a[i, j, k] == Painted(ResolvedMarks(shape, marks[..m]), background, (i, j, k))
    {
      var done := MarkVoxels(a, marks[m].0, marks[m].1);
      if done.Err? {
        assert !Resolves3(shape, marks[m].0);
        return Err(IndexError);
      }
      assert MarksResolve(shape, marks[..m + 1]) by {
        forall n | 0 <= n < m + 1 ensures marks[..m + 1][n] == if n < m then marks[..m][n] else marks[m] {}
      }
      var entry := (ResolvedCoords(shape, marks[m].0), marks[m].1);
      assert ResolvedMarks(shape, marks[..m + 1]) == ResolvedMarks(shape, marks[..m]) + [entry];
      forall i, j, k | 0 <= i < shape.0 && 0 <= j < shape.1 && 0 <= k < shape.2
        ensures a[i, j, k] == Painted(ResolvedMarks(shape, marks[..m + 1]), background, (i, j, k))
      {
        PaintedAppend(ResolvedMarks(shape, marks[..m]), entry, background, (i, j, k));
      }
      m := m + 1;
    }
    assert marks[..m] == marks;
    r := Ok(a);
  }

  /**
   * The first volume of the module's tests: shape (3, 3, 3), background 0,
   * [(1,1,1), (2,2,2)] marked 40, then [(0,1,2), (0,2,2)] marked 160.
   */
  lemma {:induction false} VolumeExample()
    ensures var marks := [([(1, 1, 1), (2, 2, 2)], 40), ([(0, 1, 2), (0, 2, 2)], 160)];
      && MarksResolve((3, 3, 3), marks)
      && VolumeValue((3, 3, 3), marks, 0, (1, 1, 1)) == 40
      && VolumeValue((3, 3, 3), marks, 0, (0, 1, 2)) == 160
      && VolumeValue((3, 3, 3), marks, 0, (1, 2, 2)) == 0
  {
    var marks: seq<(seq<Coord>, int)> := [([(1, 1, 1), (2, 2, 2)], 40), ([(0, 1, 2), (0, 2, 2)], 160)];
    var shape: Pos := (3, 3, 3);
    assert Resolve3(shape, (1, 1, 1)) == Some((1, 1, 1));
    assert Resolve3(shape, (2, 2, 2)) == Some((2, 2, 2));
    assert Resolve3(shape, (0, 1, 2)) == Some((0, 1, 2));
    assert Resolve3(shape, (0, 2, 2)) == Some((0, 2, 2));
    assert MarksResolve(shape, marks);
    var rm := ResolvedMarks(shape, marks);
    assert rm[0].0 == [(1, 1, 1), (2, 2, 2)];
    assert rm[1].0 == [(0, 1, 2), (0, 2, 2)];
    PaintedLastWins(rm, 0, (1, 1, 1), 0);
    PaintedLastWins(rm, 0, (0, 1, 2), 1);
    PaintedUnmarked(rm, 0, (1, 2, 2));
  }

  // ---------------------------------------------------------------------------
  // get_surface_vertices_overlay_volume_data

  /** A list of vertex indices and the RGB triple to give them. */
  type VertexMark = (seq<int>, seq<int>)

  /**
   * The function as written: its first statement reads `background_rgbt`,
   * a name defined nowhere, so every call raises NameError.
   */
  function SurfaceOverlayAsWritten(numVerts: nat, marks: seq<VertexMark>, backgroundRgb: seq<int>): (r: Result<seq<seq<int>>>)
    ensures r.Err? && r.error.NameError?
  {
    Err(NameError("background_rgbt"))
  }

  /**
   * The calls that succeed once the background parameter is read: the
   * background has three channels, each entry that names a vertex has three
   * channels, and each vertex index lies in [-numVerts, numVerts).
   */
  predicate OverlayInputsValid(numVerts: nat, marks: seq<VertexMark>, backgroundRgb: seq<int>) {
    && |backgroundRgb| >= 3
    && forall m :: 0 <= m < |marks| ==>
      && (marks[m].0 != [] ==> |marks[m].1| >= 3)
      && forall c :: 0 <= c < |marks[m].0| ==> PyIndex(numVerts, marks[m].0[c]).Some?
  }

  function ResolvedVertices(numVerts: nat, indices: seq<int>): (r: seq<nat>)
    requires forall c :: 0 <= c < |indices| ==> PyIndex(numVerts, indices[c]).Some?
    ensures |r| == |indices|
  {
    seq(|indices|, c requires 0 <= c < |indices| && PyIndex(numVerts, indices[c]).Some? => PyIndex(numVerts, indices[c]).value)
  }

  /** The entries as vertex sets with the first three channels of their colour. */
  function ResolvedOverlay(numVerts: nat, marks: seq<VertexMark>): (r: seq<(seq<nat>, seq<int>)>)
    requires forall m :: 0 <= m < |marks| ==> forall c :: 0 <= c < |marks[m].0| ==> PyIndex(numVerts, marks[m].0[c]).Some?
    ensures |r| == |marks|
  {
    seq(|marks|, m requires 0 <= m < |marks|
      && (forall m :: 0 <= m < |marks| ==> forall c :: 0 <= c < |marks[m].0| ==> PyIndex(numVerts, marks[m].0[c]).Some?)
      => (ResolvedVertices(numVerts, marks[m].0), if |marks[m].1| >= 3 then marks[m].1[..3] else marks[m].1))
  }

  /** The RGB row the corrected function gives vertex v. */
  function OverlayRow(numVerts: nat, marks: seq<VertexMark>, backgroundRgb: seq<int>, v: nat): (r: seq<int>)
    requires OverlayInputsValid(numVerts, marks, backgroundRgb)
    ensures |r| == 3
  {
    var ro := ResolvedOverlay(numVerts, marks);
    PaintedSource(ro, backgroundRgb[..3], v);
    Painted(ro, backgroundRgb[..3], v)
  }

  /** Colours the three channels of every named vertex; IndexError at the first bad index or short colour. */
  method MarkVertices(a: array3<int>, indices: seq<int>, rgb: seq<int>) returns (r: Result<()>)
    requires a.Length1 == 3 && a.Length2 == 1
    modifies a
    ensures r.Ok? <==> (indices != [] ==> |rgb| >= 3) && forall c :: 0 <= c < |indices| ==> PyIndex(a.Length0, indices[c]).Some?
    ensures r.Err? ==> r.error == IndexError
    ensures r.Ok? ==> forall v, ch :: 0 <= v < a.Length0 && 0 <= ch < 3 ==>
      a[v, ch, 0] == if v in ResolvedVertices(a.Length0, indices) then rgb[ch] else old(a[v, ch, 0])
  {
    var c := 0;
    while c < |indices|
      invariant 0 <= c <= |indices|
      invariant c > 0 ==> |rgb| >= 3
      invariant forall d :: 0 <= d < c ==> PyIndex(a.Length0, indices[d]).Some?
      invariant forall v, ch :: 0 <= v < a.Length0 && 0 <= ch < 3 ==>
        a[v, ch, 0] == if v in ResolvedVertices(a.Length0, indices[..c]) then rgb[ch] else old(a[v, ch, 0])
    {
      var v := PyIndex(a.Length0, indices[c]);
      if v.None? || |rgb| < 3 {
        return Err(IndexError);
      }
      a[v.value, 0, 0] := rgb[0];
      a[v.value, 1, 0] := rgb[1];
      a[v.value, 2, 0] := rgb[2];
      assert ResolvedVertices(a.Length0, indices[..c + 1]) == ResolvedVertices(a.Length0, indices[..c]) + [v.value];
      c := c + 1;
    }
    assert indices[..c] == indices;
    r := Ok(());
  }

  /**
   * get_surface_vertices_overlay_volume_data with the background read from
   * its parameter: a fresh (numVerts, 3, 1) array whose row v is OverlayRow.
   */
  method SurfaceVerticesOverlayVolumeData(numVerts: nat, marks: seq<VertexMark>, backgroundRgb: seq<int>)
    returns (r: Result<array3<int>>)
    ensures r.Ok? <==> OverlayInputsValid(numVerts, marks, backgroundRgb)
    ensures r.Err? ==> r.error == IndexError
    ensures r.Ok? ==> fresh(r.value) && r.value.Length0 == numVerts && r.value.Length1 == 3 && r.value.Length2 == 1
    ensures r.Ok? ==> forall v, ch :: 0 <= v < numVerts && 0 <= ch < 3 ==>
      r.value[v, ch, 0] == OverlayRow(numVerts, marks, backgroundRgb, v)[ch]
  {
    if |backgroundRgb| < 3 {
      return Err(IndexError);
    }
    var a := new int[numVerts, 3, 1]((v, ch, z) => if 0 <= ch < 3 then backgroundRgb[ch] else 0);
    var m := 0;
    while m < |marks|
      invariant 0 <= m <= |marks|
      invariant a.Length0 == numVerts && a.Length1 == 3 && a.Length2 == 1
      invariant OverlayInputsValid(numVerts, marks[..m], backgroundRgb)
      invariant forall v, ch :: 0 <= v < numVerts && 0 <= ch < 3 ==>
        a[v, ch, 0] == OverlayRow(numVerts, marks[..m], backgroundRgb, v)[ch]
    {
      ghost var before := ResolvedOverlay(numVerts, marks[..m]);
      var done := MarkVertices(a, marks[m].0, marks[m].1);
      if done.Err? {
        return Err(IndexError);
      }
      assert OverlayInputsValid(numVerts, marks[..m + 1], backgroundRgb) by {
        forall n | 0 <= n < m + 1 ensures marks[..m + 1][n] == if n < m then marks[..m][n] else marks[m] {}
      }
      var entry := (ResolvedVertices(numVerts, marks[m].0), if |marks[m].1| >= 3 then marks[m].1[..3] else marks[m].1);
      assert ResolvedOverlay(numVerts, marks[..m + 1]) == before + [entry];
      forall v, ch | 0 <= v < numVerts && 0 <= ch < 3
        ensures a[v, ch, 0] == OverlayRow(numVerts, marks[..m + 1], backgroundRgb, v)[ch]
      {
        PaintedAppend(before, entry, backgroundRgb[..3], v);
      }
      m := m + 1;
    }
    assert marks[..m] == marks;
    r := Ok(a);
  }

  /**
   * The call of the module's tests: 10 vertices, [0, 2, 4] coloured
   * (20, 20, 20), [1, 3, 5, 7] coloured (40, 40, 40), background (200, 200, 200).
   * The function as written raises; the corrected one succeeds with the rows
   * the test expects.
   */
  lemma {:induction false} SurfaceOverlayExample()
    ensures var marks := [([0, 2, 4], [20, 20, 20]), ([1, 3, 5, 7], [40, 40, 40])];
      && SurfaceOverlayAsWritten(10, marks, [200, 200, 200]).Err?
      && OverlayInputsValid(10, marks, [200, 200, 200])
      && OverlayRow(10, marks, [200, 200, 200], 0) == [20, 20, 20]
      && OverlayRow(10, marks, [200, 200, 200], 7) == [40, 40, 40]
      && OverlayRow(10, marks, [200, 200, 200], 6) == [200, 200, 200]
  {
    var marks: seq<VertexMark> := [([0, 2, 4], [20, 20, 20]), ([1, 3, 5, 7], [40, 40, 40])];
    var bg := [200, 200, 200];
    assert OverlayInputsValid(10, marks, bg);
    var ro := ResolvedOverlay(10, marks);
    assert ro[0].0 == [0, 2, 4] && ro[0].1 == [20, 20, 20];
    assert ro[1].0 == [1, 3, 5, 7] && ro[1].1 == [40, 40, 40];
    assert bg[..3] == bg;
    PaintedLastWins(ro, bg[..3], 0, 0);
    PaintedLastWins(ro, bg[..3], 7, 1);
    PaintedUnmarked(ro, bg[..3], 6);
  }
}
