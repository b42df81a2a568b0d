/**
 * brainload.freesurferdata: merging meshes and per-vertex data of the two
 * hemispheres, FreeSurfer file naming, recording meta data on the files that
 * are read, and the subject detection of load_group_data.
 */
module FreeSurferData {
  import opened Wrappers
  import opened PyStr
  import opened PyDict
  import opened Geometry
  import opened FileSystem
  import NiTools

  // ---------------------------------------------------------------------------
  // _merge_meshes

  function ShiftFace(f: Face, k: int): Face {
    Face(f.a + k, f.b + k, f.c + k)
  }

  /** new_faces + vertex_index_shift */
  function ShiftFaces(faces: seq<Face>, k: int): (r: seq<Face>)
    ensures |r| == |faces|
    ensures forall j :: 0 <= j < |faces| ==> r[j] == ShiftFace(faces[j], k)
  {
    seq(|faces|, j requires 0 <= j < |faces| => ShiftFace(faces[j], k))
  }

  /** The vertices of all meshes, stacked in order. */
  function MergedVerts(meshes: seq<Mesh>): seq<Vertex> {
    if meshes == [] then []
    else MergedVerts(meshes[..|meshes| - 1]) + meshes[|meshes| - 1].verts
  }

  /** The faces of all meshes, each mesh's faces shifted by the vertices stacked before it. */
  function MergedFaces(meshes: seq<Mesh>): seq<Face> {
    if meshes == [] then []
    else
      var init := meshes[..|meshes| - 1];
      MergedFaces(init) + ShiftFaces(meshes[|meshes| - 1].faces, |MergedVerts(init)|)
  }

  /** Number of vertices of all meshes together. */
  function VertexCount(meshes: seq<Mesh>): nat {
    if meshes == [] then 0 else VertexCount(meshes[..|meshes| - 1]) + |meshes[|meshes| - 1].verts|
  }

  /** Number of faces of all meshes together. */
  function FaceCount(meshes: seq<Mesh>): nat {
    if meshes == [] then 0 else FaceCount(meshes[..|meshes| - 1]) + |meshes[|meshes| - 1].faces|
  }

  /** _merge_meshes: stack the vertex arrays and the shifted face arrays, mesh by mesh. */
  method MergeMeshes(meshes: seq<Mesh>) returns (verts: seq<Vertex>, faces: seq<Face>)
    ensures verts == MergedVerts(meshes)
    ensures faces == MergedFaces(meshes)
  {
    verts := [];
    faces := [];
    var i := 0;
    while i < |meshes|
      invariant 0 <= i <= |meshes|
      invariant verts == MergedVerts(meshes[..i])
      invariant faces == MergedFaces(meshes[..i])
    {
      var shift := |verts|;
      assert meshes[..i + 1][..i] == meshes[..i];
      verts := verts + meshes[i].verts;
      faces := faces + ShiftFaces(meshes[i].faces, shift);
      i := i + 1;
    }
    assert meshes[..|meshes|] == meshes;
  }

  /** The merged vertex and face arrays hold as many rows as the inputs together. */
  lemma {:induction false} MergedCounts(meshes: seq<Mesh>)
    ensures |MergedVerts(meshes)| == VertexCount(meshes)
    ensures |MergedFaces(meshes)| == FaceCount(meshes)
  {
    if meshes != [] {
      MergedCounts(meshes[..|meshes| - 1]);
    }
  }

  /** Vertex j of mesh k sits, unchanged, after the vertices of meshes 0..k-1. */
  lemma {:induction false} MergedVertsAt(meshes: seq<Mesh>, k: nat, j: nat)
    requires k < |meshes| && j < |meshes[k].verts|
    ensures VertexCount(meshes[..k]) + j < |MergedVerts(meshes)|
    ensures MergedVerts(meshes)[VertexCount(meshes[..k]) + j] == meshes[k].verts[j]
  {
    var init := meshes[..|meshes| - 1];
    MergedCounts(init);
    MergedCounts(meshes);
    if k == |meshes| - 1 {
      assert meshes[..k] == init;
    } else {
      assert init[..k] == meshes[..k];
      MergedVertsAt(init, k, j);
    }
  }

  /**
   * Face j of mesh k sits after the faces of meshes 0..k-1, shifted by the
   * number of vertices of meshes 0..k-1.
   */
  lemma {:induction false} MergedFacesAt(meshes: seq<Mesh>, k: nat, j: nat)
    requires k < |meshes| && j < |meshes[k].faces|
    ensures FaceCount(meshes[..k]) + j < |MergedFaces(meshes)|
    ensures MergedFaces(meshes)[FaceCount(meshes[..k]) + j] == ShiftFace(meshes[k].faces[j], VertexCount(meshes[..k]))
  {
    var init := meshes[..|meshes| - 1];
    MergedCounts(init);
    MergedCounts(meshes);
    if k == |meshes| - 1 {
      assert meshes[..k] == init;
    } else {
      assert init[..k] == meshes[..k];
      MergedFacesAt(init, k, j);
    }
  }

  /** The first mesh's faces are not shifted. */
  lemma {:induction false} FirstMeshFacesUnshifted(meshes: seq<Mesh>, j: nat)
    requires |meshes| > 0 && j < |meshes[0].faces|
    ensures j < |MergedFaces(meshes)|
    ensures MergedFaces(meshes)[j] == meshes[0].faces[j]
  {
    MergedFacesAt(meshes, 0, j);
    assert meshes[..0] == [];
  }

  /** Merging meshes whose faces refer to their own vertices gives such a mesh again. */
  lemma {:induction false} MergedWellFormed(meshes: seq<Mesh>)
    requires forall k :: 0 <= k < |meshes| ==> WellFormed(meshes[k])
    ensures WellFormed(Mesh(MergedVerts(meshes), MergedFaces(meshes)))
  {
    if meshes != [] {
      var init := meshes[..|meshes| - 1];
      var last := meshes[|meshes| - 1];
      forall k | 0 <= k < |init| ensures WellFormed(init[k]) {
        assert init[k] == meshes[k];
      }
      MergedWellFormed(init);
      assert WellFormed(last);
      var shift := |MergedVerts(init)|;
      var n := |MergedVerts(meshes)|;
      assert n == shift + |last.verts|;
      var tail := ShiftFaces(last.faces, shift);
      forall j | 0 <= j < |tail| ensures FaceWithin(tail[j], n) {
        assert FaceWithin(last.faces[j], |last.verts|);
      }
      var faces := MergedFaces(meshes);
      assert faces == MergedFaces(init) + tail;
      forall j | 0 <= j < |faces| ensures FaceWithin(faces[j], n) {
        if j < |MergedFaces(init)| {
          assert FaceWithin(MergedFaces(init)[j], shift);
        } else {
          assert faces[j] == tail[j - |MergedFaces(init)|];
        }
      }
    }
  }

  /** The two-hemisphere case: lh rows first, rh faces shifted by the lh vertex count. */
  lemma {:induction false} MergeTwo(lh: Mesh, rh: Mesh)
    ensures MergedVerts([lh, rh]) == lh.verts + rh.verts
    ensures MergedFaces([lh, rh]) == lh.faces + ShiftFaces(rh.faces, |lh.verts|)
  {
    assert [lh, rh][..1] == [lh];
    assert [lh][..0] == [];
    assert MergedVerts([lh]) == [] + lh.verts;
    assert ShiftFaces(lh.faces, 0) == lh.faces;
    assert MergedFaces([lh]) == [] + ShiftFaces(lh.faces, 0);
  }

  /** The example of the test suite: the second mesh's faces are shifted by 4. */
  lemma {:induction false} MergeMeshesExample()
    ensures var m1 := Mesh([Vertex(0.0, 0.0, 0.0), Vertex(5.0, -5.0, 0.0), Vertex(5.0, 5.0, 0.0), Vertex(10.0, 5.0, 0.0)],
                           [Face(0, 1, 2), Face(1, 2, 3)]);
            var m2 := Mesh([Vertex(0.0, 0.0, 0.0), Vertex(10.0, -10.0, 0.0), Vertex(10.0, 10.0, 0.0), Vertex(15.0, 10.0, 0.0)],
                           [Face(0, 2, 1), Face(1, 3, 2)]);
            && |MergedVerts([m1, m2])| == 8
            && MergedVerts([m1, m2])[5] == Vertex(10.0, -10.0, 0.0)
            && MergedFaces([m1, m2]) == [Face(0, 1, 2), Face(1, 2, 3), Face(4, 6, 5), Face(5, 7, 6)]
  {
    var m1 := Mesh([Vertex(0.0, 0.0, 0.0), Vertex(5.0, -5.0, 0.0), Vertex(5.0, 5.0, 0.0), Vertex(10.0, 5.0, 0.0)],
                   [Face(0, 1, 2), Face(1, 2, 3)]);
    var m2 := Mesh([Vertex(0.0, 0.0, 0.0), Vertex(10.0, -10.0, 0.0), Vertex(10.0, 10.0, 0.0), Vertex(15.0, 10.0, 0.0)],
                   [Face(0, 2, 1), Face(1, 3, 2)]);
    MergeTwo(m1, m2);
  }

  // ---------------------------------------------------------------------------
  // merge_morphology_data

  /** Number of values in all arrays together. */
  function DataCount(arrays: seq<seq<real>>): nat {
    if arrays == [] then 0 else |arrays[0]| + DataCount(arrays[1..])
  }

  /** merge_morphology_data: the arrays stacked horizontally, in order. */
  method MergeMorphologyData(arrays: seq<seq<real>>) returns (merged: seq<real>)
    ensures merged == Concat(arrays)
  {
    merged := [];
    var i := 0;
    while i < |arrays|
      invariant 0 <= i <= |arrays|
      invariant merged == Concat(arrays[..i])
    {
      ConcatAppend(arrays[..i], [arrays[i]]);
      assert arrays[..i + 1] == arrays[..i] + [arrays[i]];
      assert Concat([arrays[i]]) == arrays[i] + Concat([]);
      merged := merged + arrays[i];
      i := i + 1;
    }
    assert arrays[..|arrays|] == arrays;
  }

  /** The merged data hold as many values as the inputs together. */
  lemma {:induction false} MergedDataLength(arrays: seq<seq<real>>)
    ensures |Concat(arrays)| == DataCount(arrays)
  {
    if arrays != [] {
      MergedDataLength(arrays[1..]);
    }
  }

  /** Value j of array k sits after the values of arrays 0..k-1. */
  lemma {:induction false} MergedDataAt(arrays: seq<seq<real>>, k: nat, j: nat)
    requires k < |arrays| && j < |arrays[k]|
    ensures DataCount(arrays[..k]) + j < |Concat(arrays)|
    ensures Concat(arrays)[DataCount(arrays[..k]) + j] == arrays[k][j]
  {
    MergedDataLength(arrays);
    MergedDataLength(arrays[1..]);
    if k == 0 {
      assert arrays[..0] == [];
    } else {
      assert arrays[..k][1..] == arrays[1..][..k - 1];
      MergedDataAt(arrays[1..], k - 1, j);
    }
  }

  /** The two-hemisphere case: lh values, then rh values. */
  lemma {:induction false} MergeTwoData(lh: seq<real>, rh: seq<real>)
    ensures Concat([lh, rh]) == lh + rh
  {
    assert [lh, rh][1..] == [rh];
    assert [rh][1..] == [];
    assert Concat([rh]) == rh + Concat([]);
  }

  // ---------------------------------------------------------------------------
  // _get_morphology_data_suffix_for_surface and file naming

  /** '' for FreeSurfer's default surface 'white', '.' + surf for any other. */
  function MorphologySuffix(surf: string): (r: string)
    ensures r == "" <==> surf == "white"
    ensures r != "" ==> r[0] == '.' && r[1..] == surf
  {
    if surf == "white" then "" else "." + surf
  }

  /** Different surfaces give different suffixes. */
  lemma {:induction false} MorphologySuffixInjective(a: string, b: string)
    requires MorphologySuffix(a) == MorphologySuffix(b)
    ensures a == b
  {
  }

  /** subjects_dir/subject/surf */
  function SurfDir(subjectsDir: string, subject: string): string {
    PathJoin(PathJoin(subjectsDir, subject), "surf")
  }

  /** <hemi>.<surf>, e.g. lh.white */
  function SurfaceFileName(hemi: string, surf: string): string {
    hemi + "." + surf
  }

  /** <hemi>.<measure><suffix>, e.g. lh.area or lh.area.pial */
  function NativeMorphologyFileName(hemi: string, measure: string, surf: string): string {
    hemi + "." + measure + MorphologySuffix(surf)
  }

  /** '' when fwhm is None, '.fwhm' + fwhm otherwise. */
  function FwhmTag(fwhm: Option<string>): string {
    if fwhm.None? then "" else ".fwhm" + fwhm.value
  }

  /** <hemi>.<measure><suffix><fwhm tag>.<average subject>.mgh */
  function StandardMorphologyFileName(hemi: string, measure: string, surf: string, fwhm: Option<string>, averageSubject: string): string {
    hemi + "." + measure + MorphologySuffix(surf) + FwhmTag(fwhm) + "." + averageSubject + ".mgh"
  }

  /**
   * A standard-space file name is the native one, followed by the fwhm tag and
   * the average subject with the '.mgh' extension; without fwhm only by the latter.
   */
  lemma {:induction false} StandardNameExtendsNative(hemi: string, measure: string, surf: string, fwhm: Option<string>, avg: string)
    ensures StartsWith(StandardMorphologyFileName(hemi, measure, surf, fwhm, avg), NativeMorphologyFileName(hemi, measure, surf))
    ensures EndsWith(StandardMorphologyFileName(hemi, measure, surf, fwhm, avg), "." + avg + ".mgh")
    ensures fwhm.None? ==>
      StandardMorphologyFileName(hemi, measure, surf, fwhm, avg) == NativeMorphologyFileName(hemi, measure, surf) + "." + avg + ".mgh"
    ensures fwhm.Some? ==>
      StandardMorphologyFileName(hemi, measure, surf, fwhm, avg)
        == NativeMorphologyFileName(hemi, measure, surf) + ".fwhm" + fwhm.value + "." + avg + ".mgh"
  {
    var native, tag, tail := NativeMorphologyFileName(hemi, measure, surf), FwhmTag(fwhm), "." + avg + ".mgh";
    StandardNameShape(hemi, measure, surf, fwhm, avg);
    StartsWithConcat(native, tag + tail);
    EndsWithConcat(native + tag, tail);
    if fwhm.None? {
      assert native + tag == native;
    } else {
      Reassociate(native, ".fwhm", fwhm.value, ".", avg, ".mgh");
    }
  }

  lemma {:induction false} StandardNameShape(hemi: string, measure: string, surf: string, fwhm: Option<string>, avg: string)
    ensures var native, tag, tail := NativeMorphologyFileName(hemi, measure, surf), FwhmTag(fwhm), "." + avg + ".mgh";
      && StandardMorphologyFileName(hemi, measure, surf, fwhm, avg) == native + tag + tail
      && StandardMorphologyFileName(hemi, measure, surf, fwhm, avg) == native + (tag + tail)
  {
    var native, tag := NativeMorphologyFileName(hemi, measure, surf), FwhmTag(fwhm);
    assert StandardMorphologyFileName(hemi, measure, surf, fwhm, avg) == native + tag + "." + avg + ".mgh";
  }

  /** a + (b + c) + ((d + e) + f) is the six parts joined left to right. */
  lemma {:induction false} Reassociate(a: string, b: string, c: string, d: string, e: string, f: string)
    ensures a + (b + c) + ((d + e) + f) == a + b + c + d + e + f
  {
    assert a + (b + c) == a + b + c;
    assert (d + e) + f == d + (e + f);
    assert a + b + c + (d + (e + f)) == a + b + c + d + (e + f);
    assert a + b + c + d + (e + f) == a + b + c + d + e + f;
  }

  /**
   * A file under a subject's surf directory has the file name as its last path
   * component, so different names never give the same path.
   */
  lemma {:induction false} FileInSurfDir(subjectsDir: string, subject: string, name: string)
    requires '/' !in name
    ensures Basename(PathJoin(SurfDir(subjectsDir, subject), name)) == name
  {
    BasenameOfJoin(SurfDir(subjectsDir, subject), name);
  }

  /** The lh and rh file of the same subject and surface are different files. */
  lemma {:induction false} HemisphereFilesDiffer(subjectsDir: string, subject: string, surf: string)
    requires '/' !in surf
    ensures PathJoin(SurfDir(subjectsDir, subject), SurfaceFileName("lh", surf))
         != PathJoin(SurfDir(subjectsDir, subject), SurfaceFileName("rh", surf))
  {
    NoSlashInName("lh", surf);
    NoSlashInName("rh", surf);
    FileInSurfDir(subjectsDir, subject, SurfaceFileName("lh", surf));
    FileInSurfDir(subjectsDir, subject, SurfaceFileName("rh", surf));
    assert SurfaceFileName("lh", surf)[0] == 'l';
    assert SurfaceFileName("rh", surf)[0] == 'r';
  }

  lemma {:induction false} NoSlashInName(hemi: string, surf: string)
    requires '/' !in hemi && '/' !in surf
    ensures '/' !in SurfaceFileName(hemi, surf)
  {
    assert SurfaceFileName(hemi, surf) == hemi + ("." + surf);
  }

  // ---------------------------------------------------------------------------
  // Meta data recorded by the readers

  predicate IsHemisphereLabel(h: string) {
    h == "lh" || h == "rh"
  }

  predicate IsHemi(h: string) {
    h == "lh" || h == "rh" || h == "both"
  }

  function HemisphereLabelError(h: string): Error {
    ValueError("ERROR: " + "hemisphere_label " + "must be one of " + "{'lh', 'rh'} but is " + "'" + h + "'.")
  }

  function HemiError(h: string): Error {
    ValueError("ERROR: hemi must be " + "one of {'lh', 'rh', " + "'both'} but is '" + h + "'.")
  }

  function FormatError(f: string): Error {
    ValueError("ERROR: format must " + "be one of {'curv', " + "'mgh'} but is '" + f + "'.")
  }

  /** The three keys read_fs_surface_file_and_record_meta_data writes. */
  function SurfaceMeta(m: map<string, MetaValue>, hemi: string, mesh: Mesh, surfFile: string): map<string, MetaValue> {
    m[Key(hemi, "num_vertices") := Int(|mesh.verts|)]
     [Key(hemi, "num_faces") := Int(|mesh.faces|)]
     [Key(hemi, "surf_file") := Str(surfFile)]
  }

  /** The three keys read_fs_morphology_data_file_and_record_meta_data writes. */
  function MorphologyMeta(m: map<string, MetaValue>, hemi: string, data: seq<real>, file: string, format: string): map<string, MetaValue> {
    m[Key(hemi, "num_data_points") := Int(|data|)]
     [Key(hemi, "morphology_file") := Str(file)]
     [Key(hemi, "morphology_file_format") := Str(format)]
  }

  /** Recording a surface adds exactly three hemisphere-prefixed keys and keeps every other entry. */
  lemma {:induction false} SurfaceMetaKeys(m: map<string, MetaValue>, hemi: string, mesh: Mesh, surfFile: string)
    ensures var r := SurfaceMeta(m, hemi, mesh, surfFile);
      var added := {Key(hemi, "num_vertices"), Key(hemi, "num_faces"), Key(hemi, "surf_file")};
      && r.Keys == m.Keys + added
      && |added| == 3
      && (forall k :: k in m && k !in added ==> r[k] == m[k])
      && r[Key(hemi, "num_vertices")] == Int(|mesh.verts|)
      && r[Key(hemi, "num_faces")] == Int(|mesh.faces|)
      && r[Key(hemi, "surf_file")] == Str(surfFile)
  {
    DistinctFields(hemi, "num_vertices", "num_faces");
    DistinctFields(hemi, "num_vertices", "surf_file");
    DistinctFields(hemi, "num_faces", "surf_file");
  }

  /** Recording morphology data adds exactly three hemisphere-prefixed keys and keeps every other entry. */
  lemma {:induction false} MorphologyMetaKeys(m: map<string, MetaValue>, hemi: string, data: seq<real>, file: string, format: string)
    ensures var r := MorphologyMeta(m, hemi, data, file, format);
      var added := {Key(hemi, "num_data_points"), Key(hemi, "morphology_file"), Key(hemi, "morphology_file_format")};
      && r.Keys == m.Keys + added
      && |added| == 3
      && (forall k :: k in m && k !in added ==> r[k] == m[k])
      && r[Key(hemi, "num_data_points")] == Int(|data|)
      && r[Key(hemi, "morphology_file")] == Str(file)
      && r[Key(hemi, "morphology_file_format")] == Str(format)
  {
    DistinctFields(hemi, "num_data_points", "morphology_file");
    DistinctFields(hemi, "num_data_points", "morphology_file_format");
    DistinctFields(hemi, "morphology_file", "morphology_file_format");
  }

  /** A meta data key: hemisphere label, a dot, and the field name. */
  function Key(hemi: string, field: string): string {
    hemi + "." + field
  }

  /** The same hemisphere's keys for different fields differ. */
  lemma {:induction false} DistinctFields(hemi: string, a: string, b: string)
    requires a != b
    ensures Key(hemi, a) != Key(hemi, b)
  {
    assert Key(hemi, a)[|hemi| + 1..] == a;
    assert Key(hemi, b)[|hemi| + 1..] == b;
  }

  /** No lh key is an rh key. */
  lemma {:induction false} HemisphereKeysDiffer(f: string)
    ensures forall g :: Key("lh", f) != Key("rh", g)
  {
    forall g ensures Key("lh", f) != Key("rh", g) {
      assert Key("lh", f)[0] == 'l';
      assert Key("rh", g)[0] == 'r';
    }
  }

  /** The dict the caller passed, or a new empty one when it passed None. */
  function BaseEntries<V>(md: Dict?<V>): map<string, V>
    reads md
  {
    if md == null then map[] else md.entries
  }

  /**
   * read_fs_surface_file_and_record_meta_data: ValueError for a label other than
   * lh/rh; otherwise the mesh at surfFile, recorded under three keys of the
   * (passed or new) dict.
   */
  method ReadFsSurfaceFileAndRecordMetaData(disk: Disk, surfFile: string, hemisphereLabel: string, md: Dict?<MetaValue>)
    returns (r: Result<Mesh>, out: Dict<MetaValue>)
    modifies md
    ensures md != null ==> out == md
    ensures md == null ==> fresh(out)
    ensures !IsHemisphereLabel(hemisphereLabel) ==> r == Err(HemisphereLabelError(hemisphereLabel))
    ensures IsHemisphereLabel(hemisphereLabel) ==> r == ReadGeometry(disk, surfFile)
    ensures r.Err? ==> out.entries == old(BaseEntries(md))
    ensures r.Ok? ==> out.entries == SurfaceMeta(old(BaseEntries(md)), hemisphereLabel, r.value, surfFile)
  {
    if md == null {
      out := new Dict();
    } else {
      out := md;
    }
    if !IsHemisphereLabel(hemisphereLabel) {
      return Err(HemisphereLabelError(hemisphereLabel)), out;
    }
    r := ReadGeometry(disk, surfFile);
    if r.Ok? {
      out.Set(Key(hemisphereLabel, "num_vertices"), Int(|r.value.verts|));
      out.Set(Key(hemisphereLabel, "num_faces"), Int(|r.value.faces|));
      out.Set(Key(hemisphereLabel, "surf_file"), Str(surfFile));
    }
  }

  /**
   * read_fs_morphology_data_file_and_record_meta_data: the format is checked
   * first, then the label; the data are read as curv or MGH and recorded under
   * three keys of the (passed or new) dict.
   */
  method ReadFsMorphologyDataFileAndRecordMetaData(disk: Disk, curvFile: string, hemisphereLabel: string,
                                                   md: Dict?<MetaValue>, format: string)
    returns (r: Result<seq<real>>, out: Dict<MetaValue>)
    modifies md
    ensures md != null ==> out == md
    ensures md == null ==> fresh(out)
    ensures format != "curv" && format != "mgh" ==> r == Err(FormatError(format))
    ensures (format == "curv" || format == "mgh") && !IsHemisphereLabel(hemisphereLabel) ==>
      r == Err(HemisphereLabelError(hemisphereLabel))
    ensures (format == "curv" || format == "mgh") && IsHemisphereLabel(hemisphereLabel) ==>
      r == ReadMorphology(disk, curvFile, format == "mgh")
    ensures r.Err? ==> out.entries == old(BaseEntries(md))
    ensures r.Ok? ==> out.entries == MorphologyMeta(old(BaseEntries(md)), hemisphereLabel, r.value, curvFile, format)
  {
    if md == null {
      out := new Dict();
    } else {
      out := md;
    }
    if format != "curv" && format != "mgh" {
      return Err(FormatError(format)), out;
    }
    if !IsHemisphereLabel(hemisphereLabel) {
      return Err(HemisphereLabelError(hemisphereLabel)), out;
    }
    r := ReadMorphology(disk, curvFile, format == "mgh");
    if r.Ok? {
      out.Set(Key(hemisphereLabel, "num_data_points"), Int(|r.value|));
      out.Set(Key(hemisphereLabel, "morphology_file"), Str(curvFile));
      out.Set(Key(hemisphereLabel, "morphology_file_format"), Str(format));
    }
  }

  /** The mesh load_subject_mesh_files returns for a valid hemi. */
  function SubjectMesh(disk: Disk, lhFile: string, rhFile: string, hemi: string): Result<Mesh>
    requires IsHemi(hemi)
  {
    if hemi == "lh" then ReadGeometry(disk, lhFile)
    else if hemi == "rh" then ReadGeometry(disk, rhFile)
    else match ReadGeometry(disk, lhFile)
      case Err(e) => Err(e)
      case Ok(lh) =>
        match ReadGeometry(disk, rhFile)
        case Err(e) => Err(e)
        case Ok(rh) => Ok(Mesh(MergedVerts([lh, rh]), MergedFaces([lh, rh])))
  }

  /** The meta data load_subject_mesh_files leaves after a successful load. */
  function SubjectMeshMeta(base: map<string, MetaValue>, disk: Disk, lhFile: string, rhFile: string, hemi: string): map<string, MetaValue>
    requires IsHemi(hemi)
    requires SubjectMesh(disk, lhFile, rhFile, hemi).Ok?
  {
    if hemi == "lh" then SurfaceMeta(base, "lh", disk.surfaces[lhFile], lhFile)
    else if hemi == "rh" then SurfaceMeta(base, "rh", disk.surfaces[rhFile], rhFile)
    else SurfaceMeta(SurfaceMeta(base, "lh", disk.surfaces[lhFile], lhFile), "rh", disk.surfaces[rhFile], rhFile)
  }

  /** With both hemispheres the lh vertices come first and the rh faces are shifted by the lh vertex count. */
  lemma {:induction false} SubjectMeshBoth(disk: Disk, lhFile: string, rhFile: string)
    requires SubjectMesh(disk, lhFile, rhFile, "both").Ok?
    ensures var lh := disk.surfaces[lhFile];
      var rh := disk.surfaces[rhFile];
      var m := SubjectMesh(disk, lhFile, rhFile, "both").value;
      && m.verts == lh.verts + rh.verts
      && m.faces == lh.faces + ShiftFaces(rh.faces, |lh.verts|)
  {
    MergeTwo(disk.surfaces[lhFile], disk.surfaces[rhFile]);
  }

  /**
   * Recording lh and then rh keeps the lh entries: the vertex counts of both
   * hemispheres, which give the border between them in the merged mesh, are there.
   */
  lemma {:induction false} BothSurfacesMeta(base: map<string, MetaValue>, lh: Mesh, lhFile: string, rh: Mesh, rhFile: string)
    ensures var meta := SurfaceMeta(SurfaceMeta(base, "lh", lh, lhFile), "rh", rh, rhFile);
      && Key("lh", "num_vertices") in meta && meta[Key("lh", "num_vertices")] == Int(|lh.verts|)
      && Key("lh", "num_faces") in meta && meta[Key("lh", "num_faces")] == Int(|lh.faces|)
      && Key("lh", "surf_file") in meta && meta[Key("lh", "surf_file")] == Str(lhFile)
      && Key("rh", "num_vertices") in meta && meta[Key("rh", "num_vertices")] == Int(|rh.verts|)
      && Key("rh", "num_faces") in meta && meta[Key("rh", "num_faces")] == Int(|rh.faces|)
      && Key("rh", "surf_file") in meta && meta[Key("rh", "surf_file")] == Str(rhFile)
  {
    var inner := SurfaceMeta(base, "lh", lh, lhFile);
    SurfaceMetaKeys(base, "lh", lh, lhFile);
    SurfaceMetaKeys(inner, "rh", rh, rhFile);
    LhKeySurvivesRh(inner, rh, rhFile, "num_vertices");
    LhKeySurvivesRh(inner, rh, rhFile, "num_faces");
    LhKeySurvivesRh(inner, rh, rhFile, "surf_file");
  }

  /** Recording the rh surface keeps an lh entry as it was. */
  lemma {:induction false} LhKeySurvivesRh(m: map<string, MetaValue>, rh: Mesh, rhFile: string, f: string)
    requires Key("lh", f) in m
    ensures Key("lh", f) in SurfaceMeta(m, "rh", rh, rhFile)
    ensures SurfaceMeta(m, "rh", rh, rhFile)[Key("lh", f)] == m[Key("lh", f)]
  {
    HemisphereKeysDiffer(f);
    assert Key("lh", f) != Key("rh", "num_vertices") && Key("lh", f) != Key("rh", "num_faces")
      && Key("lh", f) != Key("rh", "surf_file");
  }

  /**
   * load_subject_mesh_files: ValueError for a hemi outside lh/rh/both; otherwise
   * the requested hemisphere's mesh, or both merged with lh first.
   */
  method LoadSubjectMeshFiles(disk: Disk, lhSurfFile: string, rhSurfFile: string, hemi: string, md: Dict?<MetaValue>)
    returns (r: Result<Mesh>, out: Dict<MetaValue>)
    modifies md
    ensures md != null ==> out == md
    ensures md == null ==> fresh(out)
    ensures !IsHemi(hemi) ==> r == Err(HemiError(hemi)) && out.entries == old(BaseEntries(md))
    ensures IsHemi(hemi) ==> r == SubjectMesh(disk, lhSurfFile, rhSurfFile, hemi)
    ensures r.Ok? ==> out.entries == SubjectMeshMeta(old(BaseEntries(md)), disk, lhSurfFile, rhSurfFile, hemi)
    ensures (hemi == "lh" || hemi == "rh") && r.Err? ==> out.entries == old(BaseEntries(md))
    ensures hemi == "both" && ReadGeometry(disk, lhSurfFile).Err? ==> out.entries == old(BaseEntries(md))
    ensures hemi == "both" && ReadGeometry(disk, lhSurfFile).Ok? && ReadGeometry(disk, rhSurfFile).Err? ==>
      out.entries == SurfaceMeta(old(BaseEntries(md)), "lh", ReadGeometry(disk, lhSurfFile).value, lhSurfFile)
  {
    if !IsHemi(hemi) {
      if md == null {
        out := new Dict();
      } else {
        out := md;
      }
      return Err(HemiError(hemi)), out;
    }
    if hemi == "lh" {
      r, out := ReadFsSurfaceFileAndRecordMetaData(disk, lhSurfFile, "lh", md);
    } else if hemi == "rh" {
      r, out := ReadFsSurfaceFileAndRecordMetaData(disk, rhSurfFile, "rh", md);
    } else {
      var lh, rh;
      lh, out := ReadFsSurfaceFileAndRecordMetaData(disk, lhSurfFile, "lh", md);
      if lh.Err? {
        return Err(lh.error), out;
      }
      rh, out := ReadFsSurfaceFileAndRecordMetaData(disk, rhSurfFile, "rh", out);
      if rh.Err? {
        return Err(rh.error), out;
      }
      var verts, faces := MergeMeshes([lh.value, rh.value]);
      r := Ok(Mesh(verts, faces));
    }
  }

  /** The data load_subject_morphology_data_files returns for a valid hemi. */
  function SubjectMorphology(disk: Disk, lhFile: string, rhFile: string, hemi: string, isMgh: bool): Result<seq<real>>
    requires IsHemi(hemi)
  {
    if hemi == "lh" then ReadMorphology(disk, lhFile, isMgh)
    else if hemi == "rh" then ReadMorphology(disk, rhFile, isMgh)
    else match ReadMorphology(disk, lhFile, isMgh)
      case Err(e) => Err(e)
      case Ok(lh) =>
        match ReadMorphology(disk, rhFile, isMgh)
        case Err(e) => Err(e)
        case Ok(rh) => Ok(Concat([lh, rh]))
  }

  /** The meta data load_subject_morphology_data_files leaves after a successful load. */
  function SubjectMorphologyMeta(base: map<string, MetaValue>, disk: Disk, lhFile: string, rhFile: string, hemi: string, format: string): map<string, MetaValue>
    requires IsHemi(hemi)
    requires SubjectMorphology(disk, lhFile, rhFile, hemi, format == "mgh").Ok?
  {
    var store := if format == "mgh" then disk.mghs else disk.curvs;
    if hemi == "lh" then MorphologyMeta(base, "lh", store[lhFile], lhFile, format)
    else if hemi == "rh" then MorphologyMeta(base, "rh", store[rhFile], rhFile, format)
    else MorphologyMeta(MorphologyMeta(base, "lh", store[lhFile], lhFile, format), "rh", store[rhFile], rhFile, format)
  }

  /** With both hemispheres the lh values come first, then the rh values. */
  lemma {:induction false} SubjectMorphologyBoth(disk: Disk, lhFile: string, rhFile: string, isMgh: bool)
    requires SubjectMorphology(disk, lhFile, rhFile, "both", isMgh).Ok?
    ensures var store := if isMgh then disk.mghs else disk.curvs;
      SubjectMorphology(disk, lhFile, rhFile, "both", isMgh).value == store[lhFile] + store[rhFile]
  {
    var store := if isMgh then disk.mghs else disk.curvs;
    MergeTwoData(store[lhFile], store[rhFile]);
  }

  /**
   * load_subject_morphology_data_files: ValueError for a hemi outside lh/rh/both,
   * then for a format other than curv/mgh; otherwise the requested data, lh first.
   */
  method LoadSubjectMorphologyDataFiles(disk: Disk, lhFile: string, rhFile: string, hemi: string, format: string, md: Dict?<MetaValue>)
    returns (r: Result<seq<real>>, out: Dict<MetaValue>)
    modifies md
    ensures md != null ==> out == md
    ensures md == null ==> fresh(out)
    ensures !IsHemi(hemi) ==> r == Err(HemiError(hemi)) && out.entries == old(BaseEntries(md))
    ensures IsHemi(hemi) && format != "curv" && format != "mgh" ==> r == Err(FormatError(format)) && out.entries == old(BaseEntries(md))
    ensures IsHemi(hemi) && (format == "curv" || format == "mgh") ==> r == SubjectMorphology(disk, lhFile, rhFile, hemi, format == "mgh")
    ensures r.Ok? ==> IsHemi(hemi) && out.entries == SubjectMorphologyMeta(old(BaseEntries(md)), disk, lhFile, rhFile, hemi, format)
    ensures (hemi == "lh" || hemi == "rh") && r.Err? ==> out.entries == old(BaseEntries(md))
    ensures hemi == "both" && ReadMorphology(disk, lhFile, format == "mgh").Err? ==> out.entries == old(BaseEntries(md))
    ensures hemi == "both" && (format == "curv" || format == "mgh") && ReadMorphology(disk, lhFile, format == "mgh").Ok?
            && ReadMorphology(disk, rhFile, format == "mgh").Err? ==>
      out.entries == MorphologyMeta(old(BaseEntries(md)), "lh", ReadMorphology(disk, lhFile, format == "mgh").value, lhFile, format)
  {
    if !IsHemi(hemi) || (format != "curv" && format != "mgh") {
      if md == null {
        out := new Dict();
      } else {
        out := md;
      }
      r := if !IsHemi(hemi) then Err(HemiError(hemi)) else Err(FormatError(format));
      return;
    }
    if hemi == "lh" {
      r, out := ReadFsMorphologyDataFileAndRecordMetaData(disk, lhFile, "lh", md, format);
    } else if hemi == "rh" {
      r, out := ReadFsMorphologyDataFileAndRecordMetaData(disk, rhFile, "rh", md, format);
    } else {
      var lh, rh;
      lh, out := ReadFsMorphologyDataFileAndRecordMetaData(disk, lhFile, "lh", md, format);
      if lh.Err? {
        return Err(lh.error), out;
      }
      rh, out := ReadFsMorphologyDataFileAndRecordMetaData(disk, rhFile, "rh", out, format);
      if rh.Err? {
        return Err(rh.error), out;
      }
      var merged := MergeMorphologyData([lh.value, rh.value]);
      r := Ok(merged);
    }
  }

  // ---------------------------------------------------------------------------
  // parse_subject

  /** The process environment: the SUBJECTS_DIR variable and the working directory. */
  datatype Env = Env(subjectsDirVar: Option<string>, cwd: string)

  /** os.getenv('SUBJECTS_DIR', os.getcwd()) */
  function DefaultSubjectsDir(env: Env): string {
    if env.subjectsDirVar.Some? then env.subjectsDirVar.value else env.cwd
  }

  function OrDefault(given: Option<string>, default: string): string {
    if given.Some? then given.value else default
  }

  /** What parse_subject and parse_subject_standard_space_data return: each part is None when not loaded. */
  datatype SubjectData = SubjectData(mesh: Option<Mesh>, morphology: Option<seq<real>>)

  /** A result of a load, or None when the load was not asked for. */
  function Loaded<T>(load: bool, r: Result<T>): Result<Option<T>> {
    if !load then Ok(None)
    else if r.Err? then Err(r.error)
    else Ok(Some(r.value))
  }

  /** The lh and rh file of the same name pattern under a subject's surf directory. */
  function HemiFiles(subjectsDir: string, subject: string, lhName: string, rhName: string): (string, string) {
    (PathJoin(SurfDir(subjectsDir, subject), lhName), PathJoin(SurfDir(subjectsDir, subject), rhName))
  }

  function NativeSurfaceFiles(subjectsDir: string, subject: string, surf: string): (string, string) {
    HemiFiles(subjectsDir, subject, SurfaceFileName("lh", surf), SurfaceFileName("rh", surf))
  }

  function NativeMorphologyFiles(subjectsDir: string, subject: string, measure: string, surf: string): (string, string) {
    HemiFiles(subjectsDir, subject, NativeMorphologyFileName("lh", measure, surf), NativeMorphologyFileName("rh", measure, surf))
  }

  /** Mesh first, then morphology data, each only when asked for: the first error wins. */
  function Combine(mesh: Result<Option<Mesh>>, morphology: Result<Option<seq<real>>>): (r: Result<SubjectData>)
    ensures r.Ok? <==> mesh.Ok? && morphology.Ok?
    ensures mesh.Err? ==> r == Err(mesh.error)
    ensures mesh.Ok? && morphology.Err? ==> r == Err(morphology.error)
    ensures r.Ok? ==> r.value.mesh == mesh.value && r.value.morphology == morphology.value
  {
    if mesh.Err? then Err(mesh.error)
    else if morphology.Err? then Err(morphology.error)
    else Ok(SubjectData(mesh.value, morphology.value))
  }

  /** The data parse_subject returns for a valid hemi: the native surfaces and curv files of the subject. */
  function ParseSubjectSpec(disk: Disk, subjectsDir: string, subject: string, surf: string, measure: string, hemi: string,
                            loadSurface: bool, loadMorphology: bool): (r: Result<SubjectData>)
    requires IsHemi(hemi)
  {
    var surfaces := NativeSurfaceFiles(subjectsDir, subject, surf);
    var morphology := NativeMorphologyFiles(subjectsDir, subject, measure, surf);
    Combine(Loaded(loadSurface, SubjectMesh(disk, surfaces.0, surfaces.1, hemi)),
            Loaded(loadMorphology, SubjectMorphology(disk, morphology.0, morphology.1, hemi, false)))
  }

  /** The settings parse_subject records last. */
  function NativeSettings(m: map<string, MetaValue>, subject: string, subjectsDir: string, surf: string, measure: string,
                          hemi: string, loadSurface: bool, loadMorphology: bool): map<string, MetaValue> {
    m["subject_id" := Str(subject)]
     ["display_subject" := if loadSurface then Str(subject) else NoneValue]
     ["subjects_dir" := Str(subjectsDir)]
     ["surf" := Str(surf)]
     ["display_surf" := if loadSurface then Str(surf) else NoneValue]
     ["measure" := if loadMorphology then Str(measure) else NoneValue]
     ["space" := Str("native_space")]
     ["hemi" := Str(hemi)]
  }

  /** The meta data parse_subject leaves after a successful parse. */
  function ParseSubjectMeta(base: map<string, MetaValue>, disk: Disk, subjectsDir: string, subject: string, surf: string,
                            measure: string, hemi: string, loadSurface: bool, loadMorphology: bool): map<string, MetaValue>
    requires IsHemi(hemi)
    requires ParseSubjectSpec(disk, subjectsDir, subject, surf, measure, hemi, loadSurface, loadMorphology).Ok?
  {
    var surfaces := NativeSurfaceFiles(subjectsDir, subject, surf);
    var morphology := NativeMorphologyFiles(subjectsDir, subject, measure, surf);
    var afterMesh := if loadSurface then SubjectMeshMeta(base, disk, surfaces.0, surfaces.1, hemi) else base;
    var afterMorphology := if loadMorphology then SubjectMorphologyMeta(afterMesh, disk, morphology.0, morphology.1, hemi, "curv") else afterMesh;
    NativeSettings(afterMorphology, subject, subjectsDir, surf, measure, hemi, loadSurface, loadMorphology)
  }

  /**
   * parse_subject: ValueError for a bad hemi; otherwise the mesh of surface `surf`
   * and the curv data of `measure` on it, from subjectsDir/subject/surf, each only
   * when asked for, and the settings recorded in the (passed or new) dict.
   */
  method ParseSubject(disk: Disk, env: Env, subject: string, surf: string, measure: string, hemi: string,
                      subjectsDir: Option<string>, md: Dict?<MetaValue>, loadSurface: bool, loadMorphology: bool)
    returns (r: Result<SubjectData>, out: Dict<MetaValue>)
    modifies md
    ensures md != null ==> out == md
    ensures md == null ==> fresh(out)
    ensures !IsHemi(hemi) ==> r == Err(HemiError(hemi)) && out.entries == old(BaseEntries(md))
    ensures IsHemi(hemi) ==>
      r == ParseSubjectSpec(disk, OrDefault(subjectsDir, DefaultSubjectsDir(env)), subject, surf, measure, hemi, loadSurface, loadMorphology)
    ensures r.Ok? ==>
      (IsHemi(hemi) &&
       out.entries == ParseSubjectMeta(old(BaseEntries(md)), disk, OrDefault(subjectsDir, DefaultSubjectsDir(env)), subject, surf,
                                       measure, hemi, loadSurface, loadMorphology))
  {
    if !IsHemi(hemi) {
      if md == null {
        out := new Dict();
      } else {
        out := md;
      }
      return Err(HemiError(hemi)), out;
    }
    if md == null {
      out := new Dict();
    } else {
      out := md;
    }
    var dir := OrDefault(subjectsDir, DefaultSubjectsDir(env));
    var surfaces := NativeSurfaceFiles(dir, subject, surf);
    var morphology := NativeMorphologyFiles(dir, subject, measure, surf);
    var mesh: Option<Mesh> := None;
    if loadSurface {
      var m;
      m, out := LoadSubjectMeshFiles(disk, surfaces.0, surfaces.1, hemi, out);
      if m.Err? {
        return Err(m.error), out;
      }
      mesh := Some(m.value);
    }
    var data: Option<seq<real>> := None;
    if loadMorphology {
      var d;
      d, out := LoadSubjectMorphologyDataFiles(disk, morphology.0, morphology.1, hemi, "curv", out);
      if d.Err? {
        return Err(d.error), out;
      }
      data := Some(d.value);
    }
    RecordNativeSettings(out, subject, dir, surf, measure, hemi, loadSurface, loadMorphology);
    r := Ok(SubjectData(mesh, data));
  }

  /** The settings parse_subject writes into its dict last. */
  method RecordNativeSettings(out: Dict<MetaValue>, subject: string, subjectsDir: string, surf: string, measure: string,
                              hemi: string, loadSurface: bool, loadMorphology: bool)
    modifies out
    ensures out.entries == NativeSettings(old(out.entries), subject, subjectsDir, surf, measure, hemi, loadSurface, loadMorphology)
  {
    out.Set("subject_id", Str(subject));
    out.Set("display_subject", if loadSurface then Str(subject) else NoneValue);
    out.Set("subjects_dir", Str(subjectsDir));
    out.Set("surf", Str(surf));
    out.Set("display_surf", if loadSurface then Str(surf) else NoneValue);
    out.Set("measure", if loadMorphology then Str(measure) else NoneValue);
    out.Set("space", Str("native_space"));
    out.Set("hemi", Str(hemi));
  }

  /**
   * A successful parse_subject returns exactly the parts asked for, reads the
   * curv file named after hemisphere, measure and surface, and records the
   * native space and the settings in the dict it returns.
   */
  lemma {:induction false} ParseSubjectResult(base: map<string, MetaValue>, disk: Disk, subjectsDir: string, subject: string, surf: string,
                           measure: string, hemi: string, loadSurface: bool, loadMorphology: bool)
    requires IsHemi(hemi)
    requires ParseSubjectSpec(disk, subjectsDir, subject, surf, measure, hemi, loadSurface, loadMorphology).Ok?
    ensures var d := ParseSubjectSpec(disk, subjectsDir, subject, surf, measure, hemi, loadSurface, loadMorphology).value;
      && (d.mesh.Some? <==> loadSurface)
      && (d.morphology.Some? <==> loadMorphology)
      && (hemi == "lh" && loadMorphology ==>
            d.morphology.value == disk.curvs[PathJoin(SurfDir(subjectsDir, subject), NativeMorphologyFileName("lh", measure, surf))])
      && (hemi == "both" && loadMorphology ==>
            d.morphology.value == disk.curvs[PathJoin(SurfDir(subjectsDir, subject), NativeMorphologyFileName("lh", measure, surf))]
                                + disk.curvs[PathJoin(SurfDir(subjectsDir, subject), NativeMorphologyFileName("rh", measure, surf))])
    ensures var m := ParseSubjectMeta(base, disk, subjectsDir, subject, surf, measure, hemi, loadSurface, loadMorphology);
      && "space" in m && m["space"] == Str("native_space")
      && "hemi" in m && m["hemi"] == Str(hemi)
      && "subject_id" in m && m["subject_id"] == Str(subject)
      && "subjects_dir" in m && m["subjects_dir"] == Str(subjectsDir)
      && "display_surf" in m && (m["display_surf"] == NoneValue <==> !loadSurface)
      && "measure" in m && (m["measure"] == NoneValue <==> !loadMorphology)
  {
    var morphology := NativeMorphologyFiles(subjectsDir, subject, measure, surf);
    if hemi == "both" && loadMorphology {
      SubjectMorphologyBoth(disk, morphology.0, morphology.1, false);
    }
    var surfaces := NativeSurfaceFiles(subjectsDir, subject, surf);
    var afterMesh := if loadSurface then SubjectMeshMeta(base, disk, surfaces.0, surfaces.1, hemi) else base;
    var afterMorphology := if loadMorphology then SubjectMorphologyMeta(afterMesh, disk, morphology.0, morphology.1, hemi, "curv") else afterMesh;
    NativeSettingsFacts(afterMorphology, subject, subjectsDir, surf, measure, hemi, loadSurface, loadMorphology);
  }

  /** The settings parse_subject records: the space, and None for the parts not loaded. */
  lemma {:induction false} NativeSettingsFacts(m: map<string, MetaValue>, subject: string, subjectsDir: string, surf: string, measure: string,
                            hemi: string, loadSurface: bool, loadMorphology: bool)
    ensures var r := NativeSettings(m, subject, subjectsDir, surf, measure, hemi, loadSurface, loadMorphology);
      && r.Keys == m.Keys + {"subject_id", "display_subject", "subjects_dir", "surf", "display_surf", "measure", "space", "hemi"}
      && r["space"] == Str("native_space")
      && r["hemi"] == Str(hemi)
      && r["subject_id"] == Str(subject)
      && r["subjects_dir"] == Str(subjectsDir)
      && (r["display_subject"] == NoneValue <==> !loadSurface)
      && (r["display_surf"] == NoneValue <==> !loadSurface)
      && (r["measure"] == NoneValue <==> !loadMorphology)
  {
    assert "space" != "hemi";
    assert "subject_id" != "display_subject" && "subject_id" != "subjects_dir" && "subject_id" != "surf";
    assert "subject_id" != "display_surf" && "subject_id" != "measure" && "subject_id" != "space";
    assert "display_subject" != "subjects_dir" && "display_subject" != "surf" && "display_subject" != "display_surf";
    assert "display_subject" != "measure" && "display_subject" != "space";
    assert "display_surf" != "measure" && "display_surf" != "space";
    assert "measure" != "space";
    assert "subjects_dir" != "surf" && "subjects_dir" != "display_surf" && "subjects_dir" != "measure";
    assert "subjects_dir" != "space" && "subjects_dir" != "hemi";
  }

  // ---------------------------------------------------------------------------
  // parse_subject_standard_space_data

  /** The arguments of parse_subject_standard_space_data that name what to load. */
  datatype StandardRequest = StandardRequest(
    subject: string, measure: string, surf: string, displaySurf: string, hemi: string, fwhm: Option<string>,
    averageSubject: string, loadSurface: bool, loadMorphology: bool, customFiles: Option<map<string, string>>)

  /**
   * The subject's mgh files mapped to the average subject: the standard names, or
   * the custom 'lh' and 'rh' names (KeyError when one is missing), under the
   * subject's surf directory.
   */
  function StandardMorphologyFiles(subjectsDir: string, q: StandardRequest): (r: Result<(string, string)>)
    ensures r.Err? <==> q.customFiles.Some? && ("lh" !in q.customFiles.value || "rh" !in q.customFiles.value)
    ensures r.Err? ==> r.error == KeyError(if "lh" !in q.customFiles.value then "lh" else "rh")
    ensures q.customFiles.None? ==>
      r.value == HemiFiles(subjectsDir, q.subject,
                           StandardMorphologyFileName("lh", q.measure, q.surf, q.fwhm, q.averageSubject),
                           StandardMorphologyFileName("rh", q.measure, q.surf, q.fwhm, q.averageSubject))
    ensures r.Ok? && q.customFiles.Some? ==>
      r.value == HemiFiles(subjectsDir, q.subject, q.customFiles.value["lh"], q.customFiles.value["rh"])
  {
    match q.customFiles
    case None =>
      Ok(HemiFiles(subjectsDir, q.subject,
                   StandardMorphologyFileName("lh", q.measure, q.surf, q.fwhm, q.averageSubject),
                   StandardMorphologyFileName("rh", q.measure, q.surf, q.fwhm, q.averageSubject)))
    case Some(custom) =>
      if "lh" !in custom then Err(KeyError("lh"))
      else if "rh" !in custom then Err(KeyError("rh"))
      else Ok(HemiFiles(subjectsDir, q.subject, custom["lh"], custom["rh"]))
  }

  /** The mgh data of the subject, or the error reading them. */
  function StandardMorphology(disk: Disk, subjectsDir: string, q: StandardRequest): Result<seq<real>>
    requires IsHemi(q.hemi)
  {
    match StandardMorphologyFiles(subjectsDir, q)
    case Err(e) => Err(e)
    case Ok(files) => SubjectMorphology(disk, files.0, files.1, q.hemi, true)
  }

  /**
   * The data parse_subject_standard_space_data returns for a valid hemi: the
   * average subject's mesh of `displaySurf` and the subject's data mapped to it.
   */
  function StandardSpaceSpec(disk: Disk, subjectsDir: string, averageSubjectsDir: string, q: StandardRequest): (r: Result<SubjectData>)
    requires IsHemi(q.hemi)
    ensures r.Ok? ==> (r.value.mesh.Some? <==> q.loadSurface) && (r.value.morphology.Some? <==> q.loadMorphology)
  {
    var surfaces := NativeSurfaceFiles(averageSubjectsDir, q.averageSubject, q.displaySurf);
    Combine(Loaded(q.loadSurface, SubjectMesh(disk, surfaces.0, surfaces.1, q.hemi)),
            Loaded(q.loadMorphology, StandardMorphology(disk, subjectsDir, q)))
  }

  /** The settings parse_subject_standard_space_data records last. */
  function StandardSettings(m: map<string, MetaValue>, subjectsDir: string, averageSubjectsDir: string, q: StandardRequest): map<string, MetaValue> {
    m["measure" := if q.loadMorphology then Str(q.measure) else NoneValue]
     ["subject_id" := Str(q.subject)]
     ["subjects_dir" := Str(subjectsDir)]
     ["display_surf" := if q.loadSurface then Str(q.displaySurf) else NoneValue]
     ["display_subject" := if q.loadSurface then Str(q.averageSubject) else NoneValue]
     ["average_subjects_dir" := Str(averageSubjectsDir)]
     ["surf" := Str(q.surf)]
     ["space" := Str("standard_space")]
     ["average_subject" := Str(q.averageSubject)]
     ["fwhm" := if q.fwhm.Some? then Str(q.fwhm.value) else NoneValue]
     ["hemi" := Str(q.hemi)]
  }

  /** The meta data parse_subject_standard_space_data leaves after a successful parse. */
  function StandardSpaceMeta(base: map<string, MetaValue>, disk: Disk, subjectsDir: string, averageSubjectsDir: string,
                             q: StandardRequest): map<string, MetaValue>
    requires IsHemi(q.hemi)
    requires StandardSpaceSpec(disk, subjectsDir, averageSubjectsDir, q).Ok?
  {
    var surfaces := NativeSurfaceFiles(averageSubjectsDir, q.averageSubject, q.displaySurf);
    var afterMesh := if q.loadSurface then SubjectMeshMeta(base, disk, surfaces.0, surfaces.1, q.hemi) else base;
    var afterMorphology :=
      if q.loadMorphology then
        var files := StandardMorphologyFiles(subjectsDir, q).value;
        SubjectMorphologyMeta(afterMesh["custom_morphology_files_used" := Bool(q.customFiles.Some?)],
                              disk, files.0, files.1, q.hemi, "mgh")
      else afterMesh;
    StandardSettings(afterMorphology, subjectsDir, averageSubjectsDir, q)
  }

  /**
   * parse_subject_standard_space_data: ValueError for a bad hemi; otherwise the
   * average subject's mesh and the subject's mgh data mapped to it, each only when
   * asked for, and the settings recorded in the (passed or new) dict.
   */
  method ParseSubjectStandardSpaceData(disk: Disk, env: Env, q: StandardRequest, subjectsDir: Option<string>,
                                       averageSubjectsDir: Option<string>, md: Dict?<MetaValue>)
    returns (r: Result<SubjectData>, out: Dict<MetaValue>)
    modifies md
    ensures md != null ==> out == md
    ensures md == null ==> fresh(out)
    ensures !IsHemi(q.hemi) ==> r == Err(HemiError(q.hemi)) && out.entries == old(BaseEntries(md))
    ensures IsHemi(q.hemi) ==>
      var dir := OrDefault(subjectsDir, DefaultSubjectsDir(env));
      r == StandardSpaceSpec(disk, dir, OrDefault(averageSubjectsDir, dir), q)
    ensures r.Ok? ==>
      (IsHemi(q.hemi) &&
       var dir := OrDefault(subjectsDir, DefaultSubjectsDir(env));
       out.entries == StandardSpaceMeta(old(BaseEntries(md)), disk, dir, OrDefault(averageSubjectsDir, dir), q))
  {
    if md == null {
      out := new Dict();
    } else {
      out := md;
    }
    if !IsHemi(q.hemi) {
      return Err(HemiError(q.hemi)), out;
    }
    var dir := OrDefault(subjectsDir, DefaultSubjectsDir(env));
    var avgDir := OrDefault(averageSubjectsDir, dir);
    ghost var base := out.entries;
    var surfaces := NativeSurfaceFiles(avgDir, q.averageSubject, q.displaySurf);
    ghost var meshR := Loaded(q.loadSurface, SubjectMesh(disk, surfaces.0, surfaces.1, q.hemi));
    ghost var morphR := Loaded(q.loadMorphology, StandardMorphology(disk, dir, q));
    assert StandardSpaceSpec(disk, dir, avgDir, q) == Combine(meshR, morphR);
    var mesh: Option<Mesh> := None;
    if q.loadSurface {
      var m;
      m, out := LoadSubjectMeshFiles(disk, surfaces.0, surfaces.1, q.hemi, out);
      if m.Err? {
        return Err(m.error), out;
      }
      mesh := Some(m.value);
    }
    assert meshR == Ok(mesh);
    ghost var afterMesh := out.entries;
    assert afterMesh == if q.loadSurface then SubjectMeshMeta(base, disk, surfaces.0, surfaces.1, q.hemi) else base;
    var data: Option<seq<real>> := None;
    if q.loadMorphology {
      out.Set("custom_morphology_files_used", Bool(q.customFiles.Some?));
      var files := StandardMorphologyFiles(dir, q);
      if files.Err? {
        assert morphR == Err(files.error);
        return Err(files.error), out;
      }
      var d;
      d, out := LoadSubjectMorphologyDataFiles(disk, files.value.0, files.value.1, q.hemi, "mgh", out);
      if d.Err? {
        assert morphR == Err(d.error);
        return Err(d.error), out;
      }
      data := Some(d.value);
    }
    assert morphR == Ok(data);
    RecordStandardSettings(out, dir, avgDir, q);
    r := Ok(SubjectData(mesh, data));
  }

  /** The settings parse_subject_standard_space_data writes into its dict last. */
  method RecordStandardSettings(out: Dict<MetaValue>, subjectsDir: string, averageSubjectsDir: string, q: StandardRequest)
    modifies out
    ensures out.entries == StandardSettings(old(out.entries), subjectsDir, averageSubjectsDir, q)
  {
    out.Set("measure", if q.loadMorphology then Str(q.measure) else NoneValue);
    out.Set("subject_id", Str(q.subject));
    out.Set("subjects_dir", Str(subjectsDir));
    out.Set("display_surf", if q.loadSurface then Str(q.displaySurf) else NoneValue);
    out.Set("display_subject", if q.loadSurface then Str(q.averageSubject) else NoneValue);
    out.Set("average_subjects_dir", Str(averageSubjectsDir));
    out.Set("surf", Str(q.surf));
    out.Set("space", Str("standard_space"));
    out.Set("average_subject", Str(q.averageSubject));
    out.Set("fwhm", if q.fwhm.Some? then Str(q.fwhm.value) else NoneValue);
    out.Set("hemi", Str(q.hemi));
  }

  /**
   * Without custom files, a successful standard-space parse of one hemisphere
   * reads the mgh file <hemi>.<measure><suffix><fwhm tag>.<average>.mgh under the
   * subject's (not the average subject's) surf directory.
   */
  lemma {:induction false} StandardSpaceReadsMappedFile(disk: Disk, subjectsDir: string, averageSubjectsDir: string, q: StandardRequest)
    requires q.hemi == "lh" && q.loadMorphology && q.customFiles.None?
    requires StandardSpaceSpec(disk, subjectsDir, averageSubjectsDir, q).Ok?
    ensures var file := PathJoin(SurfDir(subjectsDir, q.subject),
                                 StandardMorphologyFileName("lh", q.measure, q.surf, q.fwhm, q.averageSubject));
      && file in disk.mghs
      && StandardSpaceSpec(disk, subjectsDir, averageSubjectsDir, q).value.morphology == Some(disk.mghs[file])
  {
  }

  /** The settings parse_subject_standard_space_data records: the space, the fwhm, None for parts not loaded. */
  lemma {:induction false} StandardSettingsFacts(m: map<string, MetaValue>, subjectsDir: string, averageSubjectsDir: string, q: StandardRequest)
    ensures var r := StandardSettings(m, subjectsDir, averageSubjectsDir, q);
      && r["space"] == Str("standard_space")
      && r["average_subject"] == Str(q.averageSubject)
      && (r["fwhm"] == NoneValue <==> q.fwhm.None?)
      && (q.fwhm.Some? ==> r["fwhm"] == Str(q.fwhm.value))
      && (r["display_surf"] == NoneValue <==> !q.loadSurface)
      && (r["display_subject"] == NoneValue <==> !q.loadSurface)
      && (r["measure"] == NoneValue <==> !q.loadMorphology)
  {
    assert "space" != "average_subject" && "space" != "fwhm" && "space" != "hemi";
    assert "average_subject" != "fwhm" && "average_subject" != "hemi" && "fwhm" != "hemi";
    assert "display_subject" != "average_subjects_dir" && "display_subject" != "surf" && "display_subject" != "space";
    assert "display_subject" != "average_subject" && "display_subject" != "fwhm" && "display_subject" != "hemi";
    assert "measure" != "subject_id" && "measure" != "subjects_dir" && "measure" != "display_surf";
    assert "measure" != "display_subject" && "measure" != "average_subjects_dir" && "measure" != "surf";
    assert "measure" != "space" && "measure" != "average_subject" && "measure" != "fwhm" && "measure" != "hemi";
    assert "display_surf" != "display_subject" && "display_surf" != "average_subjects_dir" && "display_surf" != "surf";
    assert "display_surf" != "space" && "display_surf" != "average_subject" && "display_surf" != "fwhm" && "display_surf" != "hemi";
  }

  // ---------------------------------------------------------------------------
  // load_group_data

  /** Where load_group_data takes the subject ids from. */
  datatype SubjectSource = FromList | FromFile | FromDirectory

  /** The name recorded under 'subjects_detection_mode_auto_used_method'. */
  function SourceName(src: SubjectSource): string {
    match src
    case FromList => "list"
    case FromFile => "file"
    case FromDirectory => "search_dir"
  }

  predicate IsDetectionMode(mode: string) {
    mode == "auto" || mode == "file" || mode == "list" || mode == "search_dir"
  }

  function ModeError(mode: string): Error {
    ValueError("ERROR: " + "subjects_detection_mode " + "must be one of " + "{'auto', 'file', " + "'list', " + "'search_dir'} but " + "is '" + mode + "'.")
  }

  function ListNotSupportedError(mode: string): Error {
    ValueError("ERROR: " + "subjects_detection_mode " + "is set to '" + mode
               + "' but a " + "subjects_list was " + "given. Not " + "supported in " + "subjects_detection_mode " + "'file' and " + "'search_dir'.")
  }

  function ListMissingError(): Error {
    ValueError("ERROR: " + "subjects_detection_mode " + "is set to 'list' " + "but the " + "subjects_list " + "parameter was not " + "given.")
  }

  function FileMissingError(path: string): Error {
    ValueError("ERROR: " + "subjects_detection_mode " + "is set to 'file' " + "but the " + "subjects_file '" + path + "' does not exist.")
  }

  /**
   * The source chosen for a detection mode. 'auto' prefers the list, then an
   * existing subjects file, then the directory search; the other modes use
   * their own source and refuse a list they cannot use or a source that is
   * missing.
   */
  function SourceFor(mode: string, listGiven: bool, fileExists: bool, path: string): (r: Result<SubjectSource>)
    ensures r.Ok? <==>
      && IsDetectionMode(mode)
      && (mode == "list" ==> listGiven)
      && (mode == "file" ==> !listGiven && fileExists)
      && (mode == "search_dir" ==> !listGiven)
    ensures !IsDetectionMode(mode) ==> r == Err(ModeError(mode))
    ensures mode == "auto" ==>
      r == Ok(if listGiven then FromList else if fileExists then FromFile else FromDirectory)
    ensures r.Ok? && mode != "auto" ==>
      r.value == (if mode == "list" then FromList else if mode == "file" then FromFile else FromDirectory)
    ensures r.Ok? && r.value == FromFile ==> fileExists
    ensures r.Ok? && r.value == FromList ==> listGiven
    ensures listGiven && (mode == "auto" || mode == "list") ==> r == Ok(FromList)
  {
    DetectionModesDiffer();
    if !IsDetectionMode(mode) then Err(ModeError(mode))
    else if mode == "auto" then
      (if listGiven then Ok(FromList) else if fileExists then Ok(FromFile) else Ok(FromDirectory))
    else if mode == "list" then
      (if listGiven then Ok(FromList) else Err(ListMissingError()))
    else if listGiven then Err(ListNotSupportedError(mode))
    else if mode == "search_dir" then Ok(FromDirectory)
    else if !fileExists then Err(FileMissingError(path))
    else Ok(FromFile)
  }

  /** The four detection modes are different strings. */
  lemma {:induction false} DetectionModesDiffer()
    ensures "auto" != "file" && "auto" != "list" && "auto" != "search_dir"
    ensures "file" != "list" && "file" != "search_dir" && "list" != "search_dir"
  {
    assert "auto"[0] == 'a' && "file"[0] == 'f' && "list"[0] == 'l';
    assert |"search_dir"| == 10;
  }

  /** The subject ids of a subjects file without header: the first field of every row. */
  function FileSubjects(disk: Disk, path: string): Result<seq<string>> {
    if path !in disk.csvRows then Err(IOError(path))
    else
      var rows := disk.csvRows[path];
      if exists i :: 0 <= i < |rows| && rows[i] == [] then Err(IndexError)
      else Ok(seq(|rows|, i requires 0 <= i < |rows| && rows[i] != [] => rows[i][0]))
  }

  /** The subject ids the chosen source gives. */
  function SubjectsFrom(disk: Disk, src: SubjectSource, list: Option<seq<string>>, path: string,
                        subjectsDir: string, averageSubject: string): Result<seq<string>>
    requires src == FromList ==> list.Some?
  {
    match src
    case FromList => Ok(list.value)
    case FromFile => FileSubjects(disk, path)
    case FromDirectory =>
      if subjectsDir !in disk.listings then Err(IOError(subjectsDir))
      else Ok(NiTools.Detected(disk, subjectsDir, disk.listings[subjectsDir], [averageSubject], NiTools.DefaultRequiredSubdirs))
  }

  /**
   * The subjects of the search: every direct sub-directory of subjectsDir that
   * has a surf sub-directory and is not named after the average subject.
   */
  lemma {:induction false} DirectorySubjects(disk: Disk, subjectsDir: string, averageSubject: string, id: string)
    requires subjectsDir in disk.listings
    requires forall c :: c in disk.listings[subjectsDir] ==> '/' !in c
    requires '/' !in id
    ensures var subjects := SubjectsFrom(disk, FromDirectory, None, "", subjectsDir, averageSubject).value;
      id in subjects <==>
        (&& id in disk.listings[subjectsDir]
         && PathJoin(subjectsDir, id) in disk.dirs
         && id != averageSubject
         && PathJoin(PathJoin(subjectsDir, id), "surf") in disk.dirs)
  {
    var children := disk.listings[subjectsDir];
    NiTools.DetectedMembers(disk, subjectsDir, children, [averageSubject], NiTools.DefaultRequiredSubdirs, id);
    BasenameOfJoin(subjectsDir, id);
    assert NiTools.HasAllSubdirs(disk, PathJoin(subjectsDir, id), NiTools.DefaultRequiredSubdirs)
       <==> PathJoin(PathJoin(subjectsDir, id), "surf") in disk.dirs by {
      var required := NiTools.DefaultRequiredSubdirs;
      assert required == ["surf"] && |required| == 1 && required[0] == "surf";
    }
  }

  /** The ${...} variables a custom file template may use, for one hemisphere and subject. */
  function SubstitutionDict(measure: string, surf: string, hemi: string, fwhm: Option<string>, subject: string,
                            averageSubject: string): map<string, string> {
    map["MEASURE" := measure, "SURF_RAW" := surf, "SURF" := MorphologySuffix(surf), "HEMI" := hemi,
        "FWHM" := if fwhm.Some? then fwhm.value else "None", "SUBJECT_ID" := subject, "AVERAGE_SUBJECT" := averageSubject]
  }

  /** The arguments of load_group_data besides the disk and the environment. */
  datatype GroupRequest = GroupRequest(
    measure: string, surf: string, hemi: string, fwhm: Option<string>, subjectsDir: Option<string>,
    averageSubject: string, subjectsList: Option<seq<string>>, subjectsFile: string, subjectsFileDir: Option<string>,
    templates: Option<map<string, string>>, mode: string)

  predicate TemplatesComplete(g: GroupRequest) {
    g.templates.Some? ==> "lh" in g.templates.value && "rh" in g.templates.value
  }

  /** The custom files of one subject: both templates filled in, lh first. */
  function CustomFilesFor(g: GroupRequest, subject: string): (r: Result<Option<map<string, string>>>)
    requires TemplatesComplete(g)
    ensures r.Ok? ==> (r.value.Some? <==> g.templates.Some?)
    ensures r.Ok? && r.value.Some? ==> r.value.value.Keys == {"lh", "rh"}
    ensures g.templates.Some? ==>
      var lh := NiTools.FillTemplateFilename(g.templates.value["lh"], SubstitutionDict(g.measure, g.surf, "lh", g.fwhm, subject, g.averageSubject));
      var rh := NiTools.FillTemplateFilename(g.templates.value["rh"], SubstitutionDict(g.measure, g.surf, "rh", g.fwhm, subject, g.averageSubject));
      && (lh.Err? ==> r == Err(lh.error))
      && (lh.Ok? && rh.Err? ==> r == Err(rh.error))
      && (lh.Ok? && rh.Ok? ==> r == Ok(Some(map["lh" := lh.value, "rh" := rh.value])))
  {
    match g.templates
    case None => Ok(None)
    case Some(t) =>
      match NiTools.FillTemplateFilename(t["lh"], SubstitutionDict(g.measure, g.surf, "lh", g.fwhm, subject, g.averageSubject))
      case Err(e) => Err(e)
      case Ok(lh) =>
        match NiTools.FillTemplateFilename(t["rh"], SubstitutionDict(g.measure, g.surf, "rh", g.fwhm, subject, g.averageSubject))
        case Err(e) => Err(e)
        case Ok(rh) => Ok(Some(map["lh" := lh, "rh" := rh]))
  }

  /** The request load_group_data makes of parse_subject_standard_space_data for one subject. */
  function SubjectRequest(g: GroupRequest, subject: string, custom: Option<map<string, string>>): StandardRequest {
    StandardRequest(subject, g.measure, g.surf, "white", g.hemi, g.fwhm, g.averageSubject, false, true, custom)
  }

  /** One subject's row of the group data: the subject's mapped data, or the error loading it. */
  function GroupRow(disk: Disk, subjectsDir: string, g: GroupRequest, subject: string): (r: Result<seq<real>>)
    requires IsHemi(g.hemi) && TemplatesComplete(g)
  {
    match CustomFilesFor(g, subject)
    case Err(e) => Err(e)
    case Ok(custom) =>
      match StandardSpaceSpec(disk, subjectsDir, subjectsDir, SubjectRequest(g, subject, custom))
      case Err(e) => Err(e)
      case Ok(d) => Ok(d.morphology.value)
  }

  /** Apply f to every element in order; the first element f fails on gives the error. */
  function MapUntilError<A, B>(f: A -> Result<B>, xs: seq<A>): Result<seq<B>> {
    if xs == [] then Ok([])
    else
      match MapUntilError(f, xs[..|xs| - 1])
      case Err(e) => Err(e)
      case Ok(ys) =>
        match f(xs[|xs| - 1])
        case Err(e) => Err(e)
        case Ok(y) => Ok(ys + [y])
  }

  /** The traversal succeeds exactly when f succeeds on every element, and keeps the order. */
  lemma {:induction false} MapUntilErrorOk<A, B>(f: A -> Result<B>, xs: seq<A>)
    ensures MapUntilError(f, xs).Ok? <==> forall i :: 0 <= i < |xs| ==> f(xs[i]).Ok?
    ensures MapUntilError(f, xs).Ok? ==>
      var ys := MapUntilError(f, xs).value;
      && |ys| == |xs|
      && forall i :: 0 <= i < |xs| ==> f(xs[i]) == Ok(ys[i])
  {
    if xs != [] {
      var init := xs[..|xs| - 1];
      MapUntilErrorOk(f, init);
      assert forall i :: 0 <= i < |init| ==> xs[i] == init[i];
    }
  }

  /** Once a prefix fails, the whole traversal fails with the same error. */
  lemma {:induction false} MapUntilErrorPrefix<A, B>(f: A -> Result<B>, xs: seq<A>, k: nat)
    requires k <= |xs|
    requires MapUntilError(f, xs[..k]).Err?
    ensures MapUntilError(f, xs) == MapUntilError(f, xs[..k])
    decreases |xs| - k
  {
    if k < |xs| {
      var init := xs[..|xs| - 1];
      assert init[..k] == xs[..k];
      MapUntilErrorPrefix(f, init, k);
    } else {
      assert xs[..k] == xs;
    }
  }

  /** GroupRow for a fixed subjects directory and request, as a function of the subject id. */
  function RowOf(disk: Disk, subjectsDir: string, g: GroupRequest): string -> Result<seq<real>>
    requires IsHemi(g.hemi) && TemplatesComplete(g)
  {
    subject => GroupRow(disk, subjectsDir, g, subject)
  }

  /** The rows of all subjects in order; the first subject that fails gives the error. */
  function GroupRows(disk: Disk, subjectsDir: string, g: GroupRequest, subjects: seq<string>): Result<seq<seq<real>>>
    requires IsHemi(g.hemi) && TemplatesComplete(g)
  {
    MapUntilError(RowOf(disk, subjectsDir, g), subjects)
  }

  /** Without templates, a subject's row is its standard-space data under its own surf directory. */
  lemma {:induction false} GroupRowWithoutTemplates(disk: Disk, subjectsDir: string, g: GroupRequest, subject: string)
    requires IsHemi(g.hemi) && g.templates.None?
    ensures GroupRow(disk, subjectsDir, g, subject)
         == StandardMorphology(disk, subjectsDir, SubjectRequest(g, subject, None))
  {
  }

  /** The group loads exactly when every subject loads, and row i is subject i's data. */
  lemma {:induction false} GroupRowsOk(disk: Disk, subjectsDir: string, g: GroupRequest, subjects: seq<string>)
    requires IsHemi(g.hemi) && TemplatesComplete(g)
    ensures GroupRows(disk, subjectsDir, g, subjects).Ok?
        <==> forall i :: 0 <= i < |subjects| ==> GroupRow(disk, subjectsDir, g, subjects[i]).Ok?
    ensures GroupRows(disk, subjectsDir, g, subjects).Ok? ==>
      var rows := GroupRows(disk, subjectsDir, g, subjects).value;
      && |rows| == |subjects|
      && forall i :: 0 <= i < |subjects| ==> GroupRow(disk, subjectsDir, g, subjects[i]) == Ok(rows[i])
  {
    MapUntilErrorOk(RowOf(disk, subjectsDir, g), subjects);
  }

  /** The meta data parse_subject_standard_space_data gives one subject of the group (empty when it fails). */
  function GroupSubjectMeta(disk: Disk, subjectsDir: string, g: GroupRequest, subject: string): map<string, MetaValue>
    requires IsHemi(g.hemi) && TemplatesComplete(g)
  {
    match CustomFilesFor(g, subject)
    case Err(_) => map[]
    case Ok(custom) =>
      var q := SubjectRequest(g, subject, custom);
      if StandardSpaceSpec(disk, subjectsDir, subjectsDir, q).Ok? then StandardSpaceMeta(map[], disk, subjectsDir, subjectsDir, q)
      else map[]
  }

  /** Apply f to every element, in order. */
  function MapSeq<A, B>(f: A -> B, xs: seq<A>): (r: seq<B>)
    ensures |r| == |xs|
    ensures forall i :: 0 <= i < |xs| ==> r[i] == f(xs[i])
  {
    if xs == [] then [] else MapSeq(f, xs[..|xs| - 1]) + [f(xs[|xs| - 1])]
  }

  /** GroupSubjectMeta for a fixed subjects directory and request, as a function of the subject id. */
  function MetaOf(disk: Disk, subjectsDir: string, g: GroupRequest): string -> map<string, MetaValue>
    requires IsHemi(g.hemi) && TemplatesComplete(g)
  {
    subject => GroupSubjectMeta(disk, subjectsDir, g, subject)
  }

  /** The meta data of every subject, in order. */
  function GroupSubjectMetas(disk: Disk, subjectsDir: string, g: GroupRequest, subjects: seq<string>): seq<map<string, MetaValue>>
    requires IsHemi(g.hemi) && TemplatesComplete(g)
  {
    MapSeq(MetaOf(disk, subjectsDir, g), subjects)
  }

  /** A dict after `d[keys[i]] = values[i]` for i = 0, 1, ... in order. */
  function RecordAll<V>(m: map<string, V>, keys: seq<string>, values: seq<V>): map<string, V>
    requires |keys| == |values|
  {
    if keys == [] then m
    else RecordAll(m, keys[..|keys| - 1], values[..|values| - 1])[keys[|keys| - 1] := values[|values| - 1]]
  }

  /** One more element: the traversal so far, then f of the element. */
  lemma {:induction false} MapUntilErrorStep<A, B>(f: A -> Result<B>, xs: seq<A>, i: nat, ys: seq<B>)
    requires i < |xs| && MapUntilError(f, xs[..i]) == Ok(ys)
    ensures MapUntilError(f, xs[..i + 1]) == match f(xs[i]) case Err(e) => Err(e) case Ok(y) => Ok(ys + [y])
  {
    assert xs[..i + 1][..i] == xs[..i];
  }

  lemma {:induction false} MapSeqStep<A, B>(f: A -> B, xs: seq<A>, i: nat)
    requires i < |xs|
    ensures MapSeq(f, xs[..i + 1]) == MapSeq(f, xs[..i]) + [f(xs[i])]
  {
    assert xs[..i + 1][..i] == xs[..i];
  }

  lemma {:induction false} RecordAllStep<V>(m: map<string, V>, keys: seq<string>, values: seq<V>, i: nat, v: V)
    requires i < |keys| && |values| == i
    ensures RecordAll(m, keys[..i + 1], values + [v]) == RecordAll(m, keys[..i], values)[keys[i] := v]
  {
    assert keys[..i + 1][..i] == keys[..i];
    assert (values + [v])[..i] == values;
  }

  /**
   * After recording, the keys are the old ones plus the recorded ones, every
   * other entry is kept, and a recorded key holds a value recorded for it.
   */
  lemma {:induction false} RecordAllEntries<V>(m: map<string, V>, keys: seq<string>, values: seq<V>)
    requires |keys| == |values|
    ensures var r := RecordAll(m, keys, values);
      && (forall k :: k in r <==> k in m || k in keys)
      && (forall k :: k in m && k !in keys ==> r[k] == m[k])
      && (forall k :: k in keys ==> exists i :: 0 <= i < |keys| && keys[i] == k && r[k] == values[i])
  {
    if keys != [] {
      var n := |keys| - 1;
      RecordAllEntries(m, keys[..n], values[..n]);
      assert keys == keys[..n] + [keys[n]];
      forall k | k in keys ensures exists i :: 0 <= i < |keys| && keys[i] == k && RecordAll(m, keys, values)[k] == values[i] {
        if k == keys[n] {
          assert keys[n] == k && RecordAll(m, keys, values)[k] == values[n];
        } else {
          assert k in keys[..n];
          var i :| 0 <= i < n && keys[..n][i] == k && RecordAll(m, keys[..n], values[..n])[k] == values[..n][i];
          assert keys[i] == k && RecordAll(m, keys, values)[k] == values[i];
        }
      }
    }
  }

  /** group_meta_data after the loop: each subject's id maps to its meta data, other entries stay. */
  lemma {:induction false} GroupMetaEntries(m: map<string, map<string, MetaValue>>, disk: Disk, subjectsDir: string, g: GroupRequest, subjects: seq<string>)
    requires IsHemi(g.hemi) && TemplatesComplete(g)
    ensures var r := RecordAll(m, subjects, GroupSubjectMetas(disk, subjectsDir, g, subjects));
      && (forall s :: s in r <==> s in m || s in subjects)
      && (forall s :: s in m && s !in subjects ==> r[s] == m[s])
      && (forall s :: s in subjects ==> r[s] == GroupSubjectMeta(disk, subjectsDir, g, s))
  {
    var metas := GroupSubjectMetas(disk, subjectsDir, g, subjects);
    RecordAllEntries(m, subjects, metas);
    forall s | s in subjects ensures RecordAll(m, subjects, metas)[s] == GroupSubjectMeta(disk, subjectsDir, g, s) {
      var i :| 0 <= i < |subjects| && subjects[i] == s && RecordAll(m, subjects, metas)[s] == metas[i];
    }
  }

  /** The run meta data of a successful load_group_data. */
  function RunMeta(g: GroupRequest, src: SubjectSource, path: string): map<string, MetaValue>
    requires TemplatesComplete(g)
  {
    var base := map["subjects_detection_mode" := Str(g.mode), "subjects_file_used" := Bool(src == FromFile)];
    var withFile := if src == FromFile then base["subjects_file" := Str(path)] else base;
    var withAuto := if g.mode == "auto" then withFile["subjects_detection_mode_auto_used_method" := Str(SourceName(src))] else withFile;
    match g.templates
    case None => withAuto["custom_morphology_file_templates_used" := Bool(false)]
    case Some(t) =>
      withAuto["custom_morphology_file_templates_used" := Bool(true)]
              ["lh.custom_morphology_file_template" := Str(t["lh"])]
              ["rh.custom_morphology_file_template" := Str(t["rh"])]
  }

  /** The run meta data tell the mode, whether and which subjects file was read, what auto mode chose, and whether templates were used. */
  lemma {:induction false} RunMetaFacts(g: GroupRequest, src: SubjectSource, path: string)
    requires TemplatesComplete(g)
    ensures var r := RunMeta(g, src, path);
      && r["subjects_detection_mode"] == Str(g.mode)
      && r["subjects_file_used"] == Bool(src == FromFile)
      && ("subjects_file" in r <==> src == FromFile)
      && (src == FromFile ==> r["subjects_file"] == Str(path))
      && ("subjects_detection_mode_auto_used_method" in r <==> g.mode == "auto")
      && (g.mode == "auto" ==> r["subjects_detection_mode_auto_used_method"] == Str(SourceName(src)))
      && r["custom_morphology_file_templates_used"] == Bool(g.templates.Some?)
  {
    var k1, k2, k3 := "subjects_detection_mode", "subjects_file_used", "subjects_file";
    var k4, k5 := "subjects_detection_mode_auto_used_method", "custom_morphology_file_templates_used";
    var k6, k7 := "lh.custom_morphology_file_template", "rh.custom_morphology_file_template";
    assert |k1| == 23 && |k2| == 18 && |k3| == 13 && |k4| == 40 && |k5| == 37 && |k6| == 34 && |k7| == 34;
    assert k6[0] != k7[0];
  }

  /** What load_group_data returns: the rows, the subject ids in row order, the run meta data. */
  datatype GroupData = GroupData(rows: seq<seq<real>>, subjects: seq<string>, runMeta: map<string, MetaValue>)

  /** The subjects directory and the subjects file load_group_data falls back to. */
  function GroupSubjectsDir(env: Env, g: GroupRequest): string {
    OrDefault(g.subjectsDir, DefaultSubjectsDir(env))
  }

  function SubjectsFilePath(env: Env, g: GroupRequest): string {
    PathJoin(OrDefault(g.subjectsFileDir, GroupSubjectsDir(env, g)), g.subjectsFile)
  }

  /** The source load_group_data uses, after the hemi check. */
  function GroupSource(disk: Disk, env: Env, g: GroupRequest): Result<SubjectSource> {
    var path := SubjectsFilePath(env, g);
    SourceFor(g.mode, g.subjectsList.Some?, path in disk.files, path)
  }

  /** The subject ids load_group_data uses, or the error on the way to them. */
  function GroupSubjects(disk: Disk, env: Env, g: GroupRequest): Result<seq<string>> {
    match GroupSource(disk, env, g)
    case Err(e) => Err(e)
    case Ok(src) => SubjectsFrom(disk, src, g.subjectsList, SubjectsFilePath(env, g), GroupSubjectsDir(env, g), g.averageSubject)
  }

  /**
   * load_group_data: ValueError for a bad hemi or detection mode; the subject ids
   * from the chosen source; KeyError when a template for 'lh' or 'rh' is missing;
   * then every subject's mapped data, in the order of the ids.
   */
  function GroupOutcome(disk: Disk, env: Env, g: GroupRequest): (r: Result<GroupData>)
    ensures !IsHemi(g.hemi) ==> r == Err(HemiError(g.hemi))
    ensures IsHemi(g.hemi) && GroupSubjects(disk, env, g).Err? ==> r == Err(GroupSubjects(disk, env, g).error)
    ensures r.Ok? ==> IsHemi(g.hemi) && TemplatesComplete(g) && GroupSubjects(disk, env, g) == Ok(r.value.subjects)
  {
    if !IsHemi(g.hemi) then Err(HemiError(g.hemi))
    else
      match GroupSubjects(disk, env, g)
      case Err(e) => Err(e)
      case Ok(subjects) =>
        if g.templates.Some? && "lh" !in g.templates.value then Err(KeyError("lh"))
        else if g.templates.Some? && "rh" !in g.templates.value then Err(KeyError("rh"))
        else
          match GroupRows(disk, GroupSubjectsDir(env, g), g, subjects)
          case Err(e) => Err(e)
          case Ok(rows) => Ok(GroupData(rows, subjects, RunMeta(g, GroupSource(disk, env, g).value, SubjectsFilePath(env, g))))
  }

  /**
   * A successful load_group_data has one row per subject, row i holding the data
   * of subject i, and names in its run meta data the source it used.
   */
  lemma {:induction false} GroupOutcomeRows(disk: Disk, env: Env, g: GroupRequest)
    requires GroupOutcome(disk, env, g).Ok?
    ensures var d := GroupOutcome(disk, env, g).value;
      && |d.rows| == |d.subjects|
      && (forall i :: 0 <= i < |d.subjects| ==>
            GroupRow(disk, GroupSubjectsDir(env, g), g, d.subjects[i]) == Ok(d.rows[i]))
      && (g.mode == "auto" ==>
            && "subjects_detection_mode_auto_used_method" in d.runMeta
            && d.runMeta["subjects_detection_mode_auto_used_method"] == Str(SourceName(GroupSource(disk, env, g).value)))
      && "subjects_file_used" in d.runMeta
      && d.runMeta["subjects_file_used"] == Bool(GroupSource(disk, env, g).value == FromFile)
  {
    var d := GroupOutcome(disk, env, g).value;
    GroupRowsOk(disk, GroupSubjectsDir(env, g), g, d.subjects);
    RunMetaFacts(g, GroupSource(disk, env, g).value, SubjectsFilePath(env, g));
  }

  /** With the list given in auto or list mode, the group is loaded for exactly that list, in its order. */
  lemma {:induction false} GroupUsesGivenList(disk: Disk, env: Env, g: GroupRequest)
    requires IsHemi(g.hemi) && g.subjectsList.Some? && (g.mode == "auto" || g.mode == "list")
    ensures GroupSubjects(disk, env, g) == Ok(g.subjectsList.value)
    ensures GroupOutcome(disk, env, g).Ok? ==> GroupOutcome(disk, env, g).value.subjects == g.subjectsList.value
  {
    assert GroupSource(disk, env, g) == Ok(FromList);
  }

  /** The subject ids of a subjects file read without header and with the id in field 0. */
  method ReadFileSubjects(disk: Disk, path: string) returns (r: Result<seq<string>>)
    ensures r == FileSubjects(disk, path)
  {
    r := NiTools.ReadSubjectsFile(disk, path, false, 0);
    if path in disk.csvRows {
      var rows := disk.csvRows[path];
      forall i | 0 <= i < |rows| ensures PyIndex(|rows[i]|, 0).Some? <==> rows[i] != [] {
      }
      if r.Ok? {
        assert forall i :: 0 <= i < |rows| ==> rows[i] != [];
        assert r.value == seq(|rows|, i requires 0 <= i < |rows| && rows[i] != [] => rows[i][0]);
      } else {
        var i :| 0 <= i < |rows| && PyIndex(|rows[i]|, 0).None?;
        assert rows[i] == [];
      }
    }
  }

  /** The subject ids of the chosen source, as load_group_data determines them. */
  method ResolveSubjects(disk: Disk, env: Env, g: GroupRequest) returns (r: Result<seq<string>>)
    ensures r == GroupSubjects(disk, env, g)
  {
    var subjectsDir := GroupSubjectsDir(env, g);
    var path := SubjectsFilePath(env, g);
    var src := SourceFor(g.mode, g.subjectsList.Some?, path in disk.files, path);
    if src.Err? {
      return Err(src.error);
    }
    match src.value
    case FromList =>
      r := Ok(g.subjectsList.value);
    case FromFile =>
      r := ReadFileSubjects(disk, path);
    case FromDirectory =>
      r := NiTools.DetectSubjectsInDirectory(disk, subjectsDir, Some([g.averageSubject]), None);
  }

  /**
   * load_group_data: the outcome GroupOutcome describes; on success the
   * (passed or new) group meta dict holds each subject's meta data under its id.
   */
  method LoadGroupData(disk: Disk, env: Env, g: GroupRequest, groupMd: Dict?<map<string, MetaValue>>)
    returns (r: Result<GroupData>, out: Dict<map<string, MetaValue>>)
    modifies groupMd
    ensures groupMd != null ==> out == groupMd
    ensures groupMd == null ==> fresh(out)
    ensures r == GroupOutcome(disk, env, g)
    ensures r.Ok? ==>
      out.entries == RecordAll(old(BaseEntries(groupMd)), r.value.subjects,
                               GroupSubjectMetas(disk, GroupSubjectsDir(env, g), g, r.value.subjects))
  {
    if groupMd == null {
      out := new Dict();
    } else {
      out := groupMd;
    }
    if !IsHemi(g.hemi) {
      return Err(HemiError(g.hemi)), out;
    }
    var subjectsDir := GroupSubjectsDir(env, g);
    var resolved := ResolveSubjects(disk, env, g);
    if resolved.Err? {
      return Err(resolved.error), out;
    }
    var subjects := resolved.value;
    if g.templates.Some? && "lh" !in g.templates.value {
      return Err(KeyError("lh")), out;
    }
    if g.templates.Some? && "rh" !in g.templates.value {
      return Err(KeyError("rh")), out;
    }
    var rows := LoadGroupRows(disk, env, subjectsDir, g, subjects, out);
    if rows.Err? {
      return Err(rows.error), out;
    }
    var runMeta := BuildRunMeta(g, GroupSource(disk, env, g).value, SubjectsFilePath(env, g));
    r := Ok(GroupData(rows.value, subjects, runMeta));
  }

  /** The loop of load_group_data: every subject's row in order, its meta data recorded under its id. */
  method LoadGroupRows(disk: Disk, env: Env, subjectsDir: string, g: GroupRequest, subjects: seq<string>,
                       out: Dict<map<string, MetaValue>>)
    returns (r: Result<seq<seq<real>>>)
    requires IsHemi(g.hemi) && TemplatesComplete(g)
    modifies out
    ensures r == GroupRows(disk, subjectsDir, g, subjects)
    ensures r.Ok? ==> out.entries == RecordAll(old(out.entries), subjects, GroupSubjectMetas(disk, subjectsDir, g, subjects))
  {
    ghost var base := out.entries;
    ghost var metas: seq<map<string, MetaValue>> := [];
    var rows: seq<seq<real>> := [];
    var i := 0;
    while i < |subjects|
      invariant 0 <= i <= |subjects|
      invariant MapUntilError(RowOf(disk, subjectsDir, g), subjects[..i]) == Ok(rows)
      invariant metas == MapSeq(MetaOf(disk, subjectsDir, g), subjects[..i])
      invariant out.entries == RecordAll(base, subjects[..i], metas)
    {
      var subject := subjects[i];
      var row, meta := LoadGroupSubject(disk, env, subjectsDir, g, subject);
      assert row == RowOf(disk, subjectsDir, g)(subject) && meta == MetaOf(disk, subjectsDir, g)(subject);
      MapUntilErrorStep(RowOf(disk, subjectsDir, g), subjects, i, rows);
      if row.Err? {
        MapUntilErrorPrefix(RowOf(disk, subjectsDir, g), subjects, i + 1);
        return Err(row.error);
      }
      MapSeqStep(MetaOf(disk, subjectsDir, g), subjects, i);
      RecordAllStep(base, subjects, metas, i, meta);
      out.Set(subject, meta);
      metas := metas + [meta];
      rows := rows + [row.value];
      i := i + 1;
    }
    assert subjects[..|subjects|] == subjects;
    r := Ok(rows);
  }

  /** The run meta data, written in the order load_group_data writes them. */
  method BuildRunMeta(g: GroupRequest, src: SubjectSource, path: string) returns (runMeta: map<string, MetaValue>)
    requires TemplatesComplete(g)
    ensures runMeta == RunMeta(g, src, path)
  {
    runMeta := map["subjects_detection_mode" := Str(g.mode), "subjects_file_used" := Bool(src == FromFile)];
    if src == FromFile {
      runMeta := runMeta["subjects_file" := Str(path)];
    }
    if g.mode == "auto" {
      runMeta := runMeta["subjects_detection_mode_auto_used_method" := Str(SourceName(src))];
    }
    if g.templates.Some? {
      runMeta := runMeta["custom_morphology_file_templates_used" := Bool(true)];
      runMeta := runMeta["lh.custom_morphology_file_template" := Str(g.templates.value["lh"])];
      runMeta := runMeta["rh.custom_morphology_file_template" := Str(g.templates.value["rh"])];
    } else {
      runMeta := runMeta["custom_morphology_file_templates_used" := Bool(false)];
    }
  }

  /** One iteration of the group loop: fill the templates, then parse the subject in standard space. */
  method LoadGroupSubject(disk: Disk, env: Env, subjectsDir: string, g: GroupRequest, subject: string)
    returns (row: Result<seq<real>>, meta: map<string, MetaValue>)
    requires IsHemi(g.hemi) && TemplatesComplete(g)
    ensures row == GroupRow(disk, subjectsDir, g, subject)
    ensures meta == GroupSubjectMeta(disk, subjectsDir, g, subject)
  {
    var custom := CustomFilesFor(g, subject);
    if custom.Err? {
      return Err(custom.error), map[];
    }
    var subjectMd := new Dict();
    var d, smd := ParseSubjectStandardSpaceData(disk, env, SubjectRequest(g, subject, custom.value), Some(subjectsDir), None, subjectMd);
    if d.Err? {
      return Err(d.error), map[];
    }
    row := Ok(d.value.morphology.value);
    meta := smd.entries;
  }
}
