/**
 * The legacy cogload.freesurferdata module: merging the two hemispheres'
 * meshes and per-vertex files, FreeSurfer file naming for subject and
 * standard space, and the meta data the parse functions record.
 *
 * The module as written never imports numpy nor os, so every function that
 * uses np or os raises NameError; the AsWritten functions state that, and
 * the rest of the module models the evidently intended code with both
 * imports present.
 */
module CogFreeSurferData {
  import opened Wrappers
  import opened PyStr
  import opened PyDict
  import opened Geometry
  import opened FileSystem
  import FreeSurferData

  // ---------------------------------------------------------------------------
  // Reading a list of files

  /**
   * The values a store holds for the files, in order; IOError for the first
   * file it does not hold.
   */
  function ReadEach<T>(store: map<string, T>, files: seq<string>): (r: Result<seq<T>>)
    ensures r.Ok? ==> |r.value| == |files|
    ensures r.Ok? ==> forall k :: 0 <= k < |files| ==> files[k] in store && r.value[k] == store[files[k]]
    ensures r.Err? ==> exists k :: 0 <= k < |files| && files[k] !in store && r.error == IOError(files[k])
                                   && forall j :: 0 <= j < k ==> files[j] in store
  {
    if files == [] then Ok([])
    else
      var last := files[|files| - 1];
      match ReadEach(store, files[..|files| - 1])
      case Err(e) => Err(e)
      case Ok(values) => if last in store then Ok(values + [store[last]]) else Err(IOError(last))
  }

  /** Reading fails exactly when a file is missing from the store. */
  lemma {:induction false} ReadEachFails<T>(store: map<string, T>, files: seq<string>)
    ensures ReadEach(store, files).Err? <==> exists k :: 0 <= k < |files| && files[k] !in store
  {
    if files != [] {
      var init := files[..|files| - 1];
      ReadEachFails(store, init);
      if exists k :: 0 <= k < |files| && files[k] !in store {
        var k :| 0 <= k < |files| && files[k] !in store;
        if k < |init| {
          assert init[k] !in store;
        }
      }
    }
  }

  /** Reading one more file that the store holds extends the values read so far. */
  lemma {:induction false} ReadEachStep<T>(store: map<string, T>, files: seq<string>, i: nat, values: seq<T>)
    requires i < |files| && ReadEach(store, files[..i]) == Ok(values) && files[i] in store
    ensures ReadEach(store, files[..i + 1]) == Ok(values + [store[files[i]]])
  {
    assert files[..i + 1][..i] == files[..i];
  }

  /** Reading stops at the first file the store does not hold, with that file's IOError. */
  lemma {:induction false} ReadEachMissing<T>(store: map<string, T>, files: seq<string>, i: nat, values: seq<T>)
    requires i < |files| && ReadEach(store, files[..i]) == Ok(values) && files[i] !in store
    ensures ReadEach(store, files) == Err(IOError(files[i]))
  {
    assert files[..i + 1][..i] == files[..i];
    ReadEachPrefixError(store, files, i + 1);
  }

  /** Once a prefix of the files fails to read, reading all of them fails the same way. */
  lemma {:induction false} ReadEachPrefixError<T>(store: map<string, T>, files: seq<string>, n: nat)
    requires n <= |files| && ReadEach(store, files[..n]).Err?
    ensures ReadEach(store, files) == ReadEach(store, files[..n])
    decreases |files| - n
  {
    if n < |files| {
      assert files[..n + 1][..n] == files[..n];
      ReadEachPrefixError(store, files, n + 1);
    } else {
      assert files[..n] == files;
    }
  }

  lemma {:induction false} ConcatSnoc(arrays: seq<seq<real>>, a: seq<real>)
    ensures Concat(arrays + [a]) == Concat(arrays) + a
  {
    ConcatAppend(arrays, [a]);
    assert Concat([a]) == a + Concat([]);
  }

  // ---------------------------------------------------------------------------
  // merge_meshes

  /** The stacked vertices and shifted faces of the meshes read from the files. */
  function MergedMeshFiles(disk: Disk, files: seq<string>): Result<(seq<Vertex>, seq<Face>)> {
    match ReadEach(disk.surfaces, files)
    case Err(e) => Err(e)
    case Ok(meshes) => Ok((FreeSurferData.MergedVerts(meshes), FreeSurferData.MergedFaces(meshes)))
  }

  /** One more mesh adds its vertices after the others and its faces shifted by their number. */
  lemma {:induction false} MergedStep(meshes: seq<Mesh>, m: Mesh)
    ensures FreeSurferData.MergedVerts(meshes + [m]) == FreeSurferData.MergedVerts(meshes) + m.verts
    ensures FreeSurferData.MergedFaces(meshes + [m])
      == FreeSurferData.MergedFaces(meshes) + FreeSurferData.ShiftFaces(m.faces, |FreeSurferData.MergedVerts(meshes)|)
  {
    assert (meshes + [m])[..|meshes|] == meshes;
  }

  /** merge_meshes: read each mesh and stack it onto the ones before, its faces shifted by their vertex count. */
  method MergeMeshes(disk: Disk, files: seq<string>) returns (r: Result<(seq<Vertex>, seq<Face>)>)
    ensures r == MergedMeshFiles(disk, files)
  {
    var verts: seq<Vertex> := [];
    var faces: seq<Face> := [];
    ghost var meshes: seq<Mesh> := [];
    for i := 0 to |files|
      invariant ReadEach(disk.surfaces, files[..i]) == Ok(meshes)
      invariant verts == FreeSurferData.MergedVerts(meshes) && faces == FreeSurferData.MergedFaces(meshes)
    {
      var shift := |verts|;
      var mesh := ReadGeometry(disk, files[i]);
      if mesh.Err? {
        ReadEachMissing(disk.surfaces, files, i, meshes);
        return Err(mesh.error);
      }
      ReadEachStep(disk.surfaces, files, i, meshes);
      MergedStep(meshes, mesh.value);
      meshes := meshes + [mesh.value];
      verts := verts + mesh.value.verts;
      faces := faces + FreeSurferData.ShiftFaces(mesh.value.faces, shift);
    }
    assert files[..|files|] == files;
    r := Ok((verts, faces));
  }

  // ---------------------------------------------------------------------------
  // merge_per_vertex_data

  function CurvFormatError(): Error {
    ValueError("ERROR: " + "curv_file_format " + "must be one of " + "{'curv', 'mgh'}")
  }

  /** The first column of each MGH file, or each curv file's data, stacked in order. */
  function MergedPerVertex(disk: Disk, files: seq<string>, format: string): (r: Result<seq<real>>)
    ensures format != "curv" && format != "mgh" ==> r == Err(CurvFormatError())
  {
    if format != "curv" && format != "mgh" then Err(CurvFormatError())
    else match ReadEach(if format == "mgh" then disk.mghs else disk.curvs, files)
      case Err(e) => Err(e)
      case Ok(arrays) => Ok(Concat(arrays))
  }

  /**
   * The merged data of readable files in a valid format hold every value of
   * every file, file after file.
   */
  lemma {:induction false} MergedPerVertexAt(disk: Disk, files: seq<string>, format: string, k: nat, j: nat)
    requires MergedPerVertex(disk, files, format).Ok? && k < |files|
    ensures var arrays := ReadEach(if format == "mgh" then disk.mghs else disk.curvs, files).value;
      |MergedPerVertex(disk, files, format).value| == FreeSurferData.DataCount(arrays)
    ensures var arrays := ReadEach(if format == "mgh" then disk.mghs else disk.curvs, files).value;
      j < |arrays[k]| ==> (&& FreeSurferData.DataCount(arrays[..k]) + j < |MergedPerVertex(disk, files, format).value|
                           && MergedPerVertex(disk, files, format).value[FreeSurferData.DataCount(arrays[..k]) + j] == arrays[k][j])
  {
    var arrays := ReadEach(if format == "mgh" then disk.mghs else disk.curvs, files).value;
    FreeSurferData.MergedDataLength(arrays);
    if j < |arrays[k]| {
      FreeSurferData.MergedDataAt(arrays, k, j);
    }
  }

  /** merge_per_vertex_data: ValueError for a format other than curv or mgh, then the files read and stacked. */
  method MergePerVertexData(disk: Disk, files: seq<string>, format: string) returns (r: Result<seq<real>>)
    ensures r == MergedPerVertex(disk, files, format)
  {
    if format != "curv" && format != "mgh" {
      return Err(CurvFormatError());
    }
    var store := if format == "mgh" then disk.mghs else disk.curvs;
    var merged: seq<real> := [];
    ghost var arrays: seq<seq<real>> := [];
    for i := 0 to |files|
      invariant ReadEach(store, files[..i]) == Ok(arrays)
      invariant merged == Concat(arrays)
    {
      var data := ReadMorphology(disk, files[i], format == "mgh");
      if data.Err? {
        ReadEachMissing(store, files, i, arrays);
        return Err(data.error);
      }
      ReadEachStep(store, files, i, arrays);
      ConcatSnoc(arrays, data.value);
      arrays := arrays + [data.value];
      merged := merged + data.value;
    }
    assert files[..|files|] == files;
    r := Ok(merged);
  }

  // ---------------------------------------------------------------------------
  // parse_brain_files

  /** What parse_brain_files returns besides the meta data. */
  datatype BrainData = BrainData(verts: seq<Vertex>, faces: seq<Face>, morphology: Option<seq<real>>)

  /**
   * The outcome of parse_brain_files: the merged meshes, and the merged
   * per-vertex data only when both curv files are given.
   */
  function BrainFiles(disk: Disk, meshLh: string, meshRh: string, curvLh: Option<string>, curvRh: Option<string>,
                      format: string): (r: Result<BrainData>)
    ensures r.Ok? ==> (r.value.morphology.Some? <==> curvLh.Some? && curvRh.Some?)
    ensures r.Err? <==> || MergedMeshFiles(disk, [meshLh, meshRh]).Err?
                        || (curvLh.Some? && curvRh.Some? && MergedPerVertex(disk, [curvLh.value, curvRh.value], format).Err?)
  {
    match MergedMeshFiles(disk, [meshLh, meshRh])
    case Err(e) => Err(e)
    case Ok(vf) =>
      if curvLh.None? || curvRh.None? then Ok(BrainData(vf.0, vf.1, None))
      else match MergedPerVertex(disk, [curvLh.value, curvRh.value], format)
        case Err(e) => Err(e)
        case Ok(data) => Ok(BrainData(vf.0, vf.1, Some(data)))
  }

  function WithMeshFiles(m: map<string, MetaValue>, meshLh: string, meshRh: string): map<string, MetaValue> {
    m["file_mesh_lh" := Str(meshLh)]["file_mesh_rh" := Str(meshRh)]
  }

  function WithCurvFiles(m: map<string, MetaValue>, curvLh: string, curvRh: string): map<string, MetaValue> {
    m["file_curv_lh" := Str(curvLh)]["file_curv_rh" := Str(curvRh)]
  }

  /**
   * The meta data after parse_brain_files: the mesh files once the meshes
   * are merged, the curv files once their data are merged.
   */
  function BrainFilesMeta(m: map<string, MetaValue>, disk: Disk, meshLh: string, meshRh: string,
                          curvLh: Option<string>, curvRh: Option<string>, format: string): map<string, MetaValue> {
    if MergedMeshFiles(disk, [meshLh, meshRh]).Err? then m
    else if curvLh.None? || curvRh.None? || MergedPerVertex(disk, [curvLh.value, curvRh.value], format).Err? then
      WithMeshFiles(m, meshLh, meshRh)
    else WithCurvFiles(WithMeshFiles(m, meshLh, meshRh), curvLh.value, curvRh.value)
  }

  predicate IsFileKey(k: string) {
    k == "file_mesh_lh" || k == "file_mesh_rh" || k == "file_curv_lh" || k == "file_curv_rh"
  }

  /**
   * parse_brain_files keeps every entry it does not write, records both
   * mesh files when it succeeds, and records the curv files exactly when it
   * returns morphology data.
   */
  lemma {:induction false} BrainFilesMetaFacts(m: map<string, MetaValue>, disk: Disk, meshLh: string, meshRh: string,
                            curvLh: Option<string>, curvRh: Option<string>, format: string)
    ensures var r := BrainFilesMeta(m, disk, meshLh, meshRh, curvLh, curvRh, format);
      && m.Keys <= r.Keys
      && (forall k :: k in m && !IsFileKey(k) ==> r[k] == m[k])
    ensures var r := BrainFilesMeta(m, disk, meshLh, meshRh, curvLh, curvRh, format);
      var b := BrainFiles(disk, meshLh, meshRh, curvLh, curvRh, format);
      b.Ok? ==> "file_mesh_lh" in r && r["file_mesh_lh"] == Str(meshLh) && "file_mesh_rh" in r && r["file_mesh_rh"] == Str(meshRh)
    ensures var r := BrainFilesMeta(m, disk, meshLh, meshRh, curvLh, curvRh, format);
      var b := BrainFiles(disk, meshLh, meshRh, curvLh, curvRh, format);
      b.Ok? && b.value.morphology.Some? ==>
        "file_curv_lh" in r && r["file_curv_lh"] == Str(curvLh.value) && "file_curv_rh" in r && r["file_curv_rh"] == Str(curvRh.value)
    ensures var r := BrainFilesMeta(m, disk, meshLh, meshRh, curvLh, curvRh, format);
      var b := BrainFiles(disk, meshLh, meshRh, curvLh, curvRh, format);
      b.Ok? && b.value.morphology.None? ==> r.Keys == m.Keys + {"file_mesh_lh", "file_mesh_rh"}
  {
  }

  /**
   * parse_brain_files: md is the dict the caller passes, or the one dict
   * shared by all calls that pass none.
   */
  method ParseBrainFiles(disk: Disk, meshLh: string, meshRh: string, curvLh: Option<string>, curvRh: Option<string>,
                         md: Dict<MetaValue>, format: string) returns (r: Result<BrainData>)
    modifies md
    ensures r == BrainFiles(disk, meshLh, meshRh, curvLh, curvRh, format)
    ensures md.entries == BrainFilesMeta(old(md.entries), disk, meshLh, meshRh, curvLh, curvRh, format)
  {
    var meshes := MergeMeshes(disk, [meshLh, meshRh]);
    if meshes.Err? {
      return Err(meshes.error);
    }
    var (verts, faces) := meshes.value;
    md.Set("file_mesh_lh", Str(meshLh));
    md.Set("file_mesh_rh", Str(meshRh));
    var morphology: Option<seq<real>> := None;
    if !(curvLh.None? || curvRh.None?) {
      var data := MergePerVertexData(disk, [curvLh.value, curvRh.value], format);
      if data.Err? {
        return Err(data.error);
      }
      morphology := Some(data.value);
      md.Set("file_curv_lh", Str(curvLh.value));
      md.Set("file_curv_rh", Str(curvRh.value));
    }
    r := Ok(BrainData(verts, faces, morphology));
  }

  // ---------------------------------------------------------------------------
  // get_morphology_data_suffix_for_surface and the file names

  /** test_get_morphology_data_suffix_for_surface_with_surf_white and _other. */
  lemma {:induction false} SuffixExamples()
    ensures FreeSurferData.MorphologySuffix("white") == ""
    ensures FreeSurferData.MorphologySuffix("pial") == ".pial"
  {
  }

  /** os.getenv('SUBJECTS_DIR', '.') when no subjects_dir is given. */
  function SubjectsDir(env: FreeSurferData.Env, given: Option<string>): string {
    if given.Some? then given.value
    else if env.subjectsDirVar.Some? then env.subjectsDirVar.value
    else "."
  }

  /** The lh and rh surfaces and morphology files of a subject in its own space. */
  datatype HemiFiles = HemiFiles(lhSurf: string, rhSurf: string, lhCurv: string, rhCurv: string)

  /** The 'lh.' and 'rh.' prefixes are the hemisphere names and a dot. */
  lemma {:induction false} HemiDots()
    ensures "lh." == "lh" + "." && "rh." == "rh" + "."
  {
  }

  /** parse_subject's paths: <hemi>.<surf> and <hemi>.<measure><suffix> under subjects_dir/subject/surf. */
  function NativeFiles(subjectsDir: string, subject: string, surf: string, measure: string): (f: HemiFiles)
    ensures f.lhSurf == PathJoin(FreeSurferData.SurfDir(subjectsDir, subject), FreeSurferData.SurfaceFileName("lh", surf))
    ensures f.rhSurf == PathJoin(FreeSurferData.SurfDir(subjectsDir, subject), FreeSurferData.SurfaceFileName("rh", surf))
    ensures f.lhCurv == PathJoin(FreeSurferData.SurfDir(subjectsDir, subject), FreeSurferData.NativeMorphologyFileName("lh", measure, surf))
    ensures f.rhCurv == PathJoin(FreeSurferData.SurfDir(subjectsDir, subject), FreeSurferData.NativeMorphologyFileName("rh", measure, surf))
  {
    HemiDots();
    var dir := PathJoin(PathJoin(subjectsDir, subject), "surf");
    HemiFiles(PathJoin(dir, "lh." + surf), PathJoin(dir, "rh." + surf),
              PathJoin(dir, "lh." + measure + FreeSurferData.MorphologySuffix(surf)),
              PathJoin(dir, "rh." + measure + FreeSurferData.MorphologySuffix(surf)))
  }

  /** <hemi>.<measure><suffix>.fwhm<fwhm>.<average_subject>.mgh: cogload always writes the fwhm part. */
  function StandardFileName(hemi: string, measure: string, surf: string, fwhm: string, averageSubject: string): string {
    hemi + "." + measure + FreeSurferData.MorphologySuffix(surf) + ".fwhm" + fwhm + "." + averageSubject + ".mgh"
  }

  /**
   * The cogload standard-space name is brainload's with a given fwhm: the
   * native name, then '.fwhm' and the fwhm, then the average subject and '.mgh'.
   */
  lemma {:induction false} StandardFileNameAsBrainload(hemi: string, measure: string, surf: string, fwhm: string, avg: string)
    ensures StandardFileName(hemi, measure, surf, fwhm, avg)
      == FreeSurferData.StandardMorphologyFileName(hemi, measure, surf, Some(fwhm), avg)
    ensures StandardFileName(hemi, measure, surf, fwhm, avg)
      == FreeSurferData.NativeMorphologyFileName(hemi, measure, surf) + ".fwhm" + fwhm + "." + avg + ".mgh"
    ensures EndsWith(StandardFileName(hemi, measure, surf, fwhm, avg), "." + avg + ".mgh")
  {
    FreeSurferData.StandardNameExtendsNative(hemi, measure, surf, Some(fwhm), avg);
  }

  /** parse_subject_standard_space_data's paths: the subject's mapped data, the average subject's display surfaces. */
  function StandardFiles(subjectsDir: string, subject: string, measure: string, surf: string, displaySurf: string,
                         fwhm: string, averageSubject: string): (f: HemiFiles)
    ensures f.lhSurf == PathJoin(FreeSurferData.SurfDir(subjectsDir, averageSubject), FreeSurferData.SurfaceFileName("lh", displaySurf))
    ensures f.rhSurf == PathJoin(FreeSurferData.SurfDir(subjectsDir, averageSubject), FreeSurferData.SurfaceFileName("rh", displaySurf))
    ensures f.lhCurv == PathJoin(FreeSurferData.SurfDir(subjectsDir, subject), StandardFileName("lh", measure, surf, fwhm, averageSubject))
    ensures f.rhCurv == PathJoin(FreeSurferData.SurfDir(subjectsDir, subject), StandardFileName("rh", measure, surf, fwhm, averageSubject))
  {
    HemiDots();
    var subjectSurfDir := PathJoin(PathJoin(subjectsDir, subject), "surf");
    var averageSurfDir := PathJoin(PathJoin(subjectsDir, averageSubject), "surf");
    HemiFiles(PathJoin(averageSurfDir, "lh." + displaySurf), PathJoin(averageSurfDir, "rh." + displaySurf),
              PathJoin(subjectSurfDir, StandardFileName("lh", measure, surf, fwhm, averageSubject)),
              PathJoin(subjectSurfDir, StandardFileName("rh", measure, surf, fwhm, averageSubject)))
  }

  // ---------------------------------------------------------------------------
  // parse_subject and parse_subject_standard_space_data

  /** The settings parse_subject records before it parses the files. */
  function NativeSettings(m: map<string, MetaValue>, subject: string, measure: string, surf: string): map<string, MetaValue> {
    m["subject_id" := Str(subject)]["measure" := Str(measure)]["surf" := Str(surf)]["space" := Str("subject")]
  }

  /** Records parse_subject's settings. */
  method RecordNativeSettings(md: Dict<MetaValue>, subject: string, measure: string, surf: string)
    modifies md
    ensures md.entries == NativeSettings(old(md.entries), subject, measure, surf)
  {
    md.Set("subject_id", Str(subject));
    md.Set("measure", Str(measure));
    md.Set("surf", Str(surf));
    md.Set("space", Str("subject"));
  }

  /** parse_subject: record the settings, then parse the subject's own curv files. */
  method ParseSubject(disk: Disk, env: FreeSurferData.Env, subject: string, surf: string, measure: string,
                      subjectsDir: Option<string>, md: Dict<MetaValue>) returns (r: Result<BrainData>)
    modifies md
    ensures var f := NativeFiles(SubjectsDir(env, subjectsDir), subject, surf, measure);
      r == BrainFiles(disk, f.lhSurf, f.rhSurf, Some(f.lhCurv), Some(f.rhCurv), "curv")
    ensures var f := NativeFiles(SubjectsDir(env, subjectsDir), subject, surf, measure);
      md.entries == BrainFilesMeta(NativeSettings(old(md.entries), subject, measure, surf), disk,
                                   f.lhSurf, f.rhSurf, Some(f.lhCurv), Some(f.rhCurv), "curv")
  {
    var dir := SubjectsDir(env, subjectsDir);
    var f := NativeFiles(dir, subject, surf, measure);
    RecordNativeSettings(md, subject, measure, surf);
    r := ParseBrainFiles(disk, f.lhSurf, f.rhSurf, Some(f.lhCurv), Some(f.rhCurv), md, "curv");
  }

  /** The settings parse_subject_standard_space_data records before it parses the files. */
  function StandardSettings(m: map<string, MetaValue>, subject: string, measure: string, surf: string,
                            displaySurf: string, averageSubject: string, fwhm: string): map<string, MetaValue> {
    m["subject_id" := Str(subject)]["measure" := Str(measure)]["surf" := Str(surf)]["space" := Str("standard")]
     ["display_surf" := Str(displaySurf)]["average_subject" := Str(averageSubject)]["fwhm" := Str(fwhm)]
  }

  /** Records parse_subject_standard_space_data's settings. */
  method RecordStandardSettings(md: Dict<MetaValue>, subject: string, measure: string, surf: string,
                                displaySurf: string, averageSubject: string, fwhm: string)
    modifies md
    ensures md.entries == StandardSettings(old(md.entries), subject, measure, surf, displaySurf, averageSubject, fwhm)
  {
    md.Set("subject_id", Str(subject));
    md.Set("measure", Str(measure));
    md.Set("surf", Str(surf));
    md.Set("space", Str("standard"));
    md.Set("display_surf", Str(displaySurf));
    md.Set("average_subject", Str(averageSubject));
    md.Set("fwhm", Str(fwhm));
  }

  /**
   * parse_subject_standard_space_data: record the settings, then parse the
   * subject's data mapped to the average subject, on the average subject's surfaces.
   */
  method ParseSubjectStandardSpaceData(disk: Disk, env: FreeSurferData.Env, subject: string, measure: string, surf: string,
                                       displaySurf: string, fwhm: string, subjectsDir: Option<string>,
                                       averageSubject: string, md: Dict<MetaValue>) returns (r: Result<BrainData>)
    modifies md
    ensures var f := StandardFiles(SubjectsDir(env, subjectsDir), subject, measure, surf, displaySurf, fwhm, averageSubject);
      r == BrainFiles(disk, f.lhSurf, f.rhSurf, Some(f.lhCurv), Some(f.rhCurv), "mgh")
    ensures var f := StandardFiles(SubjectsDir(env, subjectsDir), subject, measure, surf, displaySurf, fwhm, averageSubject);
      md.entries == BrainFilesMeta(StandardSettings(old(md.entries), subject, measure, surf, displaySurf, averageSubject, fwhm),
                                   disk, f.lhSurf, f.rhSurf, Some(f.lhCurv), Some(f.rhCurv), "mgh")
  {
    var dir := SubjectsDir(env, subjectsDir);
    var f := StandardFiles(dir, subject, measure, surf, displaySurf, fwhm, averageSubject);
    RecordStandardSettings(md, subject, measure, surf, displaySurf, averageSubject, fwhm);
    r := ParseBrainFiles(disk, f.lhSurf, f.rhSurf, Some(f.lhCurv), Some(f.rhCurv), md, "mgh");
  }

  /**
   * Whatever the files, the settings stay recorded: 'space' is 'subject' or
   * 'standard', and the standard-space call records the fwhm it used.
   */
  lemma {:induction false} SettingsKept(m: map<string, MetaValue>, disk: Disk, subject: string, measure: string, surf: string,
                     displaySurf: string, averageSubject: string, fwhm: string, f: HemiFiles, format: string)
    ensures var r := BrainFilesMeta(NativeSettings(m, subject, measure, surf), disk,
                                    f.lhSurf, f.rhSurf, Some(f.lhCurv), Some(f.rhCurv), format);
      && "space" in r && r["space"] == Str("subject") && "subject_id" in r && r["subject_id"] == Str(subject)
      && "measure" in r && r["measure"] == Str(measure) && "surf" in r && r["surf"] == Str(surf)
    ensures var r := BrainFilesMeta(StandardSettings(m, subject, measure, surf, displaySurf, averageSubject, fwhm), disk,
                                    f.lhSurf, f.rhSurf, Some(f.lhCurv), Some(f.rhCurv), format);
      && "space" in r && r["space"] == Str("standard") && "fwhm" in r && r["fwhm"] == Str(fwhm)
      && "average_subject" in r && r["average_subject"] == Str(averageSubject)
      && "display_surf" in r && r["display_surf"] == Str(displaySurf)
  {
    KeptEntry(NativeSettings(m, subject, measure, surf), disk, f, format, "space");
    KeptEntry(NativeSettings(m, subject, measure, surf), disk, f, format, "subject_id");
    KeptEntry(NativeSettings(m, subject, measure, surf), disk, f, format, "measure");
    KeptEntry(NativeSettings(m, subject, measure, surf), disk, f, format, "surf");
    var st := StandardSettings(m, subject, measure, surf, displaySurf, averageSubject, fwhm);
    KeptEntry(st, disk, f, format, "space");
    KeptEntry(st, disk, f, format, "fwhm");
    KeptEntry(st, disk, f, format, "average_subject");
    KeptEntry(st, disk, f, format, "display_surf");
  }

  /** An entry other than the four file entries is kept by parse_brain_files. */
  lemma {:induction false} KeptEntry(m: map<string, MetaValue>, disk: Disk, f: HemiFiles, format: string, k: string)
    requires k in m && !IsFileKey(k)
    ensures var r := BrainFilesMeta(m, disk, f.lhSurf, f.rhSurf, Some(f.lhCurv), Some(f.rhCurv), format);
      k in r && r[k] == m[k]
  {
    BrainFilesMetaFacts(m, disk, f.lhSurf, f.rhSurf, Some(f.lhCurv), Some(f.rhCurv), format);
  }

  // ---------------------------------------------------------------------------
  // The module as written: numpy and os are never imported

  /** merge_meshes as written: np.empty on its first line raises NameError. */
  function MergeMeshesAsWritten(disk: Disk, files: seq<string>): Result<(seq<Vertex>, seq<Face>)> {
    Err(NameError("np"))
  }

  /** merge_per_vertex_data as written: the format check passes or raises, then np.empty raises NameError. */
  function MergePerVertexDataAsWritten(disk: Disk, files: seq<string>, format: string): Result<seq<real>> {
    if format != "curv" && format != "mgh" then Err(CurvFormatError()) else Err(NameError("np"))
  }

  /** parse_brain_files as written: np.array raises NameError before anything is recorded. */
  function ParseBrainFilesAsWritten(disk: Disk, meshLh: string, meshRh: string, curvLh: Option<string>,
                                    curvRh: Option<string>, format: string): Result<BrainData> {
    Err(NameError("np"))
  }

  /** parse_subject and parse_subject_standard_space_data as written: os.path.join raises NameError first. */
  function ParseSubjectAsWritten(disk: Disk, env: FreeSurferData.Env, subject: string, surf: string, measure: string,
                                 subjectsDir: Option<string>): Result<BrainData> {
    Err(NameError("os"))
  }

  /**
   * With both meshes and both curv files on disk, parse_brain_files loads the
   * lh rows then the rh rows, the rh faces shifted by the lh vertex count.
   */
  lemma {:induction false} BrainFilesLoaded(disk: Disk, lhSurf: string, rhSurf: string, lhCurv: string, rhCurv: string)
    requires lhSurf in disk.surfaces && rhSurf in disk.surfaces && lhCurv in disk.curvs && rhCurv in disk.curvs
    ensures var r := BrainFiles(disk, lhSurf, rhSurf, Some(lhCurv), Some(rhCurv), "curv");
      && r.Ok? && r.value.morphology.Some?
      && r.value.verts == disk.surfaces[lhSurf].verts + disk.surfaces[rhSurf].verts
      && r.value.faces == disk.surfaces[lhSurf].faces
                          + FreeSurferData.ShiftFaces(disk.surfaces[rhSurf].faces, |disk.surfaces[lhSurf].verts|)
      && r.value.morphology.value == disk.curvs[lhCurv] + disk.curvs[rhCurv]
  {
    var meshes := ReadEach(disk.surfaces, [lhSurf, rhSurf]);
    ReadEachFails(disk.surfaces, [lhSurf, rhSurf]);
    ReadEachFails(disk.curvs, [lhCurv, rhCurv]);
    assert meshes.value == [disk.surfaces[lhSurf], disk.surfaces[rhSurf]];
    FreeSurferData.MergeTwo(disk.surfaces[lhSurf], disk.surfaces[rhSurf]);
    var arrays := ReadEach(disk.curvs, [lhCurv, rhCurv]).value;
    assert arrays == [disk.curvs[lhCurv], disk.curvs[rhCurv]];
    FreeSurferData.MergeTwoData(disk.curvs[lhCurv], disk.curvs[rhCurv]);
  }

  /**
   * A subject whose four files are on disk: the module as written raises
   * NameError, while with the imports present the subject's data are loaded.
   */
  lemma {:induction false} MissingImports(disk: Disk, env: FreeSurferData.Env, subject: string, surf: string, measure: string,
                       subjectsDir: Option<string>)
    requires var f := NativeFiles(SubjectsDir(env, subjectsDir), subject, surf, measure);
      f.lhSurf in disk.surfaces && f.rhSurf in disk.surfaces && f.lhCurv in disk.curvs && f.rhCurv in disk.curvs
    ensures ParseSubjectAsWritten(disk, env, subject, surf, measure, subjectsDir) == Err(NameError("os"))
    ensures var f := NativeFiles(SubjectsDir(env, subjectsDir), subject, surf, measure);
      var r := BrainFiles(disk, f.lhSurf, f.rhSurf, Some(f.lhCurv), Some(f.rhCurv), "curv");
      && ParseBrainFilesAsWritten(disk, f.lhSurf, f.rhSurf, Some(f.lhCurv), Some(f.rhCurv), "curv") == Err(NameError("np"))
      && r.Ok? && r.value.morphology.Some?
    ensures var f := NativeFiles(SubjectsDir(env, subjectsDir), subject, surf, measure);
      && MergeMeshesAsWritten(disk, [f.lhSurf, f.rhSurf]) == Err(NameError("np"))
      && MergedMeshFiles(disk, [f.lhSurf, f.rhSurf]).Ok?
      && MergePerVertexDataAsWritten(disk, [f.lhCurv, f.rhCurv], "curv") == Err(NameError("np"))
      && MergedPerVertex(disk, [f.lhCurv, f.rhCurv], "curv").Ok?
  {
    var f := NativeFiles(SubjectsDir(env, subjectsDir), subject, surf, measure);
    BrainFilesLoaded(disk, f.lhSurf, f.rhSurf, f.lhCurv, f.rhCurv);
  }
}
