/**
 * Annotation and label helpers of brainload.annotations: label-name equality,
 * the RGB integer encoding of annotation colours, the colour-table lookup,
 * label masks and masking with NaN, and loading annotations and labels of one
 * or both hemispheres (the rh label indices shifted past the lh vertices).
 */
module Annotations {
  import opened Wrappers
  import opened PyStr
  import opened PyDict
  import opened FileSystem
  import FreeSurferData

  // ---------------------------------------------------------------------------
  // _are_label_names_identical

  /** _are_label_names_identical: same length and the same name at every index. */
  method AreLabelNamesIdentical(lhNames: seq<string>, rhNames: seq<string>) returns (identical: bool)
    ensures identical <==> lhNames == rhNames
  {
    if |lhNames| != |rhNames| {
      return false;
    }
    var i := 0;
    while i < |lhNames|
      invariant 0 <= i <= |lhNames|
      invariant lhNames[..i] == rhNames[..i]
    {
      if lhNames[i] != rhNames[i] {
        return false;
      }
      assert lhNames[..i + 1] == lhNames[..i] + [lhNames[i]];
      assert rhNames[..i + 1] == rhNames[..i] + [rhNames[i]];
      i := i + 1;
    }
    assert lhNames == lhNames[..i] && rhNames == rhNames[..i];
    return true;
  }

  // ---------------------------------------------------------------------------
  // get_int_encoding_for_color

  /** get_int_encoding_for_color: r + 256 g + 65536 b. */
  function IntEncodingForColor(r: int, g: int, b: int): int {
    r + g * 256 + b * 65536
  }

  predicate IsChannel(c: int) {
    0 <= c < 256
  }

  /** The channels of an encoded colour. */
  function DecodeColor(e: int): (int, int, int) {
    (e % 256, (e / 256) % 256, e / 65536)
  }

  /** For channels in 0..255 the encoding is undone by taking base-256 digits. */
  lemma {:induction false} DecodeEncodedColor(r: int, g: int, b: int)
    requires IsChannel(r) && IsChannel(g) && IsChannel(b)
    ensures DecodeColor(IntEncodingForColor(r, g, b)) == (r, g, b)
    ensures 0 <= IntEncodingForColor(r, g, b) < 16777216
  {
    var e := IntEncodingForColor(r, g, b);
    var q := g + b * 256;
    assert e == q * 256 + r;
    assert e / 256 == q && e % 256 == r;
    assert q / 256 == b && q % 256 == g;
    assert e == b * 65536 + (g * 256 + r);
    assert e / 65536 == b;
  }

  /** Different colours with channels in 0..255 get different codes. */
  lemma {:induction false} EncodingInjective(r1: int, g1: int, b1: int, r2: int, g2: int, b2: int)
    requires IsChannel(r1) && IsChannel(g1) && IsChannel(b1)
    requires IsChannel(r2) && IsChannel(g2) && IsChannel(b2)
    requires IntEncodingForColor(r1, g1, b1) == IntEncodingForColor(r2, g2, b2)
    ensures r1 == r2 && g1 == g2 && b1 == b2
  {
    DecodeEncodedColor(r1, g1, b1);
    DecodeEncodedColor(r2, g2, b2);
  }

  // ---------------------------------------------------------------------------
  // get_annot_label_and_color_for_vertex_label_color

  /** r, g, b and transparency of a colour-table row. */
  datatype Rgbt = Rgbt(r: int, g: int, b: int, t: int)

  /**
   * The first colour-table row whose label id (column 4) equals the requested
   * value, with its colour; None stands for the pair (None, None).
   */
  method AnnotLabelAndColorForVertexLabelColor(req: int, labelColors: seq<ColorRow>) returns (r: Option<(int, Rgbt)>)
    ensures r.None? <==> forall i :: 0 <= i < |labelColors| ==> labelColors[i].labelId != req
    ensures r.Some? ==> exists i :: 0 <= i < |labelColors| && FirstMatch(labelColors, req, i)
                                    && r.value == (req, RgbtOf(labelColors[i]))
  {
    var i := 0;
    while i < |labelColors|
      invariant 0 <= i <= |labelColors|
      invariant forall k :: 0 <= k < i ==> labelColors[k].labelId != req
    {
      var row := labelColors[i];
      if row.labelId == req {
        assert FirstMatch(labelColors, req, i);
        return Some((row.labelId, Rgbt(row.r, row.g, row.b, row.t)));
      }
      i := i + 1;
    }
    return None;
  }

  function RgbtOf(row: ColorRow): Rgbt {
    Rgbt(row.r, row.g, row.b, row.t)
  }

  /** Row i is the first row with the requested label id. */
  predicate FirstMatch(labelColors: seq<ColorRow>, req: int, i: int)
    requires 0 <= i < |labelColors|
  {
    labelColors[i].labelId == req && forall k :: 0 <= k < i ==> labelColors[k].labelId != req
  }

  // ---------------------------------------------------------------------------
  // label_to_mask and mask_data_using_label

  /** Some label entry addresses vertex j; negative entries count from the end, as numpy indices do. */
  predicate InLabel(vertsInLabel: seq<int>, n: nat, j: nat) {
    exists k :: 0 <= k < |vertsInLabel| && PyIndex(n, vertsInLabel[k]) == Some(j)
  }

  /** Every label entry is a valid index into n vertices; otherwise numpy raises IndexError. */
  predicate IndicesValid(vertsInLabel: seq<int>, n: nat) {
    forall k :: 0 <= k < |vertsInLabel| ==> PyIndex(n, vertsInLabel[k]).Some?
  }

  /** The mask over n vertices: true inside the label, or outside it when inverted. */
  function MaskOf(vertsInLabel: seq<int>, n: nat, invert: bool): (mask: seq<bool>)
    ensures |mask| == n
  {
    seq(n, j requires 0 <= j < n => invert != InLabel(vertsInLabel, n, j))
  }

  /** For labels of plain vertex indices, the mask is true exactly at the listed vertices. */
  lemma {:induction false} MaskOfPlainIndices(vertsInLabel: seq<int>, n: nat, j: nat)
    requires forall k :: 0 <= k < |vertsInLabel| ==> 0 <= vertsInLabel[k] < n
    requires j < n
    ensures MaskOf(vertsInLabel, n, false)[j] <==> (j as int) in vertsInLabel
    ensures MaskOf(vertsInLabel, n, true)[j] <==> (j as int) !in vertsInLabel
  {
    if (j as int) in vertsInLabel {
      var k :| 0 <= k < |vertsInLabel| && vertsInLabel[k] == j as int;
      assert PyIndex(n, vertsInLabel[k]) == Some(j);
    }
  }

  /** The inverted mask is the mask with every entry negated. */
  lemma {:induction false} InvertNegates(vertsInLabel: seq<int>, n: nat, j: nat)
    requires j < n
    ensures MaskOf(vertsInLabel, n, true)[j] == !MaskOf(vertsInLabel, n, false)[j]
  {
  }

  /** A fresh all-False array of n entries with True written at every label entry, or IndexError. */
  method MarkLabel(vertsInLabel: seq<int>, n: nat) returns (r: Result<array<bool>>)
    ensures r.Ok? <==> IndicesValid(vertsInLabel, n)
    ensures r.Err? ==> r.error == IndexError
    ensures r.Ok? ==> fresh(r.value) && r.value[..] == MaskOf(vertsInLabel, n, false)
  {
    var k := 0;
    while k < |vertsInLabel|
      invariant 0 <= k <= |vertsInLabel|
      invariant forall i :: 0 <= i < k ==> PyIndex(n, vertsInLabel[i]).Some?
    {
      if PyIndex(n, vertsInLabel[k]).None? {
        return Err(IndexError);
      }
      k := k + 1;
    }
    var mask := new bool[n](j => false);
    k := 0;
    while k < |vertsInLabel|
      invariant 0 <= k <= |vertsInLabel|
      invariant forall j :: 0 <= j < n ==>
        (mask[j] <==> exists i :: 0 <= i < k && PyIndex(n, vertsInLabel[i]) == Some(j))
    {
      var j := PyIndex(n, vertsInLabel[k]).value;
      mask[j] := true;
      k := k + 1;
    }
    r := Ok(mask);
  }

  /** np.invert on a boolean array, in place. */
  method InvertInPlace(mask: array<bool>)
    modifies mask
    ensures forall j :: 0 <= j < mask.Length ==> mask[j] == !old(mask[j])
  {
    var j := 0;
    while j < mask.Length
      invariant 0 <= j <= mask.Length
      invariant forall i :: 0 <= i < j ==> mask[i] == !old(mask[i])
      invariant forall i :: j <= i < mask.Length ==> mask[i] == old(mask[i])
    {
      mask[j] := !mask[j];
      j := j + 1;
    }
  }

  function LabelToMaskMessage(numVertsTotal: int, labelLength: nat): string {
    "Argument num_verts_total is " + IntToString(numVertsTotal)
    + " but must be at " + "least the length of " + "verts_in_label, " + "which is " + IntToString(labelLength) + "."
  }

  /**
   * label_to_mask: ValueError when the label has more entries than there are
   * vertices, IndexError for an entry outside the vertices, otherwise the mask.
   */
  method LabelToMask(vertsInLabel: seq<int>, numVertsTotal: int, invert: bool) returns (r: Result<array<bool>>)
    ensures numVertsTotal < |vertsInLabel| ==> r == Err(ValueError(LabelToMaskMessage(numVertsTotal, |vertsInLabel|)))
    ensures numVertsTotal >= |vertsInLabel| ==> (r.Ok? <==> IndicesValid(vertsInLabel, numVertsTotal))
    ensures r.Ok? ==> numVertsTotal >= |vertsInLabel|
                      && fresh(r.value) && r.value[..] == MaskOf(vertsInLabel, numVertsTotal, invert)
  {
    if numVertsTotal < |vertsInLabel| {
      return Err(ValueError(LabelToMaskMessage(numVertsTotal, |vertsInLabel|)));
    }
    r := MarkLabel(vertsInLabel, numVertsTotal);
    if r.Ok? && invert {
      InvertInPlace(r.value);
    }
  }

  /** One entry of a float data array: a number or NaN. */
  datatype Sample = Num(v: real) | NaN

  /** The masked copy: entries where the mask is false become NaN, the others keep their values. */
  function Masked(data: seq<Sample>, vertsInLabel: seq<int>, invert: bool): (r: seq<Sample>)
    ensures |r| == |data|
  {
    var mask := MaskOf(vertsInLabel, |data|, invert);
    seq(|data|, j requires 0 <= j < |data| => if mask[j] then data[j] else NaN)
  }

  /**
   * For labels of plain indices: without invert, label positions keep their values
   * and all others become NaN; with invert, the other way round.
   */
  lemma {:induction false} MaskedPlainIndices(data: seq<Sample>, vertsInLabel: seq<int>, j: nat)
    requires forall k :: 0 <= k < |vertsInLabel| ==> 0 <= vertsInLabel[k] < |data|
    requires j < |data|
    ensures Masked(data, vertsInLabel, false)[j] == (if (j as int) in vertsInLabel then data[j] else NaN)
    ensures Masked(data, vertsInLabel, true)[j] == (if (j as int) in vertsInLabel then NaN else data[j])
  {
    MaskOfPlainIndices(vertsInLabel, |data|, j);
  }

  /**
   * mask_data_using_label: a new array like data in which the entries outside the
   * label (inside it when inverted) are NaN; data itself is left as it was.
   */
  method MaskDataUsingLabel(data: array<Sample>, vertsInLabel: seq<int>, invert: bool) returns (r: Result<array<Sample>>)
    ensures r.Ok? <==> IndicesValid(vertsInLabel, data.Length)
    ensures r.Err? ==> r.error == IndexError
    ensures r.Ok? ==> fresh(r.value) && r.value[..] == Masked(data[..], vertsInLabel, invert)
  {
    var marked := MarkLabel(vertsInLabel, data.Length);
    if marked.Err? {
      return Err(marked.error);
    }
    var mask := marked.value;
    if invert {
      InvertInPlace(mask);
    }
    var spec := MaskOf(vertsInLabel, data.Length, invert);
    assert forall i :: 0 <= i < data.Length ==> mask[i] == spec[i];
    var masked := new Sample[data.Length](j reads data requires 0 <= j < data.Length => data[j]);
    var j := 0;
    while j < data.Length
      invariant 0 <= j <= data.Length
      invariant forall i :: 0 <= i < data.Length ==> mask[i] == spec[i]
      invariant forall i :: 0 <= i < j ==> masked[i] == (if spec[i] then data[i] else NaN)
      invariant forall i :: j <= i < data.Length ==> masked[i] == data[i]
    {
      if !mask[j] {
        masked[j] := NaN;
      }
      j := j + 1;
    }
    assert forall i :: 0 <= i < data.Length ==> masked[..][i] == Masked(data[..], vertsInLabel, invert)[i];
    r := Ok(masked);
  }

  // ---------------------------------------------------------------------------
  // read_annotation_md and read_label_md

  /**
   * read_annotation_md: ValueError for a label other than lh/rh; otherwise the
   * annotation at annotationFile, recorded under '<hemi>.annotation_file'.
   */
  method ReadAnnotationMd(disk: Disk, annotationFile: string, hemisphereLabel: string, md: Dict?<MetaValue>)
    returns (r: Result<AnnotData>, out: Dict<MetaValue>)
    modifies md
    ensures md != null ==> out == md
    ensures md == null ==> fresh(out)
    ensures !FreeSurferData.IsHemisphereLabel(hemisphereLabel) ==> r == Err(FreeSurferData.HemisphereLabelError(hemisphereLabel))
    ensures FreeSurferData.IsHemisphereLabel(hemisphereLabel) ==> r == ReadAnnot(disk, annotationFile)
    ensures r.Err? ==> out.entries == old(FreeSurferData.BaseEntries(md))
    ensures r.Ok? ==> out.entries == old(FreeSurferData.BaseEntries(md))[FreeSurferData.Key(hemisphereLabel, "annotation_file") := Str(annotationFile)]
  {
    if md == null {
      out := new Dict();
    } else {
      out := md;
    }
    if !FreeSurferData.IsHemisphereLabel(hemisphereLabel) {
      return Err(FreeSurferData.HemisphereLabelError(hemisphereLabel)), out;
    }
    r := ReadAnnot(disk, annotationFile);
    if r.Ok? {
      out.Set(FreeSurferData.Key(hemisphereLabel, "annotation_file"), Str(annotationFile));
    }
  }

  /**
   * read_label_md: ValueError for a label other than lh/rh; otherwise the vertex
   * indices of the label file, recorded under '<hemi>.label_file'.
   */
  method ReadLabelMd(disk: Disk, labelFile: string, hemisphereLabel: string, md: Dict?<MetaValue>)
    returns (r: Result<seq<int>>, out: Dict<MetaValue>)
    modifies md
    ensures md != null ==> out == md
    ensures md == null ==> fresh(out)
    ensures !FreeSurferData.IsHemisphereLabel(hemisphereLabel) ==> r == Err(FreeSurferData.HemisphereLabelError(hemisphereLabel))
    ensures FreeSurferData.IsHemisphereLabel(hemisphereLabel) ==> r == ReadLabel(disk, labelFile)
    ensures r.Err? ==> out.entries == old(FreeSurferData.BaseEntries(md))
    ensures r.Ok? ==> out.entries == old(FreeSurferData.BaseEntries(md))[FreeSurferData.Key(hemisphereLabel, "label_file") := Str(labelFile)]
  {
    if md == null {
      out := new Dict();
    } else {
      out := md;
    }
    if !FreeSurferData.IsHemisphereLabel(hemisphereLabel) {
      return Err(FreeSurferData.HemisphereLabelError(hemisphereLabel)), out;
    }
    r := ReadLabel(disk, labelFile);
    if r.Ok? {
      out.Set(FreeSurferData.Key(hemisphereLabel, "label_file"), Str(labelFile));
    }
  }

  /** A reader adds exactly one '<hemi>.'-prefixed key and keeps every other entry. */
  lemma {:induction false} OneKeyAdded(m: map<string, MetaValue>, hemi: string, field: string, file: string)
    ensures var r := m[FreeSurferData.Key(hemi, field) := Str(file)];
      && r.Keys == m.Keys + {FreeSurferData.Key(hemi, field)}
      && StartsWith(FreeSurferData.Key(hemi, field), hemi + ".")
      && forall k :: k in m && k != FreeSurferData.Key(hemi, field) ==> r[k] == m[k]
  {
    assert FreeSurferData.Key(hemi, field)[..|hemi| + 1] == hemi + ".";
  }

  // ---------------------------------------------------------------------------
  // annot and label: paths

  /** subjects_dir/subject_id/label */
  function LabelDir(subjectsDir: string, subjectId: string): string {
    PathJoin(PathJoin(subjectsDir, subjectId), "label")
  }

  /** The lh and rh file of a label-directory file name pattern <hemi>.<name>.<extension>. */
  function LabelDirFiles(subjectsDir: string, subjectId: string, name: string, extension: string): (string, string) {
    (PathJoin(LabelDir(subjectsDir, subjectId), "lh." + name + "." + extension),
     PathJoin(LabelDir(subjectsDir, subjectId), "rh." + name + "." + extension))
  }

  /** The files are <hemi>.<name>.<extension> directly in the subject's label directory. */
  lemma {:induction false} LabelDirFileNames(subjectsDir: string, subjectId: string, name: string, extension: string)
    requires '/' !in name && '/' !in extension
    ensures Basename(LabelDirFiles(subjectsDir, subjectId, name, extension).0) == "lh." + name + "." + extension
    ensures Basename(LabelDirFiles(subjectsDir, subjectId, name, extension).1) == "rh." + name + "." + extension
  {
    var lhName := "lh." + name + "." + extension;
    var rhName := "rh." + name + "." + extension;
    BasenameOfJoin(LabelDir(subjectsDir, subjectId), lhName);
    BasenameOfJoin(LabelDir(subjectsDir, subjectId), rhName);
  }

  // ---------------------------------------------------------------------------
  // annot

  function NamesDifferMessage(lhCount: nat, rhCount: nat, annotation: string): string {
    "The " + IntToString(lhCount) + " labels for the lh and the " + IntToString(rhCount)
    + " labels for the rh " + "are not identical " + "for annotation '" + annotation + "'."
  }

  function ColorsDifferMessage(lhCount: nat, rhCount: nat, annotation: string): string {
    "There are " + IntToString(lhCount) + " colors for the lh labels and " + IntToString(rhCount)
    + " colors for the rh " + "labels, but they " + "should be identical " + "for annotation '" + annotation + "'."
  }

  /**
   * Both hemispheres' annotations merged: ValueError when the label names or the
   * colour counts differ, otherwise the lh vertex colours followed by the rh ones,
   * with the lh colour table and names.
   */
  function MergedAnnot(lh: AnnotData, rh: AnnotData, annotation: string): (r: Result<AnnotData>)
    ensures r.Ok? <==> lh.labelNames == rh.labelNames && |lh.labelColors| == |rh.labelColors|
    ensures lh.labelNames != rh.labelNames ==>
      r == Err(ValueError(NamesDifferMessage(|lh.labelNames|, |rh.labelNames|, annotation)))
    ensures lh.labelNames == rh.labelNames && |lh.labelColors| != |rh.labelColors| ==>
      r == Err(ValueError(ColorsDifferMessage(|lh.labelColors|, |rh.labelColors|, annotation)))
    ensures r.Ok? ==> && |r.value.vertexLabelColors| == |lh.vertexLabelColors| + |rh.vertexLabelColors|
                      && r.value.vertexLabelColors[..|lh.vertexLabelColors|] == lh.vertexLabelColors
                      && r.value.vertexLabelColors[|lh.vertexLabelColors|..] == rh.vertexLabelColors
                      && r.value.labelColors == lh.labelColors && r.value.labelNames == lh.labelNames
  {
    if lh.labelNames != rh.labelNames then
      Err(ValueError(NamesDifferMessage(|lh.labelNames|, |rh.labelNames|, annotation)))
    else if |rh.labelColors| != |lh.labelColors| then
      Err(ValueError(ColorsDifferMessage(|lh.labelColors|, |rh.labelColors|, annotation)))
    else
      var colors := lh.vertexLabelColors + rh.vertexLabelColors;
      assert colors[|lh.vertexLabelColors|..] == rh.vertexLabelColors;
      Ok(AnnotData(colors, lh.labelColors, lh.labelNames))
  }

  /** What annot returns for a valid hemi. */
  function AnnotSpec(disk: Disk, files: (string, string), hemi: string, annotation: string): Result<AnnotData>
    requires FreeSurferData.IsHemi(hemi)
  {
    if hemi == "lh" then ReadAnnot(disk, files.0)
    else if hemi == "rh" then ReadAnnot(disk, files.1)
    else
      match ReadAnnot(disk, files.0)
      case Err(e) => Err(e)
      case Ok(lh) =>
        match ReadAnnot(disk, files.1)
        case Err(e) => Err(e)
        case Ok(rh) => MergedAnnot(lh, rh, annotation)
  }

  /** The keys annot records after a successful load. */
  function AnnotMeta(m: map<string, MetaValue>, files: (string, string), hemi: string): map<string, MetaValue> {
    var lhKey := FreeSurferData.Key("lh", "annotation_file");
    var rhKey := FreeSurferData.Key("rh", "annotation_file");
    if hemi == "lh" then m[lhKey := Str(files.0)]
    else if hemi == "rh" then m[rhKey := Str(files.1)]
    else m[lhKey := Str(files.0)][rhKey := Str(files.1)]
  }

  /**
   * annot: ValueError for a hemi outside lh/rh/both; otherwise the annotation of
   * one hemisphere, or both merged, from subjects_dir/subject_id/label.
   */
  method Annot(disk: Disk, subjectId: string, subjectsDir: string, annotation: string, hemi: string, md: Dict?<MetaValue>)
    returns (r: Result<AnnotData>, out: Dict<MetaValue>)
    modifies md
    ensures md != null ==> out == md
    ensures md == null ==> fresh(out)
    ensures !FreeSurferData.IsHemi(hemi) ==> r == Err(FreeSurferData.HemiError(hemi)) && out.entries == old(FreeSurferData.BaseEntries(md))
    ensures FreeSurferData.IsHemi(hemi) ==> r == AnnotSpec(disk, LabelDirFiles(subjectsDir, subjectId, annotation, "annot"), hemi, annotation)
    ensures r.Ok? && hemi != "both" ==>
      out.entries == AnnotMeta(old(FreeSurferData.BaseEntries(md)), LabelDirFiles(subjectsDir, subjectId, annotation, "annot"), hemi)
    ensures hemi == "both" && ReadAnnot(disk, LabelDirFiles(subjectsDir, subjectId, annotation, "annot").0).Ok?
            && ReadAnnot(disk, LabelDirFiles(subjectsDir, subjectId, annotation, "annot").1).Ok? ==>
      out.entries == AnnotMeta(old(FreeSurferData.BaseEntries(md)), LabelDirFiles(subjectsDir, subjectId, annotation, "annot"), hemi)
    ensures (hemi == "lh" || hemi == "rh") && r.Err? ==> out.entries == old(FreeSurferData.BaseEntries(md))
    ensures hemi == "both" && ReadAnnot(disk, LabelDirFiles(subjectsDir, subjectId, annotation, "annot").0).Err? ==>
      out.entries == old(FreeSurferData.BaseEntries(md))
    ensures hemi == "both" && ReadAnnot(disk, LabelDirFiles(subjectsDir, subjectId, annotation, "annot").0).Ok?
            && ReadAnnot(disk, LabelDirFiles(subjectsDir, subjectId, annotation, "annot").1).Err? ==>
      out.entries == AnnotMeta(old(FreeSurferData.BaseEntries(md)), LabelDirFiles(subjectsDir, subjectId, annotation, "annot"), "lh")
  {
    if !FreeSurferData.IsHemi(hemi) {
      if md == null {
        out := new Dict();
      } else {
        out := md;
      }
      return Err(FreeSurferData.HemiError(hemi)), out;
    }
    if md == null {
      out := new Dict();
    } else {
      out := md;
    }
    var files := LabelDirFiles(subjectsDir, subjectId, annotation, "annot");
    if hemi == "lh" {
      r, out := ReadAnnotationMd(disk, files.0, "lh", out);
    } else if hemi == "rh" {
      r, out := ReadAnnotationMd(disk, files.1, "rh", out);
    } else {
      var lh, rh;
      lh, out := ReadAnnotationMd(disk, files.0, "lh", out);
      if lh.Err? {
        return lh, out;
      }
      rh, out := ReadAnnotationMd(disk, files.1, "rh", out);
      if rh.Err? {
        return rh, out;
      }
      var identical := AreLabelNamesIdentical(lh.value.labelNames, rh.value.labelNames);
      if !identical {
        return Err(ValueError(NamesDifferMessage(|lh.value.labelNames|, |rh.value.labelNames|, annotation))), out;
      }
      var colors := lh.value.vertexLabelColors + rh.value.vertexLabelColors;
      if |rh.value.labelColors| != |lh.value.labelColors| {
        return Err(ValueError(ColorsDifferMessage(|lh.value.labelColors|, |rh.value.labelColors|, annotation))), out;
      }
      r := Ok(AnnotData(colors, lh.value.labelColors, lh.value.labelNames));
    }
  }

  // ---------------------------------------------------------------------------
  // label

  const MetaRequiredMessage := "Argument 'hemi' is " + "set to 'both'. In " + "this case, the " + "meta_data argument " + "is required. See " + "the doc string for " + "details."
  const ShiftKeyRequiredMessage := "Argument 'hemi' is " + "set to 'both'. In " + "this case, the " + "meta_data argument " + "is required and " + "must contain the " + "key " + "'lh.num_data_points' " + "or " + "'lh.num_vertices'. " + "See the doc string " + "for details."

  /**
   * The key label takes the rh index shift from: 'lh.num_vertices' if present,
   * else 'lh.num_data_points'; ValueError when neither is there. The value is
   * taken whatever its type and used only once both files are read.
   */
  function RhShiftKey(m: map<string, MetaValue>): (r: Result<string>)
    ensures r.Err? <==> "lh.num_vertices" !in m && "lh.num_data_points" !in m
    ensures r.Err? ==> r.error == ValueError(ShiftKeyRequiredMessage)
    ensures r.Ok? ==> r.value in m && (r.value == "lh.num_vertices" || r.value == "lh.num_data_points")
    ensures r.Ok? && "lh.num_vertices" in m ==> r.value == "lh.num_vertices"
  {
    if "lh.num_vertices" in m then Ok("lh.num_vertices")
    else if "lh.num_data_points" in m then Ok("lh.num_data_points")
    else Err(ValueError(ShiftKeyRequiredMessage))
  }

  /**
   * rh_verts_in_label + rh_shift on an index array: an int shifts every index,
   * a bool adds as 0 or 1, a string or None raises TypeError.
   */
  function ShiftBy(v: MetaValue): (r: Result<int>)
    ensures r.Ok? <==> v.Int? || v.Bool?
    ensures v.Int? ==> r == Ok(v.i)
    ensures v.Bool? ==> r == Ok(if v.b then 1 else 0)
    ensures r.Err? ==> r.error == TypeError
  {
    match v
    case Int(i) => Ok(i)
    case Bool(b) => Ok(if b then 1 else 0)
    case _ => Err(TypeError)
  }

  /** Every index shifted by d. */
  function Shifted(verts: seq<int>, d: int): (r: seq<int>)
    ensures |r| == |verts|
  {
    seq(|verts|, k requires 0 <= k < |verts| => verts[k] + d)
  }

  /**
   * What label returns for a valid hemi; for 'both', shift is the value found
   * under the shift key, which is added only after both files are read.
   */
  function LabelSpec(disk: Disk, files: (string, string), hemi: string, shift: MetaValue): Result<seq<int>>
    requires FreeSurferData.IsHemi(hemi)
  {
    if hemi == "lh" then ReadLabel(disk, files.0)
    else if hemi == "rh" then ReadLabel(disk, files.1)
    else
      match ReadLabel(disk, files.0)
      case Err(e) => Err(e)
      case Ok(lh) =>
        match ReadLabel(disk, files.1)
        case Err(e) => Err(e)
        case Ok(rh) =>
          match ShiftBy(shift)
          case Err(e) => Err(e)
          case Ok(d) => Ok(lh + Shifted(rh, d))
  }

  /** Loading both hemispheres gives the lh indices, then the rh indices moved past the lh vertices. */
  lemma {:induction false} LabelBoth(disk: Disk, files: (string, string), shift: int)
    requires files.0 in disk.labels && files.1 in disk.labels
    ensures var r := LabelSpec(disk, files, "both", Int(shift)).value;
      var lh := disk.labels[files.0];
      var rh := disk.labels[files.1];
      && |r| == |lh| + |rh|
      && r[..|lh|] == lh
      && forall k :: 0 <= k < |rh| ==> r[|lh| + k] == rh[k] + shift
  {
    var lh := disk.labels[files.0];
    var r := LabelSpec(disk, files, "both", Int(shift)).value;
    assert r[..|lh|] == lh;
  }

  /**
   * The shift's type matters only once both files are read: a missing file
   * gives its read error whatever the shift; a string or None shift then
   * raises TypeError.
   */
  lemma {:induction false} LabelErrorOrder(disk: Disk, files: (string, string), shift: MetaValue)
    ensures ReadLabel(disk, files.0).Err? ==> LabelSpec(disk, files, "both", shift) == ReadLabel(disk, files.0)
    ensures ReadLabel(disk, files.0).Ok? && ReadLabel(disk, files.1).Err? ==>
      LabelSpec(disk, files, "both", shift) == ReadLabel(disk, files.1)
    ensures ReadLabel(disk, files.0).Ok? && ReadLabel(disk, files.1).Ok? ==>
      (LabelSpec(disk, files, "both", shift) == Err(TypeError) <==> shift.Str? || shift.NoneValue?)
  {
    if ReadLabel(disk, files.0).Ok? && ReadLabel(disk, files.1).Ok? {
      if shift.Str? || shift.NoneValue? {
        assert ShiftBy(shift) == Err(TypeError);
      } else {
        assert ShiftBy(shift).Ok?;
      }
    }
  }

  /** The keys label records after both reads succeed. */
  function LabelMeta(m: map<string, MetaValue>, files: (string, string), hemi: string): map<string, MetaValue> {
    var lhKey := FreeSurferData.Key("lh", "label_file");
    var rhKey := FreeSurferData.Key("rh", "label_file");
    if hemi == "lh" then m[lhKey := Str(files.0)]
    else if hemi == "rh" then m[rhKey := Str(files.1)]
    else m[lhKey := Str(files.0)][rhKey := Str(files.1)]
  }

  lemma {:induction false} LabelFileKeys()
    ensures FreeSurferData.Key("lh", "label_file") == "lh.label_file"
    ensures FreeSurferData.Key("rh", "label_file") == "rh.label_file"
  {
  }

  /**
   * Loading both hemispheres adds 'lh.label_file' and 'rh.label_file', with
   * the two paths, to the meta data and keeps every entry it had.
   */
  lemma {:induction false} LabelMetaBoth(m: map<string, MetaValue>, files: (string, string))
    ensures var r := LabelMeta(m, files, "both");
      && r.Keys == m.Keys + {"lh.label_file", "rh.label_file"}
      && r["lh.label_file"] == Str(files.0) && r["rh.label_file"] == Str(files.1)
      && forall k :: k in m && k != "lh.label_file" && k != "rh.label_file" ==> r[k] == m[k]
  {
    LabelFileKeys();
  }

  /**
   * test_label_cortex_both: from {'lh.num_vertices': n} the meta data hold
   * exactly three entries, both label files and the vertex count.
   */
  lemma {:induction false} LabelMetaExample(n: int, files: (string, string))
    ensures var r := LabelMeta(map["lh.num_vertices" := Int(n)], files, "both");
      && r.Keys == {"lh.num_vertices", "lh.label_file", "rh.label_file"} && |r| == 3
      && r["lh.label_file"] == Str(files.0) && r["rh.label_file"] == Str(files.1)
      && r["lh.num_vertices"] == Int(n)
  {
    var m := map["lh.num_vertices" := Int(n)];
    LabelMetaBoth(m, files);
    var r := LabelMeta(m, files, "both");
    assert r.Keys == {"lh.num_vertices", "lh.label_file", "rh.label_file"};
    assert |r| == |r.Keys| == 3;
  }

  /**
   * label: ValueError for a hemi outside lh/rh/both, for 'both' without a meta
   * dict, and for 'both' without a vertex count of lh in it; otherwise the label of
   * one hemisphere, or lh followed by rh shifted by that count, where a count
   * that is not a number raises TypeError after both files are read and recorded.
   */
  method Label(disk: Disk, subjectId: string, subjectsDir: string, labelName: string, hemi: string, md: Dict?<MetaValue>)
    returns (r: Result<seq<int>>, out: Dict<MetaValue>)
    modifies md
    ensures md != null ==> out == md
    ensures md == null ==> fresh(out)
    ensures !FreeSurferData.IsHemi(hemi) ==> r == Err(FreeSurferData.HemiError(hemi)) && out.entries == old(FreeSurferData.BaseEntries(md))
    ensures hemi == "both" && md == null ==> r == Err(ValueError(MetaRequiredMessage)) && out.entries == map[]
    ensures hemi == "both" && md != null && RhShiftKey(old(md.entries)).Err? ==>
      r == Err(RhShiftKey(old(md.entries)).error) && out.entries == old(md.entries)
    ensures FreeSurferData.IsHemi(hemi) && hemi != "both" ==>
      r == LabelSpec(disk, LabelDirFiles(subjectsDir, subjectId, labelName, "label"), hemi, NoneValue)
    ensures hemi == "both" && md != null && RhShiftKey(old(md.entries)).Ok? ==>
      r == LabelSpec(disk, LabelDirFiles(subjectsDir, subjectId, labelName, "label"), hemi, old(md.entries)[RhShiftKey(old(md.entries)).value])
    ensures FreeSurferData.IsHemi(hemi) && hemi != "both" ==>
      out.entries == if r.Ok? then LabelMeta(old(FreeSurferData.BaseEntries(md)), LabelDirFiles(subjectsDir, subjectId, labelName, "label"), hemi)
                     else old(FreeSurferData.BaseEntries(md))
    ensures hemi == "both" && md != null && RhShiftKey(old(md.entries)).Ok?
            && ReadLabel(disk, LabelDirFiles(subjectsDir, subjectId, labelName, "label").0).Ok?
            && ReadLabel(disk, LabelDirFiles(subjectsDir, subjectId, labelName, "label").1).Ok? ==>
      out.entries == LabelMeta(old(md.entries), LabelDirFiles(subjectsDir, subjectId, labelName, "label"), hemi)
    ensures hemi == "both" && md != null && RhShiftKey(old(md.entries)).Ok?
            && ReadLabel(disk, LabelDirFiles(subjectsDir, subjectId, labelName, "label").0).Err? ==>
      out.entries == old(md.entries)
    ensures hemi == "both" && md != null && RhShiftKey(old(md.entries)).Ok?
            && ReadLabel(disk, LabelDirFiles(subjectsDir, subjectId, labelName, "label").0).Ok?
            && ReadLabel(disk, LabelDirFiles(subjectsDir, subjectId, labelName, "label").1).Err? ==>
      out.entries == LabelMeta(old(md.entries), LabelDirFiles(subjectsDir, subjectId, labelName, "label"), "lh")
  {
    if !FreeSurferData.IsHemi(hemi) {
      if md == null {
        out := new Dict();
      } else {
        out := md;
      }
      return Err(FreeSurferData.HemiError(hemi)), out;
    }
    if md == null {
      out := new Dict();
      if hemi == "both" {
        return Err(ValueError(MetaRequiredMessage)), out;
      }
    } else {
      out := md;
    }
    var shift := NoneValue;
    if hemi == "both" {
      var key := RhShiftKey(out.entries);
      if key.Err? {
        return Err(key.error), out;
      }
      shift := out.entries[key.value];
    }
    var files := LabelDirFiles(subjectsDir, subjectId, labelName, "label");
    if hemi == "lh" {
      r, out := ReadLabelMd(disk, files.0, "lh", out);
    } else if hemi == "rh" {
      r, out := ReadLabelMd(disk, files.1, "rh", out);
    } else {
      var lh, rh;
      lh, out := ReadLabelMd(disk, files.0, "lh", out);
      if lh.Err? {
        return lh, out;
      }
      rh, out := ReadLabelMd(disk, files.1, "rh", out);
      if rh.Err? {
        return rh, out;
      }
      var d := ShiftBy(shift);
      if d.Err? {
        return Err(d.error), out;
      }
      r := Ok(lh.value + Shifted(rh.value, d.value));
    }
  }
}
