/**
 * Issue bookkeeping of src/brainload/qa.py: the BrainDataConsistency class
 * keeps, per subject, a list of issue tags and a parallel list of the files
 * the issues concern. The checks append to both lists; the report counts the
 * subjects without issues and lays the issues out as an HTML table.
 *
 * Reading surfaces and morphometry files, file modification times and the
 * logging output are not modelled; the vertex counts the surface check
 * compares are the `data` field, filled by the caller.
 */
module QualityCheck {
  import opened Wrappers
  import opened PyStr
  import FreeSurferData

  // ---------------------------------------------------------------------------
  // Issue tags and their explanations

  /**
   * _issue_tag_explanation_dict. Long texts here and in the other modules are
   * written in pieces: the verifier sees the characters of a string literal
   * only up to about 40 characters, and the lemmas read inside these texts.
   */
  const Explanations: map<string, string> := map[
    "MISSING_MORPH_FILE" := "The native space " + "morphology file " + "cannot be read.",
    "TIME_MORPH_FILE" := "The native space " + "morphology file was " + "created/modified " + "before the " + "respective surface " + "file. Note: This " + "can report false " + "positives if the " + "files were changed " + "afterwards, " + "depending on your " + "filesystem or from " + "copying the files.",
    "MORPH_MISMATCH" := "The value count in " + "the native space " + "morphology file " + "does not match the " + "number of vertices " + "in the surface file.",
    "VERT_MISMATCH_SURFACES" := "The vertex count " + "does not match for " + "the surface pair.",
    "NO_SURFACE_FILE" := "The surface file cannot be read.",
    "ALL_SUBJECT_DATA_MISSING" := "The subject " + "directory for the " + "subject cannot be " + "read."
  ]

  /** issue_tag.split("__")[0]: the tag up to its first "__", or all of it. */
  function IssueBase(tag: string): (base: string)
    ensures |base| <= |tag| && base == tag[..|base|]
    ensures forall j :: 0 <= j < |base| ==> !OccursAt(tag, "__", j)
    ensures |base| < |tag| ==> OccursAt(tag, "__", |base|)
  {
    SplitOn(tag, "__")[0]
  }

  /** No two adjacent underscores, and none at the end. */
  predicate PlainTagBase(base: string) {
    && (forall j :: 0 <= j < |base| - 1 ==> !(base[j] == '_' && base[j + 1] == '_'))
    && (base == "" || base[|base| - 1] != '_')
  }

  lemma {:induction false} NoSeparatorInBase(base: string, detail: string)
    requires PlainTagBase(base)
    ensures forall k :: 0 <= k < |base| ==> !OccursAt(base + "__" + detail, "__", k)
  {
    var tag := base + "__" + detail;
    forall k | 0 <= k < |base| ensures !OccursAt(tag, "__", k) {
      assert tag[k] == base[k];
      assert tag[k + 1] == if k + 1 < |base| then base[k + 1] else '_';
      assert k + 2 <= |tag| ==> tag[k..k + 2][0] == tag[k] && tag[k..k + 2][1] == tag[k + 1];
    }
  }

  /** A base without "__" followed by "__" and a detail is split back into that base. */
  lemma {:induction false} IssueBaseOfDetailed(base: string, detail: string)
    requires PlainTagBase(base)
    ensures IssueBase(base + "__" + detail) == base
  {
    var tag := base + "__" + detail;
    var b := IssueBase(tag);
    assert OccursAt(tag, "__", |base|) by {
      assert tag[|base|..|base| + 2] == "__";
    }
    NoSeparatorInBase(base, detail);
    assert tag[..|base|] == base;
  }

  /** The fallback text for a tag whose base has no explanation. */
  function NoExplanation(base: string, tag: string): string {
    "Sorry, no " + "explanation " + "available for issue " + "tag '" + base + "' (from '" + tag + "')."
  }

  /** get_issue_tag_explanation on the explanations the class is built with. */
  function IssueTagExplanation(tag: string): string {
    var base := IssueBase(tag);
    if base in Explanations then Explanations[base] else NoExplanation(base, tag)
  }

  /** A tag "<BASE>__<detail>" with a known base is explained by that base's text. */
  lemma {:induction false} ExplanationOfDetailedTag(base: string, detail: string)
    requires base in Explanations
    ensures IssueTagExplanation(base + "__" + detail) == Explanations[base]
  {
    KnownBasesArePlain();
    IssueBaseOfDetailed(base, detail);
  }

  /** Every key of the explanation table can be followed by "__" and a detail. */
  lemma {:induction false} KnownBasesArePlain()
    ensures forall base :: base in Explanations ==> PlainTagBase(base)
  {
    assert PlainTagBase("MISSING_MORPH_FILE");
    assert PlainTagBase("TIME_MORPH_FILE");
    assert PlainTagBase("MORPH_MISMATCH");
    assert PlainTagBase("VERT_MISMATCH_SURFACES");
    assert PlainTagBase("NO_SURFACE_FILE");
    assert PlainTagBase("ALL_SUBJECT_DATA_MISSING");
  }

  // ---------------------------------------------------------------------------
  // The per-subject issue lists

  /** One _append_issue call: the subject, the issue tag and the file it concerns. */
  datatype Issue = Issue(subject: string, tag: string, file: string)

  function TagOf(e: Issue): string { e.tag }

  function FileOf(e: Issue): string { e.file }

  /**
   * The per-subject lists after field(e) has been appended, in order, for each
   * issue e whose subject has a list.
   */
  function Appended(m: map<string, seq<string>>, issues: seq<Issue>, field: Issue -> string): (r: map<string, seq<string>>)
    ensures r.Keys == m.Keys
  {
    if issues == [] then m
    else
      var p := Appended(m, issues[..|issues| - 1], field);
      var e := issues[|issues| - 1];
      if e.subject in p then p[e.subject := p[e.subject] + [field(e)]] else p
  }

  /** field(e) for the issues of one subject, in order. */
  function Selected(issues: seq<Issue>, subject: string, field: Issue -> string): seq<string> {
    if issues == [] then []
    else
      var e := issues[|issues| - 1];
      Selected(issues[..|issues| - 1], subject, field) + (if e.subject == subject then [field(e)] else [])
  }

  /** Appending a run of issues extends each subject's list by exactly that subject's issues. */
  lemma {:induction false} AppendedSelects(m: map<string, seq<string>>, issues: seq<Issue>, field: Issue -> string, subject: string)
    requires subject in m
    ensures Appended(m, issues, field)[subject] == m[subject] + Selected(issues, subject, field)
  {
    if issues != [] {
      AppendedSelects(m, issues[..|issues| - 1], field, subject);
    }
  }

  /** Appending one more issue to lists that already hold a run of issues. */
  lemma {:induction false} AppendedSnoc(m: map<string, seq<string>>, issues: seq<Issue>, e: Issue, field: Issue -> string,
                                        current: map<string, seq<string>>)
    requires current == Appended(m, issues, field)
    ensures Appended(current, [e], field) == Appended(m, issues + [e], field)
  {
    assert (issues + [e])[..|issues|] == issues;
    assert [e][..0] == [];
  }

  /** What a subject's selected list holds: the field of each of its issues and nothing else. */
  lemma {:induction false} SelectedMember(issues: seq<Issue>, subject: string, field: Issue -> string, x: string)
    ensures x in Selected(issues, subject, field) <==> exists e :: e in issues && e.subject == subject && field(e) == x
  {
    if issues != [] {
      var init := issues[..|issues| - 1];
      var e := issues[|issues| - 1];
      SelectedMember(init, subject, field, x);
      assert issues == init + [e];
      if x in Selected(issues, subject, field) && x !in Selected(init, subject, field) {
        assert e in issues && e.subject == subject && field(e) == x;
      }
      if exists d :: d in issues && d.subject == subject && field(d) == x {
        var d :| d in issues && d.subject == subject && field(d) == x;
        if d != e {
          assert d in init;
        }
      }
    }
  }

  /** Appending to a pair of lists of equal length per subject keeps them of equal length. */
  lemma {:induction false} AppendedInStep(tags: map<string, seq<string>>, files: map<string, seq<string>>, issues: seq<Issue>)
    requires tags.Keys == files.Keys
    requires forall s :: s in tags ==> |tags[s]| == |files[s]|
    ensures forall s :: s in tags ==> |Appended(tags, issues, TagOf)[s]| == |Appended(files, issues, FileOf)[s]|
  {
    forall s | s in tags
      ensures |Appended(tags, issues, TagOf)[s]| == |Appended(files, issues, FileOf)[s]|
    {
      AppendedSelects(tags, issues, TagOf, s);
      AppendedSelects(files, issues, FileOf, s);
      SelectedLength(issues, s);
    }
  }

  lemma {:induction false} SelectedLength(issues: seq<Issue>, subject: string)
    ensures |Selected(issues, subject, TagOf)| == |Selected(issues, subject, FileOf)|
  {
    if issues != [] {
      SelectedLength(issues[..|issues| - 1], subject);
    }
  }

  /** An empty list for every subject of the list (the loop at the end of __init__). */
  function EmptyLists(subjects: seq<string>): (m: map<string, seq<string>>)
    ensures forall s :: s in m <==> s in subjects
    ensures forall s :: s in m ==> m[s] == []
  {
    if subjects == [] then map[]
    else EmptyLists(subjects[..|subjects| - 1])[subjects[|subjects| - 1] := []]
  }

  /** The hemispheres handled for a valid hemi argument. */
  function HemisOf(hemi: string): (hemis: seq<string>)
    requires FreeSurferData.IsHemi(hemi)
    ensures forall h :: h in hemis ==> FreeSurferData.IsHemisphereLabel(h)
    ensures hemi == "both" ==> hemis == ["lh", "rh"]
    ensures hemi != "both" ==> hemis == [hemi]
  {
    if hemi == "both" then ["lh", "rh"] else [hemi]
  }

  /** Per hemisphere, the per-subject value arrays the checks fill, keyed like "mesh_vertex_count_white". */
  type HemiData = map<string, map<string, seq<int>>>

  /** An empty table per hemisphere. */
  function EmptyTables<V>(hemis: seq<string>): (m: map<string, map<string, V>>)
    ensures forall h :: h in m <==> h in hemis
    ensures forall h :: h in m ==> m[h] == map[]
  {
    map h | h in hemis :: map[]
  }

  // ---------------------------------------------------------------------------
  // The vertex-count comparison of a surface pair

  function CountKey(surf: string): string { "mesh_vertex_count_" + surf }

  function MismatchTag(s0: string, s1: string, hemi: string): string {
    "VERT_MISMATCH_SURFACES__" + s0 + "_" + s1 + "_" + hemi
  }

  /** The tags of two hemispheres differ when the hemispheres do. */
  lemma {:induction false} MismatchTagInjective(s0: string, s1: string, h1: string, h2: string)
    requires MismatchTag(s0, s1, h1) == MismatchTag(s0, s1, h2)
    ensures h1 == h2
  {
    var p := "VERT_MISMATCH_SURFACES__" + s0 + "_" + s1 + "_";
    assert MismatchTag(s0, s1, h1) == p + h1 && MismatchTag(s0, s1, h2) == p + h2;
    assert h1 == (p + h1)[|p|..];
  }

  /** get_surface_file_path(subjects_dir, subject_id, hemi, surf); freesurferdata.py does not define it. */
  type SurfacePath = (string, string, string, string) -> string

  /** What the comparison reads from the object, and the surface pair. */
  datatype SurfaceCheck = SurfaceCheck(
    subjectsDir: string, subjects: seq<string>, hemis: seq<string>, data: HemiData, s0: string, s1: string)

  /** Both surfaces' vertex counts are recorded for every hemisphere and subject index. */
  predicate CountsPresent(c: SurfaceCheck) {
    forall h :: h in c.hemis ==>
      && h in c.data && CountKey(c.s0) in c.data[h] && CountKey(c.s1) in c.data[h]
      && |c.data[h][CountKey(c.s0)]| >= |c.subjects| && |c.data[h][CountKey(c.s1)]| >= |c.subjects|
  }

  /** The two surfaces of hemisphere h of subject index i have different vertex counts. */
  predicate Differ(c: SurfaceCheck, h: string, i: nat)
    requires CountsPresent(c) && h in c.hemis && i < |c.subjects|
  {
    c.data[h][CountKey(c.s0)][i] != c.data[h][CountKey(c.s1)][i]
  }

  /** The issue appended for hemisphere h of subject index i. */
  function MismatchIssue(c: SurfaceCheck, path: SurfacePath, h: string, i: nat): Issue
    requires i < |c.subjects|
  {
    Issue(c.subjects[i], MismatchTag(c.s0, c.s1, h), path(c.subjectsDir, c.subjects[i], h, c.s1))
  }

  /**
   * The issues appended once the loops have done the hemispheres before
   * hemis[hi] and the first n subjects of hemis[hi].
   */
  function Mismatches(c: SurfaceCheck, path: SurfacePath, hi: nat, n: nat): seq<Issue>
    requires CountsPresent(c) && hi <= |c.hemis| && n <= |c.subjects|
    requires hi == |c.hemis| ==> n == 0
    decreases hi, n
  {
    if n > 0 then
      var h := c.hemis[hi];
      Mismatches(c, path, hi, n - 1) + (if Differ(c, h, n - 1) then [MismatchIssue(c, path, h, n - 1)] else [])
    else if hi > 0 then Mismatches(c, path, hi - 1, |c.subjects|)
    else []
  }

  /** The issues of the whole comparison, hemisphere by hemisphere. */
  function AllMismatches(c: SurfaceCheck, path: SurfacePath): seq<Issue>
    requires CountsPresent(c)
  {
    Mismatches(c, path, |c.hemis|, 0)
  }

  /** The inner loop's step: subject index n of hemisphere hemis[hi] adds its issue when the counts differ. */
  lemma {:induction false} MismatchesStep(c: SurfaceCheck, path: SurfacePath, hi: nat, n: nat)
    requires CountsPresent(c) && hi < |c.hemis| && n < |c.subjects|
    ensures Mismatches(c, path, hi, n + 1) == Mismatches(c, path, hi, n)
      + (if Differ(c, c.hemis[hi], n) then [MismatchIssue(c, path, c.hemis[hi], n)] else [])
  {
  }

  /** The outer loop's step: the next hemisphere starts from all subjects of this one. */
  lemma {:induction false} MismatchesNextHemi(c: SurfaceCheck, path: SurfacePath, hi: nat)
    requires CountsPresent(c) && hi < |c.hemis|
    ensures Mismatches(c, path, hi + 1, 0) == Mismatches(c, path, hi, |c.subjects|)
  {
  }

  /**
   * The loops have appended an issue for exactly the (hemisphere, subject
   * index) pairs they have passed whose counts differ.
   */
  lemma {:induction false} MismatchesMember(c: SurfaceCheck, path: SurfacePath, hi: nat, n: nat, e: Issue)
    requires CountsPresent(c) && hi <= |c.hemis| && n <= |c.subjects|
    requires hi == |c.hemis| ==> n == 0
    ensures e in Mismatches(c, path, hi, n) <==>
      exists j, i :: 0 <= j < |c.hemis| && 0 <= i < |c.subjects| && (j < hi || (j == hi && i < n))
        && Differ(c, c.hemis[j], i) && e == MismatchIssue(c, path, c.hemis[j], i)
    decreases hi, n
  {
    if n > 0 {
      MismatchesMember(c, path, hi, n - 1, e);
      var h := c.hemis[hi];
      if e in Mismatches(c, path, hi, n) && e !in Mismatches(c, path, hi, n - 1) {
        assert Differ(c, c.hemis[hi], n - 1) && e == MismatchIssue(c, path, c.hemis[hi], n - 1);
      }
      if (exists j, i :: 0 <= j < |c.hemis| && 0 <= i < |c.subjects| && (j < hi || (j == hi && i < n))
            && Differ(c, c.hemis[j], i) && e == MismatchIssue(c, path, c.hemis[j], i)) {
        var j, i :| 0 <= j < |c.hemis| && 0 <= i < |c.subjects| && (j < hi || (j == hi && i < n))
          && Differ(c, c.hemis[j], i) && e == MismatchIssue(c, path, c.hemis[j], i);
        if j == hi && i == n - 1 {
          assert e in Mismatches(c, path, hi, n);
        } else {
          assert e in Mismatches(c, path, hi, n - 1);
        }
      }
    } else if hi > 0 {
      MismatchesMember(c, path, hi - 1, |c.subjects|, e);
    }
  }

  /**
   * A subject gets the mismatch tag of a hemisphere exactly when that
   * hemisphere is handled and the two counts differ at one of the subject's
   * positions in the list.
   */
  lemma {:induction false} MismatchTagIff(c: SurfaceCheck, path: SurfacePath, subject: string, h: string)
    requires CountsPresent(c)
    ensures MismatchTag(c.s0, c.s1, h) in Selected(AllMismatches(c, path), subject, TagOf) <==>
      h in c.hemis && exists i :: 0 <= i < |c.subjects| && c.subjects[i] == subject && Differ(c, h, i)
  {
    var tag := MismatchTag(c.s0, c.s1, h);
    var all := AllMismatches(c, path);
    SelectedMember(all, subject, TagOf, tag);
    if tag in Selected(all, subject, TagOf) {
      var e :| e in all && e.subject == subject && TagOf(e) == tag;
      MismatchesMember(c, path, |c.hemis|, 0, e);
      var j, i :| 0 <= j < |c.hemis| && 0 <= i < |c.subjects|
        && Differ(c, c.hemis[j], i) && e == MismatchIssue(c, path, c.hemis[j], i);
      MismatchTagInjective(c.s0, c.s1, c.hemis[j], h);
    }
    if h in c.hemis && exists i :: 0 <= i < |c.subjects| && c.subjects[i] == subject && Differ(c, h, i) {
      var i :| 0 <= i < |c.subjects| && c.subjects[i] == subject && Differ(c, h, i);
      var j :| 0 <= j < |c.hemis| && c.hemis[j] == h;
      var e := MismatchIssue(c, path, h, i);
      MismatchesMember(c, path, |c.hemis|, 0, e);
      assert e in all;
    }
  }

  /**
   * After the comparison a subject's list holds a hemisphere's mismatch tag
   * exactly when it held it before or the counts differ for that hemisphere
   * at one of the subject's positions.
   */
  lemma {:induction false} MismatchRecorded(m: map<string, seq<string>>, c: SurfaceCheck, path: SurfacePath, subject: string, h: string)
    requires CountsPresent(c) && subject in m
    ensures MismatchTag(c.s0, c.s1, h) in Appended(m, AllMismatches(c, path), TagOf)[subject] <==>
      || MismatchTag(c.s0, c.s1, h) in m[subject]
      || (h in c.hemis && exists i :: 0 <= i < |c.subjects| && c.subjects[i] == subject && Differ(c, h, i))
  {
    AppendedSelects(m, AllMismatches(c, path), TagOf, subject);
    MismatchTagIff(c, path, subject, h);
  }

  // ---------------------------------------------------------------------------
  // The class

  /** BrainDataConsistency: the subjects under check and the issues found so far. */
  class BrainDataConsistency {
    var subjectsDir: string
    var subjectsList: seq<string>
    var hemis: seq<string>
    /** Per hemisphere, per-subject values such as data[hemi]["mesh_vertex_count_white"]. */
    var data: HemiData
    /** Per hemisphere, the surface files read. */
    var files: map<string, map<string, string>>
    var surfaceVerticesCounted: bool
    var checkFileModificationTimes: bool
    var subjectIssues: map<string, seq<string>>
    var subjectIssuesAssocFiles: map<string, seq<string>>

    /** One issue list and one file list per listed subject, of equal length. */
    ghost predicate Valid()
      reads this
    {
      && (forall s :: s in subjectIssues <==> s in subjectsList)
      && subjectIssuesAssocFiles.Keys == subjectIssues.Keys
      && (forall s :: s in subjectIssues ==> |subjectIssues[s]| == |subjectIssuesAssocFiles[s]|)
    }

    /** __init__ for a valid hemi; NewBrainDataConsistency raises for the others. */
    constructor (subjectsDir: string, subjectsList: seq<string>, hemi: string)
      requires FreeSurferData.IsHemi(hemi)
      ensures Valid()
      ensures this.subjectsDir == subjectsDir && this.subjectsList == subjectsList
      ensures hemis == HemisOf(hemi)
      ensures data == EmptyTables(hemis) && files == EmptyTables(hemis)
      ensures !surfaceVerticesCounted && !checkFileModificationTimes
      ensures subjectIssues == EmptyLists(subjectsList) && subjectIssuesAssocFiles == EmptyLists(subjectsList)
    {
      var issues := map[];
      var assoc := map[];
      for i := 0 to |subjectsList|
        invariant issues == EmptyLists(subjectsList[..i]) && assoc == issues
      {
        assert subjectsList[..i + 1][..i] == subjectsList[..i];
        issues := issues[subjectsList[i] := []];
        assoc := assoc[subjectsList[i] := []];
      }
      assert subjectsList[..|subjectsList|] == subjectsList;
      this.subjectsDir := subjectsDir;
      this.subjectsList := subjectsList;
      surfaceVerticesCounted := false;
      checkFileModificationTimes := false;
      subjectIssues := issues;
      subjectIssuesAssocFiles := assoc;
      hemis := HemisOf(hemi);
      data := EmptyTables(HemisOf(hemi));
      files := EmptyTables(HemisOf(hemi));
    }

    /** _append_issue: KeyError for a subject that is not in the list. */
    method AppendIssue(subjectId: string, tag: string, filename: string) returns (r: Result<()>)
      requires Valid()
      modifies this`subjectIssues, this`subjectIssuesAssocFiles
      ensures Valid()
      ensures r.Err? <==> subjectId !in subjectsList
      ensures r.Err? ==> r.error == KeyError(subjectId)
      ensures subjectIssues == Appended(old(subjectIssues), [Issue(subjectId, tag, filename)], TagOf)
      ensures subjectIssuesAssocFiles == Appended(old(subjectIssuesAssocFiles), [Issue(subjectId, tag, filename)], FileOf)
    {
      if subjectId !in subjectIssues {
        return Err(KeyError(subjectId));
      }
      subjectIssues := subjectIssues[subjectId := subjectIssues[subjectId] + [tag]];
      subjectIssuesAssocFiles := subjectIssuesAssocFiles[subjectId := subjectIssuesAssocFiles[subjectId] + [filename]];
      r := Ok(());
    }

    /** The object seen by the comparison of the surface pair (s0, s1). */
    function Pair(s0: string, s1: string): SurfaceCheck
      reads this
    {
      SurfaceCheck(subjectsDir, subjectsList, hemis, data, s0, s1)
    }

    /**
     * _check_surfaces_have_identical_vertex_count for the pair (s0, s1): one
     * VERT_MISMATCH_SURFACES issue per hemisphere and subject whose counts
     * differ, naming the s1 surface file.
     */
    method CheckSurfacesHaveIdenticalVertexCount(s0: string, s1: string, path: SurfacePath)
      requires Valid() && CountsPresent(Pair(s0, s1))
      modifies this`subjectIssues, this`subjectIssuesAssocFiles
      ensures Valid()
      ensures subjectIssues == Appended(old(subjectIssues), AllMismatches(Pair(s0, s1), path), TagOf)
      ensures subjectIssuesAssocFiles == Appended(old(subjectIssuesAssocFiles), AllMismatches(Pair(s0, s1), path), FileOf)
    {
      ghost var c := Pair(s0, s1);
      ghost var tags0, files0 := subjectIssues, subjectIssuesAssocFiles;
      assert c.hemis == hemis && c.subjects == subjectsList && c.data == data && c.subjectsDir == subjectsDir;
      for hi := 0 to |hemis|
        invariant Valid()
        invariant subjectIssues == Appended(tags0, Mismatches(c, path, hi, 0), TagOf)
        invariant subjectIssuesAssocFiles == Appended(files0, Mismatches(c, path, hi, 0), FileOf)
      {
        var hemi := hemis[hi];
        var tag := "VERT_MISMATCH_SURFACES__" + s0 + "_" + s1 + "_" + hemi;
        assert tag == MismatchTag(s0, s1, hemi);
        var counts0 := data[hemi][CountKey(s0)];
        var counts1 := data[hemi][CountKey(s1)];
        for i := 0 to |subjectsList|
          invariant Valid()
          invariant subjectIssues == Appended(tags0, Mismatches(c, path, hi, i), TagOf)
          invariant subjectIssuesAssocFiles == Appended(files0, Mismatches(c, path, hi, i), FileOf)
        {
          ghost var before := Mismatches(c, path, hi, i);
          MismatchesStep(c, path, hi, i);
          assert Differ(c, c.hemis[hi], i) <==> counts0[i] != counts1[i];
          if counts0[i] != counts1[i] {
            ghost var e := MismatchIssue(c, path, hemi, i);
            assert e == Issue(subjectsList[i], tag, path(subjectsDir, subjectsList[i], hemi, s1));
            ghost var tagsBefore, filesBefore := subjectIssues, subjectIssuesAssocFiles;
            var _ := AppendIssue(subjectsList[i], tag, path(subjectsDir, subjectsList[i], hemi, s1));
            AppendedSnoc(tags0, before, e, TagOf, tagsBefore);
            AppendedSnoc(files0, before, e, FileOf, filesBefore);
          } else {
            assert before + [] == before;
          }
        }
        MismatchesNextHemi(c, path, hi);
      }
    }

    /** The subjects' lists as the report reads them: every listed subject has two lists of equal length. */
    lemma {:induction false} ValidCovers()
      requires Valid()
      ensures Covers(subjectsList, subjectIssues) && InStep(subjectsList, subjectIssues, subjectIssuesAssocFiles)
    {
      forall i | 0 <= i < |subjectsList|
        ensures subjectsList[i] in subjectIssues
      {
        assert subjectsList[i] in subjectsList;
      }
    }

    /**
     * _report_by_subject: the printed lines, the number of OK subjects and
     * the number of subjects with issues.
     */
    method ReportBySubject() returns (numOk: nat, numIncons: nat, report: seq<string>)
      requires Valid()
      ensures Covers(subjectsList, subjectIssues)
      ensures numOk == CountOk(subjectsList, subjectIssues)
      ensures numOk + numIncons == |subjectsList|
      ensures report == [ReportTitle(|subjectsList|)] + SubjectReportLines(subjectsList, subjectIssues)
        + ["----- End of report by subject -----", SummaryLine(numOk, numIncons, |subjectsList|)]
    {
      ValidCovers();
      numOk := 0;
      numIncons := 0;
      var lines := [];
      for i := 0 to |subjectsList|
        invariant numOk == CountOk(subjectsList[..i], subjectIssues)
        invariant numOk + numIncons == i
        invariant lines == SubjectReportLines(subjectsList[..i], subjectIssues)
      {
        assert subjectsList[..i + 1][..i] == subjectsList[..i];
        var subjectId := subjectsList[i];
        var subjectReport;
        if subjectIssues[subjectId] != [] {
          subjectReport := IntToString(|subjectIssues[subjectId]|) + " inconsistencies: " + Join(" ", subjectIssues[subjectId]);
          numIncons := numIncons + 1;
        } else {
          subjectReport := "OK";
          numOk := numOk + 1;
        }
        lines := lines + [subjectId + ": " + subjectReport];
      }
      assert subjectsList[..|subjectsList|] == subjectsList;
      report := [ReportTitle(|subjectsList|)] + lines
        + ["----- End of report by subject -----", SummaryLine(numOk, numIncons, |subjectsList|)];
    }

    /** _report_html with the style sheet css: a table of the subjects against the distinct issue tags. */
    method ReportHtml(css: string) returns (html: string)
      requires Valid()
      ensures Covers(subjectsList, subjectIssues) && InStep(subjectsList, subjectIssues, subjectIssuesAssocFiles)
      ensures html == HtmlReport(css, subjectsList, subjectIssues, subjectIssuesAssocFiles,
                                 Distinct(AllTags(subjectsList, subjectIssues)))
    {
      ValidCovers();
      var subjects, issues, assoc := subjectsList, subjectIssues, subjectIssuesAssocFiles;
      PrefixesCover(subjects, issues, assoc);
      var allIssueTypes := [];
      for i := 0 to |subjects|
        invariant allIssueTypes == AllTags(subjects[..i], issues)
      {
        AllTagsStep(subjects, issues, i);
        allIssueTypes := allIssueTypes + issues[subjects[i]];
      }
      assert subjects[..|subjects|] == subjects;
      var uniqueIssues := Distinct(allIssueTypes);

      var header := PageHead(css);
      var tableHeader := TableHeaderStart;
      for k := 0 to |uniqueIssues|
        invariant tableHeader == TableHeaderStart + HeaderCells(uniqueIssues[..k])
      {
        HeaderCellsStep(TableHeaderStart, uniqueIssues, k);
        tableHeader := tableHeader + HeaderCell(uniqueIssues[k]);
      }
      assert uniqueIssues[..|uniqueIssues|] == uniqueIssues;
      tableHeader := tableHeader + "</tr>\n";

      var tableBody := "";
      for i := 0 to |subjects|
        invariant tableBody == Rows(subjects[..i], issues, assoc, uniqueIssues)
      {
        var subjectId := subjects[i];
        var tableRow := SubjectRowHtml(subjectId, issues[subjectId], assoc[subjectId], uniqueIssues);
        RowsStep(subjects, issues, assoc, uniqueIssues, i);
        tableBody := tableBody + tableRow;
      }
      assert subjects[..|subjects|] == subjects;

      var table := tableHeader + tableBody + "</table>\n";
      var suffix := PageSuffix(|subjects|);
      html := header + ReportPrefix + table + suffix + "</body>\n</html>";
    }
  }

  /** BrainDataConsistency(subjects_dir, subjects_list, hemi): ValueError unless hemi is lh, rh or both. */
  method NewBrainDataConsistency(subjectsDir: string, subjectsList: seq<string>, hemi: string)
    returns (r: Result<BrainDataConsistency>)
    ensures r.Err? <==> !FreeSurferData.IsHemi(hemi)
    ensures r.Err? ==> r.error == FreeSurferData.HemiError(hemi)
    ensures r.Ok? ==> fresh(r.value) && r.value.Valid() && r.value.hemis == HemisOf(hemi)
    ensures r.Ok? ==> r.value.subjectsList == subjectsList && r.value.subjectsDir == subjectsDir
    ensures r.Ok? ==> r.value.subjectIssues == EmptyLists(subjectsList)
    ensures r.Ok? ==> r.value.subjectIssuesAssocFiles == EmptyLists(subjectsList)
  {
    if !FreeSurferData.IsHemi(hemi) {
      return Err(FreeSurferData.HemiError(hemi));
    }
    var bdc := new BrainDataConsistency(subjectsDir, subjectsList, hemi);
    r := Ok(bdc);
  }

  /** test_braindataconsistency_init: two subjects, both hemispheres, no issues yet. */
  lemma {:induction false} InitExample()
    ensures HemisOf("both") == ["lh", "rh"]
    ensures var m := EmptyLists(["subject1", "subject2"]);
      m.Keys == {"subject1", "subject2"} && m["subject1"] == [] && m["subject2"] == []
  {
  }

  // ---------------------------------------------------------------------------
  // The report by subject

  /** Every subject of the list has an issue list. */
  predicate Covers(subjects: seq<string>, issues: map<string, seq<string>>) {
    forall i :: 0 <= i < |subjects| ==> subjects[i] in issues
  }

  /** The number of list entries whose subject has no issue. */
  function CountOk(subjects: seq<string>, issues: map<string, seq<string>>): (n: nat)
    requires Covers(subjects, issues)
    ensures n <= |subjects|
  {
    if subjects == [] then 0
    else CountOk(subjects[..|subjects| - 1], issues) + (if issues[subjects[|subjects| - 1]] == [] then 1 else 0)
  }

  /** All subjects are OK exactly when every issue list is empty. */
  lemma {:induction false} AllOk(subjects: seq<string>, issues: map<string, seq<string>>)
    requires Covers(subjects, issues)
    ensures CountOk(subjects, issues) == |subjects| <==> forall i :: 0 <= i < |subjects| ==> issues[subjects[i]] == []
  {
    if subjects != [] {
      var init := subjects[..|subjects| - 1];
      AllOk(init, issues);
      assert forall i :: 0 <= i < |init| ==> init[i] == subjects[i];
    }
  }

  /** No subject is OK exactly when every issue list is non-empty. */
  lemma {:induction false} NoneOk(subjects: seq<string>, issues: map<string, seq<string>>)
    requires Covers(subjects, issues)
    ensures CountOk(subjects, issues) == 0 <==> forall i :: 0 <= i < |subjects| ==> issues[subjects[i]] != []
  {
    if subjects != [] {
      var init := subjects[..|subjects| - 1];
      NoneOk(init, issues);
      assert forall i :: 0 <= i < |init| ==> init[i] == subjects[i];
    }
  }

  /** "%s: %s" with "OK" or "%d inconsistencies: " and the tags. */
  function SubjectReportLine(subject: string, tags: seq<string>): string {
    subject + ": " + (if tags == [] then "OK" else IntToString(|tags|) + " inconsistencies: " + Join(" ", tags))
  }

  /** A subject's line reads OK exactly when it has no issue. */
  lemma {:induction false} SubjectReportLineOk(subject: string, tags: seq<string>)
    ensures SubjectReportLine(subject, tags) == subject + ": OK" <==> tags == []
  {
    if tags != [] {
      var line := SubjectReportLine(subject, tags);
      var count := IntToString(|tags|);
      assert count == NatToString(|tags|) && IsDigit(count[0]);
      assert line[|subject| + 2] == count[0];
    }
  }

  /** The subject lines in list order. */
  function SubjectReportLines(subjects: seq<string>, issues: map<string, seq<string>>): (lines: seq<string>)
    requires Covers(subjects, issues)
    ensures |lines| == |subjects|
    ensures forall i :: 0 <= i < |subjects| ==> lines[i] == SubjectReportLine(subjects[i], issues[subjects[i]])
  {
    if subjects == [] then []
    else
      var last := subjects[|subjects| - 1];
      SubjectReportLines(subjects[..|subjects| - 1], issues) + [SubjectReportLine(last, issues[last])]
  }

  function SummaryLine(numOk: nat, numIncons: nat, total: nat): string {
    "Summary: " + IntToString(numOk) + " subjects OK and " + IntToString(numIncons)
      + " with inconsistencies out of " + IntToString(total) + " total."
  }

  // ---------------------------------------------------------------------------
  // Time differences

  /** "%02d" for 0 <= k < 100. */
  function TwoDigits(k: nat): (r: string)
    requires k < 100
    ensures |r| == 2 && AllDigits(r)
  {
    [DigitChar(k / 10), DigitChar(k % 10)]
  }

  lemma {:induction false} TwoDigitsValue(k: nat)
    requires k < 100
    ensures DigitsValue(TwoDigits(k)) == k
  {
    var r := TwoDigits(k);
    assert r[..1][..0] == [];
    assert r[..1] == [DigitChar(k / 10)];
    DigitsValueOfNat(k / 10);
    DigitsValueOfNat(k % 10);
  }

  /** "%d:%02d:%02d" of the hours, minutes and seconds of a time of day. */
  function Clock(s: nat): string
    requires s < 86400
  {
    var minutes := s / 60;
    NatToString(minutes / 60) + ":" + TwoDigits(minutes % 60) + ":" + TwoDigits(s % 60)
  }

  /**
   * str(datetime.timedelta(seconds=n)) for a whole number of seconds n >= 0:
   * the clock text alone under a day, otherwise "<d> day, " or "<d> days, "
   * in front of it (DecodeTimedelta and TimedeltaRoundTrip read both back).
   */
  function TimedeltaText(n: nat): (r: string)
    ensures |r| >= 7
    ensures n < 86400 ==> r == Clock(n)
  {
    if n < 86400 then Clock(n)
    else
      var days := n / 86400;
      NatToString(days) + (if days == 1 then " day, " else " days, ") + Clock(n % 86400)
  }

  /** _ptd: the absolute difference, then " earlier" for a negative one and " later" otherwise. */
  function Ptd(seconds: int): string {
    var text := TimedeltaText(if seconds < 0 then -seconds else seconds);
    if seconds < 0 then text + " earlier" else text + " later"
  }

  /** The suffix tells the sign: " earlier" exactly for a negative difference, " later" otherwise. */
  lemma {:induction false} PtdSuffix(seconds: int)
    ensures EndsWith(Ptd(seconds), " earlier") <==> seconds < 0
    ensures EndsWith(Ptd(seconds), " later") <==> seconds >= 0
  {
    var text := TimedeltaText(if seconds < 0 then -seconds else seconds);
    var r := Ptd(seconds);
    if seconds < 0 {
      assert r == text + " earlier";
      assert r[|r| - 8..] == " earlier" && r[|r| - 6] == 'a';
    } else {
      assert r == text + " later";
      assert r[|r| - 6..] == " later" && r[|r| - 6] == ' ';
    }
  }

  /** Reads "H:MM:SS" back into seconds. */
  function DecodeClock(t: string): Option<nat> {
    if |t| >= 7 && t[|t| - 6] == ':' && t[|t| - 3] == ':'
      && AllDigits(t[..|t| - 6]) && AllDigits(t[|t| - 5..|t| - 3]) && AllDigits(t[|t| - 2..])
    then Some(DigitsValue(t[..|t| - 6]) * 3600 + DigitsValue(t[|t| - 5..|t| - 3]) * 60 + DigitsValue(t[|t| - 2..]))
    else None
  }

  /** The number of digits a text starts with. */
  function LeadingDigits(t: string): (k: nat)
    ensures k <= |t| && AllDigits(t[..k])
    ensures k < |t| ==> !IsDigit(t[k])
  {
    if t == [] || !IsDigit(t[0]) then 0
    else
      var k := 1 + LeadingDigits(t[1..]);
      assert t[..k] == [t[0]] + t[1..][..k - 1];
      k
  }

  /** A day count and a clock text of less than a day, as seconds. */
  function DaysAndClock(days: nat, clock: string): Option<nat> {
    match DecodeClock(clock)
    case None => None
    case Some(s) => if s < 86400 then Some(days * 86400 + s) else None
  }

  /** Reads str(timedelta) of a whole number of seconds back: "H:MM:SS", "1 day, H:MM:SS" or "<d> days, H:MM:SS". */
  function DecodeTimedelta(t: string): Option<nat> {
    var k := LeadingDigits(t);
    if k == |t| || t[k] != ' ' then DecodeClock(t)
    else if k > 0 && StartsWith(t[k..], " day, ") && DigitsValue(t[..k]) == 1 then DaysAndClock(1, t[k + 6..])
    else if k > 0 && StartsWith(t[k..], " days, ") && DigitsValue(t[..k]) != 1 then DaysAndClock(DigitsValue(t[..k]), t[k + 7..])
    else None
  }

  /** Reads a _ptd text back into the signed difference. */
  function DecodePtd(t: string): Option<int> {
    if EndsWith(t, " earlier") then
      match DecodeTimedelta(t[..|t| - 8])
      case None => None
      case Some(n) => Some(-(n as int))
    else if EndsWith(t, " later") then
      match DecodeTimedelta(t[..|t| - 6])
      case None => None
      case Some(n) => Some(n as int)
    else None
  }

  /** Hours, minutes and seconds laid out as "H:MM:SS" read back as their total in seconds. */
  lemma {:induction false} DecodeClockParts(h: string, m: nat, sec: nat)
    requires |h| > 0 && AllDigits(h) && m < 60 && sec < 60
    ensures DecodeClock(h + ":" + TwoDigits(m) + ":" + TwoDigits(sec)) == Some(DigitsValue(h) * 3600 + m * 60 + sec)
  {
    var t := h + ":" + TwoDigits(m) + ":" + TwoDigits(sec);
    assert t[..|t| - 6] == h;
    assert t[|t| - 5..|t| - 3] == TwoDigits(m);
    assert t[|t| - 2..] == TwoDigits(sec);
    TwoDigitsValue(m);
    TwoDigitsValue(sec);
  }

  /** The clock text of a time of day reads back as the seconds it came from. */
  lemma {:induction false} ClockRoundTrip(s: nat)
    requires s < 86400
    ensures DecodeClock(Clock(s)) == Some(s)
  {
    var minutes := s / 60;
    DecodeClockParts(NatToString(minutes / 60), minutes % 60, s % 60);
    DigitsValueOfNat(minutes / 60);
  }

  /** Digits followed by a non-digit: exactly the digits are leading. */
  lemma {:induction false} LeadingDigitsOf(d: string, rest: string)
    requires AllDigits(d)
    requires rest == [] || !IsDigit(rest[0])
    ensures LeadingDigits(d + rest) == |d|
  {
    if d != [] {
      assert (d + rest)[1..] == d[1..] + rest;
      LeadingDigitsOf(d[1..], rest);
    } else {
      assert d + rest == rest;
    }
  }

  /** Every timedelta text reads back as its seconds, whatever the number of days. */
  lemma {:induction false} TimedeltaRoundTrip(n: nat)
    ensures DecodeTimedelta(TimedeltaText(n)) == Some(n)
  {
    if n < 86400 {
      ClockAsTimedelta(n);
    } else {
      DaysAsTimedelta(n / 86400, n % 86400);
      assert n / 86400 * 86400 + n % 86400 == n;
    }
  }

  lemma {:induction false} ClockAsTimedelta(c: nat)
    requires c < 86400
    ensures DecodeTimedelta(Clock(c)) == Some(c)
  {
    ClockRoundTrip(c);
    var minutes := c / 60;
    var h := NatToString(minutes / 60);
    var tail := ":" + TwoDigits(minutes % 60) + ":" + TwoDigits(c % 60);
    assert Clock(c) == h + tail;
    LeadingDigitsOf(h, tail);
    assert (h + tail)[|h|] == ':';
  }

  lemma {:induction false} DaysAsTimedelta(days: nat, c: nat)
    requires days > 0 && c < 86400
    ensures DecodeTimedelta(NatToString(days) + (if days == 1 then " day, " else " days, ") + Clock(c)) == Some(days * 86400 + c)
  {
    var d, sep, clock := NatToString(days), if days == 1 then " day, " else " days, ", Clock(c);
    var t := d + sep + clock;
    ClockRoundTrip(c);
    DaysAndClockOf(days, clock, c);
    DigitsValueOfNat(days);
    DaysPrefix(d, sep, clock);
    var k := LeadingDigits(t);
    assert k == |d| && t[k] == ' ' && DigitsValue(t[..k]) == days;
    assert t[k + |sep|..] == clock;
  }

  lemma {:induction false} DaysAndClockOf(days: nat, clock: string, c: nat)
    requires c < 86400 && DecodeClock(clock) == Some(c)
    ensures DaysAndClock(days, clock) == Some(days * 86400 + c)
  {
  }

  /** A digit string, a separator starting with a space, and a clock text: the decoder finds all three. */
  lemma {:induction false} DaysPrefix(d: string, sep: string, clock: string)
    requires |d| > 0 && AllDigits(d) && |sep| > 0 && sep[0] == ' '
    ensures var t := d + sep + clock;
      LeadingDigits(t) == |d| && t[..|d|] == d && StartsWith(t[|d|..], sep)
      && t[|d| + |sep|..] == clock
  {
    var t := d + sep + clock;
    assert t == d + (sep + clock);
    LeadingDigitsOf(d, sep + clock);
    assert t[..|d|] == d && t[|d|..] == sep + clock;
    StartsWithConcat(sep, clock);
    assert t[|d| + |sep|..] == clock;
  }

  lemma {:induction false} DecodeEarlier(text: string)
    ensures DecodePtd(text + " earlier") == match DecodeTimedelta(text) case None => None case Some(n) => Some(-(n as int))
  {
    var t := text + " earlier";
    assert t[|t| - 8..] == " earlier";
    assert t[..|t| - 8] == text;
  }

  lemma {:induction false} DecodeLater(text: string)
    requires |text| >= 2
    ensures DecodePtd(text + " later") == match DecodeTimedelta(text) case None => None case Some(n) => Some(n as int)
  {
    var t := text + " later";
    assert t[|t| - 6] == ' ' && t[|t| - 6] != " earlier"[2];
    assert t[|t| - 6..] == " later";
    assert t[..|t| - 6] == text;
  }

  /** Every whole-second difference reads back from its _ptd text, sign included. */
  lemma {:induction false} PtdRoundTrip(seconds: int)
    ensures DecodePtd(Ptd(seconds)) == Some(seconds)
  {
    var n := if seconds < 0 then -seconds else seconds;
    var text := TimedeltaText(n);
    TimedeltaRoundTrip(n);
    if seconds < 0 {
      assert Ptd(seconds) == text + " earlier";
      DecodeEarlier(text);
    } else {
      assert Ptd(seconds) == text + " later";
      DecodeLater(text);
    }
  }

  /** test_braindataconsistency_ptd. */
  lemma {:induction false} PtdExamples()
    ensures Ptd(25) == "0:00:25 later"
    ensures Ptd(-70) == "0:01:10 earlier"
  {
    PtdLaterExample();
    PtdEarlierExample();
  }

  lemma {:induction false} PtdLaterExample()
    ensures Ptd(25) == "0:00:25 later"
  {
    ClockOf25();
    PtdOf(25, "0:00:25");
    assert "0:00:25" + " later" == "0:00:25 later";
  }

  lemma {:induction false} PtdEarlierExample()
    ensures Ptd(-70) == "0:01:10 earlier"
  {
    ClockOf70();
    PtdOf(-70, "0:01:10");
    assert "0:01:10" + " earlier" == "0:01:10 earlier";
  }

  /** The _ptd text of a difference whose clock text is known. */
  lemma {:induction false} PtdOf(seconds: int, clock: string)
    requires -86400 < seconds < 86400
    requires Clock(if seconds < 0 then -seconds else seconds) == clock
    ensures Ptd(seconds) == clock + (if seconds < 0 then " earlier" else " later")
  {
  }

  lemma {:induction false} ClockOf25()
    ensures Clock(25) == "0:00:25"
  {
    assert NatToString(0) == "0";
    assert DigitChar(0) == '0' && DigitChar(2) == '2' && DigitChar(5) == '5';
    assert TwoDigits(0) == "00" && TwoDigits(25) == "25";
  }

  lemma {:induction false} ClockOf70()
    ensures Clock(70) == "0:01:10"
  {
    assert NatToString(0) == "0";
    assert DigitChar(0) == '0' && DigitChar(1) == '1';
    assert TwoDigits(1) == "01" && TwoDigits(10) == "10";
  }

  function ReportTitle(total: nat): string {
    "----- Report by subject follows for " + IntToString(total) + " subjects -----"
  }

  // ---------------------------------------------------------------------------
  // The HTML report

  /** Every listed subject has a file list as long as its issue list. */
  predicate InStep(subjects: seq<string>, issues: map<string, seq<string>>, assoc: map<string, seq<string>>)
    requires Covers(subjects, issues)
  {
    forall i :: 0 <= i < |subjects| ==> subjects[i] in assoc && |assoc[subjects[i]]| == |issues[subjects[i]]|
  }

  /** The tags of all subjects, in list order. */
  function AllTags(subjects: seq<string>, issues: map<string, seq<string>>): seq<string>
    requires Covers(subjects, issues)
  {
    if subjects == [] then []
    else AllTags(subjects[..|subjects| - 1], issues) + issues[subjects[|subjects| - 1]]
  }

  lemma {:induction false} AllTagsStep(subjects: seq<string>, issues: map<string, seq<string>>, i: nat)
    requires Covers(subjects, issues) && i < |subjects|
    ensures AllTags(subjects[..i], issues) + issues[subjects[i]] == AllTags(subjects[..i + 1], issues)
  {
    assert subjects[..i + 1][..i] == subjects[..i];
  }

  /** A tag is among all tags exactly when some listed subject has it. */
  lemma {:induction false} AllTagsMember(subjects: seq<string>, issues: map<string, seq<string>>, x: string)
    requires Covers(subjects, issues)
    ensures x in AllTags(subjects, issues) <==> exists i :: 0 <= i < |subjects| && x in issues[subjects[i]]
  {
    if subjects != [] {
      var init := subjects[..|subjects| - 1];
      AllTagsMember(init, issues, x);
      assert forall i :: 0 <= i < |init| ==> init[i] == subjects[i];
      if x in issues[subjects[|subjects| - 1]] {
        assert x in AllTags(subjects, issues);
      }
    }
  }

  /**
   * The distinct elements in order of first occurrence. Python's
   * list(set(...)) leaves the order to the set; the model fixes this one.
   */
  function Distinct(xs: seq<string>): (r: seq<string>)
    ensures forall x :: x in r <==> x in xs
    ensures forall i, j :: 0 <= i < j < |r| ==> r[i] != r[j]
  {
    if xs == [] then []
    else
      var p := Distinct(xs[..|xs| - 1]);
      var x := xs[|xs| - 1];
      assert xs == xs[..|xs| - 1] + [x];
      if x in p then p else p + [x]
  }

  /** The report's columns are the distinct tags that some listed subject has. */
  lemma {:induction false} ReportColumns(subjects: seq<string>, issues: map<string, seq<string>>, x: string)
    requires Covers(subjects, issues)
    ensures x in Distinct(AllTags(subjects, issues)) <==> exists i :: 0 <= i < |subjects| && x in issues[subjects[i]]
  {
    AllTagsMember(subjects, issues, x);
  }

  const TableHeaderStart := "<table " + "class='issues_table'>\n<tr><th " + "title='The subject " + "identifier'>subject_id</th>"
    + "<th title='Number " + "of issues detected " + "for this " + "subject'>num_issues</th>"

  const ReportPrefix := "<h1>Braindata QA " + "Report</h1><h4>Hover " + "mouse over issues " + "to see full file " + "path.</h4>\n"

  /** "<th title='%s'>%s</th>" with the tag's explanation and the tag. */
  function HeaderCell(issue: string): string {
    "<th title='" + IssueTagExplanation(issue) + "'>" + issue + "</th>"
  }

  lemma {:induction false} HeaderCellsStep(start: string, columns: seq<string>, k: nat)
    requires k < |columns|
    ensures start + HeaderCells(columns[..k]) + HeaderCell(columns[k]) == start + HeaderCells(columns[..k + 1])
  {
    assert columns[..k + 1][..k] == columns[..k];
  }

  /** One header cell per column. */
  function HeaderCells(columns: seq<string>): string {
    if columns == [] then ""
    else HeaderCells(columns[..|columns| - 1]) + HeaderCell(columns[|columns| - 1])
  }

  /** "<td class='check_issue' title='%s'>%s</td>" with the file and the tag. */
  function IssueFoundCell(file: string, issue: string): string {
    "<td class='check_issue' title='" + file + "'>" + issue + "</td>\n"
  }

  const OkCell := "<td class='check_ok'>ok</td>\n"

  /** The cell of one column in a subject's row: the file of the tag's first occurrence, or ok. */
  function IssueCell(tags: seq<string>, files: seq<string>, issue: string): string
    requires |files| == |tags|
  {
    match IndexOf(tags, issue)
    case None => OkCell
    case Some(i) => IssueFoundCell(files[i], issue)
  }

  /** A tag's cell names the file recorded with its first occurrence. */
  lemma {:induction false} IssueCellFile(before: seq<string>, issue: string, after: seq<string>, files: seq<string>)
    requires issue !in before && |files| == |before| + 1 + |after|
    ensures IssueCell(before + [issue] + after, files, issue) == IssueFoundCell(files[|before|], issue)
  {
    IndexOfAt(before, issue, after);
  }

  function Cells(tags: seq<string>, files: seq<string>, columns: seq<string>): string
    requires |files| == |tags|
  {
    if columns == [] then ""
    else Cells(tags, files, columns[..|columns| - 1]) + IssueCell(tags, files, columns[|columns| - 1])
  }

  /** Extending the cells by the next column's cell. */
  lemma {:induction false} CellsStep(start: string, tags: seq<string>, files: seq<string>, columns: seq<string>, k: nat)
    requires |files| == |tags| && k < |columns|
    ensures start + Cells(tags, files, columns[..k]) + IssueCell(tags, files, columns[k])
      == start + Cells(tags, files, columns[..k + 1])
  {
    assert columns[..k + 1][..k] == columns[..k];
  }

  function RowStart(subject: string, tags: seq<string>): string {
    "<tr><td class='subject_id'>" + subject + "</td><td class='issue_count_subject "
      + (if tags == [] then "count_no_issue" else "count_has_issue") + "'>" + IntToString(|tags|) + "</td>"
  }

  /** A subject's row: its name, its issue count and one cell per column. */
  function Row(subject: string, tags: seq<string>, files: seq<string>, columns: seq<string>): string
    requires |files| == |tags|
  {
    RowStart(subject, tags) + Cells(tags, files, columns) + "</tr>\n"
  }

  function Rows(subjects: seq<string>, issues: map<string, seq<string>>, assoc: map<string, seq<string>>,
                columns: seq<string>): string
    requires Covers(subjects, issues) && InStep(subjects, issues, assoc)
  {
    if subjects == [] then ""
    else
      var s := subjects[|subjects| - 1];
      Rows(subjects[..|subjects| - 1], issues, assoc, columns) + Row(s, issues[s], assoc[s], columns)
  }

  function PageHead(css: string): string {
    "<html>\n<head>\n" + css + "</head>\n<body>\n"
  }

  function PageSuffix(total: nat): string {
    "<h4>Checked " + IntToString(total) + " subjects for issues.</h4>\n"
  }

  /** Every prefix of a covered subject list is covered too. */
  lemma {:induction false} PrefixesCover(subjects: seq<string>, issues: map<string, seq<string>>, assoc: map<string, seq<string>>)
    requires Covers(subjects, issues) && InStep(subjects, issues, assoc)
    ensures forall n :: 0 <= n <= |subjects| ==> Covers(subjects[..n], issues) && InStep(subjects[..n], issues, assoc)
  {
    forall n | 0 <= n <= |subjects|
      ensures Covers(subjects[..n], issues) && InStep(subjects[..n], issues, assoc)
    {
      assert forall i :: 0 <= i < n ==> subjects[..n][i] == subjects[i];
    }
  }

  lemma {:induction false} RowsStep(subjects: seq<string>, issues: map<string, seq<string>>, assoc: map<string, seq<string>>,
                 columns: seq<string>, i: nat)
    requires Covers(subjects, issues) && InStep(subjects, issues, assoc) && i < |subjects|
    ensures var s := subjects[i];
      Rows(subjects[..i], issues, assoc, columns) + Row(s, issues[s], assoc[s], columns)
        == Rows(subjects[..i + 1], issues, assoc, columns)
  {
    assert subjects[..i + 1][..i] == subjects[..i];
  }

  /** The page: head, title, the table of header row and subject rows, the subject count. */
  function HtmlReport(css: string, subjects: seq<string>, issues: map<string, seq<string>>,
                      assoc: map<string, seq<string>>, columns: seq<string>): string
    requires Covers(subjects, issues) && InStep(subjects, issues, assoc)
  {
    var table := TableHeaderStart + HeaderCells(columns) + "</tr>\n" + Rows(subjects, issues, assoc, columns) + "</table>\n";
    PageHead(css) + ReportPrefix + table + PageSuffix(|subjects|) + "</body>\n</html>"
  }

  /** The row of one subject, built cell by cell. */
  method SubjectRowHtml(subject: string, tags: seq<string>, files: seq<string>, columns: seq<string>)
    returns (row: string)
    requires |files| == |tags|
    ensures row == Row(subject, tags, files, columns)
  {
    var start := RowStart(subject, tags);
    row := start;
    for k := 0 to |columns|
      invariant row == start + Cells(tags, files, columns[..k])
    {
      assert columns[..k + 1][..k] == columns[..k];
      var issue := columns[k];
      var cell;
      if issue in tags {
        var issueIndex := IndexOf(tags, issue).value;
        cell := IssueFoundCell(files[issueIndex], issue);
      } else {
        cell := OkCell;
      }
      assert cell == IssueCell(tags, files, issue) by {
        if issue in tags {
          assert IndexOf(tags, issue).Some?;
        }
      }
      CellsStep(start, tags, files, columns, k);
      row := row + cell;
    }
    assert columns[..|columns|] == columns;
    row := row + "</tr>\n";
  }
}
