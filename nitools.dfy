/**
 * Utilities of brainload.nitools: the hemisphere-dict shape check, `${NAME}`
 * template filling, reading subject ids from a subjects file, detecting
 * subject directories, checking per-subject files and writing lines of text.
 */
module NiTools {
  import opened Wrappers
  import opened PyStr
  import opened FileSystem

  // ---------------------------------------------------------------------------
  // _check_hemi_dict

  /** The argument of _check_hemi_dict: a mapping (with its keys) or anything else. */
  datatype PyObject = Mapping(keys: set<string>) | NotMapping

  /**
   * _check_hemi_dict: with bothRequired the mapping must have exactly the keys
   * 'lh' and 'rh'; otherwise exactly one key, which is 'lh' or 'rh'.
   */
  function CheckHemiDict(d: PyObject, bothRequired: bool): (ok: bool)
    ensures bothRequired ==> (ok <==> d == Mapping({"lh", "rh"}))
    ensures !bothRequired ==> (ok <==> d == Mapping({"lh"}) || d == Mapping({"rh"}))
  {
    if !d.Mapping? then false
    else if bothRequired then
      var ok := |d.keys| == 2 && "lh" in d.keys && "rh" in d.keys;
      assert ok ==> d.keys == {"lh", "rh"} by {
        if ok {
          var rest := d.keys - {"lh", "rh"};
          assert d.keys == {"lh", "rh"} + rest;
          assert |{"lh", "rh"}| == 2;
        }
      }
      ok
    else
      var ok := |d.keys| == 1 && ("lh" in d.keys || "rh" in d.keys);
      assert ok ==> d.keys == {"lh"} || d.keys == {"rh"} by {
        if ok {
          var k := if "lh" in d.keys then "lh" else "rh";
          var rest := d.keys - {k};
          assert d.keys == {k} + rest;
        }
      }
      ok
  }

  // ---------------------------------------------------------------------------
  // fill_template_filename: string.Template(template).substitute(dict)

  predicate IsIdStart(c: char) {
    c == '_' || ('a' <= c <= 'z') || ('A' <= c <= 'Z')
  }

  predicate IsIdChar(c: char) {
    IsIdStart(c) || IsDigit(c)
  }

  /** A placeholder name as string.Template accepts it. */
  predicate IsIdentifier(s: string) {
    |s| > 0 && IsIdStart(s[0]) && forall k :: 0 <= k < |s| ==> IsIdChar(s[k])
  }

  /** Length of the leading run of identifier characters. */
  function IdLength(s: string): (n: nat)
    ensures n <= |s|
    ensures n == |s| || !IsIdChar(s[n])
    ensures forall k :: 0 <= k < n ==> IsIdChar(s[k])
  {
    if s == [] || !IsIdChar(s[0]) then 0
    else
      var n := 1 + IdLength(s[1..]);
      assert forall k :: 1 <= k < n ==> s[k] == s[1..][k - 1];
      n
  }

  /**
   * Template.substitute: `$$` becomes `$`, `$name` and `${name}` become the
   * mapped value (KeyError if the name is not mapped), any other `$` is an
   * invalid placeholder (ValueError). Placeholders are handled left to right.
   */
  function Substitute(t: string, m: map<string, string>): Result<string>
    decreases |t|
  {
    if t == [] then Ok([])
    else if t[0] != '$' then
      match Substitute(t[1..], m)
      case Err(e) => Err(e)
      case Ok(rest) => Ok([t[0]] + rest)
    else if |t| >= 2 && t[1] == '$' then
      match Substitute(t[2..], m)
      case Err(e) => Err(e)
      case Ok(rest) => Ok("$" + rest)
    else if |t| >= 2 && IsIdStart(t[1]) then
      var n := IdLength(t[1..]);
      var name := t[1..1 + n];
      if name !in m then Err(KeyError(name))
      else match Substitute(t[1 + n..], m)
        case Err(e) => Err(e)
        case Ok(rest) => Ok(m[name] + rest)
    else if |t| >= 3 && t[1] == '{' && IsIdStart(t[2]) && 2 + IdLength(t[2..]) < |t| && t[2 + IdLength(t[2..])] == '}' then
      var n := IdLength(t[2..]);
      var name := t[2..2 + n];
      if name !in m then Err(KeyError(name))
      else match Substitute(t[3 + n..], m)
        case Err(e) => Err(e)
        case Ok(rest) => Ok(m[name] + rest)
    else Err(ValueError("Invalid placeholder in string"))
  }

  /** fill_template_filename */
  function FillTemplateFilename(template: string, subst: map<string, string>): Result<string> {
    Substitute(template, subst)
  }

  /** Literal text without a `$` is copied unchanged. */
  lemma {:induction false} SubstituteLiteral(t: string, m: map<string, string>)
    requires '$' !in t
    ensures Substitute(t, m) == Ok(t)
  {
    if t != [] {
      assert t == [t[0]] + t[1..];
      SubstituteLiteral(t[1..], m);
    }
  }

  /** Every `$` of s written as `$$`: the text that substitutes back to s. */
  function Escape(s: string): (r: string)
    ensures |r| >= |s|
  {
    if s == [] then [] else (if s[0] == '$' then "$$" else [s[0]]) + Escape(s[1..])
  }

  /** Escaping is undone by substitution, whatever the mapping. */
  lemma {:induction false} SubstituteEscape(s: string, m: map<string, string>)
    ensures Substitute(Escape(s), m) == Ok(s)
  {
    if s != [] {
      SubstituteEscape(s[1..], m);
      var e := Escape(s);
      assert s == [s[0]] + s[1..];
      if s[0] == '$' {
        assert e == "$$" + Escape(s[1..]);
        assert e[2..] == Escape(s[1..]);
      } else {
        assert e == [s[0]] + Escape(s[1..]);
        assert e[1..] == Escape(s[1..]);
      }
    }
  }

  /** A `${name}` placeholder is replaced by the mapped value, and the rest is processed on. */
  lemma {:induction false} BracedPlaceholder(name: string, rest: string, m: map<string, string>)
    requires IsIdentifier(name)
    ensures var t := "${" + name + "}" + rest;
      Substitute(t, m) ==
        if name !in m then Err(KeyError(name))
        else match Substitute(rest, m)
          case Err(e) => Err(e)
          case Ok(r) => Ok(m[name] + r)
  {
    var t := "${" + name + "}" + rest;
    assert t[0] == '$' && t[1] == '{' && !IsIdStart(t[1]);
    assert t[2..] == name + ("}" + rest);
    IdLengthOf(name, "}" + rest);
    assert IdLength(t[2..]) == |name|;
    assert t[2] == name[0];
    assert t[2 + |name|] == '}';
    assert t[2..2 + |name|] == name;
    assert t[3 + |name|..] == rest;
  }

  /** A `$name` placeholder followed by a non-identifier character. */
  lemma {:induction false} NamedPlaceholder(name: string, rest: string, m: map<string, string>)
    requires IsIdentifier(name)
    requires rest == [] || !IsIdChar(rest[0])
    ensures var t := "$" + name + rest;
      Substitute(t, m) ==
        if name !in m then Err(KeyError(name))
        else match Substitute(rest, m)
          case Err(e) => Err(e)
          case Ok(r) => Ok(m[name] + r)
  {
    var t := "$" + name + rest;
    assert t[0] == '$' && t[1] == name[0];
    assert t[1..] == name + rest;
    IdLengthOf(name, rest);
    assert IdLength(t[1..]) == |name|;
    assert t[1..1 + |name|] == name;
    assert t[1 + |name|..] == rest;
  }

  lemma {:induction false} IdLengthOf(name: string, rest: string)
    requires forall k :: 0 <= k < |name| ==> IsIdChar(name[k])
    requires rest == [] || !IsIdChar(rest[0])
    ensures IdLength(name + rest) == |name|
  {
    if name != [] {
      assert (name + rest)[1..] == name[1..] + rest;
      IdLengthOf(name[1..], rest);
    } else {
      assert name + rest == rest;
    }
  }

  // ---------------------------------------------------------------------------
  // read_subjects_file

  /** The rows read_subjects_file iterates over, once the header row is skipped. */
  function DataRows(rows: seq<seq<string>>, hasHeaderLine: bool): seq<seq<string>>
    requires hasHeaderLine ==> |rows| > 0
  {
    if hasHeaderLine then rows[1..] else rows
  }

  /**
   * read_subjects_file: field `index` (Python indexing, negative counts from the
   * end) of every row in file order; the first row is skipped with a header line.
   */
  method ReadSubjectsFile(disk: Disk, path: string, hasHeaderLine: bool, index: int)
    returns (r: Result<seq<string>>)
    ensures path !in disk.csvRows ==> r == Err(IOError(path))
    ensures path in disk.csvRows && hasHeaderLine && disk.csvRows[path] == [] ==> r == Err(StopIteration)
    ensures path in disk.csvRows && (hasHeaderLine ==> disk.csvRows[path] != []) ==>
      (var rows := DataRows(disk.csvRows[path], hasHeaderLine);
       && (r.Ok? <==> (forall i :: 0 <= i < |rows| ==> PyIndex(|rows[i]|, index).Some?))
       && (r.Err? ==> r == Err(IndexError))
       && (r.Ok? ==> (|r.value| == |rows| &&
            forall i :: 0 <= i < |rows| ==> r.value[i] == rows[i][PyIndex(|rows[i]|, index).value])))
  {
    var read := ReadCsv(disk, path);
    if read.Err? {
      return Err(read.error);
    }
    var rows := read.value;
    if hasHeaderLine {
      if rows == [] {
        return Err(StopIteration);
      }
      rows := rows[1..];
    }
    assert rows == DataRows(disk.csvRows[path], hasHeaderLine);
    var ids: seq<string> := [];
    var i := 0;
    while i < |rows|
      invariant 0 <= i <= |rows|
      invariant |ids| == i
      invariant forall k :: 0 <= k < i ==> PyIndex(|rows[k]|, index).Some?
      invariant forall k :: 0 <= k < i ==> ids[k] == rows[k][PyIndex(|rows[k]|, index).value]
    {
      var at := PyIndex(|rows[i]|, index);
      if at.None? {
        assert !PyIndex(|rows[i]|, index).Some?;
        return Err(IndexError);
      }
      ids := ids + [rows[i][at.value]];
      i := i + 1;
    }
    return Ok(ids);
  }

  // ---------------------------------------------------------------------------
  // detect_subjects_in_directory

  /** The names ignored when none are given. */
  const DefaultIgnoreDirNames: seq<string> := ["fsaverage"]

  /** The sub-directories a subject directory must have when none are given. */
  const DefaultRequiredSubdirs: seq<string> := ["surf"]

  /** All required sub-directories exist under the directory. */
  predicate HasAllSubdirs(disk: Disk, dir: string, required: seq<string>) {
    forall k :: 0 <= k < |required| ==> PathJoin(dir, required[k]) in disk.dirs
  }

  /** The listing entry is a directory, not ignored, with all required sub-directories. */
  predicate IsSubjectEntry(disk: Disk, subjectsDir: string, child: string, ignore: seq<string>, required: seq<string>) {
    var dir := PathJoin(subjectsDir, child);
    && dir in disk.dirs
    && Basename(dir) !in ignore
    && HasAllSubdirs(disk, dir, required)
  }

  /** The subject ids detected among the listing entries, in listing order. */
  function Detected(disk: Disk, subjectsDir: string, children: seq<string>, ignore: seq<string>, required: seq<string>): seq<string> {
    if children == [] then []
    else
      var last := children[|children| - 1];
      Detected(disk, subjectsDir, children[..|children| - 1], ignore, required)
        + (if IsSubjectEntry(disk, subjectsDir, last, ignore, required) then [Basename(PathJoin(subjectsDir, last))] else [])
  }

  /**
   * detect_subjects_in_directory over the listing of subjectsDir: the direct
   * sub-directories, minus ignored names, that have every required sub-directory.
   */
  method DetectSubjectsInDirectory(disk: Disk, subjectsDir: string, ignoreDirNames: Option<seq<string>>,
                                   requiredSubdirs: Option<seq<string>>)
    returns (r: Result<seq<string>>)
    ensures subjectsDir !in disk.listings ==> r == Err(IOError(subjectsDir))
    ensures subjectsDir in disk.listings ==>
      r == Ok(Detected(disk, subjectsDir, disk.listings[subjectsDir],
                       if ignoreDirNames.Some? then ignoreDirNames.value else DefaultIgnoreDirNames,
                       if requiredSubdirs.Some? then requiredSubdirs.value else DefaultRequiredSubdirs))
  {
    var ignore := if ignoreDirNames.Some? then ignoreDirNames.value else DefaultIgnoreDirNames;
    var required := if requiredSubdirs.Some? then requiredSubdirs.value else DefaultRequiredSubdirs;
    var listing := ListDir(disk, subjectsDir);
    if listing.Err? {
      return Err(listing.error);
    }
    var children := listing.value;
    var detected: seq<string> := [];
    var i := 0;
    while i < |children|
      invariant 0 <= i <= |children|
      invariant detected == Detected(disk, subjectsDir, children[..i], ignore, required)
    {
      var dir := PathJoin(subjectsDir, children[i]);
      var id := Basename(dir);
      if dir in disk.dirs && id !in ignore {
        var missing := MissesRequiredSubdir(disk, dir, required);
        if !missing {
          detected := detected + [id];
        }
      }
      assert children[..i + 1][..i] == children[..i];
      i := i + 1;
    }
    assert children[..|children|] == children;
    return Ok(detected);
  }

  /** The inner loop of detect_subjects_in_directory: is a required sub-directory missing? */
  method MissesRequiredSubdir(disk: Disk, dir: string, required: seq<string>) returns (missing: bool)
    ensures missing <==> !HasAllSubdirs(disk, dir, required)
  {
    missing := false;
    var j := 0;
    while j < |required|
      invariant 0 <= j <= |required|
      invariant forall k :: 0 <= k < j ==> PathJoin(dir, required[k]) in disk.dirs
    {
      if PathJoin(dir, required[j]) !in disk.dirs {
        missing := true;
        return;
      }
      j := j + 1;
    }
  }

  /**
   * For listing entries without a '/', as os.listdir returns them, a subject id
   * is detected exactly for each entry that passes the directory tests.
   */
  lemma {:induction false} DetectedMembers(disk: Disk, subjectsDir: string, children: seq<string>, ignore: seq<string>, required: seq<string>, id: string)
    requires forall k :: 0 <= k < |children| ==> '/' !in children[k]
    ensures id in Detected(disk, subjectsDir, children, ignore, required) <==>
      id in children && IsSubjectEntry(disk, subjectsDir, id, ignore, required)
  {
    if children != [] {
      var last := children[|children| - 1];
      var init := children[..|children| - 1];
      DetectedMembers(disk, subjectsDir, init, ignore, required, id);
      BasenameOfJoin(subjectsDir, last);
      assert children == init + [last];
    }
  }

  /** An entry named like an ignored directory is never detected. */
  lemma {:induction false} IgnoredNeverDetected(disk: Disk, subjectsDir: string, children: seq<string>, ignore: seq<string>, required: seq<string>, id: string)
    requires forall k :: 0 <= k < |children| ==> '/' !in children[k]
    requires id in ignore
    ensures id !in Detected(disk, subjectsDir, children, ignore, required)
  {
    DetectedMembers(disk, subjectsDir, children, ignore, required, id);
    if id in children {
      var k :| 0 <= k < |children| && children[k] == id;
      BasenameOfJoin(subjectsDir, id);
    }
  }

  // ---------------------------------------------------------------------------
  // do_subject_files_exist

  /** subjects_dir/subject/sub_dir/filename, or subjects_dir/subject/filename without sub_dir. */
  function SubjectFilePath(subjectsDir: string, subject: string, subDir: Option<string>, filename: string): string {
    if subDir.None? then PathJoin(PathJoin(subjectsDir, subject), filename)
    else PathJoin(PathJoin(PathJoin(subjectsDir, subject), subDir.value), filename)
  }

  /** The file name checked for a subject: the given name, or the template filled with SUBJECT_ID. */
  function SubjectFileName(subject: string, filename: Option<string>, template: Option<string>): Result<string>
    requires filename.Some? != template.Some?
  {
    if template.Some? then FillTemplateFilename(template.value, map["SUBJECT_ID" := subject])
    else Ok(filename.value)
  }

  /** The subjects among subjects[..n] whose file is missing, with the path checked. */
  function MissingFiles(disk: Disk, subjects: seq<string>, subjectsDir: string, filename: Option<string>,
                        template: Option<string>, subDir: Option<string>): Result<map<string, string>>
    requires filename.Some? != template.Some?
  {
    if subjects == [] then Ok(map[])
    else
      var subject := subjects[|subjects| - 1];
      match MissingFiles(disk, subjects[..|subjects| - 1], subjectsDir, filename, template, subDir)
      case Err(e) => Err(e)
      case Ok(missing) =>
        match SubjectFileName(subject, filename, template)
        case Err(e) => Err(e)
        case Ok(name) =>
          var path := SubjectFilePath(subjectsDir, subject, subDir, name);
          if path in disk.files then Ok(missing) else Ok(missing[subject := path])
  }

  /**
   * do_subject_files_exist: ValueError unless exactly one of filename and
   * template is given; otherwise the subjects whose file is missing, mapped to
   * the path that was checked.
   */
  method DoSubjectFilesExist(disk: Disk, subjects: seq<string>, subjectsDir: string, filename: Option<string>,
                             template: Option<string>, subDir: Option<string>)
    returns (r: Result<map<string, string>>)
    ensures filename.Some? == template.Some? ==> r.Err? && r.error.ValueError?
    ensures filename.Some? != template.Some? ==>
      r == MissingFiles(disk, subjects, subjectsDir, filename, template, subDir)
  {
    if filename.None? && template.None? {
      return Err(ValueError("Exactly one of " + "'filename' or " + "'filename_template' " + "must be given."));
    }
    if filename.Some? && template.Some? {
      return Err(ValueError("Exactly one of " + "'filename' or " + "'filename_template' " + "must be given."));
    }
    var missing: map<string, string> := map[];
    var i := 0;
    while i < |subjects|
      invariant 0 <= i <= |subjects|
      invariant MissingFiles(disk, subjects[..i], subjectsDir, filename, template, subDir) == Ok(missing)
    {
      var subject := subjects[i];
      var name := SubjectFileName(subject, filename, template);
      assert subjects[..i + 1][..i] == subjects[..i];
      if name.Err? {
        assert MissingFiles(disk, subjects[..i + 1], subjectsDir, filename, template, subDir) == Err(name.error);
        MissingFilesErrSticks(disk, subjects, i + 1, subjectsDir, filename, template, subDir);
        return Err(name.error);
      }
      var path := SubjectFilePath(subjectsDir, subject, subDir, name.value);
      if path !in disk.files {
        missing := missing[subject := path];
      }
      i := i + 1;
    }
    assert subjects[..|subjects|] == subjects;
    return Ok(missing);
  }

  /** Once a prefix fails, the whole list fails with the same error. */
  lemma {:induction false} MissingFilesErrSticks(disk: Disk, subjects: seq<string>, n: nat, subjectsDir: string,
                                                 filename: Option<string>, template: Option<string>, subDir: Option<string>)
    requires filename.Some? != template.Some?
    requires n <= |subjects|
    requires MissingFiles(disk, subjects[..n], subjectsDir, filename, template, subDir).Err?
    ensures MissingFiles(disk, subjects, subjectsDir, filename, template, subDir)
         == MissingFiles(disk, subjects[..n], subjectsDir, filename, template, subDir)
    decreases |subjects| - n
  {
    if n < |subjects| {
      assert subjects[..n + 1][..n] == subjects[..n];
      MissingFilesErrSticks(disk, subjects, n + 1, subjectsDir, filename, template, subDir);
    } else {
      assert subjects[..n] == subjects;
    }
  }

  /** The subject's file name can be formed and no file exists at its path. */
  predicate FileMissing(disk: Disk, subjectsDir: string, subject: string, filename: Option<string>,
                        template: Option<string>, subDir: Option<string>)
    requires filename.Some? != template.Some?
  {
    match SubjectFileName(subject, filename, template)
    case Err(_) => false
    case Ok(name) => SubjectFilePath(subjectsDir, subject, subDir, name) !in disk.files
  }

  /** The keys of the result are exactly the subjects whose file does not exist. */
  lemma {:induction false} MissingFilesKeys(disk: Disk, subjects: seq<string>, subjectsDir: string, filename: Option<string>,
                                            template: Option<string>, subDir: Option<string>, s: string)
    requires filename.Some? != template.Some?
    requires MissingFiles(disk, subjects, subjectsDir, filename, template, subDir).Ok?
    ensures s in MissingFiles(disk, subjects, subjectsDir, filename, template, subDir).value
        <==> (s in subjects && FileMissing(disk, subjectsDir, s, filename, template, subDir))
  {
    if subjects != [] {
      var init := subjects[..|subjects| - 1];
      var last := subjects[|subjects| - 1];
      var prev := MissingFiles(disk, init, subjectsDir, filename, template, subDir);
      var name := SubjectFileName(last, filename, template);
      assert prev.Ok? && name.Ok?;
      MissingFilesKeys(disk, init, subjectsDir, filename, template, subDir, s);
      assert subjects == init + [last];
      assert s in subjects <==> s in init || s == last;
    }
  }

  /** Each missing subject is mapped to the path that was checked for it. */
  lemma {:induction false} MissingFilesPaths(disk: Disk, subjects: seq<string>, subjectsDir: string, filename: Option<string>,
                                             template: Option<string>, subDir: Option<string>, s: string)
    requires filename.Some? != template.Some?
    requires MissingFiles(disk, subjects, subjectsDir, filename, template, subDir).Ok?
    requires s in MissingFiles(disk, subjects, subjectsDir, filename, template, subDir).value
    ensures SubjectFileName(s, filename, template).Ok?
    ensures MissingFiles(disk, subjects, subjectsDir, filename, template, subDir).value[s]
         == SubjectFilePath(subjectsDir, s, subDir, SubjectFileName(s, filename, template).value)
  {
    var init := subjects[..|subjects| - 1];
    var last := subjects[|subjects| - 1];
    var prev := MissingFiles(disk, init, subjectsDir, filename, template, subDir);
    var name := SubjectFileName(last, filename, template);
    assert prev.Ok? && name.Ok?;
    if s != last || SubjectFilePath(subjectsDir, last, subDir, name.value) in disk.files {
      MissingFilesPaths(disk, init, subjectsDir, filename, template, subDir, s);
    }
  }

  // ---------------------------------------------------------------------------
  // write_lines_to_text_file

  /** write_lines_to_text_file: the text written, each line followed by lineSep. */
  method WriteLinesToTextFile(lines: seq<string>, lineSep: string) returns (content: string)
    ensures content == Terminated(lines, lineSep)
  {
    content := "";
    var i := 0;
    while i < |lines|
      invariant 0 <= i <= |lines|
      invariant content + Terminated(lines[i..], lineSep) == Terminated(lines, lineSep)
    {
      assert lines[i..][1..] == lines[i + 1..];
      content := content + lines[i] + lineSep;
      i := i + 1;
    }
  }

  /** With the default "\n" separator the file holds one line per list entry, which reads back as the list. */
  lemma {:induction false} WrittenLinesReadBack(lines: seq<string>)
    requires forall k :: 0 <= k < |lines| ==> '\n' !in lines[k]
    ensures Lines(Terminated(lines, "\n")) == lines
    ensures CountChar(Terminated(lines, "\n"), '\n') == |lines|
  {
    LinesOfTerminated(lines);
    NewlinesOfTerminated(lines);
  }
}
