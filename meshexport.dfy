/**
 * The text serialisers of src/brainload/meshexport.py: a mesh as a Wavefront
 * OBJ, an Object File Format (OFF) or an ASCII PLY string, and the index a
 * scalar in [0, 1] selects in a colour list.
 *
 * "%f" on a coordinate is a parameter `fmt`; "%d" on an int is IntToString.
 * Each format has a reader here (Lines, SplitWs and the Decode functions),
 * and the lemmas say what a reader gets back from the text.
 */
module MeshExport {
  import opened Wrappers
  import opened PyStr
  import opened Geometry

  /** The rendering "%f" gives a coordinate. */
  type RealFormat = real -> string

  /** What "%f" always produces: one non-empty token, without whitespace or newline. */
  ghost predicate IsTokenFormat(fmt: RealFormat) {
    forall x: real :: fmt(x) != "" && NoSpace(fmt(x)) && '\n' !in fmt(x)
  }

  /** '\n'.join(lines) + '\n'. */
  function NewlineJoined(lines: seq<string>): string {
    Join("\n", lines) + "\n"
  }

  /** Lines without a newline read back from their joined text; the text has one '\n' per line. */
  lemma {:induction false} NewlineJoinedLines(lines: seq<string>)
    requires |lines| > 0
    requires forall k :: 0 <= k < |lines| ==> '\n' !in lines[k]
    ensures NewlineJoined(lines) == Terminated(lines, "\n")
    ensures Lines(NewlineJoined(lines)) == lines
    ensures CountChar(NewlineJoined(lines), '\n') == |lines|
  {
    JoinThenSeparator(lines, "\n");
    LinesOfTerminated(lines);
    NewlinesOfTerminated(lines);
  }

  /** A section of the output: '' for no elements, else one '\n'-terminated line per element. */
  function Section(count: nat, lines: seq<string>): string {
    if count == 0 then "" else NewlineJoined(lines)
  }

  /** A section with one line per element reads back as those lines; no element gives ''. */
  lemma {:induction false} SectionLines(lines: seq<string>)
    requires forall k :: 0 <= k < |lines| ==> '\n' !in lines[k]
    ensures Section(|lines|, lines) == Terminated(lines, "\n")
    ensures Lines(Section(|lines|, lines)) == lines
    ensures Section(|lines|, lines) == "" <==> |lines| == 0
  {
    if |lines| > 0 {
      NewlineJoinedLines(lines);
    }
  }

  // ---------------------------------------------------------------------------
  // Lines of the three formats

  /** "v %f %f %f": the tag and the rendered coordinates, separated by single spaces. */
  function ObjVertLine(fmt: RealFormat, v: Vertex): string {
    Join(" ", ["v"] + CoordTokens(fmt, v))
  }

  /** "f %d %d %d" with every index shifted by one. */
  function ObjFaceLine(f: Face): string {
    Join(" ", ["f", IntToString(f.a + 1), IntToString(f.b + 1), IntToString(f.c + 1)])
  }

  function CoordTokens(fmt: RealFormat, v: Vertex): seq<string> {
    [fmt(v.x), fmt(v.y), fmt(v.z)]
  }

  /** "%f %f %f", the OFF and PLY vertex line. */
  function CoordLine(fmt: RealFormat, v: Vertex): string {
    Join(" ", CoordTokens(fmt, v))
  }

  /** "3 %d %d %d", the OFF and PLY face line: the vertex count, then the indices unchanged. */
  function CountedFaceLine(f: Face): string {
    Join(" ", ["3", IntToString(f.a), IntToString(f.b), IntToString(f.c)])
  }

  function ColorTokens(c: Color): seq<string> {
    [IntToString(c.r), IntToString(c.g), IntToString(c.b), IntToString(c.alpha)]
  }

  /** " %d %d %d %d", appended to a PLY vertex line. */
  function ColorSuffix(c: Color): string {
    " " + Join(" ", ColorTokens(c))
  }

  function ObjVertLines(fmt: RealFormat, verts: seq<Vertex>): (r: seq<string>)
    ensures |r| == |verts|
  {
    seq(|verts|, i requires 0 <= i < |verts| => ObjVertLine(fmt, verts[i]))
  }

  function ObjFaceLines(faces: seq<Face>): (r: seq<string>)
    ensures |r| == |faces|
  {
    seq(|faces|, i requires 0 <= i < |faces| => ObjFaceLine(faces[i]))
  }

  function CoordLines(fmt: RealFormat, verts: seq<Vertex>): (r: seq<string>)
    ensures |r| == |verts|
  {
    seq(|verts|, i requires 0 <= i < |verts| => CoordLine(fmt, verts[i]))
  }

  function CountedFaceLines(faces: seq<Face>): (r: seq<string>)
    ensures |r| == |faces|
  {
    seq(|faces|, i requires 0 <= i < |faces| => CountedFaceLine(faces[i]))
  }

  /** zip(vert_reps, col_reps): as many lines as the shorter of the two lists. */
  function ColoredVertLines(fmt: RealFormat, verts: seq<Vertex>, colors: seq<Color>): (r: seq<string>)
    ensures |r| == if |verts| <= |colors| then |verts| else |colors|
  {
    var n := if |verts| <= |colors| then |verts| else |colors|;
    seq(n, i requires 0 <= i < n => CoordLine(fmt, verts[i]) + ColorSuffix(colors[i]))
  }

  // ---------------------------------------------------------------------------
  // Sections and whole files

  /** _obj_verts. */
  function ObjVerts(fmt: RealFormat, verts: seq<Vertex>): string {
    Section(|verts|, ObjVertLines(fmt, verts))
  }

  /** _obj_faces. */
  function ObjFaces(faces: seq<Face>): string {
    Section(|faces|, ObjFaceLines(faces))
  }

  /** _off_verts. */
  function OffVerts(fmt: RealFormat, verts: seq<Vertex>): string {
    Section(|verts|, CoordLines(fmt, verts))
  }

  /** _off_faces. */
  function OffFaces(faces: seq<Face>): string {
    Section(|faces|, CountedFaceLines(faces))
  }

  /** _ply_faces: the same line format as OFF faces. */
  function PlyFaces(faces: seq<Face>): string {
    Section(|faces|, CountedFaceLines(faces))
  }

  /** The vertex lines _ply_verts writes: zipped with the colour suffixes when colours are given. */
  function PlyVertLines(fmt: RealFormat, verts: seq<Vertex>, colors: Option<seq<Color>>): seq<string> {
    match colors
    case None => CoordLines(fmt, verts)
    case Some(cs) => ColoredVertLines(fmt, verts, cs)
  }

  /** _ply_verts: '' for no vertices, whatever the colours. */
  function PlyVerts(fmt: RealFormat, verts: seq<Vertex>, colors: Option<seq<Color>>): string {
    Section(|verts|, PlyVertLines(fmt, verts, colors))
  }

  /** The comment line mesh_to_obj writes first. */
  const ObjComment: string := "# Generated by Brainload"

  const ObjHeader: string := ObjComment + "\n"

  /** mesh_to_obj. */
  function MeshToObj(fmt: RealFormat, m: Mesh): string {
    ObjHeader + ObjVerts(fmt, m.verts) + ObjFaces(m.faces)
  }

  /** "%d %d %d\n" % (nverts, nfaces, 0). */
  function OffCounts(numVerts: nat, numFaces: nat): string {
    Join(" ", [IntToString(numVerts), IntToString(numFaces), IntToString(0)]) + "\n"
  }

  /** mesh_to_off. */
  function MeshToOff(fmt: RealFormat, m: Mesh): string {
    "OFF\n" + OffCounts(|m.verts|, |m.faces|) + OffVerts(fmt, m.verts) + OffFaces(m.faces)
  }

  const PlyTopLines: seq<string> := ["ply", "format ascii 1.0", "comment Generated by Brainload"]

  const ColorPropertyLines: seq<string> :=
    ["property uchar red", "property uchar green", "property uchar blue", "property uchar alpha"]

  function VertexElementLines(numVerts: nat): seq<string> {
    ["element vertex " + IntToString(numVerts), "property float x", "property float y", "property float z"]
  }

  function FaceElementLines(numFaces: nat): seq<string> {
    ["element face " + IntToString(numFaces), "property list uchar int vertex_indices"]
  }

  /** _ply_header: the parts, each a run of '\n'-terminated lines, joined with ''. */
  function PlyHeader(numVerts: nat, numFaces: nat, useVertexColors: bool): string {
    var top := Terminated(PlyTopLines, "\n");
    var verts := Terminated(VertexElementLines(numVerts), "\n");
    var colors := Terminated(ColorPropertyLines, "\n");
    var face := Terminated(FaceElementLines(numFaces), "\n");
    var end := "end_header\n";
    if useVertexColors then top + verts + colors + face + end else top + verts + face + end
  }

  /** mesh_to_ply: colours are used iff they are given. */
  function MeshToPly(fmt: RealFormat, m: Mesh, colors: Option<seq<Color>>): string {
    PlyHeader(|m.verts|, |m.faces|, colors.Some?) + PlyVerts(fmt, m.verts, colors) + PlyFaces(m.faces)
  }

  // ---------------------------------------------------------------------------
  // Readers of single lines

  /** An OBJ reader's view of a face line: "f" and three 1-based indices. */
  function DecodeObjFace(line: string): Option<Face> {
    var t := SplitWs(line, None);
    if |t| != 4 || t[0] != "f" then None
    else match (ParseInt(t[1]), ParseInt(t[2]), ParseInt(t[3]))
      case (Some(a), Some(b), Some(c)) => Some(Face(a - 1, b - 1, c - 1))
      case _ => None
  }

  /** An OFF or PLY reader's view of a face line: the count 3 and three 0-based indices. */
  function DecodeCountedFace(line: string): Option<Face> {
    var t := SplitWs(line, None);
    if |t| != 4 || ParseInt(t[0]) != Some(3) then None
    else match (ParseInt(t[1]), ParseInt(t[2]), ParseInt(t[3]))
      case (Some(a), Some(b), Some(c)) => Some(Face(a, b, c))
      case _ => None
  }

  /** An OFF reader's view of the counts line (without its '\n'). */
  function DecodeOffCounts(line: string): Option<(int, int, int)> {
    var t := SplitWs(line, None);
    if |t| != 3 then None
    else match (ParseInt(t[0]), ParseInt(t[1]), ParseInt(t[2]))
      case (Some(v), Some(f), Some(e)) => Some((v, f, e))
      case _ => None
  }

  /** Rendered ints are tokens. */
  lemma {:induction false} IntTokens(ns: seq<int>)
    ensures forall k :: 0 <= k < |ns| ==> IntToString(ns[k]) != "" && NoSpace(IntToString(ns[k])) && '\n' !in IntToString(ns[k])
  {
    forall k | 0 <= k < |ns|
      ensures IntToString(ns[k]) != "" && NoSpace(IntToString(ns[k])) && '\n' !in IntToString(ns[k])
    {
      IntToStringIsToken(ns[k]);
    }
  }

  /** An OBJ face line reads back as the face: the text holds the indices plus one. */
  lemma {:induction false} ObjFaceRoundTrip(f: Face)
    ensures DecodeObjFace(ObjFaceLine(f)) == Some(f)
  {
    ObjFaceTokens(f);
    DecodeObjTokens(ObjFaceLine(f), f.a + 1, f.b + 1, f.c + 1);
  }

  lemma {:induction false} ObjFaceTokens(f: Face)
    ensures SplitWs(ObjFaceLine(f), None) == ["f", IntToString(f.a + 1), IntToString(f.b + 1), IntToString(f.c + 1)]
  {
    assert NoSpace("f");
    WordAndInts("f", f.a + 1, f.b + 1, f.c + 1);
    assert ObjFaceLine(f) == Join(" ", ["f", IntToString(f.a + 1), IntToString(f.b + 1), IntToString(f.c + 1)]);
  }

  /** A word followed by three rendered ints splits back into the four tokens. */
  lemma {:induction false} WordAndInts(w: string, x: int, y: int, z: int)
    requires w != "" && NoSpace(w)
    ensures SplitWs(Join(" ", [w, IntToString(x), IntToString(y), IntToString(z)]), None)
      == [w, IntToString(x), IntToString(y), IntToString(z)]
  {
    IntToStringIsToken(x);
    IntToStringIsToken(y);
    IntToStringIsToken(z);
    FourTokens(w, IntToString(x), IntToString(y), IntToString(z));
  }

  /** Four tokens joined by single spaces split back into the four tokens. */
  lemma {:induction false} FourTokens(a: string, b: string, c: string, d: string)
    requires a != "" && b != "" && c != "" && d != ""
    requires NoSpace(a) && NoSpace(b) && NoSpace(c) && NoSpace(d)
    ensures SplitWs(Join(" ", [a, b, c, d]), None) == [a, b, c, d]
  {
    var ts := [a, b, c, d];
    assert forall k :: 0 <= k < |ts| ==> ts[k] != "" && NoSpace(ts[k]);
    SplitWsOfJoinedTokens(ts);
  }

  lemma {:induction false} DecodeObjTokens(line: string, a: int, b: int, c: int)
    requires SplitWs(line, None) == ["f", IntToString(a), IntToString(b), IntToString(c)]
    ensures DecodeObjFace(line) == Some(Face(a - 1, b - 1, c - 1))
  {
    ParseIntToString(a);
    ParseIntToString(b);
    ParseIntToString(c);
  }

  lemma {:induction false} ParseThree()
    ensures ParseInt("3") == Some(3)
  {
    assert IntToString(3) == "3";
    ParseIntToString(3);
  }

  /** An OFF or PLY face line reads back as the face: the text holds the indices unchanged. */
  lemma {:induction false} CountedFaceRoundTrip(f: Face)
    ensures DecodeCountedFace(CountedFaceLine(f)) == Some(f)
  {
    IntTokens([f.a, f.b, f.c]);
    assert NoSpace("3");
    SplitWsOfJoinedTokens(["3", IntToString(f.a), IntToString(f.b), IntToString(f.c)]);
    ParseThree();
    ParseIntToString(f.a);
    ParseIntToString(f.b);
    ParseIntToString(f.c);
  }

  /** The OFF counts line is a single line that reads back as the vertex count, the face count and 0. */
  lemma {:induction false} OffCountsRoundTrip(numVerts: nat, numFaces: nat)
    ensures var line := Join(" ", [IntToString(numVerts), IntToString(numFaces), "0"]);
      && OffCounts(numVerts, numFaces) == Terminated([line], "\n")
      && '\n' !in line
      && DecodeOffCounts(line) == Some((numVerts as int, numFaces as int, 0))
  {
    var ts := [IntToString(numVerts), IntToString(numFaces), IntToString(0)];
    assert IntToString(0) == "0";
    IntTokens([numVerts, numFaces, 0]);
    JoinWithout('\n', " ", ts);
    SplitWsOfJoinedTokens(ts);
    ParseIntToString(numVerts);
    ParseIntToString(numFaces);
    ParseIntToString(0);
  }

  /** Non-empty pieces of text without whitespace or newline. */
  predicate AreTokens(ts: seq<string>) {
    forall k :: 0 <= k < |ts| ==> ts[k] != "" && NoSpace(ts[k]) && '\n' !in ts[k]
  }

  lemma {:induction false} AreTokensAppend(a: seq<string>, b: seq<string>)
    requires AreTokens(a) && AreTokens(b)
    ensures AreTokens(a + b)
  {
    forall k | |a| <= k < |a + b| ensures (a + b)[k] == b[k - |a|] {}
  }

  /** Tokens joined by single spaces form one line that splits back into the tokens. */
  lemma {:induction false} JoinedTokens(ts: seq<string>)
    requires AreTokens(ts)
    ensures SplitWs(Join(" ", ts), None) == ts
    ensures '\n' !in Join(" ", ts)
  {
    SplitWsOfJoinedTokens(ts);
    JoinWithout('\n', " ", ts);
  }

  lemma {:induction false} CoordAreTokens(fmt: RealFormat, v: Vertex)
    requires IsTokenFormat(fmt)
    ensures AreTokens(CoordTokens(fmt, v))
  {
    var ts := CoordTokens(fmt, v);
    assert ts[0] == fmt(v.x) && ts[1] == fmt(v.y) && ts[2] == fmt(v.z);
  }

  lemma {:induction false} ColorAreTokens(c: Color)
    ensures AreTokens(ColorTokens(c))
  {
    var ts := ColorTokens(c);
    IntToStringIsToken(c.r);
    IntToStringIsToken(c.g);
    IntToStringIsToken(c.b);
    IntToStringIsToken(c.alpha);
    assert ts == [IntToString(c.r), IntToString(c.g), IntToString(c.b), IntToString(c.alpha)];
    forall k | 0 <= k < 4 ensures ts[k] != "" && NoSpace(ts[k]) && '\n' !in ts[k] {
      if k == 0 {} else if k == 1 {} else if k == 2 {} else {}
    }
  }

  /** An OBJ vertex line splits into "v" and the three rendered coordinates. */
  lemma {:induction false} ObjVertTokens(fmt: RealFormat, v: Vertex)
    requires IsTokenFormat(fmt)
    ensures SplitWs(ObjVertLine(fmt, v), None) == ["v"] + CoordTokens(fmt, v)
    ensures '\n' !in ObjVertLine(fmt, v)
  {
    assert NoSpace("v");
    assert AreTokens(["v"]);
    CoordAreTokens(fmt, v);
    AreTokensAppend(["v"], CoordTokens(fmt, v));
    JoinedTokens(["v"] + CoordTokens(fmt, v));
  }

  /** An OFF or PLY vertex line without colour splits into the three rendered coordinates. */
  lemma {:induction false} CoordTokensOf(fmt: RealFormat, v: Vertex)
    requires IsTokenFormat(fmt)
    ensures SplitWs(CoordLine(fmt, v), None) == CoordTokens(fmt, v)
    ensures '\n' !in CoordLine(fmt, v)
  {
    CoordAreTokens(fmt, v);
    JoinedTokens(CoordTokens(fmt, v));
  }

  /** A PLY vertex line with a colour splits into the three coordinates and the four channels. */
  lemma {:induction false} ColoredVertTokens(fmt: RealFormat, v: Vertex, c: Color)
    requires IsTokenFormat(fmt)
    ensures SplitWs(CoordLine(fmt, v) + ColorSuffix(c), None) == CoordTokens(fmt, v) + ColorTokens(c)
    ensures '\n' !in CoordLine(fmt, v) + ColorSuffix(c)
  {
    var ts := CoordTokens(fmt, v) + ColorTokens(c);
    CoordAreTokens(fmt, v);
    ColorAreTokens(c);
    AreTokensAppend(CoordTokens(fmt, v), ColorTokens(c));
    JoinedTokens(ts);
    calc {
      CoordLine(fmt, v) + ColorSuffix(c);
      Join(" ", CoordTokens(fmt, v)) + (" " + Join(" ", ColorTokens(c)));
      Join(" ", CoordTokens(fmt, v)) + " " + Join(" ", ColorTokens(c));
      { JoinAppend(" ", CoordTokens(fmt, v), ColorTokens(c)); }
      Join(" ", ts);
    }
  }

  // ---------------------------------------------------------------------------
  // Line structure of whole files

  lemma {:induction false} FaceLinesHaveNoNewline(faces: seq<Face>)
    ensures NoNewlines(ObjFaceLines(faces)) && NoNewlines(CountedFaceLines(faces))
  {
    forall k | 0 <= k < |faces|
      ensures '\n' !in ObjFaceLines(faces)[k] && '\n' !in CountedFaceLines(faces)[k]
    {
      var f := faces[k];
      IntTokens([f.a + 1, f.b + 1, f.c + 1, f.a, f.b, f.c]);
      JoinWithout('\n', " ", ["f", IntToString(f.a + 1), IntToString(f.b + 1), IntToString(f.c + 1)]);
      JoinWithout('\n', " ", ["3", IntToString(f.a), IntToString(f.b), IntToString(f.c)]);
    }
  }

  lemma {:induction false} VertLinesHaveNoNewline(fmt: RealFormat, verts: seq<Vertex>, colors: Option<seq<Color>>)
    requires IsTokenFormat(fmt)
    ensures NoNewlines(ObjVertLines(fmt, verts)) && NoNewlines(CoordLines(fmt, verts))
    ensures NoNewlines(PlyVertLines(fmt, verts, colors))
  {
    forall k | 0 <= k < |verts|
      ensures '\n' !in ObjVertLines(fmt, verts)[k] && '\n' !in CoordLines(fmt, verts)[k]
    {
      ObjVertTokens(fmt, verts[k]);
      CoordTokensOf(fmt, verts[k]);
    }
    forall k | 0 <= k < |PlyVertLines(fmt, verts, colors)|
      ensures '\n' !in PlyVertLines(fmt, verts, colors)[k]
    {
      if colors.Some? {
        ColoredVertTokens(fmt, verts[k], colors.value[k]);
      }
    }
  }

  /** The text of three runs of lines, each terminated by '\n', reads back as the runs in order. */
  lemma {:induction false} LinesOfThree(a: seq<string>, b: seq<string>, c: seq<string>)
    requires NoNewlines(a) && NoNewlines(b) && NoNewlines(c)
    ensures Lines(Terminated(a, "\n") + Terminated(b, "\n") + Terminated(c, "\n")) == a + b + c
  {
    TerminatedAppend(a, b, "\n");
    NoNewlinesAppend(a, b);
    LinesOfAppend(a + b, c);
  }

  /** The OBJ text: the comment line, one line per vertex, one line per face, in input order. */
  lemma {:induction false} ObjLines(fmt: RealFormat, m: Mesh)
    requires IsTokenFormat(fmt)
    ensures Lines(MeshToObj(fmt, m)) == [ObjComment] + ObjVertLines(fmt, m.verts) + ObjFaceLines(m.faces)
  {
    VertLinesHaveNoNewline(fmt, m.verts, None);
    FaceLinesHaveNoNewline(m.faces);
    SectionLines(ObjVertLines(fmt, m.verts));
    SectionLines(ObjFaceLines(m.faces));
    ObjHeaderLine();
    LinesOfThree([ObjComment], ObjVertLines(fmt, m.verts), ObjFaceLines(m.faces));
  }

  /** The OBJ header is the comment line, terminated, and holds no other line break. */
  lemma {:induction false} ObjHeaderLine()
    ensures ObjHeader == Terminated([ObjComment], "\n")
    ensures NoNewlines([ObjComment])
  {
    assert Terminated([ObjComment], "\n") == ObjComment + "\n" + Terminated([], "\n");
    assert forall k :: 0 <= k < |ObjComment| ==> ObjComment[k] != '\n';
  }

  /** The first two lines of the OFF text. */
  lemma {:induction false} OffHead(numVerts: nat, numFaces: nat)
    ensures var line := Join(" ", [IntToString(numVerts), IntToString(numFaces), "0"]);
      && Terminated(["OFF", line], "\n") == "OFF\n" + OffCounts(numVerts, numFaces)
      && NoNewlines(["OFF", line])
  {
    var line := Join(" ", [IntToString(numVerts), IntToString(numFaces), "0"]);
    OffCountsRoundTrip(numVerts, numFaces);
    assert Terminated(["OFF", line], "\n") == "OFF" + "\n" + Terminated([line], "\n");
    assert '\n' !in "OFF";
  }

  /** The OFF text: "OFF", the counts line, one line per vertex, one line per face, in input order. */
  lemma {:induction false} OffLines(fmt: RealFormat, m: Mesh)
    requires IsTokenFormat(fmt)
    ensures Lines(MeshToOff(fmt, m))
      == ["OFF", Join(" ", [IntToString(|m.verts|), IntToString(|m.faces|), "0"])] + CoordLines(fmt, m.verts) + CountedFaceLines(m.faces)
  {
    var head := ["OFF", Join(" ", [IntToString(|m.verts|), IntToString(|m.faces|), "0"])];
    VertLinesHaveNoNewline(fmt, m.verts, None);
    FaceLinesHaveNoNewline(m.faces);
    OffHead(|m.verts|, |m.faces|);
    SectionLines(CoordLines(fmt, m.verts));
    SectionLines(CountedFaceLines(m.faces));
    LinesOfThree(head, CoordLines(fmt, m.verts), CountedFaceLines(m.faces));
  }

  /** The header lines in order; the colour properties sit between the vertex and the face element. */
  function PlyHeaderLines(numVerts: nat, numFaces: nat, useVertexColors: bool): seq<string> {
    PlyTopLines + VertexElementLines(numVerts) + (if useVertexColors then ColorPropertyLines else [])
      + FaceElementLines(numFaces) + ["end_header"]
  }

  lemma {:induction false} TerminatedFive(a: seq<string>, b: seq<string>, c: seq<string>, d: seq<string>, e: seq<string>)
    ensures Terminated(a + b + c + d + e, "\n")
      == Terminated(a, "\n") + Terminated(b, "\n") + Terminated(c, "\n") + Terminated(d, "\n") + Terminated(e, "\n")
  {
    TerminatedAppend(a, b, "\n");
    TerminatedAppend(a + b, c, "\n");
    TerminatedAppend(a + b + c, d, "\n");
    TerminatedAppend(a + b + c + d, e, "\n");
  }

  lemma {:induction false} PlyHeaderIsTerminated(numVerts: nat, numFaces: nat, useVertexColors: bool)
    ensures PlyHeader(numVerts, numFaces, useVertexColors) == Terminated(PlyHeaderLines(numVerts, numFaces, useVertexColors), "\n")
  {
    var c: seq<string> := if useVertexColors then ColorPropertyLines else [];
    var e: seq<string> := ["end_header"];
    assert Terminated(e, "\n") == "end_header\n";
    assert Terminated([], "\n") == "";
    TerminatedFive(PlyTopLines, VertexElementLines(numVerts), c, FaceElementLines(numFaces), e);
  }

  lemma {:induction false} PlyHeaderNoNewlines(numVerts: nat, numFaces: nat, useVertexColors: bool)
    ensures NoNewlines(PlyHeaderLines(numVerts, numFaces, useVertexColors))
  {
    PlyFixedLinesNoNewlines();
    ElementLinesNoNewlines(numVerts, numFaces);
    var c: seq<string> := if useVertexColors then ColorPropertyLines else [];
    NoNewlinesAppend(PlyTopLines, VertexElementLines(numVerts));
    NoNewlinesAppend(PlyTopLines + VertexElementLines(numVerts), c);
    NoNewlinesAppend(PlyTopLines + VertexElementLines(numVerts) + c, FaceElementLines(numFaces));
    NoNewlinesAppend(PlyTopLines + VertexElementLines(numVerts) + c + FaceElementLines(numFaces), ["end_header"]);
  }

  lemma {:induction false} PlyFixedLinesNoNewlines()
    ensures NoNewlines(PlyTopLines) && NoNewlines(ColorPropertyLines) && NoNewlines(["end_header"])
  {
    assert NoNewlines(PlyTopLines) by {
      assert '\n' !in "ply" && '\n' !in "format ascii 1.0" && '\n' !in "comment Generated by Brainload";
    }
    assert NoNewlines(ColorPropertyLines) by {
      assert '\n' !in "property uchar red" && '\n' !in "property uchar green";
      assert '\n' !in "property uchar blue" && '\n' !in "property uchar alpha";
    }
    assert '\n' !in "end_header";
  }

  lemma {:induction false} ElementLinesNoNewlines(numVerts: nat, numFaces: nat)
    ensures NoNewlines(VertexElementLines(numVerts)) && NoNewlines(FaceElementLines(numFaces))
  {
    assert NoNewlines(VertexElementLines(numVerts)) by {
      IntToStringIsToken(numVerts);
      assert '\n' !in "element vertex ";
      assert '\n' !in "property float x" && '\n' !in "property float y" && '\n' !in "property float z";
    }
    assert NoNewlines(FaceElementLines(numFaces)) by {
      IntToStringIsToken(numFaces);
      assert '\n' !in "element face " && '\n' !in "property list uchar int vertex_indices";
    }
  }

  lemma {:induction false} PlyHeaderLinesLayout(numVerts: nat, numFaces: nat, useVertexColors: bool)
    ensures var hl := PlyHeaderLines(numVerts, numFaces, useVertexColors);
      && |hl| == (if useVertexColors then 14 else 10)
      && hl[..3] == PlyTopLines
      && hl[3] == "element vertex " + IntToString(numVerts)
      && (useVertexColors ==> hl[7..11] == ColorPropertyLines)
      && hl[|hl| - 3] == "element face " + IntToString(numFaces)
      && hl[|hl| - 1] == "end_header"
  {
    var c: seq<string> := if useVertexColors then ColorPropertyLines else [];
    var head := PlyTopLines + VertexElementLines(numVerts);
    var tail := FaceElementLines(numFaces) + ["end_header"];
    var hl := PlyHeaderLines(numVerts, numFaces, useVertexColors);
    assert hl == head + c + tail;
    assert hl[..7] == head;
    assert hl[7..7 + |c|] == c;
    assert hl[7 + |c|..] == tail;
  }

  /**
   * The PLY header: "ply" first, "element vertex n" at line 3, the four colour
   * properties iff colours are used, "element face m" third from last, and
   * "end_header" last.
   */
  lemma {:induction false} PlyHeaderStructure(numVerts: nat, numFaces: nat, useVertexColors: bool)
    ensures var ls := Lines(PlyHeader(numVerts, numFaces, useVertexColors));
      && |ls| == (if useVertexColors then 14 else 10)
      && ls[..3] == PlyTopLines
      && ls[3] == "element vertex " + IntToString(numVerts)
      && (useVertexColors ==> ls[7..11] == ColorPropertyLines)
      && ls[|ls| - 3] == "element face " + IntToString(numFaces)
      && ls[|ls| - 1] == "end_header"
    ensures EndsWith(PlyHeader(numVerts, numFaces, useVertexColors), "end_header\n")
  {
    var hl := PlyHeaderLines(numVerts, numFaces, useVertexColors);
    PlyHeaderIsTerminated(numVerts, numFaces, useVertexColors);
    PlyHeaderNoNewlines(numVerts, numFaces, useVertexColors);
    LinesOfTerminated(hl);
    PlyHeaderLinesLayout(numVerts, numFaces, useVertexColors);
    PlyHeaderEnd(numVerts, numFaces, useVertexColors);
  }

  lemma {:induction false} PlyHeaderEnd(numVerts: nat, numFaces: nat, useVertexColors: bool)
    ensures EndsWith(PlyHeader(numVerts, numFaces, useVertexColors), "end_header\n")
  {
    var hl := PlyHeaderLines(numVerts, numFaces, useVertexColors);
    PlyHeaderIsTerminated(numVerts, numFaces, useVertexColors);
    var h := PlyHeader(numVerts, numFaces, useVertexColors);
    var pre := Terminated(hl[..|hl| - 1], "\n");
    assert hl == hl[..|hl| - 1] + ["end_header"];
    TerminatedAppend(hl[..|hl| - 1], ["end_header"], "\n");
    assert h == pre + "end_header\n";
    assert h[|h| - |"end_header\n"|..] == "end_header\n";
  }

  /**
   * The PLY text: the header lines, one line per written vertex, one line per
   * face. Without colours or with at least as many colours as vertices there
   * is one vertex line per vertex.
   */
  lemma {:induction false} PlyLines(fmt: RealFormat, m: Mesh, colors: Option<seq<Color>>)
    requires IsTokenFormat(fmt)
    requires colors.Some? ==> |colors.value| >= |m.verts|
    ensures Lines(MeshToPly(fmt, m, colors))
      == PlyHeaderLines(|m.verts|, |m.faces|, colors.Some?) + PlyVertLines(fmt, m.verts, colors) + CountedFaceLines(m.faces)
    ensures |PlyVertLines(fmt, m.verts, colors)| == |m.verts|
  {
    var hl := PlyHeaderLines(|m.verts|, |m.faces|, colors.Some?);
    var vl := PlyVertLines(fmt, m.verts, colors);
    var fl := CountedFaceLines(m.faces);
    VertLinesHaveNoNewline(fmt, m.verts, colors);
    FaceLinesHaveNoNewline(m.faces);
    PlyHeaderIsTerminated(|m.verts|, |m.faces|, colors.Some?);
    PlyHeaderNoNewlines(|m.verts|, |m.faces|, colors.Some?);
    SectionLines(vl);
    SectionLines(fl);
    LinesOfThree(hl, vl, fl);
  }

  /** With colours, the i-th vertex line is vertex i's coordinates followed by colour i's four channels. */
  lemma {:induction false} PlyColoredVertLine(fmt: RealFormat, verts: seq<Vertex>, colors: seq<Color>, i: nat)
    requires IsTokenFormat(fmt)
    requires i < |verts| && i < |colors|
    ensures i < |PlyVertLines(fmt, verts, Some(colors))|
    ensures SplitWs(PlyVertLines(fmt, verts, Some(colors))[i], None)
      == [fmt(verts[i].x), fmt(verts[i].y), fmt(verts[i].z),
          IntToString(colors[i].r), IntToString(colors[i].g), IntToString(colors[i].b), IntToString(colors[i].alpha)]
  {
    var lines := PlyVertLines(fmt, verts, Some(colors));
    assert lines == ColoredVertLines(fmt, verts, colors);
    assert lines[i] == CoordLine(fmt, verts[i]) + ColorSuffix(colors[i]);
    ColoredVertTokens(fmt, verts[i], colors[i]);
  }

  // ---------------------------------------------------------------------------
  // Colour-list index

  /**
   * _color_index_from_clist: 0 below the range, the last index above it, else
   * floor(numColors * s), capped at numColors - 1.
   */
  function ColorIndexFromClist(s: real, numColors: int): int {
    if s < 0.0 then 0
    else if s > 1.0 then numColors - 1
    else
      var index := ((numColors as real) * s).Floor;
      if index >= numColors then numColors - 1 else index
  }

  /** For a non-empty colour list the index is always valid. */
  lemma {:induction false} ColorIndexInRange(s: real, numColors: int)
    requires numColors >= 1
    ensures 0 <= ColorIndexFromClist(s, numColors) < numColors
  {
    if 0.0 <= s <= 1.0 {
      var x := (numColors as real) * s;
      assert 0.0 <= x by {
        MulNonNegative(numColors as real, s);
      }
    }
  }

  lemma {:induction false} MulNonNegative(a: real, b: real)
    requires 0.0 <= a && 0.0 <= b
    ensures 0.0 <= a * b
  {
  }

  lemma {:induction false} MulMonotone(a: real, b: real, c: real)
    requires 0.0 <= a && b <= c
    ensures a * b <= a * c
  {
    assert a * c - a * b == a * (c - b);
    MulNonNegative(a, c - b);
  }

  /** Inside [0, 1) the index is the bucket of width 1/numColors that holds s. */
  lemma {:induction false} ColorIndexBucket(s: real, numColors: int)
    requires numColors >= 1
    requires 0.0 <= s < 1.0
    ensures var i := ColorIndexFromClist(s, numColors);
      (i as real) <= (numColors as real) * s < (i + 1) as real
  {
    var n := numColors as real;
    MulMonotone(n, s, 1.0);
    assert n * s < n by {
      assert n - n * s == n * (1.0 - s);
      assert 0.0 < n * (1.0 - s);
    }
  }

  /** A larger scalar never selects an earlier colour. */
  lemma {:induction false} ColorIndexMonotone(s1: real, s2: real, numColors: int)
    requires numColors >= 1
    requires s1 <= s2
    ensures ColorIndexFromClist(s1, numColors) <= ColorIndexFromClist(s2, numColors)
  {
    ColorIndexInRange(s1, numColors);
    ColorIndexInRange(s2, numColors);
    if 0.0 <= s1 && s2 <= 1.0 {
      var n := numColors as real;
      ScaledFloorMonotone(n, s1, s2);
      var x, y := (n * s1).Floor, (n * s2).Floor;
      assert ColorIndexFromClist(s1, numColors) == if x >= numColors then numColors - 1 else x;
      assert ColorIndexFromClist(s2, numColors) == if y >= numColors then numColors - 1 else y;
    }
  }

  lemma {:induction false} ScaledFloorMonotone(n: real, s1: real, s2: real)
    requires 0.0 <= n && s1 <= s2
    ensures (n * s1).Floor <= (n * s2).Floor
  {
    MulMonotone(n, s1, s2);
    FloorMonotone(n * s1, n * s2);
  }

  lemma {:induction false} FloorMonotone(x: real, y: real)
    requires x <= y
    ensures x.Floor <= y.Floor
  {
    assert (x.Floor as real) <= x;
    assert y < (y.Floor as real) + 1.0;
    assert (x.Floor as real) < (y.Floor + 1) as real;
  }
}
