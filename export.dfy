/**
 * Export-format dispatch of src/brainload/export.py: the format a file name
 * selects, and the text the colourless exporter writes for it.
 */
module Export {
  import opened Wrappers
  import opened PyStr
  import opened Geometry
  import MeshExport

  /**
   * _mesh_export_nc_format_from_filename: the format and whether the
   * extension was recognised. Unknown extensions fall back to "obj".
   */
  function FormatFromFilename(filename: string): (r: (string, bool))
    ensures r.0 == "ply" || r.0 == "obj"
    ensures r.0 == "ply" <==> EndsWith(filename, ".ply")
    ensures r.1 <==> EndsWith(filename, ".ply") || EndsWith(filename, ".obj")
  {
    if EndsWith(filename, ".ply") then ("ply", true)
    else if EndsWith(filename, ".obj") then ("obj", true)
    else ("obj", false)
  }

  function FormatErrorMessage(exportFormat: string): string {
    "ERROR: " + "export_format must " + "be one of {'obj', " + "'ply'} but is '" + exportFormat + "'."
  }

  /** _get_export_nc_string: the OBJ or the colourless PLY text; any other format raises ValueError. */
  function ExportNcString(fmt: MeshExport.RealFormat, exportFormat: string, m: Mesh): (r: Result<string>)
    ensures r.Ok? <==> exportFormat == "obj" || exportFormat == "ply"
    ensures r.Err? ==> r.error == ValueError(FormatErrorMessage(exportFormat))
    ensures exportFormat == "obj" ==> r == Ok(MeshExport.MeshToObj(fmt, m))
    ensures exportFormat == "ply" ==> r == Ok(MeshExport.MeshToPly(fmt, m, None))
  {
    if exportFormat != "obj" && exportFormat != "ply" then Err(ValueError(FormatErrorMessage(exportFormat)))
    else if exportFormat == "obj" then Ok(MeshExport.MeshToObj(fmt, m))
    else Ok(MeshExport.MeshToPly(fmt, m, None))
  }

  /** The text export_mesh_nocolor_to_file writes to the file. */
  function ExportedText(fmt: MeshExport.RealFormat, filename: string, m: Mesh): Result<string> {
    ExportNcString(fmt, FormatFromFilename(filename).0, m)
  }

  /**
   * Going through the file name never raises: a ".ply" name gets the PLY text
   * without colour properties, every other name the OBJ text.
   */
  lemma {:induction false} ExportedTextByName(fmt: MeshExport.RealFormat, filename: string, m: Mesh)
    requires MeshExport.IsTokenFormat(fmt)
    ensures ExportedText(fmt, filename, m).Ok?
    ensures EndsWith(filename, ".ply") ==>
      Lines(ExportedText(fmt, filename, m).value)
        == MeshExport.PlyHeaderLines(|m.verts|, |m.faces|, false)
          + MeshExport.CoordLines(fmt, m.verts) + MeshExport.CountedFaceLines(m.faces)
    ensures !EndsWith(filename, ".ply") ==>
      Lines(ExportedText(fmt, filename, m).value)
        == [MeshExport.ObjComment] + MeshExport.ObjVertLines(fmt, m.verts) + MeshExport.ObjFaceLines(m.faces)
  {
    if EndsWith(filename, ".ply") {
      MeshExport.PlyLines(fmt, m, None);
    } else {
      MeshExport.ObjLines(fmt, m);
    }
  }
}
