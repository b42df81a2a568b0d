/**
 * The state of the disk as far as the modelled code can observe it: what the
 * nibabel readers return for a path, which paths exist, and what a directory
 * lists. Reading a path the disk does not hold raises IOError.
 */
module FileSystem {
  import opened Wrappers
  import opened Geometry

  /** One row of a FreeSurfer colour table: r, g, b, transparency, label id. */
  datatype ColorRow = ColorRow(r: int, g: int, b: int, t: int, labelId: int)

  /** What nibabel's read_annot returns. */
  datatype AnnotData = AnnotData(vertexLabelColors: seq<int>, labelColors: seq<ColorRow>, labelNames: seq<string>)

  datatype Disk = Disk(
    surfaces: map<string, Mesh>,          // read_geometry
    curvs: map<string, seq<real>>,        // read_morph_data
    mghs: map<string, seq<real>>,         // the first column of an MGH volume
    annots: map<string, AnnotData>,       // read_annot
    labels: map<string, seq<int>>,        // read_label without scalars
    csvRows: map<string, seq<seq<string>>>, // csv.reader over a text file
    files: set<string>,                   // os.path.isfile
    dirs: set<string>,                    // os.path.isdir
    listings: map<string, seq<string>>    // os.listdir
  )
  {
    /** os.path.exists */
    predicate Exists(p: string) {
      p in files || p in dirs
    }
  }

  function ReadGeometry(d: Disk, p: string): (r: Result<Mesh>)
    ensures r.Ok? <==> p in d.surfaces
  {
    if p in d.surfaces then Ok(d.surfaces[p]) else Err(IOError(p))
  }

  /** read_morph_data for format 'curv', the MGH reader for format 'mgh'. */
  function ReadMorphology(d: Disk, p: string, isMgh: bool): (r: Result<seq<real>>)
    ensures r.Ok? <==> p in (if isMgh then d.mghs else d.curvs)
  {
    var store := if isMgh then d.mghs else d.curvs;
    if p in store then Ok(store[p]) else Err(IOError(p))
  }

  function ReadAnnot(d: Disk, p: string): (r: Result<AnnotData>)
    ensures r.Ok? <==> p in d.annots
  {
    if p in d.annots then Ok(d.annots[p]) else Err(IOError(p))
  }

  function ReadLabel(d: Disk, p: string): (r: Result<seq<int>>)
    ensures r.Ok? <==> p in d.labels
  {
    if p in d.labels then Ok(d.labels[p]) else Err(IOError(p))
  }

  function ReadCsv(d: Disk, p: string): (r: Result<seq<seq<string>>>)
    ensures r.Ok? <==> p in d.csvRows
  {
    if p in d.csvRows then Ok(d.csvRows[p]) else Err(IOError(p))
  }

  function ListDir(d: Disk, p: string): (r: Result<seq<string>>)
    ensures r.Ok? <==> p in d.listings
  {
    if p in d.listings then Ok(d.listings[p]) else Err(IOError(p))
  }
}
