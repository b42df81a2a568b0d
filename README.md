# brainload core, modelled in Dafny

brainload loads FreeSurfer brain-imaging data: surface meshes, per-vertex
morphometry ("morphology data"), annotations, labels and stats files. It
records what it loaded in `meta_data` dicts, merges the two hemispheres, and
writes meshes as OBJ, OFF or PLY text. This project models the
deterministic core of the library and proves properties of it:

- `FreeSurferData` covers `src/brainload/freesurferdata.py`:
  - merging meshes and morphology data;
  - FreeSurfer file naming;
  - meta data recording by the readers and loaders;
  - `parse_subject` and `parse_subject_standard_space_data`;
  - the subject detection modes and the subject loop of `load_group_data`.
- `Stats` covers the stats-file line parser of `src/brainload/stats.py`.
- `Annotations` covers the annotation and label helpers and loaders of `src/brainload/annotations.py`.
- `MeshExport` covers the OBJ/OFF/PLY text builders and the colour-list index of `src/brainload/meshexport.py`.
- `NiTools` covers the helpers of `src/brainload/nitools.py`:
  - hemi dict check;
  - `${VAR}` templates;
  - subjects files;
  - subject detection;
  - missing files;
  - line writing.
- `BrainWrite` covers volume marking in `src/brainload/brainwrite.py`.
- `QualityCheck` covers the `BrainDataConsistency` class of `src/brainload/qa.py`:
  - per-subject issue lists;
  - vertex-count mismatch check;
  - report counts;
  - time-difference text;
  - the HTML table.
- `Export` covers export-format dispatch in `src/brainload/export.py`.
- `CogFreeSurferData` covers the legacy `src/cogload/freesurferdata.py`.

Helper modules:

- `Wrappers`: `Option` and `Result`, and the Python exceptions as an `Error` datatype.
- `PyStr`: the Python string built-ins the code relies on:
  - `split`, `rstrip`, `join`;
  - `int()` and `str()` on integers;
  - `os.path.join` and `basename`;
  - `splitlines`.
- `PyDict`: a `Dict` class for the dicts that functions mutate in place, and the meta-data values.
- `Geometry`: vertices, faces, meshes.
- `FileSystem`: an abstract `Disk`. It gives nibabel's readers and `os.path.isfile`/`isdir`/`listdir` their answers.

Each dict the source mutates in place is a `Dict` object. Methods change it
under `modifies` and state its new contents. The loops of the source are
methods with invariants, each proved against a function that specifies
it. The properties of those functions are proved as lemmas.

The cogload module as written never imports `numpy` or `os`. Under Python 2,
`merge_meshes`, `merge_per_vertex_data` (after its format check),
`parse_brain_files`, `parse_subject` and `parse_subject_standard_space_data`
therefore raise `NameError`; `get_morphology_data_suffix_for_surface` and
`read_mgh_file` use neither module and are unaffected. See "Findings". Its
line 77 is a Python 2 `print` statement, so under Python 3 the module does
not compile at all and nothing in it runs. The model describes the evidently
intended code under Python 2 and leaves the print out.

Where the code and its tests disagree, the model follows the code:

- cogload's test passes meshes to `merge_meshes`, but the code reads mesh files.
- The brainload tests call `bl.subject`, `subject_avg` and `group`. The code defines `parse_subject`, `parse_subject_standard_space_data` and `load_group_data`.

## Model

| member | source | states |
|---|---|---|
| FreeSurferData.ShiftFaces | src/brainload/freesurferdata.py:460 | adding the shift to a face array keeps its length and shifts every index of every face |
| FreeSurferData.MergeMeshes | src/brainload/freesurferdata.py:431-462 | the loop's vertex and face arrays are the stacked vertices and the faces shifted mesh by mesh |
| FreeSurferData.MergedCounts | src/brainload/freesurferdata.py:450-462 | the merged arrays have as many rows as all inputs together |
| FreeSurferData.MergedVertsAt | src/brainload/freesurferdata.py:457-458 | vertex j of mesh k sits, unchanged, after all vertices of meshes 0..k-1 |
| FreeSurferData.MergedFacesAt | src/brainload/freesurferdata.py:457-461 | face j of mesh k sits after the faces of meshes 0..k-1, shifted by their vertex count |
| FreeSurferData.FirstMeshFacesUnshifted | src/brainload/freesurferdata.py:450-461 | the first mesh's faces are copied unshifted |
| FreeSurferData.MergedWellFormed | src/brainload/freesurferdata.py:450-462 | if each input's faces index its own vertices, every merged face indexes a merged vertex |
| FreeSurferData.MergeTwo | src/brainload/freesurferdata.py:264 | for two hemispheres: lh rows first, rh faces shifted by the lh vertex count |
| FreeSurferData.MergeMeshesExample | tests/brainload/test_freesurferdata.py:42-65 | the test's two meshes: 8 vertices, 4 faces, the second mesh's faces shifted by 4 |
| FreeSurferData.MergeMorphologyData | src/brainload/freesurferdata.py:86-89 | the loop's result is the inputs concatenated in order |
| FreeSurferData.MergedDataLength | src/brainload/freesurferdata.py:86-89 | the merged length is the sum of the input lengths |
| FreeSurferData.MergedDataAt | src/brainload/freesurferdata.py:86-89 | value j of array k sits after all values of arrays 0..k-1 |
| FreeSurferData.MergeTwoData | src/brainload/freesurferdata.py:315 | for two hemispheres: lh values, then rh values |
| FreeSurferData.MorphologySuffix | src/brainload/freesurferdata.py:108-110 | `''` exactly for `white`, `'.' + surf` for any other surface |
| FreeSurferData.MorphologySuffixInjective | src/brainload/freesurferdata.py:108-110 | different surfaces give different suffixes |
| FreeSurferData.StandardNameExtendsNative | src/brainload/freesurferdata.py:581-589 | the standard-space name is the native name, then `.fwhm<fwhm>` unless fwhm is None, then `.<average>.mgh` |
| FreeSurferData.FileInSurfDir | src/brainload/freesurferdata.py:396 | a path under `subjects_dir/subject/surf` ends in its file name, so different names give different paths |
| FreeSurferData.HemisphereFilesDiffer | src/brainload/freesurferdata.py:403-404 | the lh and rh surface files of a subject are different paths |
| FreeSurferData.SurfaceMetaKeys | src/brainload/freesurferdata.py:149-156 | recording a surface adds exactly three `<hemi>.`-prefixed keys and keeps every other entry |
| FreeSurferData.MorphologyMetaKeys | src/brainload/freesurferdata.py:208-215 | recording morphology data adds exactly three `<hemi>.`-prefixed keys and keeps every other entry |
| FreeSurferData.DistinctFields | src/brainload/freesurferdata.py:149-155 | different fields of one hemisphere give different keys |
| FreeSurferData.HemisphereKeysDiffer | src/brainload/freesurferdata.py:149-155 | no lh key equals an rh key |
| FreeSurferData.ReadFsSurfaceFileAndRecordMetaData | src/brainload/freesurferdata.py:141-158 | ValueError for a label other than lh/rh; otherwise the mesh read, with vertex count, face count and file recorded in the passed or a new dict |
| FreeSurferData.ReadFsMorphologyDataFileAndRecordMetaData | src/brainload/freesurferdata.py:192-217 | the format is checked before the label; the curv or MGH first-column data are read and their count, file and format recorded |
| FreeSurferData.SubjectMeshBoth | src/brainload/freesurferdata.py:261-264 | with both hemispheres: lh vertices first, rh faces shifted by the lh vertex count |
| FreeSurferData.BothSurfacesMeta | src/brainload/freesurferdata.py:262-263 | recording lh and then rh keeps the lh entries, so both vertex counts are present |
| FreeSurferData.LoadSubjectMeshFiles | src/brainload/freesurferdata.py:251-265 | ValueError for a hemi outside lh/rh/both; otherwise the requested mesh, or both merged with lh first, and the keys recorded; after a read error the dict holds only what the earlier reads recorded |
| FreeSurferData.SubjectMorphologyBoth | src/brainload/freesurferdata.py:312-315 | with both hemispheres: the lh values, then the rh values |
| FreeSurferData.LoadSubjectMorphologyDataFiles | src/brainload/freesurferdata.py:299-316 | the hemi is checked first, then the format; otherwise the requested data, lh first, and the keys recorded; after a read error the dict holds only what the earlier reads recorded |
| FreeSurferData.Combine | src/brainload/freesurferdata.py:398-416 | the mesh load is tried first, then the morphology load; the first error wins, and a part not asked for is None |
| FreeSurferData.ParseSubject | src/brainload/freesurferdata.py:388-428 | ValueError for a bad hemi; otherwise the native surfaces and curv files under `subjects_dir/subject/surf`, each loaded only when asked for, with the settings recorded last |
| FreeSurferData.RecordNativeSettings | src/brainload/freesurferdata.py:419-426 | writes the eight settings keys |
| FreeSurferData.ParseSubjectResult | src/brainload/freesurferdata.py:398-426 | a successful parse returns exactly the parts asked for and reads the curv file named after hemisphere, measure and surface; its meta data hold `space` = `native_space`, the hemi, subject id and subjects dir, and None for display surf and measure when not loaded |
| FreeSurferData.NativeSettingsFacts | src/brainload/freesurferdata.py:407-425 | `space` is `native_space`, the hemi, subject id and subjects dir are recorded; display subject, display surf and measure are None exactly when not loaded |
| FreeSurferData.StandardMorphologyFiles | src/brainload/freesurferdata.py:580-593 | the standard names, or the custom `lh`/`rh` names (KeyError when one is missing), under the subject's surf directory |
| FreeSurferData.StandardSpaceSpec | src/brainload/freesurferdata.py:564-597 | the average subject's display mesh and the subject's mapped MGH data, each only when asked for |
| FreeSurferData.ParseSubjectStandardSpaceData | src/brainload/freesurferdata.py:552-612 | ValueError for a bad hemi; otherwise StandardSpaceSpec, with `custom_morphology_files_used` and the settings recorded |
| FreeSurferData.RecordStandardSettings | src/brainload/freesurferdata.py:600-610 | writes the eleven settings keys |
| FreeSurferData.StandardSpaceReadsMappedFile | src/brainload/freesurferdata.py:580-589 | without custom files, one hemisphere's data come from `<hemi>.<measure><suffix><fwhm tag>.<average>.mgh` under the subject's own surf directory |
| FreeSurferData.StandardSettingsFacts | src/brainload/freesurferdata.py:600-610 | `space` is `standard_space`, the average subject is recorded, `fwhm` holds the given value or None, and display surf, display subject and measure are None exactly when not loaded |
| FreeSurferData.SourceFor | src/brainload/freesurferdata.py:729-775 | invalid mode raises; a list in file/search_dir mode raises; list mode without a list raises; file mode with a missing file raises; auto prefers list, then file, then directory search |
| FreeSurferData.DirectorySubjects | src/brainload/freesurferdata.py:754 | the searched subjects are the listed sub-directories with `surf`, minus the average subject |
| FreeSurferData.CustomFilesFor | src/brainload/freesurferdata.py:789-795 | without templates there are no custom files; otherwise the lh template's fill error, then the rh one's, or the map from lh and rh to the filled names |
| FreeSurferData.MapUntilErrorOk | src/brainload/freesurferdata.py:785-800 | the loop succeeds exactly when every subject succeeds, and keeps their order |
| FreeSurferData.MapUntilErrorPrefix | src/brainload/freesurferdata.py:785-800 | once a subject fails, the whole loop fails with that error |
| FreeSurferData.GroupRowWithoutTemplates | src/brainload/freesurferdata.py:787-798 | without templates, a subject's row is its standard-space data |
| FreeSurferData.GroupRowsOk | src/brainload/freesurferdata.py:785-801 | the group loads exactly when every subject loads, and row i is subject i's data |
| FreeSurferData.RecordAllEntries | src/brainload/freesurferdata.py:799 | after recording, the keys are the old ones plus the recorded ones, and every other entry is kept |
| FreeSurferData.GroupMetaEntries | src/brainload/freesurferdata.py:799 | `group_meta_data` maps each subject id to its meta data, and other entries stay |
| FreeSurferData.RunMetaFacts | src/brainload/freesurferdata.py:727-782 | the run meta data hold the mode and whether and which subjects file was read; the auto method is present only in auto mode; templates used iff given |
| FreeSurferData.GroupOutcome | src/brainload/freesurferdata.py:724-802 | the result: errors for hemi and mode, the chosen source's ids, then every subject's data |
| FreeSurferData.GroupOutcomeRows | src/brainload/freesurferdata.py:784-802 | on success, one row per subject in id order, and the source named in the run meta data |
| FreeSurferData.GroupUsesGivenList | src/brainload/freesurferdata.py:748-752 | with a list in auto or list mode, exactly that list is loaded, in its order |
| FreeSurferData.ReadFileSubjects | src/brainload/freesurferdata.py:766 | the first field of every row of the subjects file |
| FreeSurferData.ResolveSubjects | src/brainload/freesurferdata.py:724-775 | the ids of the chosen source, as GroupSubjects specifies |
| FreeSurferData.LoadGroupData | src/brainload/freesurferdata.py:724-802 | the outcome GroupOutcome describes; on success the group dict holds each subject's meta data |
| FreeSurferData.LoadGroupRows | src/brainload/freesurferdata.py:784-801 | the loop gives every subject's row in order and records its meta data under its id |
| FreeSurferData.BuildRunMeta | src/brainload/freesurferdata.py:727-782 | the run meta data built in source order equal RunMeta |
| FreeSurferData.LoadGroupSubject | src/brainload/freesurferdata.py:786-800 | one iteration: fill the templates, then parse the subject in standard space |
| Stats.Bucket | src/brainload/stats.py:86-95 | the lines of one kind, in file order |
| Stats.BucketsPartition | src/brainload/stats.py:86-95 | every line lands in exactly one bucket; together the buckets hold all lines |
| Stats.BucketMembership | src/brainload/stats.py:87-95 | a line of kind k is in bucket k and in no other |
| Stats.MeasureFields | src/brainload/stats.py:116 | the measure fields joined with `', '` give the line after its 10-character prefix, and no field holds `', '` |
| Stats.TableRowFields | src/brainload/stats.py:125 | the row fields are non-empty, hold no whitespace, and spell the line without its whitespace |
| Stats.TableMetaData.Add | src/brainload/stats.py:147-161 | IndexError for a line with too few fields; otherwise the table meta data become `Added(old, line)` |
| Stats.TableColStores | src/brainload/stats.py:148-157 | a TableCol line stores its rstripped value under `column_info_[index][keyword]`, creating the maps as needed; every other entry stays |
| Stats.MetaEntryStores | src/brainload/stats.py:158-160 | any other meta line sets `entries[field 1]` to field 2, rstripped, and nothing else |
| Stats.AddedKeepsValid | src/brainload/stats.py:147-161 | adding a line keeps the column indices listed once each and in step with the column map |
| Stats.MetaKeyIsNotColumnInfo | src/brainload/stats.py:158-160 | the key a non-TableCol line writes never clashes with `column_info_` |
| Stats.Insert | src/brainload/stats.py:181 | inserting adds one element: the result holds the old elements and x (as multisets), and is sorted by integer value when the list was |
| Stats.SortByInt | src/brainload/stats.py:181 | `sorted(..., key=int)` keeps the length |
| Stats.SortByIntCorrect | src/brainload/stats.py:181 | the sort orders by integer value and is a permutation |
| Stats.SortedHeaderIndices | src/brainload/stats.py:179-182 | KeyError without `column_info_`; ValueError for a non-integer index; otherwise the indices in integer order |
| Stats.SortedHeaderIndicesExample | tests/brainload/test_stats.py:214-221 | `'10'` sorts after `'9'` |
| Stats.ColumnHeaders | src/brainload/stats.py:212-218 | the ColHeader values in index order, up to the first column without one |
| Stats.HeaderLineElements | src/brainload/stats.py:200-231 | ValueError when neither source gives a header; with one source, that one and a warning; with both, the TableCol one, with a warning exactly when they differ |
| Stats.ConsistentHeader | src/brainload/stats.py:220-231 | for a consistent file, the header is the ColHeaders list and nothing is warned |
| Stats.HeaderWithoutColumnInfo | src/brainload/stats.py:220-227 | without column info the ColHeaders line decides, with a warning; without both it is an error |
| Stats.Measures | src/brainload/stats.py:89 | one measure per measure line, in order |
| Stats.TableRows | src/brainload/stats.py:95 | one row per data line, in order |
| Stats.MetaOfValid | src/brainload/stats.py:91 | the table meta data built from any lines keep their column indices in step with the column map |
| Stats.ParseStatsLines | src/brainload/stats.py:82-102 | the loop gives the ignored lines, measures and rows in file order, the meta data of the meta lines, and the resolved header |
| Stats.MetaOfPrefixError | src/brainload/stats.py:86-91 | once a prefix of the lines fails, the whole parse fails with the same error |
| Stats.ParsedBuckets | src/brainload/stats.py:86-99 | a successful parse returns every data line, split, as a row in order, and every measure line's fields |
| Stats.CheckTypeList | src/brainload/stats.py:289-290 | ValueError exactly when the type list length differs from the header length |
| Stats.TypeListMessage | src/brainload/stats.py:290 | the error opens with `Length of type_list (<types>)` and closes with `(<header columns>).` |
| Annotations.AreLabelNamesIdentical | src/brainload/annotations.py:155-160 | true iff both lists have the same length and the same name at every index |
| Annotations.DecodeEncodedColor | src/brainload/annotations.py:114-115 | for channels 0..255 the encoding `r + 256 g + 65536 b` is undone by base-256 digits |
| Annotations.EncodingInjective | src/brainload/annotations.py:114-115 | different colours with channels 0..255 get different codes |
| Annotations.AnnotLabelAndColorForVertexLabelColor | src/brainload/annotations.py:124-134 | the first row whose column 4 equals the query, with its (r, g, b, t); None exactly when no row matches |
| Annotations.MaskOf | src/brainload/annotations.py:379-383 | a mask of n entries, true inside the label, or outside it when inverted |
| Annotations.MaskOfPlainIndices | src/brainload/annotations.py:379-380 | for plain indices, the mask is true exactly at the listed vertices |
| Annotations.InvertNegates | src/brainload/annotations.py:382-383 | the inverted mask negates every entry |
| Annotations.MarkLabel | src/brainload/annotations.py:379-380 | a fresh array holding the mask, or IndexError for an entry outside the vertices |
| Annotations.InvertInPlace | src/brainload/annotations.py:383 | every entry of the array is negated |
| Annotations.LabelToMask | src/brainload/annotations.py:374-384 | ValueError when the label has more entries than there are vertices; IndexError for an entry outside; otherwise the mask |
| Annotations.Masked | src/brainload/annotations.py:412-418 | a copy of the same length, NaN where the mask is false |
| Annotations.MaskedPlainIndices | src/brainload/annotations.py:412-418 | label positions keep their values and all others become NaN, the reverse when inverted |
| Annotations.MaskDataUsingLabel | src/brainload/annotations.py:412-418 | a new array equal to Masked; the input array is not modified |
| Annotations.ReadAnnotationMd | src/brainload/annotations.py:201-223 | ValueError for a label other than lh/rh; otherwise the annotation, recorded under `<hemi>.annotation_file` |
| Annotations.ReadLabelMd | src/brainload/annotations.py:252-263 | ValueError for a label other than lh/rh; otherwise the label's vertices, recorded under `<hemi>.label_file` |
| Annotations.OneKeyAdded | src/brainload/annotations.py:209-210 | a reader adds exactly one `<hemi>.`-prefixed key and keeps every other entry |
| Annotations.LabelDirFileNames | src/brainload/annotations.py:330-333 | files are `<hemi>.<name>.<extension>` directly under `subjects_dir/subject_id/label` |
| Annotations.MergedAnnot | src/brainload/annotations.py:99-109 | ValueError with the names message when the names differ, else with the colours message when the colour counts differ; otherwise lh vertex colours before rh |
| Annotations.Annot | src/brainload/annotations.py:79-111 | ValueError for a bad hemi; otherwise one hemisphere's annotation or both merged, with the files recorded; after a read error the dict holds only what the earlier reads recorded |
| Annotations.RhShiftKey | src/brainload/annotations.py:321-327 | the shift key is `lh.num_vertices` if present, else `lh.num_data_points`; ValueError exactly when both are absent |
| Annotations.ShiftBy | src/brainload/annotations.py:342 | adding the shift to the index array: an int shifts by itself, a bool by 0 or 1, a string or None raises TypeError |
| Annotations.Shifted | src/brainload/annotations.py:342 | every index shifted by d |
| Annotations.LabelBoth | src/brainload/annotations.py:340-343 | with both hemispheres: lh indices, then rh indices shifted by the lh count |
| Annotations.LabelErrorOrder | src/brainload/annotations.py:340-342 | a missing lh or rh file gives its read error whatever the shift value; with both read, TypeError exactly for a string or None shift |
| Annotations.LabelMetaBoth | src/brainload/annotations.py:340-341 | loading both adds `lh.label_file` and `rh.label_file` with their paths and keeps every other entry |
| Annotations.LabelMetaExample | tests/brainload/test_annotations.py:143-151 | from `{'lh.num_vertices': n}` the meta data hold exactly three entries: both label files and the kept count |
| Annotations.Label | src/brainload/annotations.py:313-345 | ValueError for a bad hemi, for `both` without a meta dict, and for `both` without an lh count, each leaving the dict as it was; otherwise one label, or lh then shifted rh, with the shift's TypeError only after both reads; the new dict holds the recorded `<hemi>.label_file` entries on every path |
| MeshExport.NewlineJoinedLines | src/brainload/meshexport.py:80 | `'\n'.join(lines) + '\n'` reads back as the lines and holds one newline per line |
| MeshExport.SectionLines | src/brainload/meshexport.py:77-80 | an empty section is `''`; a non-empty one is one terminated line per element |
| MeshExport.ObjVertLines | src/brainload/meshexport.py:79 | one `v` line per vertex, in order |
| MeshExport.ObjFaceLines | src/brainload/meshexport.py:99 | one `f` line per face, in order |
| MeshExport.CoordLines | src/brainload/meshexport.py:119 | one coordinate line per vertex, in order |
| MeshExport.CountedFaceLines | src/brainload/meshexport.py:139 | one `3 a b c` line per face, in order |
| MeshExport.ColoredVertLines | src/brainload/meshexport.py:214-215 | zip: as many lines as the shorter list; line i is coordinates i followed by colour i |
| MeshExport.ObjFaceRoundTrip | src/brainload/meshexport.py:99 | an OBJ face line reads back as the face: the text holds the indices plus one |
| MeshExport.CountedFaceRoundTrip | src/brainload/meshexport.py:137-140 | an OFF/PLY face line reads back as the face: 3, then the indices unchanged |
| MeshExport.OffCountsRoundTrip | src/brainload/meshexport.py:59 | the counts line reads back as vertex count, face count and 0 |
| MeshExport.ObjVertTokens | src/brainload/meshexport.py:79 | an OBJ vertex line splits into `v` and the three coordinates |
| MeshExport.CoordTokensOf | src/brainload/meshexport.py:117-120 | an OFF/PLY vertex line splits into the three coordinates |
| MeshExport.ColoredVertTokens | src/brainload/meshexport.py:212-215 | a coloured PLY vertex line splits into three coordinates and four channels |
| MeshExport.ObjLines | src/brainload/meshexport.py:30-33 | the OBJ text is the comment line, one line per vertex, one per face, in order |
| MeshExport.OffHead | src/brainload/meshexport.py:58-59 | the OFF text starts with `OFF` and the counts line |
| MeshExport.OffLines | src/brainload/meshexport.py:56-60 | the OFF text is `OFF`, the counts, one line per vertex, one per face |
| MeshExport.PlyHeaderStructure | src/brainload/meshexport.py:175-203 | `ply` first, `element vertex n` third, the colour properties iff colours are used, `element face m` third from last, `end_header` last |
| MeshExport.PlyHeaderEnd | src/brainload/meshexport.py:197-203 | the header ends with `end_header\n` |
| MeshExport.PlyLines | src/brainload/meshexport.py:166-172 | the PLY text is the header lines, the vertex lines and the face lines |
| MeshExport.PlyColoredVertLine | src/brainload/meshexport.py:213-216 | with colours, vertex line i is coordinates i followed by the four channels of colour i |
| MeshExport.ColorIndexInRange | src/brainload/meshexport.py:408-418 | for a non-empty colour list the index is always valid |
| MeshExport.ColorIndexBucket | src/brainload/meshexport.py:415 | inside [0, 1) the index is the bucket of width 1/num_colors that holds s |
| MeshExport.ColorIndexMonotone | src/brainload/meshexport.py:408-418 | a larger scalar never selects an earlier colour |
| NiTools.CheckHemiDict | src/brainload/nitools.py:188-196 | with both_required, true iff the keys are exactly lh and rh; otherwise true iff the only key is lh or rh; false for non-mappings |
| NiTools.SubstituteLiteral | src/brainload/nitools.py:158 | text without `$` is copied unchanged |
| NiTools.SubstituteEscape | src/brainload/nitools.py:158 | `$$` escaping is undone by substitution, whatever the mapping |
| NiTools.BracedPlaceholder | src/brainload/nitools.py:158 | `${name}` is replaced by its value, or KeyError when unmapped |
| NiTools.NamedPlaceholder | src/brainload/nitools.py:158 | `$name` followed by a non-identifier character is replaced by its value |
| NiTools.ReadSubjectsFile | src/brainload/nitools.py:58-65 | IOError for a missing file; StopIteration for an empty file with header; otherwise the indexed field of every row, skipping the header row |
| NiTools.DetectSubjectsInDirectory | src/brainload/nitools.py:100-126 | the listing's sub-directories, minus ignored names (default `fsaverage`), that have every required sub-directory (default `surf`), in listing order |
| NiTools.MissesRequiredSubdir | src/brainload/nitools.py:116-120 | true iff some required sub-directory is missing |
| NiTools.DetectedMembers | src/brainload/nitools.py:108-125 | an id is detected exactly for each entry that passes the directory tests |
| NiTools.IgnoredNeverDetected | src/brainload/nitools.py:113-114 | an ignored name is never detected |
| NiTools.DoSubjectFilesExist | src/brainload/nitools.py:238-256 | ValueError unless exactly one of filename and template is given; otherwise the subjects whose file is missing, with the checked path |
| NiTools.MissingFilesErrSticks | src/brainload/nitools.py:245-248 | once a subject's template fails, the whole call fails with that error |
| NiTools.MissingFilesKeys | src/brainload/nitools.py:254-255 | the keys are exactly the subjects whose file does not exist |
| NiTools.MissingFilesPaths | src/brainload/nitools.py:250-255 | each is mapped to `subjects_dir/subject[/sub_dir]/filename` |
| NiTools.WriteLinesToTextFile | src/brainload/nitools.py:277-279 | each line followed by the separator, in order |
| NiTools.WrittenLinesReadBack | src/brainload/nitools.py:277-279 | with `\n`, the text reads back as the lines and has one newline per line |
| BrainWrite.PaintedUnmarked | src/brainload/brainwrite.py:51-57 | a voxel no entry names keeps the background |
| BrainWrite.PaintedLastWins | src/brainload/brainwrite.py:53-57 | a voxel named by entry m and no later entry holds entry m's value |
| BrainWrite.PaintedSource | src/brainload/brainwrite.py:51-57 | each voxel holds the background or the value of an entry that names it |
| BrainWrite.PaintedAppend | src/brainload/brainwrite.py:53-57 | one more entry changes exactly the voxels it names |
| BrainWrite.Resolve3 | src/brainload/brainwrite.py:57 | numpy indexing: each axis wraps once from the end, else IndexError |
| BrainWrite.MarkVoxels | src/brainload/brainwrite.py:56-57 | sets every named voxel to the value; IndexError at the first coordinate outside, leaving the earlier writes |
| BrainWrite.VolumeDataWithCustomMarks | src/brainload/brainwrite.py:51-58 | a fresh volume of the shape holding VolumeValue everywhere; IndexError when a coordinate is outside |
| BrainWrite.VolumeExample | tests/brainload/test_brainwrite.py:14-30 | the test's 3×3×3 volume holds 40, 160 and 0 where the test expects |
| BrainWrite.SurfaceOverlayAsWritten | src/brainload/brainwrite.py:62 | the function as written always raises NameError |
| BrainWrite.OverlayRow | src/brainload/brainwrite.py:66-76 | a vertex's row is the RGB of the last entry naming it, else the background |
| BrainWrite.MarkVertices | src/brainload/brainwrite.py:73-76 | colours the three channels of every named vertex; IndexError at the first bad index or short colour |
| BrainWrite.SurfaceVerticesOverlayVolumeData | src/brainload/brainwrite.py:62-77 | with the parameter read: a fresh (num_verts, 3, 1) array whose row v is OverlayRow |
| BrainWrite.SurfaceOverlayExample | tests/brainload/test_brainwrite.py:52-66 | as written the call raises; corrected, it gives the rows the test expects |
| QualityCheck.IssueBase | src/brainload/qa.py:211 | the tag up to its first `__`, or all of it |
| QualityCheck.IssueBaseOfDetailed | src/brainload/qa.py:211 | a base without `__`, followed by `__` and a detail, splits back into that base |
| QualityCheck.ExplanationOfDetailedTag | src/brainload/qa.py:210-223 | a tag `<BASE>__<detail>` with a known base gets that base's explanation |
| QualityCheck.KnownBasesArePlain | src/brainload/qa.py:215-223 | every explained base can be followed by `__` and a detail |
| QualityCheck.Appended | src/brainload/qa.py:151-153 | appending keeps the same subjects as keys |
| QualityCheck.AppendedSelects | src/brainload/qa.py:151-153 | a run of appends extends each subject's list by exactly that subject's issues, in order |
| QualityCheck.SelectedMember | src/brainload/qa.py:151-153 | a subject's appended list holds the field of each of its issues and nothing else |
| QualityCheck.AppendedInStep | src/brainload/qa.py:151-153 | the issue list and the file list of each subject stay of equal length |
| QualityCheck.EmptyLists | src/brainload/qa.py:41-43 | one empty list per subject, and no other key |
| QualityCheck.HemisOf | src/brainload/qa.py:47-56 | `both` gives `['lh', 'rh']`, otherwise `[hemi]` |
| QualityCheck.EmptyTables | src/brainload/qa.py:48-56 | one empty table per handled hemisphere |
| QualityCheck.MismatchTagInjective | src/brainload/qa.py:124 | the tags of different hemispheres differ |
| QualityCheck.MismatchesMember | src/brainload/qa.py:123-130 | the loops append an issue for exactly the (hemi, subject) pairs they passed whose counts differ |
| QualityCheck.MismatchTagIff | src/brainload/qa.py:123-130 | a subject gets a hemisphere's tag iff that hemisphere is handled and the counts differ at one of its positions |
| QualityCheck.MismatchRecorded | src/brainload/qa.py:123-130 | after the check a subject's list has a hemisphere's tag iff it had it before or the counts differ |
| QualityCheck.BrainDataConsistency.constructor | src/brainload/qa.py:25-56 | empty issue and file lists per subject, hemis from HemisOf, empty tables per hemisphere |
| QualityCheck.BrainDataConsistency.AppendIssue | src/brainload/qa.py:151-153 | KeyError for a subject not in the list; otherwise both lists of the subject are extended and the others untouched |
| QualityCheck.BrainDataConsistency.CheckSurfacesHaveIdenticalVertexCount | src/brainload/qa.py:117-131 | the lists become the old lists with AllMismatches appended, tags and files in step |
| QualityCheck.BrainDataConsistency.ReportBySubject | src/brainload/qa.py:194-207 | num_ok counts the subjects without issues, num_ok + num_incons is the number of subjects, and one report line per subject |
| QualityCheck.BrainDataConsistency.ReportHtml | src/brainload/qa.py:281-317 | the page HtmlReport describes, with the distinct tags as columns |
| QualityCheck.NewBrainDataConsistency | src/brainload/qa.py:45-46 | ValueError unless hemi is lh, rh or both |
| QualityCheck.InitExample | tests/brainload/test_qa.py:17-25 | two subjects, both hemispheres, no issues yet |
| QualityCheck.CountOk | src/brainload/qa.py:198-204 | at most the number of subjects |
| QualityCheck.AllOk | src/brainload/qa.py:198-204 | all subjects are OK iff every issue list is empty |
| QualityCheck.NoneOk | src/brainload/qa.py:198-204 | no subject is OK iff every issue list is non-empty |
| QualityCheck.SubjectReportLineOk | src/brainload/qa.py:199-205 | a subject's line reads `<subject>: OK` iff it has no issue |
| QualityCheck.SubjectReportLines | src/brainload/qa.py:198-205 | one line per subject, in list order |
| QualityCheck.TwoDigitsValue | src/brainload/qa.py:148 | `%02d` of k < 100 is two digits whose value is k |
| QualityCheck.TimedeltaText | src/brainload/qa.py:148 | less than a day is the clock text alone |
| QualityCheck.TimedeltaRoundTrip | src/brainload/qa.py:148 | every text, `H:MM:SS` or with `1 day, ` / `<d> days, ` in front, reads back as its seconds |
| QualityCheck.PtdSuffix | src/brainload/qa.py:144-148 | ` earlier` exactly for a negative difference, ` later` otherwise, after the absolute value's text |
| QualityCheck.ClockRoundTrip | src/brainload/qa.py:148 | the clock text of a time of day reads back as its seconds |
| QualityCheck.PtdRoundTrip | src/brainload/qa.py:140-148 | every whole-second difference reads back from its text, sign included |
| QualityCheck.PtdExamples | tests/brainload/test_qa.py:40-44 | 25 gives `0:00:25 later`, -70 gives `0:01:10 earlier` |
| QualityCheck.AllTagsMember | src/brainload/qa.py:282-284 | a tag is collected iff some listed subject has it |
| QualityCheck.Distinct | src/brainload/qa.py:285 | the same elements without duplicates |
| QualityCheck.ReportColumns | src/brainload/qa.py:282-285 | the columns are exactly the tags some listed subject has, each once |
| QualityCheck.IssueCellFile | src/brainload/qa.py:304-310 | a tag's cell names the file recorded with its first occurrence |
| QualityCheck.SubjectRowHtml | src/brainload/qa.py:300-311 | the row built cell by cell is Row |
| Export.FormatFromFilename | src/brainload/export.py:51-56 | always `obj` or `ply`; `ply` iff the name ends in `.ply`; matched iff it ends in `.ply` or `.obj` |
| Export.ExportNcString | src/brainload/export.py:22-28 | ValueError iff the format is not obj/ply; obj gives mesh_to_obj, ply gives colourless mesh_to_ply |
| Export.ExportedTextByName | src/brainload/export.py:13-15 | going through the file name never raises; `.ply` gives the PLY lines, any other name the OBJ lines |
| CogFreeSurferData.ReadEach | src/cogload/freesurferdata.py:7-10 | the files' contents in order, or IOError for the first missing file |
| CogFreeSurferData.ReadEachFails | src/cogload/freesurferdata.py:7-10 | reading fails iff some file is missing |
| CogFreeSurferData.MergeMeshes | src/cogload/freesurferdata.py:4-15 | the loop gives the meshes read, stacked, each mesh's faces shifted by the vertices before it |
| CogFreeSurferData.MergedPerVertex | src/cogload/freesurferdata.py:53-54 | a format other than curv/mgh gives the ValueError |
| CogFreeSurferData.MergedPerVertexAt | src/cogload/freesurferdata.py:55-64 | the merged data hold every value of every file, file after file |
| CogFreeSurferData.MergePerVertexData | src/cogload/freesurferdata.py:49-64 | the format is checked first; then the loop gives the files' data stacked in order |
| CogFreeSurferData.BrainFiles | src/cogload/freesurferdata.py:68-78 | morphology is present iff both curv files are given; an error iff a merge fails |
| CogFreeSurferData.BrainFilesMetaFacts | src/cogload/freesurferdata.py:70-76 | every unrelated entry is kept; the mesh files are recorded on success; the curv files are recorded iff morphology is returned |
| CogFreeSurferData.ParseBrainFiles | src/cogload/freesurferdata.py:67-78 | the result BrainFiles gives, and the passed (or shared default) dict updated as BrainFilesMeta |
| CogFreeSurferData.SuffixExamples | tests/cogload/test_freesurferdata.py:12-18 | `white` gives `''`, `pial` gives `.pial` |
| CogFreeSurferData.NativeFiles | src/cogload/freesurferdata.py:95-99 | `subjects_dir/subject/surf/<hemi>.<surf>` and `<hemi>.<measure><suffix>` |
| CogFreeSurferData.StandardFileNameAsBrainload | src/cogload/freesurferdata.py:112-113 | the name always holds `.fwhm<fwhm>` and ends in `.<average>.mgh`: brainload's name with a given fwhm |
| CogFreeSurferData.StandardFiles | src/cogload/freesurferdata.py:111-117 | the average subject's display surfaces, and the subject's mapped files under its own surf directory |
| CogFreeSurferData.ParseSubject | src/cogload/freesurferdata.py:93-104 | records the settings with space `subject`, then parses the native files as curv |
| CogFreeSurferData.ParseSubjectStandardSpaceData | src/cogload/freesurferdata.py:108-125 | records the settings with space `standard` and the fwhm, then parses the mapped files as mgh |
| CogFreeSurferData.SettingsKept | src/cogload/freesurferdata.py:118-124 | whatever the files, `space` and the other settings stay recorded |
| CogFreeSurferData.BrainFilesLoaded | src/cogload/freesurferdata.py:67-78 | with all four files present: lh rows then rh rows, rh faces shifted, lh values then rh values |
| CogFreeSurferData.MissingImports | src/cogload/freesurferdata.py:1-2 | the module as written raises NameError where the corrected module loads the subject |

## Left out

- NiTools.Substitute: an invalid placeholder gives the bare ValueError text "Invalid placeholder in string"; Python's `string.Template` appends the line and column, which the model does not compute.
- nibabel's readers: `read_geometry`, `read_morph_data`, `read_annot`, `read_label`, and the MGH header access in `read_mgh_file`. They are foreign library calls, modelled as the abstract `Disk`.
- File and directory I/O: `os.path.isfile`/`isdir`/`listdir`, `open`, `save_html_report`, and the `open` in `export_mesh_nocolor_to_file`. Existence and listings are `Disk` fields, and written text is a return value.
- Logging, `print` and `warnings.warn` side effects. The header warning of `_header_line_elements` is a returned value; the report prints of `_report_by_subject` are returned lines.
- `%f` rendering of vertex coordinates is a parameter `fmt: real -> string`, assumed to give one token without whitespace.
- Float `dtype` casts, `np.array` shapes beyond rows and columns, and `stats_table_to_numpy`'s `astype` conversion. Only its length check is modelled.
- Dict iteration order and `list(set(...))` in `_report_html`. The model fixes first-occurrence order for the columns.
- `_get_css_style`: the CSS text is a parameter of `ReportHtml`.
- `_pts`, `_count_surface_vertices_and_faces`, `_check_native_space_data`, `_check_subject_dirs_exist`, `check_essentials`, `check_custom`: these use clocks, file modification times and freesurferdata functions (`subject_mesh`, `subject_data_native`) that freesurferdata.py does not define.
- QualityCheck.BrainDataConsistency.CheckSurfacesHaveIdenticalVertexCount: requires both count arrays to be present for every hemisphere and subject. The KeyError or IndexError raised when they are absent is not modelled.
- `get_surface_file_path` is a parameter of the mismatch check, because freesurferdata.py does not define it.
- QualityCheck.Ptd: whole seconds only. `_ptd` also accepts float seconds, whose text carries a fraction.
- `get_surface_vertices_overlay_text_file_lines`, called by a brainwrite test, is not defined in brainwrite.py.
- `scalars_to_colors_matplotlib`, `scalars_to_colors_clist`, `_normalize_to_range_zero_one`: matplotlib and float normalisation. Only `_color_index_from_clist` is modelled.
- `spatial.py`, `spatial_transform.py`, `intersurface.py`, `brainlocate.py`, `surfacegraph.py`, `freesurferview.py`, `braindescriptors.py`, `brainvoxlocate.py`, the CLI clients and `errors.py`: floating-point geometry, scipy/networkx/mayavi wrappers, missing dependencies, argparse plumbing.
- `read_mgh_file` in both packages: it only reads a header through nibabel. The MGH first column is what `Disk.mghs` holds.
- CogFreeSurferData.ParseBrainFiles: the Python 2 `print morphology_data` at line 77 is left out.
- The shared mutable default `meta_data={}` of the cogload parse functions: the caller passes the `Dict` explicitly. The shared default is the same object passed to every call.
- MeshExport.ColorIndexBucket: floats are modelled as exact reals, so at a bucket edge the source's index can be one higher (3 colours and s = 0.3333333333333333: `3 * s` rounds to 1.0, index 1, while the exact product is below 1, index 0). ColorIndexInRange and ColorIndexMonotone hold under rounding too.
- BrainWrite.VolumeDataWithCustomMarks: the `dtype` parameter (`np.uint8` by default) is not modelled. Values are unbounded integers and are assumed to fit the dtype, as the docstring requires of the caller; there is no wrap-around.
- BrainWrite.SurfaceVerticesOverlayVolumeData: the `dtype` parameter (`np.uint8` by default) is not modelled. The channel values are unbounded integers and are assumed to fit the dtype.
- Default argument values, in every module: every parameter is explicit, and callers pass what the source would default. Among them are `shape=(256, 256, 256)`, `background_voxel_value=0` and `background_rgb=[200, 200, 200]` in brainwrite.py, and cogload's `surf='white'`, `measure='area'`, `display_surf='white'`, `fwhm='10'`, `average_subject='fsaverage'` and `curv_file_format='curv'`.
- Stats.SortByInt: `int()` on a non-integer index raises ValueError. SortedHeaderIndices reports that error, and the sort itself reads such a key as 0.

## Findings

| source | as written | input that shows it | evidently intended | confidence | as-written member | corrected member |
|---|---|---|---|---|---|---|
| src/brainload/brainwrite.py:62 | reads `background_rgbt`, a name defined nowhere, so every call raises NameError | the test's call: 10 vertices, two mark entries, background (200, 200, 200) | read the `background_rgb` parameter; rows hold the background RGB unless a mark entry names the vertex | not executed | BrainWrite.SurfaceOverlayAsWritten | BrainWrite.SurfaceVerticesOverlayVolumeData |
| src/cogload/freesurferdata.py:1-2 | the module never imports numpy or os, so `merge_meshes`, `merge_per_vertex_data` (after its format check), `parse_brain_files`, `parse_subject` and `parse_subject_standard_space_data` all raise NameError | `parse_subject` for a subject whose two surfaces and two curv files exist | `import numpy as np` and `import os`; the subject's meshes and curv data are loaded | not executed | CogFreeSurferData.ParseSubjectAsWritten | CogFreeSurferData.ParseSubject |
