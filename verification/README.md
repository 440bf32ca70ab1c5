# Metadata extractor core, modelled in Dafny

This project models the core of a metadata harvester for environmental project
data: `helper_functions.py`. The harvester walks directory trees for images,
shapefiles, tables and geodatabase containers, and lists the layers of each
geodatabase. It then builds one metadata record per item, a dictionary of fields
with a `status` of `success`, `skipped` or `failed` and the `error` message.

The model covers:

- **Discovery** (`Discovery`):
  - `get_files_to_list` keeps every file whose name ends with one of the
    requested suffixes. It lists a file once per matching suffix.
  - `get_geodbs_to_list` keeps every directory ending with the container
    suffix. It names each container after the directory that holds it. An
    `IndexError` on `parts[-2]` aborts the whole call.
  - The walk itself is given: what `os.walk` yields per root, as a sequence of
    `(dirpath, dirnames, filenames)` entries.
- **Layer listing** (`Layers`): `get_gdb_layers` goes through a dictionary keyed
  by path. A repeated path keeps its first position and its last listing. A
  container that cannot be listed, or has no layers, gives one row with no layer.
  The outcome of `fiona.listlayers` is given per path.
- **Tags** (`Tags`): `find_match` returns the first vocabulary term, in vocabulary
  order, that occurs in some part of the path. Terms are lower-cased and spaces
  become underscores. The `Species` and `activity` fields are computed from the
  lower-cased path parts.
- **Derivations** (`Derive`):
  - filename tokens;
  - the layer `first_word`;
  - the date columns and the earliest and latest parsed date;
  - the CSV row count, which is the number of lines less one;
  - the extension dispatch of tables.
- **Record shell** (`Records`):
  - The body of each extractor's `try` block is a sequence of steps. A step
    assigns a field or is the point where a statement raised.
  - The first exception ends the run. The fields assigned before it stay.
  - The handler sets `status` by exception class and `error` to the message.
  - Every record is appended to the batch.
- **The four extractors** (`Extractors`): images, geodatabase layers, shapefiles
  and tables.
  - Each one is written as a sequence of field assignments in source order,
    with the source's branches and error messages. Each statement that can
    raise is a step of its own: the read, the coordinate-system checks, the
    geometry types, the bounds and the column-name join. Statements whose
    outcome is given as one value (the geometry work, the per-row `has_z` test,
    the date conversion and its minimum and maximum) are single steps that
    assign; see "Left out".
  - What each library returns for an item is given with the item as an outcome:
    the `os.stat` result, the PIL header and EXIF table, the GeoDataFrame, the
    pandas table and the CSV text. An outcome is a value or an exception with a
    class and a message.

Paths are modelled on POSIX (`os.sep` is `/`). `os.path.join`, `normpath`,
`basename` and `splitext` are written out in `Paths`.

Where the behaviour described for the system and the code disagree, the model
follows the code:
- In the CSV branch, `row_count` is assigned before the column fields. If
  reading the text for the line count fails, `column_count`, `column_names` and
  `column_types` therefore stay at their default None.
- A shapefile without features, and a layer or shapefile without a coordinate
  system, raise `ValueError`. These records are `failed`, not `skipped`.

## Model

| member | source | states |
|---|---|---|
| Tags.MatchesIff | helper_functions.py:36-37 | a term matches exactly when its lower-cased, underscored form occurs in some path part with spaces turned into underscores |
| Tags.FindMatchFirst | helper_functions.py:29-39 | `find_match` returns None exactly when no term matches; otherwise it returns the term at the first matching position of the vocabulary |
| Tags.EarlierTermWins | helper_functions.py:35-38 | when the term at position i matches, the result is a term at position i or earlier |
| Tags.TagsIgnoreCase | helper_functions.py:108-112 | the Species and activity tags of a path do not change when the path is lower-cased first |
| Strings.SplitLower | helper_functions.py:108-109 | lower-casing each part after splitting on the separator equals splitting the lower-cased path |
| Strings.JoinSplit | helper_functions.py:115-116 | joining the pieces of a split with the separator gives back the original string |
| Strings.SplitJoin | helper_functions.py:115-116 | splitting a join of separator-free pieces gives back the pieces |
| Paths.SplitExt | helper_functions.py:89 | the stem and extension concatenate to the name; the extension is empty or a dot followed by no further dot; leading dots never start an extension |
| Paths.BasenameIsSuffix | helper_functions.py:88 | the base name is the whole final component: a suffix of the path with no separator, which is the whole path or has a separator right before it |
| Paths.BasenameAfterLastSep | helper_functions.py:88 | the base name is exactly what follows the last separator, or the whole path when it has none |
| Paths.ContainerNameIsParent | helper_functions.py:169-174 | `normpath(join(dirpath, d)).split(os.sep)[-2]` is the last segment of the normalised dirpath, and raises IndexError exactly when dirpath normalises to "." |
| Discovery.GetFilesToList | helper_functions.py:42-57 | the listed paths are, in walk order, the hits of every file of every entry of every root |
| Discovery.EntriesFilesAppend | helper_functions.py:47-48 | the listing of consecutive roots is the concatenation of their listings |
| Discovery.HitsCount | helper_functions.py:50-55 | a file is listed once per suffix it ends with, each time as `join(dirpath, f)` |
| Discovery.HitsNonEmpty | helper_functions.py:50-51 | a file is listed at all exactly when it ends with some requested suffix |
| Discovery.ListedIff | helper_functions.py:47-55 | a path is listed exactly when it is `join(dirpath, f)` for some entry and file f of that entry that ends with a requested suffix |
| Discovery.ListedEndsWithSuffix | helper_functions.py:50-55 | every listed path ends with one of the requested suffixes |
| Discovery.ImageSuffixIsCaseSensitive | helper_functions.py:22 | the image suffix test is case-sensitive: "a.png" and "a.JPG" are listed, "a.PNG" is not |
| Discovery.FoundDirs | helper_functions.py:166-169 | every container found is a directory name of some walk entry, and it ends with the suffix |
| Discovery.FoundInIff | helper_functions.py:167-169 | within one walk entry, a container is found exactly when it is one of the entry's directory names ending with the suffix, paired with that entry's dirpath |
| Discovery.FoundDirsIff | helper_functions.py:166-169 | a container is found exactly when its name ends with the suffix and some walk entry has that dirpath and lists that name among its directories |
| Discovery.FoundDirsAppend | helper_functions.py:166-169 | the containers of consecutive walk entries are those of the first entries followed by those of the rest, so walk order is kept |
| Discovery.GetGeodbsToList | helper_functions.py:161-179 | names and paths have equal length, the paths are the joins of the found directories in walk order, each name is the parent segment of its path, and a failure is the IndexError |
| Discovery.NamesOfOk | helper_functions.py:171-176 | the name list is produced exactly when every path has a parent segment |
| Discovery.GeodbNamesAreParents | helper_functions.py:161-179 | discovery succeeds exactly when no found container's directory normalises to "."; each name is then the last segment of the container's normalised directory |
| Layers.Store | helper_functions.py:192-197 | assigning a key keeps the order of the keys when the key is present, and otherwise appends the new entry at the end |
| Layers.StoreLookup | helper_functions.py:192-197 | after assigning a key, its lookup is the new list and every other key's lookup is unchanged |
| Layers.GetGdbLayers | helper_functions.py:182-219 | the rows are the flattening, in dictionary order, of the dictionary built from the paths and their listing outcomes |
| Layers.RepeatedPathsCollapse | helper_functions.py:190-198 | the dictionary's keys are the paths in first-occurrence order, and each key holds the listing of its last occurrence |
| Layers.FirstOccurrencesDistinct | helper_functions.py:190-198 | the paths in first-occurrence order are distinct, and they are exactly the input paths |
| Layers.RowsFor | helper_functions.py:202-215 | a container gives one row per layer, or a single row when it has none |
| Layers.InputRowsContents | helper_functions.py:202-215 | a row belongs to a container's rows exactly when it names that container and either names one of its layers, or has no layer because listing failed or found none |
| Layers.LayerRowsInInputOrder | helper_functions.py:182-219 | for distinct paths the rows follow the input order, and their number is the sum over containers of max(1, number of layers) |
| Layers.AllInputRowsCount | helper_functions.py:201-215 | the rows of the inputs number the sum of max(1, number of layers) |
| Derive.FilenameTokensRoundTrip | helper_functions.py:115-116 | the tokens joined with "_" give the name with hyphens turned into underscores, and no token holds "_" or "-" |
| Derive.SingleToken | helper_functions.py:115 | a name without "_" or "-" is a single token |
| Derive.FirstWordIsPrefix | helper_functions.py:323-324 | `first_word` succeeds exactly for a name holding "_"; it is then the name up to its second "_", or the whole name when it has only one: a prefix made of two underscore-free words joined by "_"; a missing name raises AttributeError and a name without "_" raises IndexError |
| Derive.Present | helper_functions.py:297 | the date columns found are exactly the known date columns present in the frame |
| Derive.NonNull | helper_functions.py:305 | dropping nulls keeps exactly the parsed dates |
| Derive.AllDatesIsUnion | helper_functions.py:297-305 | a date is among those collected exactly when some present date column parsed it |
| Derive.MinOf | helper_functions.py:309 | the minimum is one of the dates and no date is smaller |
| Derive.MaxOf | helper_functions.py:310 | the maximum is one of the dates and no date is larger |
| Derive.Temporal | helper_functions.py:297-312 | no date column, date columns with no parsed date, or a range whose ends are collected dates bounding all of them |
| Derive.LinesRoundTrip | helper_functions.py:576 | the lines a file is iterated into concatenate back to its text, and only the last may lack a line break |
| Derive.LinesKeepCrLf | helper_functions.py:576 | no "\r\n" pair is split between two consecutive lines |
| Derive.LinesUnique | helper_functions.py:576 | any list of lines that each end in exactly one break (the last may lack one) and split no "\r\n" pair is the iteration of its concatenation, so the line split is the only one with those properties |
| Derive.DispatchIgnoresCase | helper_functions.py:532-600 | for every extension as written, the table is read as CSV exactly when the extension is ".csv" up to case, and as Excel exactly when it is ".xlsx" or ".xls" up to case |
| Derive.FormatIgnoresCase | helper_functions.py:532 | the dispatch sees the lower-cased extension, so ".CSV" is read as CSV, ".XLSX" and ".Xls" as Excel and ".txt" is unsupported |
| Outcomes.AllOk | helper_functions.py:171-176 | collecting outcomes succeeds with all values exactly when every outcome succeeds; otherwise its error is that of the first failing outcome |
| Records.RunRaisesFirst | helper_functions.py:99-148 | a run raises only when some step raises, and then it raises the first such exception |
| Records.FieldsBeforeFailureStay | helper_functions.py:99-148 | a field assigned before the first exception, and not reassigned before it, keeps its value in the record |
| Records.NotAssignedKeeps | helper_functions.py:91-148 | a field not assigned before the first exception keeps its seed value, or stays absent |
| Records.FieldsAreAssignedOrSeeded | helper_functions.py:91-148 | a record holds a field exactly when the seed has it or a step before the first exception assigns it |
| Records.RunAppend | helper_functions.py:99-145 | running two stretches runs the second only when the first did not raise |
| Records.AllPutsRunToEnd | helper_functions.py:99-145 | a stretch with no raising statement runs to its end |
| Records.LastAssignmentWins | helper_functions.py:99-145 | a field assigned and never reassigned afterwards holds the assigned value |
| Records.AssignedValue | helper_functions.py:99-145 | after a block of assignments nothing has raised, and each field holds the value of its last assignment in the block |
| Records.RunPutsThenRaise | helper_functions.py:99-148 | assignments followed by a raising statement stop there, with the assigned fields and that exception |
| Records.Classify | helper_functions.py:347-353 | an exception gives `skipped` exactly for DriverError or PermissionError in the spatial extractors and PermissionError in the table extractor; every other exception gives `failed` |
| Records.Finish | helper_functions.py:146-148 | a record is `success` exactly when no step raised, and then its error is None; otherwise its status is the class's classification and its error is the exception's message |
| Records.FinishWithoutRaise | helper_functions.py:91-97 | a run without an exception keeps `status` "success" and `error` None over the fields it set |
| Records.Accumulate | helper_functions.py:86-150 | one record per item, in item order, whatever each item's outcome |
| Extractors.ExtractImageMetadata | helper_functions.py:86-150 | one image record per path, in order |
| Extractors.ExtractGdbLayerMetadata | helper_functions.py:247-355 | one layer record per row, in order, each the outcome of its own row's read and frame |
| Extractors.ExtractShapefileMetadata | helper_functions.py:389-494 | one shapefile record per path, in order, each the outcome of its own path's read and frame |
| Extractors.ExtractTableMetadata | helper_functions.py:527-626 | one table record per path, in order, each the outcome of its own path's stat and reads |
| Extractors.CleanedColumns | helper_functions.py:273 | after the cleaned geometry is assigned the frame has a "geometry" column: the columns are unchanged when one existed, and otherwise it is appended after them |
| Extractors.SpatialFields | helper_functions.py:287-293 | `has_geometry` is always recorded as true, and `feature_count` as the number of features |
| Extractors.ReadFailureDecides | helper_functions.py:259-353 | when the spatial read raises, the record holds only its seed fields, its status follows the handler and its error is the message |
| Extractors.LayerWithoutCrsFails | helper_functions.py:264-265 | a layer without a coordinate system is `failed` with "Layer has no CRS defined" and holds only its seed fields |
| Extractors.ShapefileValueErrorsFail | helper_functions.py:404-408 | a shapefile with no features fails with "Shapefile contains no features", and one with features but no coordinate system fails with "Layer has no CRS defined" |
| Extractors.ReprojectOnlyWgs84 | helper_functions.py:268-270 | reprojection is used exactly for EPSG 4326, where its failure decides the record; for any other system the reprojection outcome is irrelevant |
| Extractors.TemporalFieldsByExtractor | helper_functions.py:437-457 | without date columns the layer extractor leaves min and max unset while the shapefile one sets them to None; with date columns both set them alike, to the range or to None |
| Extractors.ZeroHeightImageFails | helper_functions.py:119-123 | an image of height zero is `failed` with "division by zero" and keeps the width and height already recorded |
| Extractors.UnsupportedTableFails | helper_functions.py:600-601 | a table with an extension no reader handles is `failed` with "Unsupported file type: " and the extension |
| Extractors.CsvRecordCountsLines | helper_functions.py:573-581 | a CSV file whose reads succeed is `success`, with `row_count` the number of lines less one |
| Extractors.CsvTextFailureKeepsDefaults | helper_functions.py:562-576 | if the line count's read fails after the sample read succeeded, `row_count` and `column_count` stay None, and status and error follow the handler |
| Extractors.EmptyWorkbookFails | helper_functions.py:584-590 | a workbook without sheets is `failed` with "list index out of range" after recording a sheet count of 0 |
| Extractors.LayerTypesFailureKeepsCrs | helper_functions.py:282-287 | when listing the sorted geometry types raises, the layer record's fields are exactly its seed with `crs` and `epsg` set, and status and error follow the handler |
| Extractors.ShapefileTypesFailureKeepsCrs | helper_functions.py:424-428 | when listing the sorted geometry types raises, the shapefile record's fields are exactly its seed with `crs` and `epsg` set, and status and error follow the handler |
| Extractors.ExcelRecordListsSheets | helper_functions.py:583-596 | a workbook whose first sheet has string labels is `success`, with the sheet count and names of the workbook, the column count and names of the first sheet, and `row_count` None |
| Extractors.ExcelOddLabelFails | helper_functions.py:591-594 | a first sheet with a label that is not a string is `failed` with Python's join TypeError message; the column count is recorded and the column names stay None |
| Extractors.LayerNameWithoutUnderscoreFails | helper_functions.py:323-324 | a layer whose name holds no "_" is `failed` with "list index out of range" once its frame has been read |

## Left out

- File system, library and console effects are not modelled:
  - `os.walk`, `os.stat`, PIL, fiona, geopandas and pandas are given per item as
    outcomes;
  - `to_csv`, `tqdm` progress and the `print` of a skipped container are left out.
- Floating point: file sizes and frame memory in megabytes (bytes over 1024²)
  and the aspect ratio are kept as exact ratios; `round` is not modelled.
  Timestamps are integers on one clock.
- Geometry work (`make_valid`, `union_all`, the oriented bounding box) is a
  given opaque value; a failure in it is an outcome of the frame. The sorted
  geometry types and the total bounds are given as separate outcomes of the
  frame, each raised at its own statement, after `crs` and `epsg`. How `sorted`
  fails on a missing geometry is not modelled beyond that outcome.
- Column labels: the spatial readers and `pd.read_csv` are taken to give string
  labels. Only an Excel header row may hold a label that is not a string; the
  sheet carries the first such label (its position and type name) as given
  data, which is not cross-checked against its columns.
- Date handling: `pd.to_datetime(..., errors="coerce")`, the `pd.concat` and the
  minimum and maximum of the collected dates are modelled as values that never
  raise. A failure there (for example mixed time-zone-aware and naive dates)
  is not modelled; the record would then be `failed` with the fields set so far.
- The per-row `has_z` test is a given outcome. A failure there sets None, as its
  inner handler does.
- `gdf.empty` is modelled as "no features". A frame with rows but no columns is
  not distinguished.
- Column `dtype` texts, and the dtype a date column gets after conversion, are
  given strings. Duplicate column names are not modelled.
- The EXIF table is given already keyed by PIL's tag numbers (271, 272, 36867,
  34853). Only the named tags are looked up.
- `str.lower` is modelled on ASCII letters only. Other characters are left
  unchanged.
- Windows paths are not modelled.
- The `process_*` wrappers (lines 637-679) only chain discovery, listing and
  extraction, and add file output. `neom_metadata_extractor_v2.py`, the user
  interface, is not part of this model.
- Records.Finish: its contract does not describe the fields. Which fields a
  record holds is stated by the `Run` lemmas and the extractor lemmas instead.
