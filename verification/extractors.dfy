/** The four extractors, each as the run of field assignments its `try` block
    makes for one item, in source order, finished by the record shell.

    What the libraries would return for an item is given with the item, as an
    outcome per call: the file status (`os.stat`), the image header (PIL), the
    EXIF block, the frame a spatial reader returns, the reprojected frame, the
    table a CSV or Excel reader returns, and the text of a CSV file.  Sizes in
    megabytes and the aspect ratio are kept as exact ratios before rounding, and
    geometry is an opaque library value. */
module Extractors {
  import opened Outcomes
  import opened Strings
  import opened Paths
  import opened Tags
  import opened Derive
  import opened Records
  import opened Layers

  // ---------------------------------------------------------------------------
  // Shared pieces

  /** What `os.stat` reports: size in bytes and the two timestamps. */
  datatype StatInfo = StatInfo(size: int, ctime: int, mtime: int)

  /** `1024 ** 2`, the divisor of every size in megabytes. */
  const BytesPerMb: int := 1048576

  /** What `str(e)` gives for a true division by zero. */
  const DivisionByZero: Exc := Exc(ZeroDivisionError, "division by zero")

  /** An optional string as a field value. */
  function OptStr(o: Option<string>): Value {
    if o.Some? then Str(o.value) else Null
  }

  /** The size and the two timestamps of a file. */
  function StatFields(st: StatInfo): seq<Assignment> {
    [("file_size_mb", Ratio(st.size, BytesPerMb)),
     ("created_time", Time(st.ctime)),
     ("modified_time", Time(st.mtime))]
  }

  /** `Species` and `activity`, matched against the lower-cased parts of the path. */
  function TagFields(path: string): seq<Assignment> {
    [("Species", OptStr(SpeciesTag(path))), ("activity", OptStr(ActivityTag(path)))]
  }

  /** The file fields every file-based extractor sets first: the stat block, the
      tags and the filename tokens. */
  function PreludeFields(path: string, st: StatInfo): seq<Assignment> {
    var nameNoExt := SplitExt(Basename(path)).0;
    StatFields(st) + TagFields(path) + [("filename_tokens", Str(FilenameTokensField(nameNoExt)))]
  }

  /** The steps of a `try` body that raises `e` right away. */
  function Fail(e: Exc): seq<Step> {
    [Raise(e)]
  }

  /** `", ".join(f"{c}:{t}" ...)` over the columns with the given dtypes. */
  function TypedNames(cols: seq<Column>, converted: seq<string>): seq<string>
    decreases |cols|
  {
    if |cols| == 0 then []
    else
      var c := Last(cols);
      TypedNames(DropLast(cols), converted) +
      [c.name + ":" + (if c.name in converted then c.dateDtype else c.dtype)]
  }

  // ---------------------------------------------------------------------------
  // Images

  /** The header fields PIL reports. */
  datatype ImageHeader = ImageHeader(format: Value, mode: Value, width: int, height: int)

  /** One image path with what the libraries return for it; `exif` is what
      `img._getexif()` returns, a tag-number-keyed table or None. */
  datatype ImageItem = ImageItem(
    path: string,
    stat: Result<StatInfo>,
    header: Result<ImageHeader>,
    exif: Result<Option<map<int, Value>>>)

  /** The EXIF tag numbers the extractor reads, as PIL names them. */
  const MakeTag: int := 271
  const ModelTag: int := 272
  const DateTimeOriginalTag: int := 36867
  const GpsInfoTag: int := 34853

  /** `exif.get(name)` for a tag PIL knows by that name. */
  function ExifGet(m: map<int, Value>, tag: int): Value {
    if tag in m then m[tag] else Null
  }

  /** The seed fields of an image record. */
  function ImageSeed(path: string): map<string, Value> {
    var fileName := Basename(path);
    map["image_path" := Str(path), "file_name" := Str(fileName),
        "file_extension" := Str(Lower(SplitExt(fileName).1))]
  }

  /** The EXIF fields: read when the table is present and non-empty, defaults otherwise. */
  function ExifFields(o: Option<map<int, Value>>): seq<Assignment> {
    if o.Some? && |o.value| > 0 then
      [("has_exif", Bool(true)),
       ("camera_make", ExifGet(o.value, MakeTag)),
       ("camera_model", ExifGet(o.value, ModelTag)),
       ("datetime_original", ExifGet(o.value, DateTimeOriginalTag)),
       ("gps_info", Bool(GpsInfoTag in o.value))]
    else
      [("has_exif", Bool(false)),
       ("camera_make", Null),
       ("camera_model", Null),
       ("datetime_original", Null),
       ("gps_info", Bool(false))]
  }

  /** The fields PIL's header gives. */
  function HeaderFields(h: ImageHeader): seq<Assignment> {
    [("image_format", h.format), ("color_mode", h.mode),
     ("width_px", Int(h.width)), ("height_px", Int(h.height))]
  }

  /** The image block: the header, the aspect ratio (which divides by the height),
      then EXIF. */
  function HeaderSteps(header: Result<ImageHeader>, exif: Result<Option<map<int, Value>>>): seq<Step> {
    match header
    case Err(e) => Fail(e)
    case Ok(h) =>
      Assign(HeaderFields(h)) +
      (if h.height == 0 then Fail(DivisionByZero)
       else
         Assign([("aspect_ratio", Ratio(h.width, h.height))]) +
         (match exif
          case Err(e) => Fail(e)
          case Ok(o) => Assign(ExifFields(o))))
  }

  /** The `try` body of `extract_image_metadata` for one image. */
  function ImageSteps(item: ImageItem): seq<Step> {
    match item.stat
    case Err(e) => Fail(e)
    case Ok(st) => Assign(PreludeFields(item.path, st)) + HeaderSteps(item.header, item.exif)
  }

  /** The record of one image. */
  function ImageRecord(item: ImageItem): Record {
    Finish(ImageExtractor, ImageSeed(item.path), ImageSteps(item))
  }

  /** `extract_image_metadata`: one record per image, in input order. */
  method ExtractImageMetadata(items: seq<ImageItem>) returns (records: seq<Record>)
    ensures |records| == |items|
    ensures forall i :: 0 <= i < |items| ==> records[i] == ImageRecord(items[i])
  {
    records := Accumulate(items, ImageRecord);
  }

  // ---------------------------------------------------------------------------
  // Spatial layers and shapefiles

  /** A coordinate reference system: its text and its EPSG code, if it has one. */
  datatype Crs = Crs(text: string, epsg: Option<int>)

  /** What the geometry pipeline (`make_valid`, `union_all`, the oriented box)
      yields before any spatial field is set: the box corners and the cleaned
      geometry series. */
  datatype Geometry = Geometry(obb: Value, series: Value)

  /** A frame as the spatial reader returns it, with what each later call on it
      gives: the geometry pipeline, `sorted(gdf.geom_type.unique())` (which raises
      a TypeError when a row has no geometry), `list(gdf.total_bounds)`, the byte
      count `gdf.memory_usage(deep=True).sum()` and the `has_z` test. */
  datatype Frame = Frame(
    crs: Option<Crs>,
    featureCount: nat,
    columns: seq<Column>,
    geometry: Result<Geometry>,
    geomTypes: Result<seq<string>>,
    bounds: Result<Value>,
    memoryBytes: nat,
    hasZ: Result<bool>)

  /** A spatial item's reads: the frame, and what reprojecting it to the target
      system yields (used only for a frame in EPSG 4326). */
  datatype SpatialRead = SpatialRead(read: Result<Frame>, reprojected: Result<Frame>)

  /** The EPSG code reprojection is applied to. */
  const Wgs84: int := 4326

  /** The message of a layer without a coordinate system. */
  const NoCrs: Exc := Exc(ValueError, "Layer has no CRS defined")

  /** The message of a shapefile without features. */
  const NoFeatures: Exc := Exc(ValueError, "Shapefile contains no features")

  /** The frame the extractor works on after the CRS check: reprojected exactly
      when the frame's EPSG code is 4326. */
  function Working(frame: Frame, reprojected: Result<Frame>): Result<Frame> {
    if frame.crs.Some? && frame.crs.value.epsg == Some(Wgs84) then reprojected else Ok(frame)
  }

  /** `str(gdf.crs)`. */
  function CrsText(crs: Option<Crs>): string {
    if crs.Some? then crs.value.text else "None"
  }

  /** An EPSG code as a field value. */
  function EpsgValue(crs: Crs): Value {
    if crs.epsg.Some? then Int(crs.epsg.value) else Null
  }

  /** The temporal block.  With no date column the layer extractor leaves the
      range unset and the shapefile extractor sets it to None. */
  function TemporalFields(cols: seq<Column>, setWhenAbsent: bool): seq<Assignment> {
    match Temporal(cols)
    case NoDateColumns =>
      [("has_timestamp", Bool(false))] +
      (if setWhenAbsent then [("min_date", Null), ("max_date", Null)] else [])
    case NoDates => [("has_timestamp", Bool(true)), ("min_date", Null), ("max_date", Null)]
    case Range(lo, hi) => [("has_timestamp", Bool(true)), ("min_date", Time(lo)), ("max_date", Time(hi))]
  }

  /** The attribute block, after the date columns have been converted. */
  function AttributeFields(cols: seq<Column>): seq<Assignment> {
    [("field_count", Int(|cols|)),
     ("field_names", Str(Join(ColumnNames(cols), ", "))),
     ("field_types", Str(Join(TypedNames(cols, PresentDateColumns(cols)), ", ")))]
  }

  /** The closing block: memory use in megabytes, then the best-effort Z test. */
  function ClosingFields(g: Frame): seq<Assignment> {
    [("memory_mb", Ratio(g.memoryBytes, BytesPerMb)),
     ("has_z", if g.hasZ.Ok? then Bool(g.hasZ.value) else Null)]
  }

  /** `", ".join(sorted(gdf.geom_type.unique()))` as a field value. */
  function TypesValue(types: Result<seq<string>>): Result<Value> {
    match types
    case Ok(ts) => Ok(Str(Join(ts, ", ")))
    case Err(e) => Err(e)
  }

  /** The geometry types, then the bounds: the two spatial fields whose calls may
      raise once the coordinate system is recorded. */
  function SummarySteps(g: Frame): seq<Step> {
    Fetch("geometry_types", TypesValue(g.geomTypes)) + Fetch("bbox", g.bounds)
  }

  /** The column `gdf["geometry"] = gdf.geometry.make_valid()` adds when the
      frame has none of that name. */
  const GeometryColumn: Column := Column("geometry", "geometry", "geometry", [])

  /** The columns once the cleaned geometry is assigned: a "geometry" column is
      replaced in place, or appended at the end when there was none. */
  function CleanedColumns(cols: seq<Column>): (r: seq<Column>)
    ensures "geometry" in ColumnNames(r)
    ensures |cols| <= |r| <= |cols| + 1 && r[..|cols|] == cols
    ensures |r| == |cols| <==> "geometry" in ColumnNames(cols)
  {
    if "geometry" in ColumnNames(cols) then cols
    else
      var r := cols + [GeometryColumn];
      assert ColumnNames(r)[|cols|] == "geometry";
      r
  }

  /** The spatial fields after the bounds, shared by both extractors, the layer
      one also storing the geometry series.  The frame has a "geometry" column by
      now, so `has_geometry` is always true. */
  function SpatialFields(g: Frame, geo: Geometry, withSeries: bool): (r: seq<Assignment>)
    ensures ("has_geometry", Bool(true)) in r && ("feature_count", Int(g.featureCount)) in r
  {
    [("obb_bbox", geo.obb)] +
    (if withSeries then [("geometry", geo.series)] else []) +
    [("feature_count", Int(g.featureCount)),
     ("has_geometry", Bool("geometry" in ColumnNames(CleanedColumns(g.columns))))]
  }

  /** The seed fields of a layer record. */
  function LayerSeed(row: LayerRow): map<string, Value> {
    map["geodatabase" := Str(row.geodatabase), "layer" := OptStr(row.layer)]
  }

  /** The coordinate system of a layer; `epsg` is guarded against a missing one. */
  function LayerCrsFields(g: Frame): seq<Assignment> {
    [("crs", Str(CrsText(g.crs))),
     ("epsg", if g.crs.Some? then EpsgValue(g.crs.value) else Null)]
  }

  /** The layer fields set after the bounds and before the name is split. */
  function LayerBlock(g: Frame, geo: Geometry): seq<Assignment> {
    SpatialFields(g, geo, true) +
    TemporalFields(CleanedColumns(g.columns), false) +
    AttributeFields(CleanedColumns(g.columns))
  }

  /** The layer body once the working frame and its geometry are known. */
  function LayerBody(row: LayerRow, g: Frame, geo: Geometry): seq<Step> {
    Assign(LayerCrsFields(g)) + SummarySteps(g) + Assign(LayerBlock(g, geo)) + NameSteps(row, g)
  }

  /** The layer fields from `first_word` on: the name split, the tags and the
      closing block. */
  function NameSteps(row: LayerRow, g: Frame): seq<Step> {
    match FirstWord(row.layer)
    case Err(e) => Fail(e)
    case Ok(w) => Assign([("first_word", Str(w))] + TagFields(row.geodatabase) + ClosingFields(g))
  }

  /** The `try` body of `extract_gdb_layer_metadata` for one layer row. */
  function LayerSteps(row: LayerRow, src: SpatialRead): seq<Step> {
    match src.read
    case Err(e) => Fail(e)
    case Ok(frame) =>
      if frame.crs.None? then Fail(NoCrs)
      else
        match Working(frame, src.reprojected)
        case Err(e) => Fail(e)
        case Ok(g) =>
          match g.geometry
          case Err(e) => Fail(e)
          case Ok(geo) => LayerBody(row, g, geo)
  }

  /** The record of one layer row. */
  function LayerRecord(item: (LayerRow, SpatialRead)): Record {
    Finish(GdbLayerExtractor, LayerSeed(item.0), LayerSteps(item.0, item.1))
  }

  /** `extract_gdb_layer_metadata`: one record per layer row, in row order. */
  method ExtractGdbLayerMetadata(items: seq<(LayerRow, SpatialRead)>) returns (records: seq<Record>)
    ensures |records| == |items|
    ensures forall i :: 0 <= i < |items| ==> records[i] == LayerRecord(items[i])
  {
    records := Accumulate(items, LayerRecord);
  }

  /** The seed fields of a shapefile record. */
  function ShapefileSeed(path: string): map<string, Value> {
    map["shapefile_path" := Str(path), "layer_name" := Str(SplitExt(Basename(path)).0)]
  }

  /** The shapefile body once the working frame and its geometry are known;
      `gdf.crs.to_epsg()` is called without a guard here. */
  function ShapefileBody(path: string, g: Frame, geo: Geometry): seq<Step> {
    Assign([("crs", Str(CrsText(g.crs)))]) +
    (if g.crs.None? then Fail(Exc(AttributeError, "'NoneType' object has no attribute 'to_epsg'"))
     else
       Assign([("epsg", EpsgValue(g.crs.value))]) + SummarySteps(g) + Assign(ShapefileBlock(path, g, geo)))
  }

  /** The shapefile fields set after the bounds. */
  function ShapefileBlock(path: string, g: Frame, geo: Geometry): seq<Assignment> {
    SpatialFields(g, geo, false) +
    TemporalFields(CleanedColumns(g.columns), true) +
    AttributeFields(CleanedColumns(g.columns)) +
    TagFields(path) +
    ClosingFields(g)
  }

  /** The `try` body of `extract_shapefile_metadata` for one file. */
  function ShapefileSteps(path: string, src: SpatialRead): seq<Step> {
    match src.read
    case Err(e) => Fail(e)
    case Ok(frame) =>
      if frame.featureCount == 0 then Fail(NoFeatures)
      else if frame.crs.None? then Fail(NoCrs)
      else
        match Working(frame, src.reprojected)
        case Err(e) => Fail(e)
        case Ok(g) =>
          match g.geometry
          case Err(e) => Fail(e)
          case Ok(geo) => ShapefileBody(path, g, geo)
  }

  /** The record of one shapefile. */
  function ShapefileRecord(item: (string, SpatialRead)): Record {
    Finish(ShapefileExtractor, ShapefileSeed(item.0), ShapefileSteps(item.0, item.1))
  }

  /** `extract_shapefile_metadata`: one record per file, in input order. */
  method ExtractShapefileMetadata(items: seq<(string, SpatialRead)>) returns (records: seq<Record>)
    ensures |records| == |items|
    ensures forall i :: 0 <= i < |items| ==> records[i] == ShapefileRecord(items[i])
  {
    records := Accumulate(items, ShapefileRecord);
  }

  // ---------------------------------------------------------------------------
  // Tables

  /** The first rows of a table as pandas reads them. */
  datatype Table = Table(columns: seq<Column>)

  /** A column label that is not a string, as a number or a date in a sheet's
      header row becomes: its position among the labels and its Python type. */
  datatype OddLabel = OddLabel(index: nat, typeName: string)

  /** A sheet as `xls.parse` returns it: the table, and its first column label
      that is not a string, if any. */
  datatype Sheet = Sheet(table: Table, oddLabel: Option<OddLabel>)

  /** An Excel workbook: its sheet names and the parse of its first sheet. */
  datatype Workbook = Workbook(sheets: seq<string>, firstSheet: Result<Sheet>)

  /** What `", ".join` raises at the first item that is not a string. */
  function JoinTypeError(l: OddLabel): Exc {
    Exc(TypeError, "sequence item " + NatText(l.index) + ": expected str instance, " + l.typeName + " found")
  }

  /** One table path with what the libraries return for it: `csv` from
      `pd.read_csv`, `text` from reading the file as text, `workbook` from
      `pd.ExcelFile`.  Only the reads its extension dispatches to are used. */
  datatype TableItem = TableItem(
    path: string,
    stat: Result<StatInfo>,
    csv: Result<Table>,
    text: Result<string>,
    workbook: Result<Workbook>)

  /** The seed fields of a table record. */
  function TableSeed(path: string): map<string, Value> {
    var fileName := Basename(path);
    map["file_path" := Str(path), "file_name" := Str(fileName),
        "file_extension" := Str(FileExtension(path))]
  }

  /** Every table field set to its default before the dispatch. */
  function TableDefaults(): seq<Assignment> {
    [("row_count", Null), ("column_count", Null), ("column_names", Null),
     ("column_types", Null), ("sheet_count", Null), ("sheet_names", Null),
     ("has_timestamp", Bool(false)), ("min_date", Null), ("max_date", Null)]
  }

  /** The column block of a table, read before any date conversion. */
  function ColumnFields(t: Table): seq<Assignment> {
    [("column_count", Int(|t.columns|))] + LabelFields(t)
  }

  /** The column names and the column types, joined. */
  function LabelFields(t: Table): seq<Assignment> {
    [("column_names", Str(Join(ColumnNames(t.columns), ", "))),
     ("column_types", Str(Join(TypedNames(t.columns, []), ", ")))]
  }

  /** The temporal block of a table: nothing without a date column, and the range
      only when some date parsed. */
  function TableTemporalFields(t: Table): seq<Assignment> {
    match Temporal(t.columns)
    case NoDateColumns => []
    case NoDates => [("has_timestamp", Bool(true))]
    case Range(lo, hi) => [("has_timestamp", Bool(true)), ("min_date", Time(lo)), ("max_date", Time(hi))]
  }

  /** The CSV branch: the row count is the number of lines less the header. */
  function CsvSteps(item: TableItem): seq<Step> {
    match item.csv
    case Err(e) => Fail(e)
    case Ok(t) =>
      match item.text
      case Err(e) => Fail(e)
      case Ok(text) => Assign([("row_count", Int(CsvRowCount(text)))] + ColumnFields(t) + TableTemporalFields(t))
  }

  /** The sheet count and the sheet names of a workbook. */
  function SheetFields(wb: Workbook): seq<Assignment> {
    [("sheet_count", Int(|wb.sheets|)), ("sheet_names", Str(Join(wb.sheets, ", ")))]
  }

  /** The first sheet's columns: the count, then the names, whose join raises at
      a label that is not a string, then the types, the row count and the dates. */
  function SheetSteps(sh: Sheet): seq<Step> {
    Assign([("column_count", Int(|sh.table.columns|))]) +
    (match sh.oddLabel
     case Some(l) => Fail(JoinTypeError(l))
     case None => Assign(LabelFields(sh.table) + ExcelTail(sh.table)))
  }

  /** The Excel fields after the column names and types: the row count, left
      None, and the dates. */
  function ExcelTail(t: Table): seq<Assignment> {
    [("row_count", Null)] + TableTemporalFields(t)
  }

  /** The Excel branch: the sheets, then the first sheet's columns. */
  function ExcelSteps(item: TableItem): seq<Step> {
    match item.workbook
    case Err(e) => Fail(e)
    case Ok(wb) =>
      Assign(SheetFields(wb)) +
      (if |wb.sheets| == 0 then Fail(IndexOutOfRange)
       else
         match wb.firstSheet
         case Err(e) => Fail(e)
         case Ok(sh) => SheetSteps(sh))
  }

  /** The dispatch on the lower-cased extension. */
  function DispatchSteps(item: TableItem): seq<Step> {
    var ext := FileExtension(item.path);
    match FormatOf(ext)
    case Csv => CsvSteps(item)
    case Excel => ExcelSteps(item)
    case Unsupported => Fail(UnsupportedType(ext))
  }

  /** The fields set before the dispatch. */
  function TablePrelude(path: string, st: StatInfo): seq<Assignment> {
    PreludeFields(path, st) + TableDefaults()
  }

  /** The `try` body of `extract_table_metadata` for one file. */
  function TableSteps(item: TableItem): seq<Step> {
    match item.stat
    case Err(e) => Fail(e)
    case Ok(st) => Assign(TablePrelude(item.path, st)) + DispatchSteps(item)
  }

  /** The record of one table. */
  function TableRecord(item: TableItem): Record {
    Finish(TableExtractor, TableSeed(item.path), TableSteps(item))
  }

  /** `extract_table_metadata`: one record per file, in input order. */
  method ExtractTableMetadata(items: seq<TableItem>) returns (records: seq<Record>)
    ensures |records| == |items|
    ensures forall i :: 0 <= i < |items| ==> records[i] == TableRecord(items[i])
  {
    records := Accumulate(items, TableRecord);
  }

  // ---------------------------------------------------------------------------
  // Outcomes of single items

  /** A reader that raises decides the record alone: the status follows the
      extractor's handlers, the error is the message, and only the seed fields
      are present. */
  lemma ReadFailureDecides(row: LayerRow, path: string, src: SpatialRead, e: Exc)
    requires src.read == Err(e)
    ensures LayerRecord((row, src)) == Record(LayerSeed(row), Classify(GdbLayerExtractor, e.kind), Some(e.message))
    ensures ShapefileRecord((path, src)) == Record(ShapefileSeed(path), Classify(ShapefileExtractor, e.kind), Some(e.message))
  {
  }

  /** A layer read without a coordinate system fails (it is a ValueError, not one
      of the skipped classes). */
  lemma LayerWithoutCrsFails(row: LayerRow, src: SpatialRead)
    requires src.read.Ok? && src.read.value.crs.None?
    ensures LayerRecord((row, src)).status == Failed
    ensures LayerRecord((row, src)).error == Some("Layer has no CRS defined")
    ensures LayerRecord((row, src)).fields == LayerSeed(row)
  {
  }

  /** A shapefile without features fails, whatever its coordinate system; one with
      features but without a coordinate system fails too. */
  lemma ShapefileValueErrorsFail(path: string, src: SpatialRead)
    requires src.read.Ok?
    ensures src.read.value.featureCount == 0 ==>
              ShapefileRecord((path, src)).status == Failed &&
              ShapefileRecord((path, src)).error == Some("Shapefile contains no features")
    ensures src.read.value.featureCount > 0 && src.read.value.crs.None? ==>
              ShapefileRecord((path, src)).status == Failed &&
              ShapefileRecord((path, src)).error == Some("Layer has no CRS defined")
  {
  }

  /** Reprojection is asked for exactly when the frame is in EPSG 4326: its failure
      then decides the record, and a frame in any other system is never
      reprojected. */
  lemma ReprojectOnlyWgs84(row: LayerRow, src: SpatialRead, c: Crs, e: Exc)
    requires src.read.Ok? && src.read.value.crs == Some(c)
    requires src.reprojected == Err(e)
    ensures c.epsg == Some(Wgs84) ==>
              LayerRecord((row, src)).status == Classify(GdbLayerExtractor, e.kind) &&
              LayerRecord((row, src)).error == Some(e.message)
    ensures c.epsg != Some(Wgs84) ==>
              LayerSteps(row, src) == LayerSteps(row, SpatialRead(src.read, Ok(src.read.value)))
  {
  }

  /** Without a date column the layer extractor leaves the range unset and the
      shapefile extractor sets it to None; with date columns both record the
      earliest and latest date, or None when none parsed. */
  lemma TemporalFieldsByExtractor(cols: seq<Column>)
    ensures Temporal(cols).NoDateColumns? ==>
              !Sets(TemporalFields(cols, false), "min_date") &&
              !Sets(TemporalFields(cols, false), "max_date") &&
              TemporalFields(cols, true)[1..] == [("min_date", Null), ("max_date", Null)]
    ensures !Temporal(cols).NoDateColumns? ==>
              TemporalFields(cols, false) == TemporalFields(cols, true)
    ensures Temporal(cols).Range? ==>
              TemporalFields(cols, true)[1..] ==
                [("min_date", Time(Temporal(cols).min)), ("max_date", Time(Temporal(cols).max))]
    ensures Temporal(cols).NoDates? ==>
              TemporalFields(cols, true)[1..] == [("min_date", Null), ("max_date", Null)]
  {
  }

  /** An image whose header reports zero height fails on the aspect ratio, keeping
      the width and height it had already recorded. */
  lemma ZeroHeightImageFails(item: ImageItem, st: StatInfo, h: ImageHeader)
    requires item.stat == Ok(st) && item.header == Ok(h) && h.height == 0
    ensures ImageRecord(item).status == Failed
    ensures ImageRecord(item).error == Some("division by zero")
    ensures "width_px" in ImageRecord(item).fields && ImageRecord(item).fields["width_px"] == Int(h.width)
    ensures "height_px" in ImageRecord(item).fields && ImageRecord(item).fields["height_px"] == Int(0)
  {
    var block := PreludeFields(item.path, st) + HeaderFields(h);
    ZeroHeightSteps(item, st, h);
    RunPutsThenRaiseEnd(ImageSeed(item.path), Assign(block), DivisionByZero);
    HeaderKept(ImageSeed(item.path), PreludeFields(item.path, st), h);
  }

  /** With zero height the image body is the assignments up to the header, then
      the division. */
  lemma ZeroHeightSteps(item: ImageItem, st: StatInfo, h: ImageHeader)
    requires item.stat == Ok(st) && item.header == Ok(h) && h.height == 0
    ensures ImageSteps(item) == Assign(PreludeFields(item.path, st) + HeaderFields(h)) + [Raise(DivisionByZero)]
  {
    assert HeaderSteps(item.header, item.exif) == Assign(HeaderFields(h)) + [Raise(DivisionByZero)];
    AssignThenRaise(PreludeFields(item.path, st), HeaderFields(h), DivisionByZero);
  }

  /** Two assignment blocks and a raise, regrouped. */
  lemma AssignThenRaise(a: seq<Assignment>, b: seq<Assignment>, e: Exc)
    ensures Assign(a) + (Assign(b) + [Raise(e)]) == Assign(a + b) + [Raise(e)]
  {
    AssignAppend(a, b);
  }

  /** The header's width and height hold after the header block is assigned. */
  lemma HeaderKept(seed: map<string, Value>, pre: seq<Assignment>, h: ImageHeader)
    ensures "width_px" in Run(seed, Assign(pre + HeaderFields(h))).fields
    ensures Run(seed, Assign(pre + HeaderFields(h))).fields["width_px"] == Int(h.width)
    ensures "height_px" in Run(seed, Assign(pre + HeaderFields(h))).fields
    ensures Run(seed, Assign(pre + HeaderFields(h))).fields["height_px"] == Int(h.height)
  {
    var head := pre + [("image_format", h.format), ("color_mode", h.mode)];
    var last := [("height_px", Int(h.height))];
    assert pre + HeaderFields(h) == head + [("width_px", Int(h.width))] + last;
    assert !Sets(last, "width_px");
    AssignedValue(seed, head, "width_px", Int(h.width), last);
    assert pre + HeaderFields(h) == (head + [("width_px", Int(h.width))]) + last + [];
    AssignedValue(seed, head + [("width_px", Int(h.width))], "height_px", Int(h.height), []);
  }

  /** A table whose extension no reader handles fails with the extension in the
      message. */
  lemma UnsupportedTableFails(item: TableItem, st: StatInfo)
    requires item.stat == Ok(st) && FormatOf(FileExtension(item.path)) == Unsupported
    ensures TableRecord(item).status == Failed
    ensures TableRecord(item).error == Some("Unsupported file type: " + FileExtension(item.path))
  {
    var pre := Assign(TablePrelude(item.path, st));
    UnsupportedSteps(item, st);
    RunPutsThenRaiseEnd(TableSeed(item.path), pre, UnsupportedType(FileExtension(item.path)));
  }

  /** A table nothing reads: the prelude, then the raise. */
  lemma UnsupportedSteps(item: TableItem, st: StatInfo)
    requires item.stat == Ok(st) && FormatOf(FileExtension(item.path)) == Unsupported
    ensures TableSteps(item) == Assign(TablePrelude(item.path, st)) + [Raise(UnsupportedType(FileExtension(item.path)))]
  {
    assert DispatchSteps(item) == [Raise(UnsupportedType(FileExtension(item.path)))];
  }

  /** A CSV file that reads succeeds, and its row count is the number of lines in
      the file less the header line. */
  lemma CsvRecordCountsLines(item: TableItem, st: StatInfo, t: Table, text: string)
    requires item.stat == Ok(st) && FormatOf(FileExtension(item.path)) == Csv
    requires item.csv == Ok(t) && item.text == Ok(text)
    ensures TableRecord(item).status == Success
    ensures "row_count" in TableRecord(item).fields
    ensures TableRecord(item).fields["row_count"] == Int(|Lines(text)| - 1)
  {
    var seed := TableSeed(item.path);
    var steps := Assign(TablePrelude(item.path, st) + CsvFields(t, CsvRowCount(text)));
    CsvReadSteps(item, st, t, text);
    RowCountKept(seed, TablePrelude(item.path, st), CsvRowCount(text), t);
    FinishWithoutRaise(TableExtractor, seed, steps);
    assert CsvRowCount(text) == |Lines(text)| - 1;
  }

  /** A CSV file that reads runs the prelude, then the line count, the columns and
      the dates, all plain assignments. */
  lemma CsvReadSteps(item: TableItem, st: StatInfo, t: Table, text: string)
    requires item.stat == Ok(st) && FormatOf(FileExtension(item.path)) == Csv
    requires item.csv == Ok(t) && item.text == Ok(text)
    ensures TableSteps(item) == Assign(TablePrelude(item.path, st) + CsvFields(t, CsvRowCount(text)))
  {
    CsvDispatch(item, t, text);
    AssignAppend(TablePrelude(item.path, st), CsvFields(t, CsvRowCount(text)));
  }

  /** The assignments of the CSV branch. */
  function CsvFields(t: Table, rows: int): seq<Assignment> {
    [("row_count", Int(rows))] + (ColumnFields(t) + TableTemporalFields(t))
  }

  /** The dispatch of a CSV file that reads. */
  lemma CsvDispatch(item: TableItem, t: Table, text: string)
    requires FormatOf(FileExtension(item.path)) == Csv
    requires item.csv == Ok(t) && item.text == Ok(text)
    ensures DispatchSteps(item) == Assign(CsvFields(t, CsvRowCount(text)))
  {
    assert [("row_count", Int(CsvRowCount(text)))] + ColumnFields(t) + TableTemporalFields(t) ==
           CsvFields(t, CsvRowCount(text));
  }

  /** After the CSV branch, the run has not raised and the row count is the one
      counted. */
  lemma RowCountKept(seed: map<string, Value>, pre: seq<Assignment>, rows: int, t: Table)
    ensures Run(seed, Assign(pre + CsvFields(t, rows))).raised.None?
    ensures "row_count" in Run(seed, Assign(pre + CsvFields(t, rows))).fields
    ensures Run(seed, Assign(pre + CsvFields(t, rows))).fields["row_count"] == Int(rows)
  {
    var rest := ColumnFields(t) + TableTemporalFields(t);
    assert pre + CsvFields(t, rows) == pre + [("row_count", Int(rows))] + rest;
    RowCountNotReassigned(t);
    AssignedValue(seed, pre, "row_count", Int(rows), rest);
  }

  /** After the line count, the CSV branch does not assign the row count again. */
  lemma RowCountNotReassigned(t: Table)
    ensures !Sets(ColumnFields(t) + TableTemporalFields(t), "row_count")
  {
  }

  /** A CSV file whose text cannot be read after `pd.read_csv` succeeded keeps the
      defaults: the row count and the column count stay None. */
  lemma CsvTextFailureKeepsDefaults(item: TableItem, st: StatInfo, t: Table, e: Exc)
    requires item.stat == Ok(st) && FormatOf(FileExtension(item.path)) == Csv
    requires item.csv == Ok(t) && item.text == Err(e)
    ensures TableRecord(item).status == Classify(TableExtractor, e.kind)
    ensures TableRecord(item).error == Some(e.message)
    ensures "row_count" in TableRecord(item).fields && TableRecord(item).fields["row_count"] == Null
    ensures "column_count" in TableRecord(item).fields && TableRecord(item).fields["column_count"] == Null
  {
    var seed := TableSeed(item.path);
    var pre := TablePrelude(item.path, st);
    assert TableSteps(item) == Assign(pre) + [Raise(e)];
    RunPutsThenRaiseEnd(seed, Assign(pre), e);
    DefaultsHold(seed, PreludeFields(item.path, st));
  }

  /** Right after the defaults block, the row count and the column count are None. */
  lemma DefaultsHold(seed: map<string, Value>, pre: seq<Assignment>)
    ensures "row_count" in Run(seed, Assign(pre + TableDefaults())).fields
    ensures Run(seed, Assign(pre + TableDefaults())).fields["row_count"] == Null
    ensures "column_count" in Run(seed, Assign(pre + TableDefaults())).fields
    ensures Run(seed, Assign(pre + TableDefaults())).fields["column_count"] == Null
  {
    var d := TableDefaults();
    assert pre + d == pre + [d[0]] + d[1..];
    assert !Sets(d[1..], "row_count");
    AssignedValue(seed, pre, "row_count", Null, d[1..]);
    assert pre + d == (pre + [d[0]]) + [d[1]] + d[2..];
    assert !Sets(d[2..], "column_count");
    AssignedValue(seed, pre + [d[0]], "column_count", Null, d[2..]);
  }

  /** A workbook without sheets fails on `xls.sheet_names[0]`, after recording a
      sheet count of zero. */
  lemma EmptyWorkbookFails(item: TableItem, st: StatInfo, wb: Workbook)
    requires item.stat == Ok(st) && FormatOf(FileExtension(item.path)) == Excel
    requires item.workbook == Ok(wb) && |wb.sheets| == 0
    ensures TableRecord(item).status == Failed
    ensures TableRecord(item).error == Some("list index out of range")
    ensures "sheet_count" in TableRecord(item).fields && TableRecord(item).fields["sheet_count"] == Int(0)
  {
    var seed := TableSeed(item.path);
    var pre := TablePrelude(item.path, st);
    var names := Join(wb.sheets, ", ");
    EmptyWorkbookSteps(item, st, wb);
    RunPutsThenRaiseEnd(seed, Assign(pre + [("sheet_count", Int(0)), ("sheet_names", Str(names))]), IndexOutOfRange);
    SheetCountKept(seed, pre, names);
  }

  /** After the two sheet fields, the sheet count holds. */
  lemma SheetCountKept(seed: map<string, Value>, pre: seq<Assignment>, names: string)
    ensures "sheet_count" in Run(seed, Assign(pre + [("sheet_count", Int(0)), ("sheet_names", Str(names))])).fields
    ensures Run(seed, Assign(pre + [("sheet_count", Int(0)), ("sheet_names", Str(names))])).fields["sheet_count"] == Int(0)
  {
    var last := [("sheet_names", Str(names))];
    assert pre + [("sheet_count", Int(0)), ("sheet_names", Str(names))] == pre + [("sheet_count", Int(0))] + last;
    assert !Sets(last, "sheet_count");
    AssignedValue(seed, pre, "sheet_count", Int(0), last);
  }

  /** A workbook without sheets: the prelude and the two sheet fields, then the
      failed index. */
  lemma EmptyWorkbookSteps(item: TableItem, st: StatInfo, wb: Workbook)
    requires item.stat == Ok(st) && FormatOf(FileExtension(item.path)) == Excel
    requires item.workbook == Ok(wb) && |wb.sheets| == 0
    ensures TableSteps(item) ==
              Assign(TablePrelude(item.path, st) + [("sheet_count", Int(0)), ("sheet_names", Str(Join(wb.sheets, ", ")))]) +
              [Raise(IndexOutOfRange)]
  {
    var sheets := [("sheet_count", Int(0)), ("sheet_names", Str(Join(wb.sheets, ", ")))];
    assert DispatchSteps(item) == Assign(sheets) + [Raise(IndexOutOfRange)];
    AssignThenRaise(TablePrelude(item.path, st), sheets, IndexOutOfRange);
  }

  /** A layer whose name has no underscore fails on `parts[1]` once its frame has
      been read and summarised: the record is failed with the index error. */
  lemma LayerNameWithoutUnderscoreFails(row: LayerRow, src: SpatialRead, g: Frame, geo: Geometry)
    requires src.read.Ok? && src.read.value.crs.Some?
    requires Working(src.read.value, src.reprojected) == Ok(g) && g.geometry == Ok(geo)
    requires g.geomTypes.Ok? && g.bounds.Ok?
    requires row.layer.Some? && '_' !in row.layer.value
    ensures LayerRecord((row, src)).status == Failed
    ensures LayerRecord((row, src)).error == Some("list index out of range")
  {
    SplitHasTwo(row.layer.value, '_');
    var block := LayerCrsFields(g) + SummaryFields(g) + LayerBlock(g, geo);
    LayerStepsToName(row, src, g, geo);
    RunPutsThenRaiseEnd(LayerSeed(row), Assign(block), IndexOutOfRange);
  }

  /** The two summary fields of a frame whose calls succeed. */
  function SummaryFields(g: Frame): seq<Assignment>
    requires g.geomTypes.Ok? && g.bounds.Ok?
  {
    [("geometry_types", Str(Join(g.geomTypes.value, ", "))), ("bbox", g.bounds.value)]
  }

  /** When the summary calls succeed, they are plain assignments. */
  lemma SummaryAssigns(g: Frame)
    requires g.geomTypes.Ok? && g.bounds.Ok?
    ensures SummarySteps(g) == Assign(SummaryFields(g))
  {
  }

  /** A layer read up to the name split, with a name that has no second part. */
  lemma LayerStepsToName(row: LayerRow, src: SpatialRead, g: Frame, geo: Geometry)
    requires src.read.Ok? && src.read.value.crs.Some?
    requires Working(src.read.value, src.reprojected) == Ok(g) && g.geometry == Ok(geo)
    requires g.geomTypes.Ok? && g.bounds.Ok?
    requires FirstWord(row.layer) == Err(IndexOutOfRange)
    ensures LayerSteps(row, src) ==
              Assign(LayerCrsFields(g) + SummaryFields(g) + LayerBlock(g, geo)) + [Raise(IndexOutOfRange)]
  {
    SummaryAssigns(g);
    AssignAppend(LayerCrsFields(g), SummaryFields(g));
    AssignAppend(LayerCrsFields(g) + SummaryFields(g), LayerBlock(g, geo));
  }

  /** When the geometry types cannot be listed (a row without geometry makes the
      sort raise), the layer record keeps the coordinate system it had already
      recorded: its fields are exactly the seed, `crs` and `epsg`. */
  lemma LayerTypesFailureKeepsCrs(row: LayerRow, src: SpatialRead, g: Frame, geo: Geometry, e: Exc)
    requires src.read.Ok? && src.read.value.crs.Some?
    requires Working(src.read.value, src.reprojected) == Ok(g) && g.geometry == Ok(geo)
    requires g.geomTypes == Err(e)
    ensures LayerRecord((row, src)).status == Classify(GdbLayerExtractor, e.kind)
    ensures LayerRecord((row, src)).error == Some(e.message)
    ensures LayerRecord((row, src)).fields ==
              LayerSeed(row)["crs" := Str(CrsText(g.crs))]["epsg" := LayerCrsFields(g)[1].1]
  {
    var crsf := LayerCrsFields(g);
    var rest := Fetch("bbox", g.bounds) + Assign(LayerBlock(g, geo)) + NameSteps(row, g);
    assert LayerSteps(row, src) == LayerBody(row, g, geo);
    LayerTypesFailSteps(row, g, geo, e);
    RunPutsThenRaise(LayerSeed(row), Assign(crsf), e, rest);
    TwoFieldsSet(LayerSeed(row), crsf);
  }

  /** With the geometry types failing, the layer body raises right after `crs` and
      `epsg`. */
  lemma LayerTypesFailSteps(row: LayerRow, g: Frame, geo: Geometry, e: Exc)
    requires g.geomTypes == Err(e)
    ensures LayerBody(row, g, geo) ==
              Assign(LayerCrsFields(g)) + [Raise(e)] +
              (Fetch("bbox", g.bounds) + Assign(LayerBlock(g, geo)) + NameSteps(row, g))
  {
    assert SummarySteps(g) == [Raise(e)] + Fetch("bbox", g.bounds);
    RaiseRegrouped(Assign(LayerCrsFields(g)), e, Fetch("bbox", g.bounds), Assign(LayerBlock(g, geo)), NameSteps(row, g));
  }

  /** A raise inside a stretch of steps, regrouped around it. */
  lemma RaiseRegrouped(a: seq<Step>, e: Exc, b: seq<Step>, c: seq<Step>, d: seq<Step>)
    ensures a + ([Raise(e)] + b) + c + d == a + [Raise(e)] + (b + c + d)
  {
  }

  /** Two assignments run from a seed give the seed with both keys updated. */
  lemma TwoFieldsSet(seed: map<string, Value>, two: seq<Assignment>)
    requires |two| == 2
    ensures Run(seed, Assign(two)) == Outcome(seed[two[0].0 := two[0].1][two[1].0 := two[1].1], None)
  {
    var steps := Assign(two);
    var once := seed[two[0].0 := two[0].1];
    var twice := once[two[1].0 := two[1].1];
    assert steps[0] == Put(two[0].0, two[0].1);
    assert Run(seed, steps) == Run(once, steps[1..]);
    assert steps[1..][0] == Put(two[1].0, two[1].1);
    assert Run(once, steps[1..]) == Run(twice, steps[1..][1..]);
    assert steps[1..][1..] == [];
  }

  /** Likewise for a shapefile: a failure to list the geometry types leaves
      exactly the seed, `crs` and `epsg`. */
  lemma ShapefileTypesFailureKeepsCrs(path: string, src: SpatialRead, g: Frame, geo: Geometry, c: Crs, e: Exc)
    requires src.read.Ok? && src.read.value.featureCount > 0 && src.read.value.crs.Some?
    requires Working(src.read.value, src.reprojected) == Ok(g) && g.geometry == Ok(geo)
    requires g.crs == Some(c) && g.geomTypes == Err(e)
    ensures ShapefileRecord((path, src)).status == Classify(ShapefileExtractor, e.kind)
    ensures ShapefileRecord((path, src)).error == Some(e.message)
    ensures ShapefileRecord((path, src)).fields ==
              ShapefileSeed(path)["crs" := Str(c.text)]["epsg" := EpsgValue(c)]
  {
    var crsf := [("crs", Str(c.text)), ("epsg", EpsgValue(c))];
    var rest := Fetch("bbox", g.bounds) + Assign(ShapefileBlock(path, g, geo));
    assert ShapefileSteps(path, src) == ShapefileBody(path, g, geo);
    ShapefileTypesFailSteps(path, g, geo, c, e);
    RunPutsThenRaise(ShapefileSeed(path), Assign(crsf), e, rest);
    TwoFieldsSet(ShapefileSeed(path), crsf);
  }

  /** With the geometry types failing, the shapefile body raises right after `crs`
      and `epsg`. */
  lemma ShapefileTypesFailSteps(path: string, g: Frame, geo: Geometry, c: Crs, e: Exc)
    requires g.crs == Some(c) && g.geomTypes == Err(e)
    ensures ShapefileBody(path, g, geo) ==
              Assign([("crs", Str(c.text)), ("epsg", EpsgValue(c))]) + [Raise(e)] +
              (Fetch("bbox", g.bounds) + Assign(ShapefileBlock(path, g, geo)))
  {
    var crs1 := ("crs", Str(c.text));
    var epsg1 := ("epsg", EpsgValue(c));
    var block := Assign(ShapefileBlock(path, g, geo));
    assert ShapefileBody(path, g, geo) == Assign([crs1]) + (Assign([epsg1]) + SummarySteps(g) + block);
    assert SummarySteps(g) == [Raise(e)] + Fetch("bbox", g.bounds);
    TwoThenRaise(crs1, epsg1, e, Fetch("bbox", g.bounds), block);
  }

  /** Two single assignments and a raise, regrouped. */
  lemma TwoThenRaise(x: Assignment, y: Assignment, e: Exc, f: seq<Step>, rest: seq<Step>)
    ensures Assign([x]) + (Assign([y]) + ([Raise(e)] + f) + rest) == Assign([x, y]) + [Raise(e)] + (f + rest)
  {
    AssignAppend([x], [y]);
    assert [x] + [y] == [x, y];
  }

  // ---------------------------------------------------------------------------
  // Workbooks

  /** The assignments of a workbook whose first sheet parses with string labels. */
  function ExcelFields(wb: Workbook, t: Table): seq<Assignment> {
    SheetFields(wb) + (ColumnFields(t) + ExcelTail(t))
  }

  /** A workbook whose first sheet parses with string column labels succeeds: the
      sheet count and names are the workbook's, the column count and names are
      the first sheet's, and the row count is left None. */
  lemma ExcelRecordListsSheets(item: TableItem, st: StatInfo, wb: Workbook, t: Table)
    requires item.stat == Ok(st) && FormatOf(FileExtension(item.path)) == Excel
    requires item.workbook == Ok(wb) && |wb.sheets| > 0 && wb.firstSheet == Ok(Sheet(t, None))
    ensures TableRecord(item).status == Success
    ensures "sheet_count" in TableRecord(item).fields && TableRecord(item).fields["sheet_count"] == Int(|wb.sheets|)
    ensures "sheet_names" in TableRecord(item).fields && TableRecord(item).fields["sheet_names"] == Str(Join(wb.sheets, ", "))
    ensures "column_count" in TableRecord(item).fields && TableRecord(item).fields["column_count"] == Int(|t.columns|)
    ensures "column_names" in TableRecord(item).fields &&
            TableRecord(item).fields["column_names"] == Str(Join(ColumnNames(t.columns), ", "))
    ensures "row_count" in TableRecord(item).fields && TableRecord(item).fields["row_count"] == Null
  {
    var seed := TableSeed(item.path);
    var pre := TablePrelude(item.path, st);
    ExcelReadSteps(item, st, wb, t);
    SheetCountHolds(seed, pre, wb, t);
    SheetNamesHold(seed, pre, wb, t);
    ColumnCountHolds(seed, pre, wb, t);
    ColumnNamesHold(seed, pre, wb, t);
    RowCountLeftNone(seed, pre, wb, t);
    FinishWithoutRaise(TableExtractor, seed, Assign(pre + ExcelFields(wb, t)));
  }

  /** A workbook that reads runs the prelude and then plain assignments. */
  lemma ExcelReadSteps(item: TableItem, st: StatInfo, wb: Workbook, t: Table)
    requires item.stat == Ok(st) && FormatOf(FileExtension(item.path)) == Excel
    requires item.workbook == Ok(wb) && |wb.sheets| > 0 && wb.firstSheet == Ok(Sheet(t, None))
    ensures TableSteps(item) == Assign(TablePrelude(item.path, st) + ExcelFields(wb, t))
  {
    ExcelDispatch(item, wb, t);
    AssignAppend(TablePrelude(item.path, st), ExcelFields(wb, t));
  }

  /** The dispatch of a workbook that reads. */
  lemma ExcelDispatch(item: TableItem, wb: Workbook, t: Table)
    requires FormatOf(FileExtension(item.path)) == Excel
    requires item.workbook == Ok(wb) && |wb.sheets| > 0 && wb.firstSheet == Ok(Sheet(t, None))
    ensures DispatchSteps(item) == Assign(ExcelFields(wb, t))
  {
    SheetAssigns(t);
    AssignAppend(SheetFields(wb), ColumnFields(t) + ExcelTail(t));
  }

  /** A first sheet with string labels is read by plain assignments. */
  lemma SheetAssigns(t: Table)
    ensures SheetSteps(Sheet(t, None)) == Assign(ColumnFields(t) + ExcelTail(t))
  {
    var cc := [("column_count", Int(|t.columns|))];
    AssignAppend(cc, LabelFields(t) + ExcelTail(t));
    assert ColumnFields(t) + ExcelTail(t) == cc + (LabelFields(t) + ExcelTail(t));
  }

  /** The Excel fields after the sheets set none of the sheet fields, nor the
      column fields past the point the tail starts. */
  lemma TailKeys(t: Table, key: string)
    requires key != "row_count" && key != "has_timestamp" && key != "min_date" && key != "max_date"
    ensures !Sets(ExcelTail(t), key)
  {
    SetsAppend([("row_count", Null)], TableTemporalFields(t), key);
  }

  /** After the workbook's assignments, its sheet count holds. */
  lemma SheetCountHolds(seed: map<string, Value>, pre: seq<Assignment>, wb: Workbook, t: Table)
    ensures Run(seed, Assign(pre + ExcelFields(wb, t))).raised.None?
    ensures "sheet_count" in Run(seed, Assign(pre + ExcelFields(wb, t))).fields
    ensures Run(seed, Assign(pre + ExcelFields(wb, t))).fields["sheet_count"] == Int(|wb.sheets|)
  {
    var names := ("sheet_names", Str(Join(wb.sheets, ", ")));
    var rest := ColumnFields(t) + ExcelTail(t);
    TailKeys(t, "sheet_count");
    SetsAppend(ColumnFields(t), ExcelTail(t), "sheet_count");
    SetsAppend([names], rest, "sheet_count");
    assert pre + ExcelFields(wb, t) == pre + [("sheet_count", Int(|wb.sheets|))] + ([names] + rest);
    AssignedValue(seed, pre, "sheet_count", Int(|wb.sheets|), [names] + rest);
  }

  /** After the workbook's assignments, its sheet names hold. */
  lemma SheetNamesHold(seed: map<string, Value>, pre: seq<Assignment>, wb: Workbook, t: Table)
    ensures "sheet_names" in Run(seed, Assign(pre + ExcelFields(wb, t))).fields
    ensures Run(seed, Assign(pre + ExcelFields(wb, t))).fields["sheet_names"] == Str(Join(wb.sheets, ", "))
  {
    var count := ("sheet_count", Int(|wb.sheets|));
    var rest := ColumnFields(t) + ExcelTail(t);
    TailKeys(t, "sheet_names");
    SetsAppend(ColumnFields(t), ExcelTail(t), "sheet_names");
    assert pre + ExcelFields(wb, t) == (pre + [count]) + [("sheet_names", Str(Join(wb.sheets, ", ")))] + rest;
    AssignedValue(seed, pre + [count], "sheet_names", Str(Join(wb.sheets, ", ")), rest);
  }

  /** After the workbook's assignments, the first sheet's column count holds. */
  lemma ColumnCountHolds(seed: map<string, Value>, pre: seq<Assignment>, wb: Workbook, t: Table)
    ensures "column_count" in Run(seed, Assign(pre + ExcelFields(wb, t))).fields
    ensures Run(seed, Assign(pre + ExcelFields(wb, t))).fields["column_count"] == Int(|t.columns|)
  {
    var head := pre + SheetFields(wb);
    var rest := LabelFields(t) + ExcelTail(t);
    TailKeys(t, "column_count");
    assert !Sets(LabelFields(t), "column_count") by {
      forall i | 0 <= i < |LabelFields(t)|
        ensures LabelFields(t)[i].0 != "column_count"
      {
      }
    }
    SetsAppend(LabelFields(t), ExcelTail(t), "column_count");
    assert ColumnFields(t) + ExcelTail(t) == [("column_count", Int(|t.columns|))] + rest;
    assert pre + ExcelFields(wb, t) == head + [("column_count", Int(|t.columns|))] + rest;
    AssignedValue(seed, head, "column_count", Int(|t.columns|), rest);
  }

  /** After the workbook's assignments, the first sheet's column names hold. */
  lemma ColumnNamesHold(seed: map<string, Value>, pre: seq<Assignment>, wb: Workbook, t: Table)
    ensures "column_names" in Run(seed, Assign(pre + ExcelFields(wb, t))).fields
    ensures Run(seed, Assign(pre + ExcelFields(wb, t))).fields["column_names"] == Str(Join(ColumnNames(t.columns), ", "))
  {
    var head := pre + SheetFields(wb) + [("column_count", Int(|t.columns|))];
    var names := Str(Join(ColumnNames(t.columns), ", "));
    var rest := [("column_types", Str(Join(TypedNames(t.columns, []), ", ")))] + ExcelTail(t);
    TailKeys(t, "column_names");
    SetsAppend([rest[0]], ExcelTail(t), "column_names");
    assert pre + ExcelFields(wb, t) == head + [("column_names", names)] + rest;
    AssignedValue(seed, head, "column_names", names, rest);
  }

  /** After the workbook's assignments, the row count is None. */
  lemma RowCountLeftNone(seed: map<string, Value>, pre: seq<Assignment>, wb: Workbook, t: Table)
    ensures "row_count" in Run(seed, Assign(pre + ExcelFields(wb, t))).fields
    ensures Run(seed, Assign(pre + ExcelFields(wb, t))).fields["row_count"] == Null
  {
    var head := pre + SheetFields(wb) + ColumnFields(t);
    assert !Sets(TableTemporalFields(t), "row_count");
    assert pre + ExcelFields(wb, t) == head + [("row_count", Null)] + TableTemporalFields(t);
    AssignedValue(seed, head, "row_count", Null, TableTemporalFields(t));
  }

  /** A first sheet with a label that is not a string (a number or a date in the
      header row) fails on joining the column names: the column count is recorded,
      the column names stay None. */
  lemma ExcelOddLabelFails(item: TableItem, st: StatInfo, wb: Workbook, t: Table, l: OddLabel)
    requires item.stat == Ok(st) && FormatOf(FileExtension(item.path)) == Excel
    requires item.workbook == Ok(wb) && |wb.sheets| > 0 && wb.firstSheet == Ok(Sheet(t, Some(l)))
    ensures TableRecord(item).status == Failed
    ensures TableRecord(item).error ==
              Some("sequence item " + NatText(l.index) + ": expected str instance, " + l.typeName + " found")
    ensures "column_count" in TableRecord(item).fields && TableRecord(item).fields["column_count"] == Int(|t.columns|)
    ensures "column_names" in TableRecord(item).fields && TableRecord(item).fields["column_names"] == Null
  {
    var seed := TableSeed(item.path);
    var block := TablePrelude(item.path, st) + (SheetFields(wb) + [("column_count", Int(|t.columns|))]);
    OddLabelSteps(item, st, wb, t, l);
    RunPutsThenRaiseEnd(seed, Assign(block), JoinTypeError(l));
    OddLabelFields(seed, PreludeFields(item.path, st), wb, |t.columns|);
  }

  /** A first sheet with a label that is not a string: the prelude, the sheets and
      the column count, then the join raises. */
  lemma OddLabelSteps(item: TableItem, st: StatInfo, wb: Workbook, t: Table, l: OddLabel)
    requires item.stat == Ok(st) && FormatOf(FileExtension(item.path)) == Excel
    requires item.workbook == Ok(wb) && |wb.sheets| > 0 && wb.firstSheet == Ok(Sheet(t, Some(l)))
    ensures TableSteps(item) ==
              Assign(TablePrelude(item.path, st) + (SheetFields(wb) + [("column_count", Int(|t.columns|))])) +
              [Raise(JoinTypeError(l))]
  {
    OddLabelDispatch(item, wb, t, l);
    AssignThenRaise(TablePrelude(item.path, st), SheetFields(wb) + [("column_count", Int(|t.columns|))], JoinTypeError(l));
  }

  /** The dispatch of a workbook whose first sheet has a label that is not a string. */
  lemma OddLabelDispatch(item: TableItem, wb: Workbook, t: Table, l: OddLabel)
    requires FormatOf(FileExtension(item.path)) == Excel
    requires item.workbook == Ok(wb) && |wb.sheets| > 0 && wb.firstSheet == Ok(Sheet(t, Some(l)))
    ensures DispatchSteps(item) ==
              Assign(SheetFields(wb) + [("column_count", Int(|t.columns|))]) + [Raise(JoinTypeError(l))]
  {
    AssignAppend(SheetFields(wb), [("column_count", Int(|t.columns|))]);
  }

  /** Before the join, the column count holds and the column names keep their
      default None. */
  lemma OddLabelFields(seed: map<string, Value>, pre: seq<Assignment>, wb: Workbook, n: int)
    ensures var o := Run(seed, Assign((pre + TableDefaults()) + (SheetFields(wb) + [("column_count", Int(n))])));
            "column_count" in o.fields && o.fields["column_count"] == Int(n) &&
            "column_names" in o.fields && o.fields["column_names"] == Null
  {
    var d := TableDefaults();
    var all := (pre + d) + (SheetFields(wb) + [("column_count", Int(n))]);
    var after := d[3..] + SheetFields(wb) + [("column_count", Int(n))];
    assert !Sets(after, "column_names");
    assert all == (pre + d[..2]) + [("column_names", Null)] + after;
    AssignedValue(seed, pre + d[..2], "column_names", Null, after);
    assert all == (pre + d + SheetFields(wb)) + [("column_count", Int(n))] + [];
    AssignedValue(seed, pre + d + SheetFields(wb), "column_count", Int(n), []);
  }
}
