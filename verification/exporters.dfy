/**
 * The exporters of explorer/exporters.py: each turns the result of a query
 * (headers plus rows) into one output format.  The registry resolves a format
 * name to an exporter kind; `GetOutput` runs the query once and hands the
 * result to the kind's `_get_output`.
 *
 * XLSX bytes are not produced: the Excel exporter's output is the sheet name
 * and its cells.  The JSON exporter's output is the list of ordered dicts it
 * hands to the JSON encoder, together with the text the encoder returns.
 */
module Exporters {

  import opened Wrappers
  import opened Values
  import opened PyDict
  import CsvFormat

  // ------------------------------------------------------------ the entities

  datatype ExporterKind = CsvExporter | StreamingCsvExporter | JsonExporter | ExcelExporter

  /** The `content_type` class attribute. */
  function ContentType(kind: ExporterKind): (r: string)
    ensures r == "text/csv" <==> kind == CsvExporter || kind == StreamingCsvExporter
  {
    match kind
    case CsvExporter => "text/csv"
    case StreamingCsvExporter => "text/csv"
    case JsonExporter => "application/json"
    case ExcelExporter => "application/vnd.ms-excel"
  }

  /** The `file_extension` class attribute: a dot and a suffix, shared only by
      the two CSV exporters. */
  function FileExtension(kind: ExporterKind): (r: string)
    ensures |r| >= 2 && r[0] == '.'
    ensures r == ".csv" <==> kind == CsvExporter || kind == StreamingCsvExporter
  {
    match kind
    case CsvExporter => ".csv"
    case StreamingCsvExporter => ".csv"
    case JsonExporter => ".json"
    case ExcelExporter => ".xlsx"
  }

  type Params = map<string, string>

  /** The part of a saved query the exporters read. */
  datatype Query = Query(title: string, params: Params)

  /** What `execute_query_only` gives the exporters: the column headers, the
      rows, the rows the live cursor yields, and the headers as display strings. */
  datatype QueryResult = QueryResult(
    headers: seq<Header>,
    data: seq<seq<Value>>,
    cursor: seq<seq<Value>>,
    headerStrings: seq<string>)

  /** The outcome of executing a query: a result, or a DatabaseError. */
  datatype Execution = Completed(result: QueryResult) | DatabaseFailure(detail: string)

  /** Errors an export can raise: the database's; the TypeError `csv.writer`
      raises for a delimiter that is not exactly one character; the TypeError
      `json.dumps` raises on a value it cannot serialise; and the
      SuspiciousFileOperation `get_valid_filename` raises when no file name is
      left of the title. */
  datatype ExportError =
    | DatabaseError(detail: string)
    | BadDelimiter(delim: string)
    | JsonTypeError
    | SuspiciousFileOperation(name: string)

  datatype Pos = Pos(row: nat, col: nat)

  /** A worksheet cell: its value and whether the bold header format is applied. */
  datatype Cell = Cell(value: Value, bold: bool)

  datatype Output =
    | CsvText(text: string)                       // StringIO.getvalue()
    | CsvStream(chunks: seq<string>)              // the generator's chunks, in order
    | JsonData(objects: seq<Dict<string, Value>>, text: string)  // what json.dumps encodes, and its result
    | Workbook(sheetName: string, cells: map<Pos, Cell>)

  function Min(a: int, b: int): int {
    if a <= b then a else b
  }

  // ------------------------------------------------------------ registry

  /** `dict(EXPLORER_DATA_EXPORTERS)[format]`: unknown formats are a lookup
      error, and a format listed twice takes its last entry. */
  function GetExporterClass(exporters: seq<(string, ExporterKind)>, format: string): (r: Option<ExporterKind>)
    ensures r.None? <==> forall j :: 0 <= j < |exporters| ==> exporters[j].0 != format
    ensures forall j :: 0 <= j < |exporters| && exporters[j].0 == format
              && (forall j' :: j < j' < |exporters| ==> exporters[j'].0 != format)
              ==> r == Some(exporters[j].1)
  {
    FromPairsGet(exporters, format);
    Get(FromPairs(exporters), format)
  }

  /** `get_valid_filename(self.query.title or "") + self.file_extension`.
      Django's `get_valid_filename` cleans the name (`lib.filenameChars`) and
      raises SuspiciousFileOperation when what is left is empty, `.` or `..`. */
  function GetFilename(kind: ExporterKind, query: Query, lib: Library): (r: Result<string, ExportError>)
    ensures r.Failure? <==> lib.filenameChars(query.title) in {"", ".", ".."}
    ensures r.Failure? ==> r.error == SuspiciousFileOperation(query.title)
    ensures r.Success? ==>
              var name := r.value;
              && |name| > |FileExtension(kind)|
              && name[|name| - |FileExtension(kind)|..] == FileExtension(kind)
              && name[..|name| - |FileExtension(kind)|] == lib.filenameChars(query.title)
              && name != ".." + FileExtension(kind)
  {
    var base := lib.filenameChars(query.title);
    if base == "" || base == "." || base == ".." then Failure(SuspiciousFileOperation(query.title))
    else Success(base + FileExtension(kind))
  }

  // ------------------------------------------------------------ CSV

  /** The byte-order mark the materialised CSV starts with, decoded: U+FEFF. */
  const Bom: char := '\U{FEFF}'

  /** The delimiter rule both CSV exporters apply to their `delim` argument:
      an absent or empty value falls back to the configured default, "tab"
      means a tab, and a value longer than one character is replaced by the
      configured default. */
  function ResolveDelimiter(delim: Option<string>, default: string): (r: string)
    ensures (delim.None? || delim == Some("")) ==> r == (if default == "tab" then "\t" else default)
    ensures delim == Some("tab") ==> r == "\t"
    ensures delim.Some? && |delim.value| > 1 && delim.value != "tab" ==> r == default
    ensures delim.Some? && |delim.value| == 1 ==> r == delim.value
    ensures |default| == 1 ==> |r| == 1
  {
    var chosen := if delim.None? || delim.value == "" then default else delim.value;
    var translated := if chosen == "tab" then "\t" else chosen;
    if |translated| > 1 then default else translated
  }

  /** The text the csv writer gives a value: None is empty, a str is itself,
      anything else goes through str(). */
  function FieldText(v: Value, lib: Library): string {
    match v
    case Null => ""
    case Text(s) => s
    case _ => lib.str(v)
  }

  /** The header names as text, None as the empty string. */
  function HeaderTexts(headers: seq<Header>): seq<string> {
    seq(|headers|, i requires 0 <= i < |headers| => headers[i].GetOr(""))
  }

  function RowFields(row: seq<Value>, lib: Library): seq<string> {
    seq(|row|, i requires 0 <= i < |row| => FieldText(row[i], lib))
  }

  function RowsFields(rows: seq<seq<Value>>, lib: Library): seq<seq<string>> {
    seq(|rows|, i requires 0 <= i < |rows| => RowFields(rows[i], lib))
  }

  lemma RowsFieldsAppend(rows: seq<seq<Value>>, i: nat, lib: Library)
    requires i < |rows|
    ensures RowsFields(rows[..i + 1], lib) == RowsFields(rows[..i], lib) + [RowFields(rows[i], lib)]
  {
  }

  /** The records of a CSV export: the header record, then one per row. */
  function CsvRecords(headers: seq<Header>, rows: seq<seq<Value>>, lib: Library): seq<seq<string>> {
    [HeaderTexts(headers)] + RowsFields(rows, lib)
  }

  /** The materialised CSV text: the BOM, then every record. */
  function CsvDocument(headers: seq<Header>, rows: seq<seq<Value>>, delim: char, lib: Library): string {
    [Bom] + CsvFormat.EncodeRecords(CsvRecords(headers, rows, lib), delim)
  }

  /** CSVExporter._get_output, as a value: the writer refuses a resolved
      delimiter that is not one character; otherwise the buffer holds the BOM
      and then every record. */
  function CsvOutput(res: QueryResult, delim: Option<string>, default: string, lib: Library): (r: Result<string, ExportError>)
    ensures r.Failure? <==> |ResolveDelimiter(delim, default)| != 1
    ensures r.Failure? ==> r.error == BadDelimiter(ResolveDelimiter(delim, default))
    ensures r.Success? ==>
              && |r.value| >= 1 && r.value[0] == Bom
              && r.value[1..] == CsvFormat.EncodeRecords(CsvRecords(res.headers, res.data, lib),
                                                         ResolveDelimiter(delim, default)[0])
  {
    var d := ResolveDelimiter(delim, default);
    if |d| != 1 then Failure(BadDelimiter(d))
    else Success(CsvDocument(res.headers, res.data, d[0], lib))
  }

  /** Writing one more row to the buffer appends that row's record. */
  lemma CsvDocumentAppend(headers: seq<Header>, rows: seq<seq<Value>>, i: nat, delim: char, lib: Library)
    requires i < |rows|
    ensures CsvDocument(headers, rows[..i + 1], delim, lib)
            == CsvDocument(headers, rows[..i], delim, lib) + CsvFormat.EncodeRecord(RowFields(rows[i], lib), delim)
  {
    RowsFieldsAppend(rows, i, lib);
    var records := CsvRecords(headers, rows[..i], lib);
    assert CsvRecords(headers, rows[..i + 1], lib) == records + [RowFields(rows[i], lib)];
    CsvFormat.EncodeRecordsAppend(records, RowFields(rows[i], lib), delim);
  }

  /** CSVExporter._get_output: resolves the delimiter, writes the BOM and the
      header record into the buffer, then one record per row of `res.data`. */
  method CsvGetOutput(res: QueryResult, delim: Option<string>, default: string, lib: Library)
    returns (out: Result<string, ExportError>)
    ensures out == CsvOutput(res, delim, default, lib)
  {
    var d := ResolveDelimiter(delim, default);
    if |d| != 1 {
      return Failure(BadDelimiter(d));
    }
    var sep := d[0];
    var buffer: string := [Bom];
    buffer := buffer + CsvFormat.EncodeRecord(HeaderTexts(res.headers), sep);
    assert res.data[..0] == [];
    assert CsvRecords(res.headers, [], lib) == [HeaderTexts(res.headers)];
    assert CsvFormat.EncodeRecords([HeaderTexts(res.headers)], sep)
           == CsvFormat.EncodeRecord(HeaderTexts(res.headers), sep) + CsvFormat.EncodeRecords([], sep);
    var i := 0;
    while i < |res.data|
      invariant 0 <= i <= |res.data|
      invariant buffer == CsvDocument(res.headers, res.data[..i], sep, lib)
    {
      CsvDocumentAppend(res.headers, res.data, i, sep, lib);
      buffer := buffer + CsvFormat.EncodeRecord(RowFields(res.data[i], lib), sep);
      i := i + 1;
    }
    assert res.data[..i] == res.data;
    return Success(buffer);
  }

  /** The materialised CSV starts with the BOM, and reading the rest back gives
      exactly the header record followed by one record per row, in order. */
  lemma CsvOutputReadsBack(res: QueryResult, delim: Option<string>, default: string, lib: Library)
    requires CsvOutput(res, delim, default, lib).Success?
    requires CsvFormat.ReadableDelimiter(ResolveDelimiter(delim, default)[0])
    ensures var text := CsvOutput(res, delim, default, lib).value;
      && |text| >= 1 && text[0] == Bom
      && CsvFormat.ReadRecords(text[1..], ResolveDelimiter(delim, default)[0])
         == Some([HeaderTexts(res.headers)] + RowsFields(res.data, lib))
  {
    var d := ResolveDelimiter(delim, default)[0];
    var records := CsvRecords(res.headers, res.data, lib);
    CsvFormat.ReadRecordsOfEncoded(records, d);
    assert CsvDocument(res.headers, res.data, d, lib)[1..] == CsvFormat.EncodeRecords(records, d);
  }

  // ------------------------------------------------------------ streaming CSV

  /** The chunks the generator yields for the cursor rows, one per row. */
  function RowChunks(rows: seq<seq<Value>>, delim: char, lib: Library): (chunks: seq<string>)
    ensures |chunks| == |rows|
    ensures forall i :: 0 <= i < |rows| ==> chunks[i] == CsvFormat.EncodeRecord(RowFields(rows[i], lib), delim)
  {
    if rows == [] then []
    else [CsvFormat.EncodeRecord(RowFields(rows[0], lib), delim)] + RowChunks(rows[1..], delim, lib)
  }

  /** `generate_response()`: the header record, then the records of the cursor
      rows.  The `writerow(res.headers)` made before the generator is defined
      writes to an object whose `write` only returns its argument, and its
      result is dropped, so it adds no chunk. */
  function StreamingChunks(res: QueryResult, delim: char, lib: Library): (chunks: seq<string>)
    ensures |chunks| == 1 + |res.cursor|
    ensures chunks[0] == CsvFormat.EncodeRecord(HeaderTexts(res.headers), delim)
    ensures forall i :: 0 <= i < |res.cursor| ==>
              chunks[i + 1] == CsvFormat.EncodeRecord(RowFields(res.cursor[i], lib), delim)
  {
    [CsvFormat.EncodeRecord(HeaderTexts(res.headers), delim)] + RowChunks(res.cursor, delim, lib)
  }

  /** StreamingCSVExporter._get_output, as a value: the same delimiter rule
      and error as CSVExporter, and one chunk per record. */
  function StreamingOutput(res: QueryResult, delim: Option<string>, default: string, lib: Library): (r: Result<seq<string>, ExportError>)
    ensures r.Failure? <==> |ResolveDelimiter(delim, default)| != 1
    ensures r.Failure? ==> r.error == BadDelimiter(ResolveDelimiter(delim, default))
    ensures r.Success? ==> |r.value| == 1 + |res.cursor|
  {
    var d := ResolveDelimiter(delim, default);
    if |d| != 1 then Failure(BadDelimiter(d))
    else Success(StreamingChunks(res, d[0], lib))
  }

  function Concat(chunks: seq<string>): string {
    if chunks == [] then [] else chunks[0] + Concat(chunks[1..])
  }

  lemma {:induction false} ConcatRowChunks(rows: seq<seq<Value>>, delim: char, lib: Library)
    ensures Concat(RowChunks(rows, delim, lib)) == CsvFormat.EncodeRecords(RowsFields(rows, lib), delim)
  {
    if rows != [] {
      ConcatRowChunks(rows[1..], delim, lib);
      assert RowsFields(rows, lib)[1..] == RowsFields(rows[1..], lib);
    }
  }

  /** For the same rows, the streamed chunks put together are the materialised
      CSV text without its BOM; both exporters accept and refuse the same
      delimiters. */
  lemma StreamingMatchesMaterialized(res: QueryResult, delim: Option<string>, default: string, lib: Library)
    requires res.cursor == res.data
    ensures StreamingOutput(res, delim, default, lib).Success? <==> CsvOutput(res, delim, default, lib).Success?
    ensures CsvOutput(res, delim, default, lib).Success? ==>
              Concat(StreamingOutput(res, delim, default, lib).value) == CsvOutput(res, delim, default, lib).value[1..]
  {
    var d := ResolveDelimiter(delim, default);
    if |d| == 1 {
      var chunks := StreamingChunks(res, d[0], lib);
      ConcatRowChunks(res.data, d[0], lib);
      assert chunks[1..] == RowChunks(res.data, d[0], lib);
      assert CsvRecords(res.headers, res.data, lib)[1..] == RowsFields(res.data, lib);
    }
  }

  // ------------------------------------------------------------ JSON

  /** Python's `zip`: pairs up to the shorter of the two. */
  function Zip<A, B>(a: seq<A>, b: seq<B>): seq<(A, B)> {
    seq(Min(|a|, |b|), i requires 0 <= i < Min(|a|, |b|) => (a[i], b[i]))
  }

  /** `dict(zip(keys, row))` */
  function JsonObject(keys: seq<string>, row: seq<Value>): Dict<string, Value> {
    FromPairs(Zip(keys, row))
  }

  /** The list JSONExporter._get_output builds: one dict per row of
      `res.data`, in row order, keyed by the header names. */
  function JsonRows(res: QueryResult): (objects: seq<Dict<string, Value>>)
    ensures |objects| == |res.data|
    ensures forall i :: 0 <= i < |res.data| ==> objects[i] == JsonObject(HeaderTexts(res.headers), res.data[i])
  {
    seq(|res.data|, i requires 0 <= i < |res.data| => JsonObject(HeaderTexts(res.headers), res.data[i]))
  }

  /** A dict with str keys as the Python value json.dumps receives. */
  function JsonDictValue(d: Dict<string, Value>): Value {
    Dict(seq(|d|, j requires 0 <= j < |d| => (Text(d[j].0), d[j].1)))
  }

  /** The list of dicts as the Python value json.dumps receives. */
  function JsonListValue(objects: seq<Dict<string, Value>>): Value {
    List(seq(|objects|, i requires 0 <= i < |objects| => JsonDictValue(objects[i])))
  }

  /** JSONExporter._get_output, as a value: the rows' dicts encoded with
      DjangoJSONEncoder, or the TypeError the encoder raises. */
  function JsonOutput(res: QueryResult, lib: Library): (r: Result<Output, ExportError>)
    ensures r.Failure? <==> lib.djangoJsonDumps(JsonListValue(JsonRows(res))).None?
    ensures r.Failure? ==> r.error == JsonTypeError
    ensures r.Success? ==>
              && r.value.JsonData?
              && |r.value.objects| == |res.data|
              && (forall i :: 0 <= i < |res.data| ==>
                    r.value.objects[i] == JsonObject(HeaderTexts(res.headers), res.data[i]))
              && Some(r.value.text) == lib.djangoJsonDumps(JsonListValue(r.value.objects))
  {
    var objects := JsonRows(res);
    match lib.djangoJsonDumps(JsonListValue(objects))
    case None => Failure(JsonTypeError)
    case Some(text) => Success(JsonData(objects, text))
  }

  /** JSONExporter._get_output: one dict per row appended to `data` in row
      order, then the list encoded with DjangoJSONEncoder. */
  method JsonGetOutput(res: QueryResult, lib: Library) returns (out: Result<Output, ExportError>)
    ensures out == JsonOutput(res, lib)
  {
    var data: seq<Dict<string, Value>> := [];
    var i := 0;
    while i < |res.data|
      invariant 0 <= i <= |res.data|
      invariant |data| == i
      invariant forall k :: 0 <= k < i ==> data[k] == JsonObject(HeaderTexts(res.headers), res.data[k])
    {
      var keys := HeaderTexts(res.headers);
      data := data + [JsonObject(keys, res.data[i])];
      i := i + 1;
    }
    assert data == JsonRows(res);
    match lib.djangoJsonDumps(JsonListValue(data)) {
      case None => return Failure(JsonTypeError);
      case Some(jsonData) => return Success(JsonData(data, jsonData));
    }
  }

  /** What one row's dict holds: no key twice; a key is present exactly when
      one of the first min(|keys|, |row|) headers gives it; and its value is
      the cell under the last such header. */
  lemma JsonObjectSemantics(keys: seq<string>, row: seq<Value>, k: string)
    ensures DistinctKeys(JsonObject(keys, row))
    ensures |JsonObject(keys, row)| <= Min(|keys|, |row|)
    ensures Get(JsonObject(keys, row), k).None? <==> forall j :: 0 <= j < Min(|keys|, |row|) ==> keys[j] != k
    ensures forall j :: 0 <= j < Min(|keys|, |row|) && keys[j] == k
              && (forall j' :: j < j' < Min(|keys|, |row|) ==> keys[j'] != k)
              ==> Get(JsonObject(keys, row), k) == Some(row[j])
  {
    var pairs := Zip(keys, row);
    assert |pairs| == Min(|keys|, |row|);
    assert forall j :: 0 <= j < |pairs| ==> pairs[j].0 == keys[j] && pairs[j].1 == row[j];
    FromPairsDistinct(pairs);
    FromPairsLength(pairs);
    FromPairsGet(pairs, k);
  }

  /** With no duplicate header, a row's dict is exactly the zipped pairs, in
      column order. */
  lemma JsonObjectWithoutDuplicates(keys: seq<string>, row: seq<Value>)
    requires forall i, j :: 0 <= i < j < Min(|keys|, |row|) ==> keys[i] != keys[j]
    ensures JsonObject(keys, row) == Zip(keys, row)
  {
    FromDistinctPairs(Zip(keys, row));
  }

  // ------------------------------------------------------------ Excel

  /** The longest sheet name the XLSX writer accepts. */
  const MaxSheetNameLength: nat := 31

  /** ExcelExporter._format_title: the slugified title cut to 31 characters. */
  function FormatTitle(title: string, lib: Library): (name: string)
    ensures |name| == Min(|lib.slugify(title)|, MaxSheetNameLength)
    ensures name <= lib.slugify(title)
  {
    var slug := lib.slugify(title);
    if |slug| <= MaxSheetNameLength then slug else slug[..MaxSheetNameLength]
  }

  /** The normalisation a data cell goes through before it is written:
      datetimes and UUIDs become their string form, dicts and lists their
      JSON text (or the TypeError `json.dumps` raises), everything else is
      written as it is.  What reaches the worksheet is never a datetime, UUID,
      dict or list. */
  function NormaliseCell(v: Value, lib: Library): (r: Option<Value>)
    ensures (v.DateTime? || v.Uuid?) ==> r == Some(Text(lib.str(v)))
    ensures (v.Dict? || v.List?) ==> (r.None? <==> lib.jsonDumps(v).None?)
    ensures (v.Dict? || v.List?) && r.Some? ==> r == Some(Text(lib.jsonDumps(v).value))
    ensures !(v.DateTime? || v.Uuid? || v.Dict? || v.List?) ==> r == Some(v)
    ensures r.Some? ==> !(r.value.DateTime? || r.value.Uuid? || r.value.Dict? || r.value.List?)
  {
    var s := if v.DateTime? || v.Uuid? then Text(lib.str(v)) else v;
    if s.Dict? || s.List? then
      (match lib.jsonDumps(s)
       case None => None
       case Some(text) => Some(Text(text)))
    else Some(s)
  }

  /** Every cell of the row survives normalisation. */
  predicate RowNormalises(values: seq<Value>, lib: Library) {
    forall j :: 0 <= j < |values| ==> NormaliseCell(values[j], lib).Some?
  }

  predicate RowsNormalise(rows: seq<seq<Value>>, lib: Library) {
    forall i :: 0 <= i < |rows| ==> RowNormalises(rows[i], lib)
  }

  /** The bold header cells of row 0. */
  function HeaderCells(headers: seq<string>): map<Pos, Cell> {
    if headers == [] then map[]
    else
      var n := |headers| - 1;
      HeaderCells(headers[..n])[Pos(0, n) := Cell(Text(headers[n]), true)]
  }

  /** The cells of one data row, written at sheet row `r`. */
  function RowCells(r: nat, values: seq<Value>, lib: Library): map<Pos, Cell>
    requires RowNormalises(values, lib)
  {
    if values == [] then map[]
    else
      var n := |values| - 1;
      assert RowNormalises(values[..n], lib);
      RowCells(r, values[..n], lib)[Pos(r, n) := Cell(NormaliseCell(values[n], lib).value, false)]
  }

  /** The cells of all data rows, the first at sheet row 1. */
  function DataCells(rows: seq<seq<Value>>, lib: Library): map<Pos, Cell>
    requires RowsNormalise(rows, lib)
  {
    if rows == [] then map[]
    else
      var n := |rows| - 1;
      assert RowsNormalise(rows[..n], lib);
      DataCells(rows[..n], lib) + RowCells(n + 1, rows[n], lib)
  }

  function SheetCells(headers: seq<string>, rows: seq<seq<Value>>, lib: Library): map<Pos, Cell>
    requires RowsNormalise(rows, lib)
  {
    HeaderCells(headers) + DataCells(rows, lib)
  }

  lemma {:induction false} HeaderCellsAt(headers: seq<string>, p: Pos)
    ensures p in HeaderCells(headers) <==> p.row == 0 && p.col < |headers|
    ensures p in HeaderCells(headers) ==> HeaderCells(headers)[p] == Cell(Text(headers[p.col]), true)
  {
    if headers != [] {
      var n := |headers| - 1;
      HeaderCellsAt(headers[..n], p);
    }
  }

  lemma {:induction false} RowCellsAt(r: nat, values: seq<Value>, lib: Library, p: Pos)
    requires RowNormalises(values, lib)
    ensures p in RowCells(r, values, lib) <==> p.row == r && p.col < |values|
    ensures p in RowCells(r, values, lib) ==>
              RowCells(r, values, lib)[p] == Cell(NormaliseCell(values[p.col], lib).value, false)
  {
    if values != [] {
      var n := |values| - 1;
      assert RowNormalises(values[..n], lib);
      RowCellsAt(r, values[..n], lib, p);
    }
  }

  lemma {:induction false} DataCellsAt(rows: seq<seq<Value>>, lib: Library, p: Pos)
    requires RowsNormalise(rows, lib)
    ensures p in DataCells(rows, lib) <==> 1 <= p.row <= |rows| && p.col < |rows[p.row - 1]|
    ensures p in DataCells(rows, lib) ==>
              DataCells(rows, lib)[p] == Cell(NormaliseCell(rows[p.row - 1][p.col], lib).value, false)
  {
    if rows != [] {
      var n := |rows| - 1;
      assert RowsNormalise(rows[..n], lib);
      DataCellsAt(rows[..n], lib, p);
      RowCellsAt(n + 1, rows[n], lib, p);
    }
  }

  /** The worksheet layout: header k at (0, k) in bold, cell j of data row i at
      (i + 1, j) after normalisation and not bold, and no other cell. */
  lemma SheetCellsAt(headers: seq<string>, rows: seq<seq<Value>>, lib: Library, p: Pos)
    requires RowsNormalise(rows, lib)
    ensures p in SheetCells(headers, rows, lib) <==>
              (p.row == 0 && p.col < |headers|) || (1 <= p.row <= |rows| && p.col < |rows[p.row - 1]|)
    ensures p.row == 0 && p.col < |headers| ==>
              SheetCells(headers, rows, lib)[p] == Cell(Text(headers[p.col]), true)
    ensures 1 <= p.row <= |rows| && p.col < |rows[p.row - 1]| ==>
              SheetCells(headers, rows, lib)[p] == Cell(NormaliseCell(rows[p.row - 1][p.col], lib).value, false)
  {
    HeaderCellsAt(headers, p);
    DataCellsAt(rows, lib, p);
  }

  /** An xlsxwriter worksheet: its name and the cells written so far. */
  class Worksheet {
    const name: string
    var cells: map<Pos, Cell>

    constructor (name: string)
      ensures this.name == name && cells == map[]
    {
      this.name := name;
      cells := map[];
    }

    /** `ws.write(row, col, value, format)`: a later write to a cell replaces it. */
    method Write(row: nat, col: nat, value: Value, bold: bool)
      modifies this
      ensures cells == old(cells)[Pos(row, col) := Cell(value, bold)]
    {
      cells := cells[Pos(row, col) := Cell(value, bold)];
    }
  }

  /** The Excel output as a value: the TypeError of the first cell `json.dumps`
      refuses, or the sheet name and its cells. */
  function ExcelOutput(query: Query, res: QueryResult, lib: Library): (r: Result<Output, ExportError>)
    ensures r.Failure? <==>
              exists i, j :: 0 <= i < |res.data| && 0 <= j < |res.data[i]| && NormaliseCell(res.data[i][j], lib).None?
    ensures r.Failure? ==> r.error == JsonTypeError
    ensures r.Success? ==>
              && RowsNormalise(res.data, lib)
              && r.value == Workbook(FormatTitle(query.title, lib), SheetCells(res.headerStrings, res.data, lib))
  {
    if RowsNormalise(res.data, lib) then
      Success(Workbook(FormatTitle(query.title, lib), SheetCells(res.headerStrings, res.data, lib)))
    else Failure(JsonTypeError)
  }

  /** Writing one more data row adds that row's cells. */
  lemma DataCellsStep(rows: seq<seq<Value>>, n: nat, lib: Library)
    requires n < |rows| && RowsNormalise(rows[..n], lib) && RowNormalises(rows[n], lib)
    ensures RowsNormalise(rows[..n + 1], lib)
    ensures DataCells(rows[..n + 1], lib) == DataCells(rows[..n], lib) + RowCells(n + 1, rows[n], lib)
  {
    var next := rows[..n + 1];
    assert next[..n] == rows[..n] && next[n] == rows[n];
  }

  /** ExcelExporter._get_output: adds the sheet named after the title, writes
      the header strings across row 0 in bold, then each data row from row 1,
      the column counter going back to 0 after every row.  A cell `json.dumps`
      refuses ends the export with its TypeError. */
  method ExcelGetOutput(query: Query, res: QueryResult, lib: Library) returns (out: Result<Output, ExportError>)
    ensures out == ExcelOutput(query, res, lib)
  {
    var ws := new Worksheet(FormatTitle(query.title, lib));
    WriteHeaderRow(ws, res.headerStrings);
    ghost var written := ws.cells;
    var row := 1;
    assert res.data[..0] == [];
    while row <= |res.data|
      invariant 1 <= row <= |res.data| + 1
      invariant RowsNormalise(res.data[..row - 1], lib)
      invariant ws.cells == written + DataCells(res.data[..row - 1], lib)
    {
      ghost var before := ws.cells;
      var ok := WriteDataRow(ws, row, res.data[row - 1], lib);
      if !ok {
        return Failure(JsonTypeError);
      }
      DataCellsStep(res.data, row - 1, lib);
      UnionAssociates(written, DataCells(res.data[..row - 1], lib), RowCells(row, res.data[row - 1], lib));
      row := row + 1;
    }
    assert res.data[..row - 1] == res.data;
    return Success(Workbook(ws.name, ws.cells));
  }

  /** The header loop: `header_strings[k]` at (0, k) in bold. */
  method WriteHeaderRow(ws: Worksheet, headers: seq<string>)
    requires ws.cells == map[]
    modifies ws
    ensures ws.cells == HeaderCells(headers)
  {
    var row, col := 0, 0;
    while col < |headers|
      invariant 0 <= col <= |headers|
      invariant ws.cells == HeaderCells(headers[..col])
    {
      assert headers[..col + 1][..col] == headers[..col];
      ws.Write(row, col, Text(headers[col]), true);
      col := col + 1;
    }
    assert headers[..col] == headers;
  }

  /** The inner data loop for one row: each cell normalised, then written at
      (row, col), the column counter starting at 0.  It stops at the first
      cell `json.dumps` refuses and reports that. */
  method WriteDataRow(ws: Worksheet, row: nat, dataRow: seq<Value>, lib: Library) returns (ok: bool)
    modifies ws
    ensures ok <==> RowNormalises(dataRow, lib)
    ensures ok ==> ws.cells == old(ws.cells) + RowCells(row, dataRow, lib)
  {
    var col := 0;
    while col < |dataRow|
      invariant 0 <= col <= |dataRow|
      invariant RowNormalises(dataRow[..col], lib)
      invariant ws.cells == old(ws.cells) + RowCells(row, dataRow[..col], lib)
    {
      var data := dataRow[col];
      if data.DateTime? || data.Uuid? {
        data := Text(lib.str(data));
      }
      if data.Dict? || data.List? {
        match lib.jsonDumps(data) {
          case None =>
            assert NormaliseCell(dataRow[col], lib).None?;
            return false;
          case Some(text) =>
            data := Text(text);
        }
      }
      assert dataRow[..col + 1][..col] == dataRow[..col];
      assert RowNormalises(dataRow[..col + 1], lib);
      UnionUpdate(old(ws.cells), RowCells(row, dataRow[..col], lib), Pos(row, col), Cell(data, false));
      ws.Write(row, col, data, false);
      col := col + 1;
    }
    assert dataRow[..col] == dataRow;
    return true;
  }

  lemma UnionUpdate<K, V>(a: map<K, V>, b: map<K, V>, k: K, v: V)
    ensures (a + b)[k := v] == a + b[k := v]
  {
  }

  lemma UnionAssociates<K, V>(a: map<K, V>, b: map<K, V>, c: map<K, V>)
    ensures (a + b) + c == a + (b + c)
  {
  }

  // ------------------------------------------------------------ dispatch

  /** `exporter._get_output(res, delim=delim)` for each kind: only the CSV
      kinds read the delimiter, and each kind yields its own form of output. */
  function ExporterOutput(kind: ExporterKind, query: Query, res: QueryResult, delim: Option<string>,
                          default: string, lib: Library): (r: Result<Output, ExportError>)
    ensures r.Success? ==>
              && (r.value.CsvText? <==> kind == CsvExporter)
              && (r.value.CsvStream? <==> kind == StreamingCsvExporter)
              && (r.value.JsonData? <==> kind == JsonExporter)
              && (r.value.Workbook? <==> kind == ExcelExporter)
    ensures r.Failure? ==> r.error.BadDelimiter? || r.error.JsonTypeError?
    ensures r.Failure? && r.error.BadDelimiter? ==>
              (kind == CsvExporter || kind == StreamingCsvExporter) && |default| != 1
    ensures r.Failure? && r.error.JsonTypeError? ==> kind == JsonExporter || kind == ExcelExporter
  {
    match kind
    case CsvExporter =>
      (match CsvOutput(res, delim, default, lib)
       case Success(text) => Success(CsvText(text))
       case Failure(e) => Failure(e))
    case StreamingCsvExporter =>
      (match StreamingOutput(res, delim, default, lib)
       case Success(chunks) => Success(CsvStream(chunks))
       case Failure(e) => Failure(e))
    case JsonExporter => JsonOutput(res, lib)
    case ExcelExporter => ExcelOutput(query, res, lib)
  }

  /** One export run: the result and the parameters the query was executed with. */
  datatype Run = Run(output: Result<Output, ExportError>, executedWith: seq<Params>)

  /** `exporter.get_output(delim=delim)`: `get_file_output` executes the query
      once with its current parameters and passes the result to `_get_output`;
      only the streaming exporter returns its output unmaterialised. */
  function GetOutput(kind: ExporterKind, query: Query, execute: Params -> Execution,
                     delim: Option<string>, default: string, lib: Library): (run: Run)
    ensures run.executedWith == [query.params]
    ensures execute(query.params).DatabaseFailure? ==>
              run.output == Failure(DatabaseError(execute(query.params).detail))
    ensures execute(query.params).Completed? ==>
              run.output == ExporterOutput(kind, query, execute(query.params).result, delim, default, lib)
    ensures run.output.Success? ==> (run.output.value.CsvStream? <==> kind == StreamingCsvExporter)
    ensures run.output.Failure? && run.output.error.DatabaseError? ==> execute(query.params).DatabaseFailure?
  {
    match execute(query.params)
    case DatabaseFailure(detail) => Run(Failure(DatabaseError(detail)), [query.params])
    case Completed(res) => Run(ExporterOutput(kind, query, res, delim, default, lib), [query.params])
  }
}
