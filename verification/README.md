# Export subsystem of django-sql-explorer, modelled in Dafny

This project models how django-sql-explorer exports the result of a saved
query. The core is in `explorer/exporters.py` and `explorer/views/export.py`.
The registry `EXPLORER_DATA_EXPORTERS` maps a format name to an exporter
class. Each exporter executes the query once and turns the result into one
of four outputs:

- CSV text, which starts with a byte-order mark;
- streamed CSV, one chunk per record;
- JSON, one dict per row;
- an Excel worksheet.

The `_export` view picks the exporter and runs it. A `DatabaseError` becomes
a 500 response. Generator output gets a streaming response. The
`Content-Disposition` attachment header is added when the file is to be
downloaded.

Files:

- `wrappers.dfy`: `Option` and `Result`.
- `values.dfy`: the cell values a query yields, and the `Library` record.
  That record carries the foreign functions the exporters call: `str()`,
  `json.dumps` with and without `DjangoJSONEncoder`, `slugify` and the
  character cleaning of `get_valid_filename`. Both JSON encoders are partial:
  a value the encoder cannot serialise raises a TypeError, which escapes the
  view.
- `pydict.dfy`: Python's dict semantics, an insertion-ordered list of
  entries with distinct keys. `dict(pairs)` lets a later duplicate key
  overwrite an earlier one. Both `dict(zip(...))` in the JSON exporter and
  `dict(EXPLORER_DATA_EXPORTERS)` in the registry use it.
- `csv_format.dfy`: the records `csv.writer` writes with its default `excel`
  dialect, which follows section 2 of RFC 4180:
  - a field is quoted only when it holds the delimiter, `"`, CR or LF;
  - a quote inside a quoted field is doubled;
  - every record ends with CRLF;
  - a record that is a single empty field is written as `""`.

  It also holds a reader for that format and the lemmas proving that the
  reader recovers every sequence of records the writer encodes.
- `exporters.dfy` (module `Exporters`): the registry lookup, the delimiter
  rule and the four exporters.
  - `CSVExporter`, `JSONExporter` and the worksheet writes of `ExcelExporter`
    are methods with the source's loops. `Worksheet` is a class whose
    `cells` map is updated in place.
  - Functions specify those methods, and the view uses the functions.
  - The streaming generator is a function returning its chunks in order.
- `export_view.dfy` (module `ExportView`): `_export` as a function. It
  returns the response (or the exception that escapes) together with the
  updated query and the parameters the query was executed with.

The exceptions that escape the view are those raised by `_get_output` other
than a DatabaseError: the TypeError `csv.writer` raises for a delimiter that
is not one character, and the TypeError `json.dumps` raises on a value it
cannot serialise. The SuspiciousFileOperation `get_valid_filename` raises
when nothing is left of the title also escapes, and only when downloading.
The TypeError xlsxwriter's `write` raises for a value it cannot store would
escape too; it is not modelled (see "Left out").

The list of parameters the query was executed with is written by the model's
own `GetOutput`, once per call. So "the query runs at most once" holds by
construction of the model and is not a property proved about the source.

Three behaviours of the code are easy to misread:

- The 500 response is built without a content type, so it carries Django's
  default `text/html; charset=utf-8`, not a plain-text type.
- A row's JSON keys need not be all of the stringified headers. `zip` stops at the
  shorter of headers and row, and duplicate keys collapse, with the last
  cell's value winning.
- The delimiter rule replaces a multi-character `delim` with the raw
  configured default, and it does so after the `"tab"` translation. So when
  `CSV_DELIMETER` is itself the word `tab`, a request with `delim=abc`
  reaches `csv.writer` with the three-character string `tab`, and the writer
  raises a TypeError. In the Python versions the model follows, this is the
  only way either CSV exporter fails on its delimiter: `ExporterOutput`'s
  contract says so, and `Export` reports it as `Crashed`.

## Model

| member | source | states |
|---|---|---|
| `PyDict.FromPairsGet` | explorer/exporters.py:107-110 | `dict(pairs)[k]` is missing exactly when no pair carries `k`; otherwise it is the value of the last pair carrying `k` (a later duplicate overwrites) |
| `PyDict.FromPairsDistinct` | explorer/exporters.py:107-110 | a dict built from pairs never holds a key twice |
| `PyDict.FromDistinctPairs` | explorer/exporters.py:107-110 | with no duplicate keys, `dict(pairs)` holds exactly the pairs in their order |
| `PyDict.FromPairsLength` | explorer/exporters.py:107-110 | `dict(pairs)` has no more entries than there are pairs |
| `PyDict.AssignGet` | explorer/exporters.py:107-110 | after `d[k] = v`, `k` reads `v` and every other key reads what it read before |
| `PyDict.AssignShape` | explorer/exporters.py:107-110 | `d[k] = v` keeps keys distinct and old keys in place, and grows the dict only for a new key |
| `CsvFormat.EncodeRecordShape` | explorer/exporters.py:62-64 | `writerow` ends every record with CRLF; the empty record is CRLF alone, and a record that is one empty field is written `""` |
| `CsvFormat.ReadRecordOfEncoded` | explorer/exporters.py:61-64 | reading back one record written by `writerow` gives exactly its fields, including the empty record and the single empty field |
| `CsvFormat.ReadRecordsOfEncoded` | explorer/exporters.py:61-64 | round trip: for any delimiter other than `"`, CR and LF, the reader recovers exactly the records written, in order, with delimiters, quotes and line breaks inside fields |
| `CsvFormat.EncodeRecordsAppend` | explorer/exporters.py:63-64 | writing one more record to the buffer appends that record's encoding |
| `Exporters.ContentType` | explorer/exporters.py:49-121 | the `content_type` attribute: `text/csv` exactly for the two CSV exporters |
| `Exporters.FileExtension` | explorer/exporters.py:49-121 | the `file_extension` attribute: a dot and a suffix, `.csv` exactly for the two CSV exporters |
| `Exporters.GetExporterClass` | explorer/exporters.py:15-17 | the lookup fails exactly when no registry entry names the format; otherwise it gives the kind of the last entry naming it |
| `Exporters.GetFilename` | explorer/exporters.py:45-46 | fails with SuspiciousFileOperation exactly when the cleaned title is empty, `.` or `..`; otherwise the filename is the cleaned title followed by the exporter's extension, so it ends with that extension and is never the extension alone |
| `Exporters.ResolveDelimiter` | explorer/exporters.py:56-58 | absent or empty `delim` gives the default (a default of `tab` becomes a tab); `"tab"` gives a tab; other strings longer than one character give the configured default; one character passes through; a one-character default always yields one character |
| `Exporters.CsvOutput` | explorer/exporters.py:55-65 | a TypeError exactly when the resolved delimiter is not one character; otherwise the BOM followed by the encoded header record and one record per row of `res.data` |
| `Exporters.CsvGetOutput` | explorer/exporters.py:55-65 | the loop writing the BOM, the header record and one record per row into the buffer gives exactly `CsvOutput`, error case included |
| `Exporters.CsvOutputReadsBack` | explorer/exporters.py:59-65 | the materialised CSV starts with the BOM, and reading the rest gives exactly the header record and then one record per data row, in order |
| `Exporters.RowChunks` | explorer/exporters.py:92 | one chunk per cursor row, each the encoding of its row |
| `Exporters.StreamingChunks` | explorer/exporters.py:83-94 | `1 + len(cursor)` chunks: the header record first, then chunk `i + 1` encodes cursor row `i`; the discarded `writerow` at line 88 adds nothing |
| `Exporters.StreamingOutput` | explorer/exporters.py:78-94 | the same delimiter rule and TypeError as `CSVExporter`; otherwise one chunk per record |
| `Exporters.ConcatRowChunks` | explorer/exporters.py:90-92 | the row chunks joined together are the encoding of the rows as one text |
| `Exporters.StreamingMatchesMaterialized` | explorer/exporters.py:55-94 | for the same rows, the streamed chunks joined together equal the materialised CSV without its BOM, and both exporters accept the same delimiters |
| `Exporters.JsonRows` | explorer/exporters.py:104-111 | one dict per row of `res.data`, in row order, each `dict(zip(header keys, row))` with `None` headers as `""` |
| `Exporters.JsonOutput` | explorer/exporters.py:103-114 | a TypeError exactly when `DjangoJSONEncoder` refuses the list; otherwise the list of row dicts together with its JSON text |
| `Exporters.JsonGetOutput` | explorer/exporters.py:103-114 | the loop appending one dict per row, then encoding the list, gives exactly `JsonOutput`, error case included |
| `Exporters.JsonObjectSemantics` | explorer/exporters.py:107-110 | a row's dict has distinct keys and at most `min(len(headers), len(row))` entries; a key is present exactly when one of those first headers gives it, with the cell under the last such header |
| `Exporters.JsonObjectWithoutDuplicates` | explorer/exporters.py:107-110 | with distinct headers, a row's dict is exactly the zipped header/cell pairs in column order |
| `Exporters.FormatTitle` | explorer/exporters.py:160-166 | the sheet name is a prefix of the slugified title, of length `min(len(slug), 31)` |
| `Exporters.NormaliseCell` | explorer/exporters.py:144-151 | datetimes and UUIDs become `str()` of the value, and that string does not then go through `json.dumps`; dicts and lists become their JSON text, or fail exactly when `json.dumps` raises; everything else is unchanged; what is written is never a datetime, UUID, dict or list |
| `Exporters.HeaderCellsAt` | explorer/exporters.py:132-137 | the header loop writes exactly cells `(0, k)` for each header string `k`, in bold |
| `Exporters.RowCellsAt` | explorer/exporters.py:143-153 | one data row writes exactly cells `(r, j)` for its columns, normalised, not bold |
| `Exporters.DataCellsAt` | explorer/exporters.py:140-155 | data row `i` is written on sheet row `i + 1`, column `j` at `j`, and no other data cell is written |
| `Exporters.SheetCellsAt` | explorer/exporters.py:131-155 | the whole layout: header `k` at `(0, k)` in bold, cell `j` of data row `i` at `(i + 1, j)` after normalisation, nothing else |
| `Exporters.Worksheet.constructor` | explorer/exporters.py:129 | a new worksheet has the given name and no cells |
| `Exporters.Worksheet.Write` | explorer/exporters.py:136 | writing a cell sets that cell's value and format, leaving every other cell |
| `Exporters.WriteHeaderRow` | explorer/exporters.py:132-137 | after the header loop the sheet holds exactly the bold header cells |
| `Exporters.WriteDataRow` | explorer/exporters.py:143-155 | the inner loop succeeds exactly when every cell of the row normalises, and then adds exactly the row's normalised cells at its sheet row, column counter from 0 |
| `Exporters.ExcelOutput` | explorer/exporters.py:123-158 | a TypeError exactly when some data cell fails normalisation; otherwise the sheet named by `_format_title` holding exactly the layout `SheetCells` |
| `Exporters.ExcelGetOutput` | explorer/exporters.py:123-158 | the method creating the sheet and running both loops gives exactly `ExcelOutput`, error case included |
| `Exporters.ExporterOutput` | explorer/exporters.py:35 | each kind's `_get_output`: text for CSV, a chunk sequence only for streaming CSV, JSON data for JSON, a workbook for Excel; the only errors are the delimiter TypeError, for a CSV kind whose configured default is not one character, and the JSON TypeError, for the JSON and Excel kinds |
| `Exporters.GetOutput` | explorer/exporters.py:29-35 | a DatabaseError from executing the query with its current parameters is returned as such, and no other DatabaseError arises; otherwise the output is that kind's `_get_output`; only the streaming exporter yields generator output |
| `ExportView.RequestedFormat` | explorer/views/export.py:10 | the `format` GET parameter, `csv` when it is absent |
| `ExportView.DelimParam` | explorer/views/export.py:13 | the `delim` GET parameter, `None` exactly when it is absent |
| `ExportView.Export` | explorer/views/export.py:9-31 | an unregistered format fails before params are set or the query runs; params come from the request; a 500 response with `Error executing query <title>: <error>` and no attachment exactly for a DatabaseError; an exporter error escapes as it is; a title that leaves no file name escapes when downloading; otherwise a 200 response whose body is the exporter's output for the raw `delim`, streaming exactly for generator output, with the exporter's content type and `Content-Disposition` exactly when downloading, naming the file with the exporter's extension |

## Left out

- The XLSX bytes (`xlsxwriter` workbook, `wb.close()`, `BytesIO`) are not produced: the Excel output is the sheet name and its cell map.
- The JSON text is the foreign encoder's result: the model states which list is handed to `json.dumps(..., cls=DjangoJSONEncoder)`, not how values are rendered.
- `str()`, `json.dumps`, `slugify` and the character cleaning of `get_valid_filename` are Python and Django library functions, so they are parameters (`Values.Library`) and every property holds whatever they return. Which values each JSON encoder refuses is therefore not spelled out: the model only routes a refusal to the TypeError. The sheet name and filename are only as valid as `slugify` and that cleaning make them.
- `get_valid_filename` raises only from Django 3.2 on; the model follows those versions.
- `Exporters.Worksheet.Write` records every write call as a cell. xlsxwriter stores nothing for a blank value (`None` or `""`) written without a format, which reads back the same as the recorded empty cell. It also ignores cells past row 1,048,575 or column 16,383, and cuts strings longer than 32,767 characters. Those limits are not modelled.
- Exporters.ExcelOutput: does not model the TypeError xlsxwriter's `write` raises for a value it cannot store (a float NaN or infinity, since the workbook is opened without `nan_inf_to_errors`; a `memoryview`; a timezone-aware `time`). Which values those are depends on xlsxwriter and on the driver's types, which `Values.Other` leaves abstract, so the model answers with the workbook where the source's exception would escape the view.
- xlsxwriter's own handling of the sheet name (its default for an empty name, its refusal of names it reserves) is not modelled.
- What Django makes of an exception that escapes the view (a 400 for SuspiciousFileOperation, a 500 otherwise) is outside the view and not modelled.
- `url_get_params` and query execution (`execute_query_only`) are code outside the core, so they are parameters of `ExportView.Export`. An execution outcome is either a result or a DatabaseError.
- `import_string` is Django code: the registry entries are modelled as already-imported exporter kinds, so a class path that fails to import is not modelled.
- Errors raised while a streamed cursor is iterated, after the response has started, happen outside the view's `try`, and are not modelled. Pull timing, client disconnects and HTTP transport are not modelled either: streamed output is its finite sequence of chunks.
- `csv.writer` checks on the dialect other than the delimiter's length are not modelled: the model follows Python versions whose writer accepts any one-character delimiter. Some versions also reject a delimiter equal to the quote character or to CR or LF, which a request's `delim` can send; there the model answers where the source raises. The round-trip lemmas assume a delimiter other than `"`, CR and LF.
- `CsvFormat`'s reader is a strict reader of the written format. It is not Python's more lenient `csv.reader`.
- `query.title` is modelled as a string, because the model field is not nullable. `title or ""` is then the title itself.
- The `name` attribute of each exporter class is not read by the core.
- `explorer/migrations/0021_alter_databaseconnection_password_and_more.py` is a schema migration with no logic.
