/**
 * The export view of explorer/views/export.py: resolves the exporter for the
 * requested format, sets the query's parameters from the request, runs the
 * export, turns a DatabaseError into a 500 response, picks a streaming
 * response for generator output, and adds the attachment header when the
 * file is to be downloaded.
 *
 * `url_get_params` and the query's execution are not part of this model; they
 * are parameters.  The view's in-place updates (the query's `params`, the
 * response's `Content-Disposition`) appear in the returned record.
 */
module ExportView {

  import opened Wrappers
  import opened Values
  import opened Exporters

  /** The GET parameters of a request, one value per name. */
  datatype Request = Request(get: map<string, string>)

  /** The configuration the view reads: EXPLORER_DATA_EXPORTERS (with each
      class path already imported) and CSV_DELIMETER. */
  datatype Settings = Settings(exporters: seq<(string, ExporterKind)>, csvDelimiter: string)

  /** HttpResponse or StreamingHttpResponse. */
  datatype DeliveryMode = Plain | Streaming

  datatype Body = Message(text: string) | Payload(output: Output)

  datatype Response = Response(
    mode: DeliveryMode,
    status: nat,
    contentType: string,
    body: Body,
    disposition: Option<string>)   // the Content-Disposition header, if set

  /** What the view does: answer, or let an exception escape. */
  datatype Outcome =
    | Responded(response: Response)
    | UnknownFormat(format: string)    // the KeyError of the registry lookup
    | Crashed(error: ExportError)      // an error other than DatabaseError

  /** The view's result together with the state it changed: the query (whose
      params it assigns) and the parameters the query was executed with. */
  datatype ExportResult = ExportResult(outcome: Outcome, query: Query, executedWith: seq<Params>)

  /** Django's content type for a response built without one. */
  const DefaultContentType: string := "text/html; charset=utf-8"

  /** `request.GET.get("format", "csv")` */
  function RequestedFormat(request: Request): (format: string)
    ensures "format" !in request.get ==> format == "csv"
    ensures "format" in request.get ==> format == request.get["format"]
  {
    if "format" in request.get then request.get["format"] else "csv"
  }

  /** `request.GET.get("delim")` */
  function DelimParam(request: Request): (delim: Option<string>)
    ensures delim.None? <==> "delim" !in request.get
    ensures delim.Some? ==> delim.value == request.get["delim"]
  {
    if "delim" in request.get then Some(request.get["delim"]) else None
  }

  function ErrorMessage(title: string, detail: string): string {
    "Error executing query " + title + ": " + detail
  }

  function Disposition(filename: string): string {
    "attachment; filename=\"" + filename + "\""
  }

  /** `_export(request, query, download)` */
  function Export(request: Request, query: Query, download: bool, settings: Settings, lib: Library,
                  urlGetParams: Request -> Params, execute: Params -> Execution): (r: ExportResult)
    // the format defaults to csv, and an unregistered one fails before anything runs
    ensures r.outcome == UnknownFormat(RequestedFormat(request)) <==>
              forall j :: 0 <= j < |settings.exporters| ==> settings.exporters[j].0 != RequestedFormat(request)
    ensures r.outcome.UnknownFormat? ==> r.query == query && r.executedWith == []
    // otherwise params come from the request, and the query runs with them
    ensures !r.outcome.UnknownFormat? ==>
              r.query == query.(params := urlGetParams(request)) && r.executedWith == [r.query.params]
    ensures |r.executedWith| <= 1
    // a DatabaseError, and nothing else, becomes a 500 response naming the
    // query, with no attachment
    ensures var kind := GetExporterClass(settings.exporters, RequestedFormat(request));
            var q := query.(params := urlGetParams(request));
            (r.outcome.Responded? && r.outcome.response.status == 500) <==>
              kind.Some? && execute(q.params).DatabaseFailure?
    ensures !r.outcome.UnknownFormat? && execute(r.query.params).DatabaseFailure? ==>
              r.outcome == Responded(Response(Plain, 500, DefaultContentType,
                                              Message(ErrorMessage(query.title, execute(r.query.params).detail)), None))
    // an exporter's output, with a file name when downloading, is answered
    // with a 200 response; an exporter error or a title that leaves no file
    // name escapes, and nothing else does
    ensures var kind := GetExporterClass(settings.exporters, RequestedFormat(request));
            var q := query.(params := urlGetParams(request));
            kind.Some? && execute(q.params).Completed? ==>
              var output := ExporterOutput(kind.value, q, execute(q.params).result,
                                           DelimParam(request), settings.csvDelimiter, lib);
              && (output.Failure? ==> r.outcome == Crashed(output.error))
              && (output.Success? && download && GetFilename(kind.value, q, lib).Failure? ==>
                    r.outcome == Crashed(SuspiciousFileOperation(query.title)))
              && (output.Success? && (download ==> GetFilename(kind.value, q, lib).Success?) ==>
                    r.outcome.Responded? && r.outcome.response.status == 200)
    ensures r.outcome.Crashed? ==> !r.outcome.error.DatabaseError? && r.executedWith != []
    // what a 200 response holds: the exporter's output for the request's raw
    // delim, streamed exactly for the streaming exporter, its content type,
    // and the attachment header exactly when downloading
    ensures var kind := GetExporterClass(settings.exporters, RequestedFormat(request));
            kind.Some? && r.outcome.Responded? && r.outcome.response.status == 200 ==>
              && execute(r.query.params).Completed?
              && r.outcome.response.body.Payload?
              && ExporterOutput(kind.value, r.query, execute(r.query.params).result,
                                DelimParam(request), settings.csvDelimiter, lib)
                 == Success(r.outcome.response.body.output)
              && (r.outcome.response.mode == Streaming <==> r.outcome.response.body.output.CsvStream?)
              && (r.outcome.response.mode == Streaming <==> kind.value == StreamingCsvExporter)
              && r.outcome.response.contentType == ContentType(kind.value)
              && (r.outcome.response.disposition.Some? <==> download)
              && (download ==> GetFilename(kind.value, r.query, lib).Success?
                               && r.outcome.response.disposition
                                  == Some(Disposition(GetFilename(kind.value, r.query, lib).value)))
    // every response is either the 500 error response or a 200 one
    ensures r.outcome.Responded? ==> r.outcome.response.status in {200, 500}
  {
    var format := RequestedFormat(request);
    match GetExporterClass(settings.exporters, format)
    case None => ExportResult(UnknownFormat(format), query, [])
    case Some(kind) =>
      var q := query.(params := urlGetParams(request));
      var run := GetOutput(kind, q, execute, DelimParam(request), settings.csvDelimiter, lib);
      var outcome :=
        match run.output
        case Failure(DatabaseError(detail)) =>
          Responded(Response(Plain, 500, DefaultContentType, Message(ErrorMessage(q.title, detail)), None))
        case Failure(e) => Crashed(e)
        case Success(output) =>
          var mode := if output.CsvStream? then Streaming else Plain;
          if !download then Responded(Response(mode, 200, ContentType(kind), Payload(output), None))
          else
            match GetFilename(kind, q, lib)
            case Failure(e) => Crashed(e)
            case Success(filename) =>
              Responded(Response(mode, 200, ContentType(kind), Payload(output), Some(Disposition(filename))));
      ExportResult(outcome, q, run.executedWith)
  }
}
