/**
 * Conversions of library errors into `ApiError`, and the HTTP response an
 * `ApiError` becomes.
 */
module ErrorConversion {
  import opened Wrappers
  import opened Text
  import opened ApiErrors

  /** A JSON body error: an I/O failure while reading, or a parse failure of the raw data. */
  datatype JsonError = Io(ioError: string) | Parse(rawData: string, parseError: string)

  /** A JSON body error: 422, with the underlying error's text as message. */
  function FromJsonError(err: JsonError): (e: ApiError)
    ensures e.httpStatusCode == 422
    ensures err.Io? ==> e.error == "IO Error" && e.errorCode == IoError && e.message == Some(err.ioError)
    ensures err.Parse? ==> e.error == "Parse Error" && e.errorCode == ParseError && e.message == Some(err.parseError)
  {
    match err
    case Io(ioError) => ApiError("IO Error", Some(ioError), IoError, 422)
    case Parse(_, parseError) => ApiError("Parse Error", Some(parseError), ParseError, 422)
  }

  /** Failed validation of a request: a parse error, 422, with the validation report as message. */
  function FromValidationErrors(report: string): (e: ApiError)
    ensures e.error == "Parse Error" && e.errorCode == ParseError && e.httpStatusCode == 422
    ensures e.message == Some(report)
  {
    ApiError("Parse Error", Some(report), ParseError, 422)
  }

  /** Any I/O error: a fixed record, status 450, whatever the error was. */
  function FromIoError(ioError: string): (e: ApiError)
    ensures e.error == "IO Error" && e.errorCode == IoError && e.httpStatusCode == 450
    ensures e.message == Some("IO Error")
  {
    ApiError("IO Error", Some("IO Error"), IoError, 450)
  }

  const JsonContentType: string := "application/json"

  datatype Response = Response(status: u16, contentType: string, body: string)

  /**
   * The response an error becomes: its own status code, a JSON content
   * type, and the serialised error as body (the serialisation is given).
   */
  function RespondTo(e: ApiError, serialized: string): (r: Response)
    ensures r.status == e.httpStatusCode
    ensures r.contentType == JsonContentType
    ensures r.body == serialized
  {
    Response(e.httpStatusCode, JsonContentType, serialized)
  }

  /**
   * What every conversion keeps: the title names the code ("IO Error" for
   * `IoError`, "Parse Error" for `ParseError`), a message is present, and
   * the status code is one of the documented responses.
   */
  predicate Coherent(e: ApiError) {
    && (e.errorCode == IoError <==> e.error == "IO Error")
    && (e.errorCode == ParseError <==> e.error == "Parse Error")
    && e.message.Some?
    && Documented(e.httpStatusCode)
  }

  // ----- Properties -----

  /** Every conversion yields a coherent error, so every response it becomes has a documented status. */
  lemma ConversionsCoherent(err: JsonError, report: string, ioError: string)
    ensures Coherent(FromJsonError(err))
    ensures Coherent(FromValidationErrors(report))
    ensures Coherent(FromIoError(ioError))
  {
    DocumentedStatuses(422);
    DocumentedStatuses(450);
  }

  /** The two paths for an I/O failure disagree: a JSON body I/O error is 422 with its text, a plain one 450 with a fixed text. */
  lemma IoErrorPathsDiffer(ioError: string)
    ensures FromJsonError(Io(ioError)).httpStatusCode != FromIoError(ioError).httpStatusCode
    ensures FromIoError(ioError).message == Some("IO Error")
  {
  }

  /** A plain I/O error always displays the same text and answers 450. */
  lemma IoErrorDisplay(ioError: string, serialized: string)
    ensures Display(FromIoError(ioError)) == "Error `IO Error`: IO Error"
    ensures RespondTo(FromIoError(ioError), serialized).status == 450
  {
  }

  /** The response code of any converted error is one a client was told to expect. */
  lemma ConvertedResponseDocumented(err: JsonError, report: string, ioError: string, serialized: string)
    ensures Documented(RespondTo(FromJsonError(err), serialized).status)
    ensures Documented(RespondTo(FromValidationErrors(report), serialized).status)
    ensures Documented(RespondTo(FromIoError(ioError), serialized).status)
  {
    ConversionsCoherent(err, report, ioError);
  }
}
