/**
 * The API's error type: the numeric error codes, the error record returned
 * to clients, its display text, and the HTTP responses the API documents.
 */
module ApiErrors {
  import opened Wrappers
  import opened Text

  datatype ApiErrorCode = IoError | ParseError | DatabaseError | ValueError | UserNotExists {

    /** The numeric code a client receives (the enum's `u32` discriminant). */
    function Code(): (n: u32)
      ensures n in {100, 200, 1001, 1005, 1008}
      ensures n < 1000 <==> (IoError? || ParseError?)
    {
      match this
      case IoError => 100
      case ParseError => 200
      case DatabaseError => 1001
      case ValueError => 1005
      case UserNotExists => 1008
    }

    /** The display text: the variant's name. */
    function Name(): (s: string)
      ensures EndsWith(s, "Error") <==> !UserNotExists?
    {
      match this
      case IoError => "IoError"
      case ParseError => "ParseError"
      case DatabaseError => "DatabaseError"
      case ValueError => "ValueError"
      case UserNotExists => "UserNotExists"
    }
  }

  /** The code read back from its number: the inverse of `Code`. */
  function CodeOf(n: int): (c: Option<ApiErrorCode>)
    ensures c.Some? ==> c.value.Code() == n
  {
    if n == 100 then Some(IoError)
    else if n == 200 then Some(ParseError)
    else if n == 1001 then Some(DatabaseError)
    else if n == 1005 then Some(ValueError)
    else if n == 1008 then Some(UserNotExists)
    else None
  }

  /** An error returned to a client; `httpStatusCode` is used for the response and not serialised. */
  datatype ApiError = ApiError(
    error: string,
    message: Option<string>,
    errorCode: ApiErrorCode,
    httpStatusCode: u16)

  const NoMessage: string := "<no message>"

  /** The display text of an error: "Error `<title>`: <message>", with a placeholder for a missing message. */
  function Display(e: ApiError): (s: string)
    ensures StartsWith(s, "Error `" + e.error + "`: ")
    ensures e.message.Some? ==> EndsWith(s, e.message.value)
    ensures e.message.None? ==> EndsWith(s, NoMessage)
    ensures |s| == 10 + |e.error| + |e.message.GetOr(NoMessage)|
  {
    var s := "Error `" + e.error + "`: " + e.message.GetOr(NoMessage);
    assert s[..|"Error `" + e.error + "`: "|] == "Error `" + e.error + "`: ";
    s
  }

  /**
   * The responses documented for every error, keyed by status code, with
   * the heading of each description.
   */
  function DocumentedResponses(): (responses: map<string, string>)
    ensures responses.Keys == {"400", "404", "422", "450", "500"}
  {
    var responses: map<string, string> := map[];
    var responses := responses["400" := "400 Bad Request"];
    var responses := responses["404" := "404 Not Found"];
    var responses := responses["422" := "422 Unprocessable Entity"];
    var responses := responses["450" := "450 Adozi Api Error"];
    var responses := responses["500" := "500 Internal Server Error"];
    responses
  }

  /** A status code is documented when its decimal text is a key of the response map. */
  predicate Documented(status: u16) {
    Decimal(status) in DocumentedResponses()
  }

  // ----- Properties -----

  /** Distinct codes have distinct numbers: the number determines the code. */
  lemma CodeRoundTrip(c: ApiErrorCode)
    ensures CodeOf(c.Code()) == Some(c)
  {
  }

  /** Distinct codes display distinct names. */
  lemma NamesDistinct(a: ApiErrorCode, b: ApiErrorCode)
    ensures a.Name() == b.Name() ==> a == b
  {
  }

  /** Two errors with the same title display the same text exactly when their rendered messages agree. */
  lemma DisplayDeterminesMessage(a: ApiError, b: ApiError)
    requires a.error == b.error
    ensures Display(a) == Display(b) <==> a.message.GetOr(NoMessage) == b.message.GetOr(NoMessage)
  {
    var p := "Error `" + a.error + "`: ";
    if Display(a) == Display(b) {
      assert Display(a)[|p|..] == a.message.GetOr(NoMessage);
      assert Display(b)[|p|..] == b.message.GetOr(NoMessage);
    }
  }

  /** A missing message and the message "<no message>" display the same. */
  lemma MissingMessageIndistinguishable(title: string, code: ApiErrorCode, status: u16)
    ensures Display(ApiError(title, None, code, status)) == Display(ApiError(title, Some(NoMessage), code, status))
  {
  }

  /** The rendering of a three-digit number. */
  lemma DecimalOfThreeDigits(n: nat)
    requires 100 <= n < 1000
    ensures Decimal(n) == [DigitChar(n / 100), DigitChar(n / 10 % 10), DigitChar(n % 10)]
  {
    assert Decimal(n / 10) == Decimal(n / 100) + [DigitChar(n / 10 % 10)];
  }

  /** The value of three decimal digits. */
  lemma DigitsValueOfThree(t: string)
    requires |t| == 3 && AllDigits(t)
    ensures DigitsValue(t) == DigitValue(t[0]) * 100 + DigitValue(t[1]) * 10 + DigitValue(t[2])
  {
    assert t[..2][..1] == t[..1] && t[..1][..0] == [];
    assert t[..2][1] == t[1] && t[..1][0] == t[0];
    assert DigitsValue(t[..1]) == DigitValue(t[0]);
    assert DigitsValue(t[..2]) == DigitValue(t[0]) * 10 + DigitValue(t[1]);
  }

  /** The documented status codes are exactly 400, 404, 422, 450 and 500. */
  lemma DocumentedStatuses(status: u16)
    ensures Documented(status) <==> status in {400, 404, 422, 450, 500}
  {
    if status in {400, 404, 422, 450, 500} {
      DecimalOfThreeDigits(status);
    }
    if Documented(status) {
      var text := Decimal(status);
      assert text in {"400", "404", "422", "450", "500"};
      DecimalRoundTrip(status);
      DigitsValueOfThree(text);
    }
  }
}
