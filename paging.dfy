/** `extract_pagination`: reads the `start` and `end` query parameters of a
    list request. */
module Paging {
  import opened Results
  import opened UsizeParse
  import opened Errors

  /** A half-open range `[start, end)` of the listing; nothing relates the two. */
  datatype Pagination = Pagination(start: Usize, end: Usize)

  /** Both keys must be present; `start` is parsed before `end`, and the first
      parse failure is returned as `ParseError`. */
  function ExtractPagination(params: map<string, string>): Result<Pagination, Error> {
    if "start" in params && "end" in params then
      match ParseUsize(params["start"])
      case Err(kind) => Err(ParseError(kind))
      case Ok(start) =>
        match ParseUsize(params["end"])
        case Err(kind) => Err(ParseError(kind))
        case Ok(end) => Ok(Pagination(start, end))
    else
      Err(MissingParameters)
  }

  /** The query parameters pagination looks at. */
  function PaginationKeys(params: map<string, string>): (m: map<string, string>)
    ensures m.Keys == params.Keys * {"start", "end"}
    ensures forall k :: k in m ==> m[k] == params[k]
  {
    map k | k in params && (k == "start" || k == "end") :: params[k]
  }

  /** Missing parameters is reported exactly when a key is absent, whatever
      other keys are present. */
  lemma MissingParametersIffKeyAbsent(params: map<string, string>)
    ensures ExtractPagination(params) == Err(MissingParameters) <==>
            "start" !in params || "end" !in params
  {
  }

  /** Success exactly when both values are usize literals, and then the
      pagination holds their decimal values; other keys are ignored. */
  lemma ExtractPaginationAccepts(params: map<string, string>)
    ensures ExtractPagination(params).Ok? <==>
            "start" in params && "end" in params &&
            IsUsizeLiteral(params["start"]) && IsUsizeLiteral(params["end"])
    ensures ExtractPagination(params).Ok? ==>
            ExtractPagination(params).value.start == DecimalValue(Unsigned(params["start"])) &&
            ExtractPagination(params).value.end == DecimalValue(Unsigned(params["end"]))
  {
    if "start" in params && "end" in params {
      ParseUsizeAccepts(params["start"]);
      ParseUsizeAccepts(params["end"]);
    }
  }

  /** `start` is parsed first: a malformed `start` decides the error whatever
      `end` holds; with a well-formed `start`, a malformed `end` decides it. */
  lemma StartParsedBeforeEnd(params: map<string, string>)
    requires "start" in params && "end" in params
    ensures !IsUsizeLiteral(params["start"]) ==>
            ExtractPagination(params) == Err(ParseError(Expected(params["start"]).error))
    ensures IsUsizeLiteral(params["start"]) && !IsUsizeLiteral(params["end"]) ==>
            ExtractPagination(params) == Err(ParseError(Expected(params["end"]).error))
  {
    ParseUsizeAccepts(params["start"]);
    ParseUsizeAccepts(params["end"]);
    ParseUsizeMatchesExpected(params["start"]);
    ParseUsizeMatchesExpected(params["end"]);
  }

  /** Keys other than `start` and `end` never change the outcome. */
  lemma OtherKeysIgnored(params: map<string, string>)
    ensures ExtractPagination(params) == ExtractPagination(PaginationKeys(params))
  {
  }

  /** No relational check: every pair of usize values, in either order and up
      to the largest usize, written in decimal, is accepted as it is. */
  lemma AnyPairAccepted(start: Usize, end: Usize)
    ensures ExtractPagination(map["start" := ToDecimal(start), "end" := ToDecimal(end)])
            == Ok(Pagination(start, end))
  {
    ParseUsizeRoundTrip(start);
    ParseUsizeRoundTrip(end);
  }

  /** Concrete cases: no parameters, `end` missing, an unrelated key, a
      malformed `start`, and `start` greater than `end`. */
  lemma ExtractPaginationExamples()
    ensures ExtractPagination(map[]) == Err(MissingParameters)
    ensures ExtractPagination(map["start" := "0"]) == Err(MissingParameters)
    ensures ExtractPagination(map["foo" := "1"]) == Err(MissingParameters)
    ensures ExtractPagination(map["start" := "a", "end" := "5"]) == Err(ParseError(InvalidDigit))
    ensures ExtractPagination(map["start" := "5", "end" := "2"]) == Ok(Pagination(5, 2))
  {
    assert ParseUsize("a") == Err(InvalidDigit);
    assert ParseUsize("5") == Ok(5);
    assert ParseUsize("2") == Ok(2);
  }
}
