/** The service's error taxonomy, its display text, and the recovery step
    (`return_error`) that turns a rejected request into an HTTP reply. */
module Errors {
  import opened Results
  import opened UsizeParse

  const OK: nat := 200
  const FORBIDDEN: nat := 403
  const NOT_FOUND: nat := 404
  const RANGE_NOT_SATISFIABLE: nat := 416

  const MISSING_PARAMETER_TEXT := "Missing parameter"
  const PARSE_ERROR_PREFIX := "Cannot parse parameter: "
  const ROUTE_NOT_FOUND_TEXT := "Route not found"

  /** Errors raised by pagination; `ParseError` carries the kind of the
      underlying `ParseIntError`. */
  datatype Error = ParseError(cause: IntErrorKind) | MissingParameters

  /** The `Display` text of an error. The standard library's own wording of a
      `ParseIntError` is not part of this model: `describe` stands for it. */
  function Message(e: Error, describe: IntErrorKind -> string): (text: string)
    ensures e.MissingParameters? ==> text == MISSING_PARAMETER_TEXT
    ensures e.ParseError? ==>
      |text| >= |PARSE_ERROR_PREFIX| &&
      text[..|PARSE_ERROR_PREFIX|] == PARSE_ERROR_PREFIX &&
      text[|PARSE_ERROR_PREFIX|..] == describe(e.cause)
  {
    match e
    case ParseError(kind) => PARSE_ERROR_PREFIX + describe(kind)
    case MissingParameters => MISSING_PARAMETER_TEXT
  }

  /** What a warp rejection lets `find` discover: a custom `Error` of this
      service, a CORS refusal (its text is the framework's), or neither (no
      route matched, or some other framework rejection). */
  datatype Rejection = Rejection(custom: Option<Error>, corsForbidden: Option<string>)

  /** A reply as status code and body text. */
  datatype Reply = Reply(status: nat, body: string)

  /** `return_error`: a custom error wins and is answered 416 with its text;
      otherwise a CORS refusal is answered 403 with its text; anything else
      is answered 404 "Route not found". */
  function ReturnError(r: Rejection, describe: IntErrorKind -> string): (reply: Reply)
    ensures reply.status == RANGE_NOT_SATISFIABLE <==> r.custom.Some?
    ensures reply.status == FORBIDDEN <==> r.custom.None? && r.corsForbidden.Some?
    ensures reply.status == NOT_FOUND <==> r.custom.None? && r.corsForbidden.None?
    ensures r.custom.Some? ==> reply.body == Message(r.custom.value, describe)
    ensures r.custom.None? && r.corsForbidden.Some? ==> reply.body == r.corsForbidden.value
    ensures r.custom.None? && r.corsForbidden.None? ==> reply.body == ROUTE_NOT_FOUND_TEXT
  {
    if r.custom.Some? then Reply(RANGE_NOT_SATISFIABLE, Message(r.custom.value, describe))
    else if r.corsForbidden.Some? then Reply(FORBIDDEN, r.corsForbidden.value)
    else Reply(NOT_FOUND, ROUTE_NOT_FOUND_TEXT)
  }

  /** The recovery step is total and only ever answers with one of the three
      client-error statuses. */
  lemma ReturnErrorIsClientError(r: Rejection, describe: IntErrorKind -> string)
    ensures ReturnError(r, describe).status in {RANGE_NOT_SATISFIABLE, FORBIDDEN, NOT_FOUND}
    ensures 400 <= ReturnError(r, describe).status < 500
  {
  }

  /** When the standard library's texts tell the parse-error kinds apart, the
      display text tells every error apart: the message determines the error. */
  lemma {:induction false} MessageDeterminesError(e1: Error, e2: Error, describe: IntErrorKind -> string)
    requires forall a, b :: describe(a) == describe(b) ==> a == b
    ensures Message(e1, describe) == Message(e2, describe) ==> e1 == e2
  {
    var t1, t2 := Message(e1, describe), Message(e2, describe);
    if e1.ParseError? {
      assert t1[0] == 'C';
    }
    if e2.ParseError? {
      assert t2[0] == 'C';
    }
    if t1 == t2 && e1.ParseError? && e2.ParseError? {
      assert describe(e1.cause) == t1[|PARSE_ERROR_PREFIX|..];
    }
  }
}
