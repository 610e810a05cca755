/** The error taxonomy (packages/router-core/src/errors.ts:7-102, 170-175).  What a body says is read by
    detectors outside this model, so a body is represented by what they find in it. */
module ErrorClasses {
  datatype ErrorClass =
    AUTH_FAILED | RATE_LIMITED | NOT_FOUND | BAD_REQUEST_SCHEMA | PARSE_ERROR | NO_OUTPUT
    | SERVER_ERROR | TIMEOUT | NETWORK | CLIENT_GATE | BILLING | OK

  predicate CountsAsDrift(c: ErrorClass) {
    c in {NOT_FOUND, BAD_REQUEST_SCHEMA, PARSE_ERROR, AUTH_FAILED}
  }

  datatype BodyHint = NoHint | Schema | NotFound | ClientGate

  function Classify(status: int, hint: BodyHint): ErrorClass {
    if 200 <= status < 300 then OK
    else if hint == ClientGate && (status == 401 || status == 403) then CLIENT_GATE
    else if status == 401 || status == 403 then AUTH_FAILED
    else if status == 429 then RATE_LIMITED
    else if status == 404 then NOT_FOUND
    else if status == 400 then (if hint == NotFound then NOT_FOUND else BAD_REQUEST_SCHEMA)
    else if status == 408 then TIMEOUT
    else if status == 402 then BILLING
    else if status >= 500 then (if hint == Schema then BAD_REQUEST_SCHEMA else SERVER_ERROR)
    else NETWORK
  }

  function ClassifyFailure(fallback: ErrorClass, statesTimeout: bool): ErrorClass {
    if statesTimeout then TIMEOUT else fallback
  }

  /** When a status with what its body hints at is put into each class.  A status alone never means that
      nothing came or that what came could not be read. */
  lemma ClassOf(status: int, hint: BodyHint)
    ensures var c := Classify(status, hint);
      && (c == OK <==> 200 <= status <= 299)
      && (c == CLIENT_GATE <==> hint == ClientGate && (status == 401 || status == 403))
      && (c == AUTH_FAILED <==> hint != ClientGate && (status == 401 || status == 403))
      && (c == BILLING <==> status == 402)
      && (c == NOT_FOUND <==> status == 404 || (status == 400 && hint == NotFound))
      && (c == BAD_REQUEST_SCHEMA <==> (status == 400 && hint != NotFound) || (status >= 500 && hint == Schema))
      && (c == TIMEOUT <==> status == 408)
      && (c == RATE_LIMITED <==> status == 429)
      && (c == SERVER_ERROR <==> status >= 500 && hint != Schema)
      && c != PARSE_ERROR && c != NO_OUTPUT
  {
  }

  /** Which classes count as drift. */
  lemma DriftClasses(c: ErrorClass)
    ensures CountsAsDrift(c) <==> c == NOT_FOUND || c == BAD_REQUEST_SCHEMA || c == PARSE_ERROR || c == AUTH_FAILED
  {
  }
}
