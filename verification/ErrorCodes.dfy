/** Return codes of the engine and of the HTTP shell, and their HTTP statuses. */
module ErrorCodes {
  datatype Rc =
    | Success
    // engine
    | EntityNotFound | MemberNotFound | MemberExists | MemberTooLong
    | EntityTypeMismatch | InvalidParam | BufferTooSmall
    | MapFull           // LMDB accepts no further write
    | NoPointer         // the pointer generator is exhausted
    // shell
    | PathParse | PathTooDeep | PathInvalidPtr | PathUrlDecode | ValueTooLarge
    | SetNotSupported | InvalidType | TypeMismatch

  const OK := 200
  const CREATED := 201
  const BAD_REQUEST := 400
  const NOT_FOUND := 404
  const REQUEST_TIMEOUT := 408
  const CONFLICT := 409
  const PAYLOAD_TOO_LARGE := 413
  const INTERNAL_SERVER_ERROR := 500

  /** lmjcore_error_to_http_status: only success maps below 400. */
  function HttpStatus(rc: Rc): (status: nat)
    ensures status < 400 <==> rc == Success
  {
    match rc
    case Success => OK
    case EntityNotFound | MemberNotFound => NOT_FOUND
    case InvalidParam | PathParse | PathInvalidPtr | MemberTooLong | SetNotSupported
       | InvalidType | EntityTypeMismatch | TypeMismatch | PathTooDeep | PathUrlDecode => BAD_REQUEST
    case ValueTooLarge => PAYLOAD_TOO_LARGE
    case _ => INTERNAL_SERVER_ERROR
  }

  /** The statuses clients see, code by code. */
  lemma StatusTable(rc: Rc)
    ensures HttpStatus(rc) == 200 <==> rc == Success
    ensures HttpStatus(rc) == 404 <==> rc in {EntityNotFound, MemberNotFound}
    ensures HttpStatus(rc) == 413 <==> rc == ValueTooLarge
    ensures HttpStatus(rc) == 500 <==> rc in {MemberExists, BufferTooSmall, MapFull, NoPointer}
    ensures HttpStatus(rc) == 400 <==>
              rc in {InvalidParam, PathParse, PathInvalidPtr, MemberTooLong, SetNotSupported, InvalidType,
                     EntityTypeMismatch, TypeMismatch, PathTooDeep, PathUrlDecode}
  {
  }
}
