/** Response bodies as the handlers build them. */
module Responses {
  import opened CBytes
  import opened ErrorCodes
  import opened Json
  import opened Platform
  import opened Codec

  datatype Response = Response(status: nat, body: Json)

  /** The operation failed. */
  predicate IsError(r: Response) {
    r.status >= 400
  }

  function Text(s: string): Json { JString(Ascii(s)) }
  function Number(n: nat): Json { JNumber(Decimal(n)) }

  /** A pair in front of the others. */
  function Field(key: string, value: Json, rest: Nodes): Nodes {
    Cons(Ascii(key), value, rest)
  }

  function TypeName(ty: ApiType): string {
    match ty
    case RawType => "raw"
    case NullType => "null"
    case SetType => "set"
    case ObjectType => "object"
  }

  function ErrorText(status: nat, message: Bytes): (r: Response)
    ensures r.status == status
  {
    Response(status, JObject(Field("error", JString(message), Nil)))
  }

  function Error(status: nat, message: string): (r: Response)
    ensures r.status == status
  {
    ErrorText(status, Ascii(message))
  }

  function RcError(host: Host, rc: Rc): Response {
    ErrorText(HttpStatus(rc), host.Strerror(rc))
  }

  function SuccessBody(): Response {
    Response(OK, JObject(Field("success", JBool(true), Nil)))
  }

  function PtrBody(p: Ptr): Response {
    Response(CREATED, JObject(Field("ptr", JString(PtrToHex(p)), Nil)))
  }

  function CountedPtrBody(p: Ptr, key: string, count: nat): Response {
    Response(CREATED, JObject(Field("ptr", JString(PtrToHex(p)), Field(key, Number(count), Nil))))
  }

  function ValueEntry(key: string, name: Bytes, text: Bytes, ty: ApiType): Json {
    JObject(Field(key, JString(name), Field("value", JString(text), Field("type", Text(TypeName(ty)), Nil))))
  }

  function ValueOnly(text: Bytes, ty: ApiType): Json {
    JObject(Field("value", JString(text), Field("type", Text(TypeName(ty)), Nil)))
  }

  function EntityBody(p: Ptr, key: string, list: Nodes): Response {
    Response(OK, JObject(Field("ptr", JString(PtrToHex(p)), Field(key, JArray(list), Field("count", Number(Length(list)), Nil)))))
  }
}
