/** The route table: which handler answers which method. */
module Routes {
  import opened CBytes

  datatype Method = GET | POST | PUT | DELETE

  datatype Handler =
    | BatchGet | BatchPost
    | ObjCreate | ObjInit | ObjGet | MemberGet | MemberPut | MemberDel | ObjDel | ObjQuery
    | SetCreate | SetInit | SetGet | SetAdd | SetRemove | SetDel
    | PtrExist | Health

  function MethodOf(h: Handler): Method {
    match h
    case BatchGet | ObjGet | MemberGet | ObjQuery | SetGet | PtrExist | Health => GET
    case BatchPost | ObjCreate | ObjInit | SetCreate | SetInit | SetAdd => POST
    case MemberPut => PUT
    case MemberDel | ObjDel | SetRemove | SetDel => DELETE
  }

  /** Handlers that open a read-only transaction. */
  predicate ReadsOnly(h: Handler) {
    h in {BatchGet, ObjGet, MemberGet, ObjQuery, SetGet, PtrExist, Health}
  }

  /** A matched route: the handler and the parameters cut out of the path. */
  datatype Target = Target(handler: Handler, params: seq<Bytes>)

  /** The method text of an operation; anything but these four is invalid. */
  function ParseMethod(text: Bytes): Option<Method> {
    if text == Ascii("GET") then Some(GET)
    else if text == Ascii("POST") then Some(POST)
    else if text == Ascii("PUT") then Some(PUT)
    else if text == Ascii("DELETE") then Some(DELETE)
    else None
  }

  lemma ReadHandlersAreTheGetRoutes(h: Handler)
    ensures ReadsOnly(h) <==> MethodOf(h) == GET
  {
  }

  /** The four method words are told apart, and nothing else is a method. */
  lemma MethodWords(text: Bytes)
    ensures ParseMethod(text) == Some(GET) <==> text == Ascii("GET")
    ensures ParseMethod(text) == Some(POST) <==> text == Ascii("POST")
    ensures ParseMethod(text) == Some(PUT) <==> text == Ascii("PUT")
    ensures ParseMethod(text) == Some(DELETE) <==> text == Ascii("DELETE")
    ensures ParseMethod(text).None? <==>
              text != Ascii("GET") && text != Ascii("POST") && text != Ascii("PUT") && text != Ascii("DELETE")
  {
    assert Ascii("GET")[0] != Ascii("PUT")[0];
    assert |Ascii("POST")| == 4 && |Ascii("DELETE")| == 6;
  }

  /** Under which method each handler is registered. */
  lemma RouteTable(h: Handler)
    ensures MethodOf(h) == GET <==> h in {BatchGet, ObjGet, MemberGet, ObjQuery, SetGet, PtrExist, Health}
    ensures MethodOf(h) == POST <==> h in {BatchPost, ObjCreate, ObjInit, SetCreate, SetInit, SetAdd}
    ensures MethodOf(h) == PUT <==> h == MemberPut
    ensures MethodOf(h) == DELETE <==> h in {MemberDel, ObjDel, SetRemove, SetDel}
  {
  }
}
