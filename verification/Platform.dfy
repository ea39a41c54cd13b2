/** Answers of code that is not part of this model, as arbitrary functions. */
module Platform {
  import opened CBytes
  import opened ErrorCodes
  import opened Routes

  datatype Host = Host(
    scan: Bytes -> Option<Byte>,                   // sscanf("%2x") on text not starting with two hex digits
    strerror: Rc -> Bytes,                         // lmjcore_strerror
    emptySetStat: Rc,                              // lmjcore_set_stat on a set without elements
    uptime: nat,                                   // seconds since the first health check
    matchRoute: (Method, Bytes) -> Option<Target>)     // router_match and router_extract
  {
    /** Engine messages are fixed texts of at most 255 bytes. */
    function Strerror(rc: Rc): (text: Bytes)
      ensures |text| <= 255
    {
      Cut(strerror(rc), 255)
    }

    /** Route lookup: a handler is registered under one method only. */
    function Route(m: Method, path: Bytes): (t: Option<Target>)
      ensures t.Some? ==> MethodOf(t.value.handler) == m
    {
      var t := matchRoute(m, path);
      if t.Some? && MethodOf(t.value.handler) == m then t else None
    }
  }
}
