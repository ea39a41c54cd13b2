/**
 The handlers of obj_handle.c, set_handle.c, query_handle.c and utils_handle.c:
 the checks made before a transaction, and the work done inside one.
 */
module Handlers {
  import opened CBytes
  import opened ErrorCodes
  import opened Json
  import opened Platform
  import opened Codec
  import opened Engine
  import opened NestedValue
  import opened CompileWalk
  import opened Responses
  import opened Routes
  import Q = QueryPath

  /** A request that has passed the checks made before its transaction. */
  datatype Request =
    | DoObjCreate | DoObjInit(kv: Nodes) | DoObjGet(p: Ptr) | DoObjDel(p: Ptr)
    | DoMemberGet(p: Ptr, name: Bytes) | DoMemberPut(p: Ptr, name: Bytes, value: Bytes, tag: Byte)
    | DoMemberDel(p: Ptr, name: Bytes) | DoQuery(path: Bytes)
    | DoSetCreate | DoSetInit(item: Nodes) | DoSetGet(p: Ptr) | DoSetDel(p: Ptr)
    | DoSetAdd(p: Ptr, value: Bytes, tag: Byte) | DoSetRemove(p: Ptr, value: Bytes, tag: Byte)
    | DoPtrExist(p: Ptr)

  datatype Prepared = Ready(request: Request) | Refused(response: Response)

  predicate Reads(r: Request) {
    r.DoObjGet? || r.DoMemberGet? || r.DoQuery? || r.DoSetGet? || r.DoPtrExist?
  }

  /** A reading request for a read-only handler, any other for the others; a refusal is an error. */
  predicate Fits(h: Handler, r: Prepared) {
    match r
    case Ready(request) => Reads(request) <==> ReadsOnly(h)
    case Refused(response) => IsError(response)
  }

  // -------------------- before the transaction --------------------

  /** route_params_get: a parameter is cut at 1023 bytes. */
  function Param(params: seq<Bytes>, i: nat): Option<Bytes> {
    if i < |params| then Some(Cut(params[i], 1023)) else None
  }

  function Missing(name: string): (r: Response)
    ensures IsError(r)
  {
    Error(BAD_REQUEST, "Missing " + name + " parameter")
  }

  function BadPtr(): (r: Response)
    ensures IsError(r)
  {
    Error(BAD_REQUEST, "Invalid pointer format")
  }

  /** A member name from the path, decoded into a 512-byte buffer. */
  function NameParam(param: Bytes): Option<Bytes> {
    var name := UrlDecode(param);
    if |name| < 512 then Some(CStr(name)) else None
  }

  /** handle_parse_typed_value: {"value": string, "type": "raw" | "ref" | "null"}. */
  function TypedValue(body: Json): Option<(Bytes, Byte)> {
    if !body.JObject? then None
    else
      match (GetString(body.child, Ascii("value")), GetString(body.child, Ascii("type")))
      case (Some(value), Some(ty)) =>
        if ty == Ascii("raw") then Some((value, TAG_RAW))
        else if ty == Ascii("ref") then Some((value, TAG_PTR))
        else if ty == Ascii("null") then Some((value, TAG_NULL))
        else None
      case _ => None
  }

  function TypedBody(body: Option<Json>): (r: (Option<(Bytes, Byte)>, Response))
    ensures r.0 == if body.None? then None else TypedValue(body.value)
    ensures IsError(r.1)
  {
    if body.None? then (None, Error(BAD_REQUEST, "Missing value in request body"))
    else
      (TypedValue(body.value),
       Error(BAD_REQUEST, "Request body must be {\"value\": string, \"type\": \"raw\"|\"ref\"|\"null\"}"))
  }

  /** The pointer a request names, if it is one. */
  function PtrParam(params: seq<Bytes>): Option<Ptr> {
    match Param(params, 0) case None => None case Some(text) => PtrFromString(text)
  }

  /** The member name a request names, if it fits. */
  function MemberParam(params: seq<Bytes>): Option<Bytes> {
    match Param(params, 1) case None => None case Some(text) => NameParam(text)
  }

  /** The pointer, or the refusal when there is none. */
  function PtrChecked(params: seq<Bytes>): (r: (Option<Ptr>, Response))
    ensures r.0 == PtrParam(params) && IsError(r.1)
  {
    (PtrParam(params), if Param(params, 0).None? then Missing("ptr") else BadPtr())
  }

  function MemberChecked(params: seq<Bytes>): (r: (Option<(Ptr, Bytes)>, Response))
    ensures r.0 == (if PtrParam(params).Some? && MemberParam(params).Some?
                    then Some((PtrParam(params).value, MemberParam(params).value)) else None)
    ensures IsError(r.1)
  {
    match (Param(params, 0), Param(params, 1))
    case (Some(text), Some(encoded)) =>
      (match NameParam(encoded)
       case None => (None, Error(BAD_REQUEST, "Invalid parameters"))
       case Some(name) => match PtrFromString(text) case None => (None, BadPtr()) case Some(p) => (Some((p, name)), BadPtr()))
    case _ => (None, Missing("ptr or member"))
  }

  function ElementChecked(params: seq<Bytes>, body: Option<Json>): (r: (Option<(Ptr, Bytes, Byte)>, Response))
    ensures r.0 == (if PtrParam(params).Some? && body.Some? && TypedValue(body.value).Some?
                    then Some((PtrParam(params).value, TypedValue(body.value).value.0, TypedValue(body.value).value.1)) else None)
    ensures IsError(r.1)
  {
    match Param(params, 0)
    case None => (None, Missing("ptr"))
    case Some(text) =>
      var (typed, refusal) := TypedBody(body);
      match typed
      case None => (None, refusal)
      case Some((value, tag)) =>
        match PtrFromString(text) case None => (None, BadPtr()) case Some(p) => (Some((p, value, tag)), BadPtr())
  }

  function PreparePut(params: seq<Bytes>, body: Option<Json>): (r: Prepared)
    ensures r.Ready? <==>
              PtrParam(params).Some? && MemberParam(params).Some? && body.Some? && TypedValue(body.value).Some?
    ensures match r
            case Ready(request) =>
              request == DoMemberPut(PtrParam(params).value, MemberParam(params).value,
                                     TypedValue(body.value).value.0, TypedValue(body.value).value.1)
            case Refused(response) => IsError(response)
    ensures Fits(MemberPut, r)
  {
    hide Error, Ascii, PtrFromString, NameParam, TypedValue;
    match (Param(params, 0), Param(params, 1))
    case (Some(text), Some(encoded)) =>
      (match NameParam(encoded)
       case None => Refused(Error(BAD_REQUEST, "Invalid parameters"))
       case Some(name) =>
         var (typed, refusal) := TypedBody(body);
         match typed
         case None => Refused(refusal)
         case Some((value, tag)) =>
           match PtrFromString(text) case None => Refused(BadPtr()) case Some(p) => Ready(DoMemberPut(p, name, value, tag)))
    case _ => Refused(Missing("ptr or member"))
  }

  function PrepareInit(body: Option<Json>, wantObject: bool): (r: Prepared)
    ensures r.Ready? <==> body.Some? && if wantObject then body.value.JObject? else body.value.JArray?
    ensures match r
            case Ready(request) => request == if wantObject then DoObjInit(body.value.child) else DoSetInit(body.value.child)
            case Refused(response) => IsError(response)
    ensures Fits(if wantObject then ObjInit else SetInit, r)
  {
    hide Error, ErrorText, Ascii;
    match body
    case None => Refused(Error(BAD_REQUEST, "Invalid JSON in request body"))
    case Some(JObject(child)) =>
      if wantObject then Ready(DoObjInit(child))
      else Refused(Error(BAD_REQUEST, "Request body must be a JSON array (element list)"))
    case Some(JArray(child)) =>
      if wantObject then Refused(Error(BAD_REQUEST, "Request body must be a JSON object (member map)"))
      else Ready(DoSetInit(child))
    case _ =>
      Refused(Error(BAD_REQUEST, if wantObject then "Request body must be a JSON object (member map)"
                                 else "Request body must be a JSON array (element list)"))
  }

  function PreparePtr(h: Handler, params: seq<Bytes>): (r: Prepared)
    requires h in {ObjGet, ObjDel, SetGet, SetDel, PtrExist}
    ensures Fits(h, r)
  {
    var (ptr, refusal) := PtrChecked(params);
    match ptr
    case None => Refused(refusal)
    case Some(p) =>
      match h
      case ObjGet => Ready(DoObjGet(p))
      case ObjDel => Ready(DoObjDel(p))
      case SetGet => Ready(DoSetGet(p))
      case SetDel => Ready(DoSetDel(p))
      case _ => Ready(DoPtrExist(p))
  }

  function PrepareMember(h: Handler, params: seq<Bytes>): (r: Prepared)
    requires h in {MemberGet, MemberDel}
    ensures Fits(h, r)
  {
    var (member, refusal) := MemberChecked(params);
    match member
    case None => Refused(refusal)
    case Some((p, name)) => if h == MemberGet then Ready(DoMemberGet(p, name)) else Ready(DoMemberDel(p, name))
  }

  function PrepareElement(h: Handler, params: seq<Bytes>, body: Option<Json>): (r: Prepared)
    requires h in {SetAdd, SetRemove}
    ensures Fits(h, r)
  {
    var (element, refusal) := ElementChecked(params, body);
    match element
    case None => Refused(refusal)
    case Some((p, value, tag)) => if h == SetAdd then Ready(DoSetAdd(p, value, tag)) else Ready(DoSetRemove(p, value, tag))
  }

  function PrepareQuery(params: seq<Bytes>): (r: Prepared)
    ensures Fits(ObjQuery, r)
  {
    match Param(params, 0) case None => Refused(Missing("path")) case Some(path) => Ready(DoQuery(path))
  }

  function PrepareCreate(h: Handler): (r: Prepared)
    requires h in {ObjCreate, SetCreate}
    ensures Fits(h, r)
  {
    if h == ObjCreate then Ready(DoObjCreate) else Ready(DoSetCreate)
  }

  /** The checks of a handler that runs in a transaction of its own or of a batch. */
  function Prepare(h: Handler, params: seq<Bytes>, body: Option<Json>): (r: Prepared)
    requires h !in {BatchGet, BatchPost, Health}
    ensures Fits(h, r)
  {
    hide Fits;
    match h
    case ObjCreate | SetCreate => PrepareCreate(h)
    case ObjInit => PrepareInit(body, true)
    case SetInit => PrepareInit(body, false)
    case ObjQuery => PrepareQuery(params)
    case MemberPut => PreparePut(params, body)
    case MemberGet | MemberDel => PrepareMember(h, params)
    case SetAdd | SetRemove => PrepareElement(h, params, body)
    case ObjGet | ObjDel | SetGet | SetDel | PtrExist => PreparePtr(h, params)
  }

  // -------------------- inside the transaction --------------------

  function HealthBody(host: Host): Response {
    Response(OK, JObject(Field("status", Text("ok"), Field("uptime", Number(host.uptime), Nil))))
  }

  function NotFound(kind: string): Response { Error(NOT_FOUND, kind + " not found") }

  /** The members of an object that decode, as response entries. */
  function MemberEntries(entries: seq<Entry>): Nodes {
    if entries == [] then Nil
    else
      var rest := MemberEntries(entries[1..]);
      match DecodeValue(entries[0].value)
      case Decoded(text, ty) => Cons([], ValueEntry("name", Cut(entries[0].name, MAX_NAME_LEN), text, ty), rest)
      case NotDecoded(_) => rest
  }

  /** The elements of a set that decode, as response entries. */
  function ElementEntries(values: seq<Bytes>): Nodes {
    if values == [] then Nil
    else
      var rest := ElementEntries(values[1..]);
      match DecodeValue(values[0])
      case Decoded(text, ty) => Cons([], ValueOnly(text, ty), rest)
      case NotDecoded(_) => rest
  }

  /** The error text of a failed init: the nested message, then the root's own level. */
  function InitMessage(f: Failure): Bytes {
    if f.trail == [] then f.reason
    else
      var n := |f.trail| - 1;
      Cut(Shown(1024, f.reason, f.trail[..n]) + Ascii(" (in ") + StepText(f.trail[n]) + Ascii(")"), 1151)
  }

  function ValueTooLargeBody(limit: nat): Response {
    Response(PAYLOAD_TOO_LARGE, JObject(Field("error", Text("Value too large"), Field("limit", Number(limit), Nil))))
  }

  function QueryMessage(host: Host, rc: Rc): Bytes {
    match rc
    case PathParse => Ascii("Invalid query path")
    case PathInvalidPtr => Ascii("Invalid pointer format")
    case PathTooDeep => Ascii("Query path too deep")
    case PathUrlDecode => Ascii("Failed to decode query path segment")
    case SetNotSupported => Ascii("Set does not support member access")
    case TypeMismatch => Ascii("Intermediate value is not a reference")
    case ValueTooLarge => Ascii("Value too large")
    case EntityNotFound => Ascii("Object not found")
    case MemberNotFound => Ascii("Member not found")
    case _ => host.Strerror(rc)
  }

  /** build_query_error. */
  function QueryErrorBody(host: Host, rc: Rc, e: Q.QueryError, limit: nat): Response {
    var f4 := if rc == ValueTooLarge then Field("limit", Number(limit), Nil) else Nil;
    var f3 := if e.found.Some? then Field("found", Text(TypeName(e.found.value)), f4) else f4;
    var f2 := if e.at.Some? then Field("at", JString(e.at.value), Field("segment", Number(e.segment), f3)) else f3;
    Response(HttpStatus(rc), JObject(Field("error", JString(QueryMessage(host, rc)), f2)))
  }

  /** Writing a typed value: encode it, then let the engine store it. */
  function EncodedSize(value: Bytes): nat { 1 + PTR_LEN + |value| + 16 }

  function PerformPut(host: Host, st: State, p: Ptr, name: Bytes, value: Bytes, tag: Byte): (State, Response) {
    if !Exists(st.store, p) then (st, NotFound("Object"))
    else match EncodeValue(host, value, tag, EncodedSize(value))
         case NotEncoded(rc) => (st, RcError(host, rc))
         case Encoded(v) =>
           var (st', rc) := Engine.MemberPut(st, p, name, v);
           (st', if rc == Success then SuccessBody() else RcError(host, rc))
  }

  function PerformAdd(host: Host, st: State, p: Ptr, value: Bytes, tag: Byte): (State, Response) {
    if !Exists(st.store, p) then (st, NotFound("Set"))
    else match EncodeValue(host, value, tag, EncodedSize(value))
         case NotEncoded(rc) => (st, RcError(host, rc))
         case Encoded(v) =>
           var (st', rc) := SetAddItem(st, p, v);
           (st', if rc == Success then SuccessBody()
                 else if rc == MemberExists then Error(CONFLICT, "Element already exists")
                 else RcError(host, rc))
  }

  function PerformRemove(host: Host, st: State, p: Ptr, value: Bytes, tag: Byte): (State, Response) {
    if !Exists(st.store, p) then (st, NotFound("Set"))
    else match EncodeValue(host, value, tag, EncodedSize(value))
         case NotEncoded(rc) => (st, RcError(host, rc))
         case Encoded(v) =>
           var (st', rc) := SetRemoveItem(st, p, v);
           (st', if rc == Success then SuccessBody() else RcError(host, rc))
  }

  function PerformMemberDel(host: Host, st: State, p: Ptr, name: Bytes): (State, Response) {
    if !Exists(st.store, p) then (st, NotFound("Object"))
    else
      var (st', rc) := MemberDelete(st, p, name);
      (st', if rc == Success then SuccessBody()
            else if rc == MemberNotFound then Error(NOT_FOUND, "Member not found")
            else RcError(host, rc))
  }

  function PerformDelete(host: Host, st: State, kind: Byte, name: string, p: Ptr): (State, Response) {
    if !Exists(st.store, p) then (st, NotFound(name))
    else
      var (st', rc) := Delete(st, kind, p);
      (st', if rc == Success then SuccessBody() else RcError(host, rc))
  }

  function PerformCreate(host: Host, st: State, kind: Byte): (State, Response) {
    var (st', made) := Create(st, kind);
    (st', match made case None => RcError(host, NoPointer) case Some(p) => PtrBody(p))
  }

  /** POST /obj/init: every pair counts in member_count, repeated keys included. */
  function PerformObjInit(host: Host, st: State, kv: Nodes): (State, Response) {
    var (st', made, failed) := InitObject(host, st, kv);
    (st', if made.None? then RcError(host, NoPointer)
          else match failed
               case Some(f) => ErrorText(HttpStatus(f.rc), InitMessage(f))
               case None => CountedPtrBody(made.value, "member_count", Length(kv)))
  }

  /** The writes of POST /set/init. */
  function InitSet(host: Host, st: State, item: Nodes): (State, Option<Ptr>, Option<Failure>) {
    var (st1, made) := Create(st, SET);
    match made
    case None => (st1, None, None)
    case Some(p) =>
      var (st2, failed) := FillElements(host, st1, p, item, 0, 0);
      (st2, Some(p), failed)
  }

  function PerformSetInit(host: Host, st: State, item: Nodes): (State, Response) {
    var (st', made, failed) := InitSet(host, st, item);
    (st', if made.None? then RcError(host, NoPointer)
          else match failed
               case Some(f) => ErrorText(HttpStatus(f.rc), InitMessage(f))
               case None =>
                 var count := |Items(st'.store, made.value)|;
                 if count == 0 && host.emptySetStat != Success then RcError(host, host.emptySetStat)
                 else CountedPtrBody(made.value, "element_count", count))
  }

  function ReadObject(host: Host, s: Store, p: Ptr): Response {
    if !Exists(s, p) then NotFound("Object")
    else if p.kind != OBJ then RcError(host, EntityTypeMismatch)
    else EntityBody(p, "members", MemberEntries(Entries(s, p, Listing(Items(s, p)))))
  }

  function ReadSet(host: Host, s: Store, p: Ptr): Response {
    if !Exists(s, p) then NotFound("Set")
    else if p.kind != SET then RcError(host, EntityTypeMismatch)
    else EntityBody(p, "elements", ElementEntries(Listing(Items(s, p))))
  }

  function ReadMember(host: Host, s: Store, p: Ptr, name: Bytes, maxBytes: nat): Response {
    if !Exists(s, p) then NotFound("Object")
    else
      match CappedGet(s, p, name, maxBytes)
      case NotGot(MemberNotFound) => Error(NOT_FOUND, "Member not found")
      case NotGot(ValueTooLarge) => ValueTooLargeBody(if maxBytes > 0 then maxBytes else DEFAULT_MAX_VALUE_BYTES)
      case NotGot(rc) => RcError(host, rc)
      case Got(v) =>
        match DecodeValue(v)
        case NotDecoded(rc) => RcError(host, rc)
        case Decoded(text, ty) => Response(OK, ValueEntry("member", name, text, ty))
  }

  function ReadQuery(host: Host, s: Store, path: Bytes, limits: Q.Options): Response {
    match Q.Query(s, path, limits)
    case Value(text, ty) => Response(OK, ValueEntry("path", path, text, ty))
    case Failed(rc, e) => QueryErrorBody(host, rc, e, Q.WithDefaults(limits).maxValueBytes)
  }

  function ReadExist(s: Store, p: Ptr): Response {
    Response(OK, JObject(if Exists(s, p)
                         then Field("exist", JBool(true), Field("type", Text(if p.kind == OBJ then "object" else "set"), Nil))
                         else Field("exist", JBool(false), Nil)))
  }

  function PerformRead(host: Host, s: Store, limits: Q.Options, r: Request): Response
    requires Reads(r)
  {
    match r
    case DoObjGet(p) => ReadObject(host, s, p)
    case DoMemberGet(p, name) => ReadMember(host, s, p, name, limits.maxValueBytes)
    case DoQuery(path) => ReadQuery(host, s, path, limits)
    case DoSetGet(p) => ReadSet(host, s, p)
    case DoPtrExist(p) => ReadExist(s, p)
  }

  /** What a request does to the transaction's view, and what it answers. */
  function Perform(host: Host, st: State, limits: Q.Options, r: Request): (State, Response) {
    if Reads(r) then (st, PerformRead(host, st.store, limits, r))
    else
      match r
      case DoObjCreate => PerformCreate(host, st, OBJ)
      case DoSetCreate => PerformCreate(host, st, SET)
      case DoObjInit(kv) => PerformObjInit(host, st, kv)
      case DoSetInit(item) => PerformSetInit(host, st, item)
      case DoObjDel(p) => PerformDelete(host, st, OBJ, "Object", p)
      case DoSetDel(p) => PerformDelete(host, st, SET, "Set", p)
      case DoMemberPut(p, name, value, tag) => PerformPut(host, st, p, name, value, tag)
      case DoMemberDel(p, name) => PerformMemberDel(host, st, p, name)
      case DoSetAdd(p, value, tag) => PerformAdd(host, st, p, value, tag)
      case DoSetRemove(p, value, tag) => PerformRemove(host, st, p, value, tag)
  }
}
