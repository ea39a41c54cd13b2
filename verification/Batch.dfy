/**
 batch_handle.c: what a batch computes. Operations run in order on one shared
 view; an operation may itself be a batch, on a body smaller than the operation.
 */
module Batch {
  import opened CBytes
  import opened ErrorCodes
  import opened Json
  import opened Platform
  import opened Engine
  import opened Substitution
  import opened Responses
  import opened Routes
  import opened Handlers
  import Q = QueryPath

  // -------------------- vars --------------------

  const MAX_KEY_LEN := 511

  datatype Resolved = Bound(binding: Binding) | Unbound(response: Response)

  function BadVars(text: Bytes): Response {
    ErrorText(BAD_REQUEST, Cut(text, 1023))
  }

  /** One entry of `vars`: a token and a reference to a field of an earlier result. */
  function ResolveVar(token: Bytes, value: Json, done: seq<Response>): (r: Resolved)
    ensures r.Unbound? ==> IsError(r.response)
  {
    var ref := if token != [] && value.JString? then ParseVarRef(value.s) else None;
    match ref
    case None =>
      Unbound(BadVars(Ascii("vars: invalid reference for token '") + token + Ascii("' (expect \"{N:key}\")")))
    case Some((n, key)) =>
      if n >= |done| then
        Unbound(BadVars(Ascii("vars: operation ") + Decimal(n) + Ascii(" referenced by token '") + token
                        + Ascii("' has not been executed")))
      else if !done[n].body.JObject? then
        Unbound(BadVars(Ascii("vars: result of operation ") + Decimal(n) + Ascii(" has no body object")))
      else if |key| > MAX_KEY_LEN then
        Unbound(BadVars(Ascii("vars: reference key for token '") + token + Ascii("' is too long")))
      else
        match GetItem(done[n].body.child, key)
        case None =>
          Unbound(BadVars(Ascii("vars: property '") + key + Ascii("' not found in result of operation ") + Decimal(n)))
        case Some(JString(s)) => Bound(Binding(token, s))
        case Some(JNumber(text)) => Bound(Binding(token, text))
        case Some(_) =>
          Unbound(BadVars(Ascii("vars: value of '{") + Decimal(n) + Ascii(":") + key + Ascii("}' is not a string or number")))
  }

  datatype Collected = Bindings(bindings: seq<Binding>) | NoBindings(response: Response)

  function CollectBindings(vars: Nodes, done: seq<Response>, sofar: seq<Binding>): (r: Collected)
    ensures r.NoBindings? ==> IsError(r.response)
  {
    match vars
    case Nil => Bindings(sofar)
    case Cons(token, value, next) =>
      match ResolveVar(token, value, done)
      case Unbound(response) => NoBindings(response)
      case Bound(b) => CollectBindings(next, done, sofar + [b])
  }

  /** Path and body of an operation, with tokens replaced; its other fields as they are. */
  function SubstituteFields(fields: Nodes, bindings: seq<Binding>): (r: Nodes)
    ensures SizeAll(r) == SizeAll(fields)
  {
    var f1 := (match GetItem(fields, Ascii("path"))
               case Some(JString(s)) =>
                 SizeAfterSet(fields, Ascii("path"), JString(Substitute(s, bindings, 0)));
                 SetItem(fields, Ascii("path"), JString(Substitute(s, bindings, 0)))
               case _ => fields);
    match GetItem(f1, Ascii("body"))
    case Some(body) =>
      SubstitutionKeepsSkeleton(body, bindings);
      SizeAfterSet(f1, Ascii("body"), SubstituteTree(body, bindings));
      SetItem(f1, Ascii("body"), SubstituteTree(body, bindings))
    case None => f1
  }

  datatype Fields = Fields(fields: Nodes) | NoFields(response: Response)

  /** resolve_vars. */
  function ResolveVars(fields: Nodes, done: seq<Response>): (r: Fields)
    ensures r.Fields? ==> SizeAll(r.fields) == SizeAll(fields)
    ensures r.NoFields? ==> IsError(r.response)
  {
    match GetItem(fields, Ascii("vars"))
    case None => Fields(fields)
    case Some(JObject(vars)) =>
      if vars.Nil? then Fields(fields)
      else
        (match CollectBindings(vars, done, [])
         case NoBindings(response) => NoFields(response)
         case Bindings(bindings) => Fields(SubstituteFields(fields, bindings)))
    case Some(_) => NoFields(Error(BAD_REQUEST, "Invalid 'vars' (must be a JSON object)"))
  }

  // -------------------- running --------------------

  /** What a request or an operation did: the view, the timeout checks left, the answer, and the requests performed. */
  datatype Ran = Ran(st: State, clock: nat, response: Response, trace: seq<Request>)

  datatype End = Finished(results: seq<Response>) | FailedAt(index: nat, response: Response) | TimedOut

  datatype OpsRun = OpsRun(st: State, clock: nat, end: End, trace: seq<Request>)

  function Timeout(): Response { Error(REQUEST_TIMEOUT, "Transaction timeout") }

  function BodySize(body: Option<Json>): nat {
    match body case None => 0 case Some(j) => Size(j)
  }

  /** A handler with a transaction of its own; `clock` timeout checks will still pass. */
  function ServeRequest(host: Host, st: State, clock: nat, limits: Q.Options, h: Handler, params: seq<Bytes>, body: Option<Json>): Ran
    requires h !in {BatchGet, BatchPost}
  {
    if h == Health then Ran(st, clock, HealthBody(host), [])
    else
      match Prepare(h, params, body)
      case Refused(response) => Ran(st, clock, response, [])
      case Ready(r) =>
        if clock == 0 then Ran(st, 0, Timeout(), [])
        else
          var (st', response) := Perform(host, st, limits, r);
          Ran(st', clock - 1, response, [r])
  }

  /** Any handler, inside a transaction with view `st`. */
  function Serve(host: Host, st: State, clock: nat, limits: Q.Options, h: Handler, params: seq<Bytes>, body: Option<Json>): Ran
    decreases BodySize(body), 1
  {
    if h == BatchGet || h == BatchPost then ServeBatch(host, st, clock, limits, h == BatchGet, body)
    else ServeRequest(host, st, clock, limits, h, params, body)
  }

  /** What the specification says of a handler with one request. */
  lemma ServeOne(host: Host, st: State, clock: nat, limits: Q.Options, h: Handler, params: seq<Bytes>, body: Option<Json>)
    requires h !in {Health, BatchGet, BatchPost}
    ensures var ran := Serve(host, st, clock, limits, h, params, body);
            var prepared := Prepare(h, params, body);
            if prepared.Refused? then ran == Ran(st, clock, prepared.response, [])
            else if clock == 0 then ran == Ran(st, 0, Timeout(), [])
            else
              var done := Perform(host, st, limits, prepared.request);
              ran == Ran(done.0, clock - 1, done.1, [prepared.request])
  {
    hide Perform, Prepare, ServeBatch, HealthBody, Timeout, PerformRead;
  }

  /** The up-front scan of a read-only batch. */
  predicate HasWriteMethod(ops: Nodes) {
    ops.Cons? &&
    ( || (ops.value.JObject? &&
          GetString(ops.value.child, Ascii("method")) in
            {Some(Ascii("PUT")), Some(Ascii("POST")), Some(Ascii("DELETE"))})
      || HasWriteMethod(ops.next))
  }

  /** The checks of handle_batch_core before its transaction. */
  function BatchOperations(readonly: bool, body: Option<Json>): (r: (Option<Nodes>, Response))
    ensures r.0.Some? ==> SizeAll(r.0.value) < BodySize(body)
    ensures r.0.None? ==> IsError(r.1)
  {
    match body
    case None => (None, Error(BAD_REQUEST, "Invalid parameters"))
    case Some(JObject(child)) =>
      (match GetItem(child, Ascii("operations"))
       case Some(JArray(ops)) =>
         if ops.Nil? then (None, Error(BAD_REQUEST, "Operations array is empty"))
         else if Length(ops) > MAX_OPERATIONS then (None, Error(BAD_REQUEST, "Too many operations (max 1000)"))
         else if readonly && HasWriteMethod(ops) then
           (None, Error(BAD_REQUEST, "Readonly transaction cannot contain write operations"))
         else (Some(ops), Error(BAD_REQUEST, ""))
       case _ => (None, Error(BAD_REQUEST, "Missing or invalid 'operations' array")))
    case Some(_) => (None, Error(BAD_REQUEST, "Request body must be a JSON object"))
  }

  function ResultItems(results: seq<Response>): Nodes {
    if results == [] then Nil
    else Cons([], JObject(Field("status", Number(results[0].status),
                                Field("body", results[0].body, Nil))),
              ResultItems(results[1..]))
  }

  function BatchResponse(end: End): (r: Response)
    ensures IsError(r) <==> !end.Finished?
  {
    match end
    case Finished(results) =>
      Response(OK, JObject(Field("success", JBool(true), Field("results", JArray(ResultItems(results)), Nil))))
    case FailedAt(index, response) =>
      Response(BAD_REQUEST, JObject(Field("success", JBool(false),
                                          Field("failed_at", Number(index), Field("details", response.body, Nil)))))
    case TimedOut => Timeout()
  }

  function ServeBatch(host: Host, st: State, clock: nat, limits: Q.Options, readonly: bool, body: Option<Json>): Ran
    decreases BodySize(body), 0
  {
    var (ops, refusal) := BatchOperations(readonly, body);
    match ops
    case None => Ran(st, clock, refusal, [])
    case Some(list) =>
      var run := RunOps(host, st, clock, limits, list, [], []);
      Ran(run.st, run.clock, BatchResponse(run.end), run.trace)
  }

  /** The remaining operations, after `done` results and `log` requests. */
  function RunOps(host: Host, st: State, clock: nat, limits: Q.Options, ops: Nodes, done: seq<Response>, log: seq<Request>): OpsRun
    decreases SizeAll(ops), 3
  {
    match ops
    case Nil => OpsRun(st, clock, Finished(done), log)
    case Cons(_, op, next) =>
      if clock == 0 then OpsRun(st, 0, TimedOut, log)
      else if !op.JObject? then
        OpsRun(st, clock - 1, FailedAt(|done|, Error(BAD_REQUEST, "Invalid operation format")), log)
      else
        match ResolveVars(op.child, done)
        case NoFields(response) => OpsRun(st, clock - 1, FailedAt(|done|, response), log)
        case Fields(fields) =>
          assert Size(op) == 1 + SizeAll(op.child);
          var ran := RunOne(host, st, clock - 1, limits, fields);
          if IsError(ran.response) then OpsRun(ran.st, ran.clock, FailedAt(|done|, ran.response), log + ran.trace)
          else RunOps(host, ran.st, ran.clock, limits, next, done + [ran.response], log + ran.trace)
  }

  /** execute_operation, its vars resolved. */
  function RunOne(host: Host, st: State, clock: nat, limits: Q.Options, fields: Nodes): Ran
    decreases SizeAll(fields), 2
  {
    match (GetString(fields, Ascii("method")), GetString(fields, Ascii("path")))
    case (Some(methodText), Some(path)) =>
      (match ParseMethod(methodText)
       case None => Ran(st, clock, Error(BAD_REQUEST, "Invalid HTTP method"), [])
       case Some(m) =>
         match host.Route(m, path)
         case None => Ran(st, clock, Error(NOT_FOUND, "Route not found"), [])
         case Some(target) => Serve(host, st, clock, limits, target.handler, target.params, OperationBody(fields)))
    case _ => Ran(st, clock, Error(BAD_REQUEST, "Missing method or path"), [])
  }

  /** The body handed on: absent when missing or null. */
  function OperationBody(fields: Nodes): (body: Option<Json>)
    ensures BodySize(body) <= SizeAll(fields)
    ensures body.None? <==> GetItem(fields, Ascii("body")) in {None, Some(JNull)}
    ensures body.Some? ==> GetItem(fields, Ascii("body")) == body
  {
    match GetItem(fields, Ascii("body"))
    case None => None
    case Some(JNull) => None
    case Some(b) => Some(b)
  }
}
