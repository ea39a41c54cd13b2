/**
 The transaction protocol of the TXN_ macros and the batch interpreter as code:
 owned transactions are ended by their handler, borrowed ones are left open.
 */
module BatchCode {
  import opened CBytes
  import opened ErrorCodes
  import opened Json
  import opened Platform
  import opened Engine
  import opened Substitution
  import opened Responses
  import opened Routes
  import opened Handlers
  import opened HandlerCode
  import opened Batch
  import opened BatchFacts
  import Q = QueryPath

  /** The database environment: what is committed, and how many timeout checks will pass. */
  class Environment {
    var st: State
    var clock: nat

    constructor (st: State, clock: nat)
      ensures this.st == st && this.clock == clock
    {
      this.st := st;
      this.clock := clock;
    }

    /** Before a request: its own time limit, and whatever room the map has by then. */
    method Renew()
      modifies this
      ensures st == old(st).(room := st.room)
    {
      clock := *;
      var room: nat := *;
      st := st.(room := room);
    }

    method CheckTimeout() returns (expired: bool)
      modifies this`clock
      ensures expired <==> old(clock) == 0
      ensures clock == if expired then 0 else old(clock) - 1
    {
      expired := clock == 0;
      if !expired {
        clock := clock - 1;
      }
    }
  }

  /** handle_params_t. */
  class HandleParams {
    const host: Host
    const env: Environment
    const limits: Q.Options
    const params: seq<Bytes>
    const body: Option<Json>
    var txn: Txn?

    constructor (host: Host, env: Environment, limits: Q.Options, params: seq<Bytes>, body: Option<Json>, txn: Txn?)
      ensures this.host == host && this.env == env && this.limits == limits
      ensures this.params == params && this.body == body && this.txn == txn
    {
      this.host := host;
      this.env := env;
      this.limits := limits;
      this.params := params;
      this.body := body;
      this.txn := txn;
    }

    /** A lent transaction is open, and a read-only one is lent to read handlers only. */
    ghost predicate Lends(h: Handler)
      reads this, txn
    {
      txn != null ==> txn.open && (txn.readonly ==> ReadsOnly(h))
    }
  }

  // -------------------- the TXN_ macros --------------------

  method TxnBegin(hp: HandleParams, readonly: bool) returns (ok: bool, txn: Txn?, owned: bool)
    ensures hp.txn != null ==> ok && txn == hp.txn && !owned
    ensures hp.txn == null && ok ==> txn != null && fresh(txn) && owned
    ensures hp.txn == null && ok ==> txn.open && txn.readonly == readonly && txn.st == hp.env.st
    ensures !ok ==> !owned
  {
    if hp.txn != null {
      return true, hp.txn, false;
    }
    if * {
      return false, null, false;   // lmjcore_txn_begin failed
    }
    txn := new Txn(hp.env.st, readonly);
    return true, txn, true;
  }

  /** Roll back: the store stays, handed-out identifiers are spent. */
  method TxnAbort(env: Environment, txn: Txn?, owned: bool) returns (stillOwned: bool)
    requires owned ==> txn != null && txn.open
    modifies env`st, txn
    ensures !stillOwned && (txn != null ==> txn.st == old(txn.st))
    ensures if owned then env.st == old(env.st).(next := txn.st.next) && !txn.open
            else env.st == old(env.st) && (txn != null ==> txn.open == old(txn.open))
  {
    if owned {
      env.st := env.st.(next := txn.st.next);
      txn.open := false;
    }
    stillOwned := false;
  }

  /** Commit an owned transaction; the engine may refuse, and then it is rolled back. */
  method TxnCommit(env: Environment, txn: Txn, owned: bool) returns (ok: bool)
    requires txn.open
    modifies env`st, txn`open
    ensures !owned ==> ok && env.st == old(env.st) && txn.open
    ensures owned && ok ==> env.st == txn.st && !txn.open
    ensures owned && !ok ==> env.st == old(env.st).(next := txn.st.next) && !txn.open
  {
    if !owned {
      return true;
    }
    ok := *;
    if ok {
      env.st := txn.st;
    } else {
      env.st := env.st.(next := txn.st.next);
    }
    txn.open := false;
  }

  /** An expired transaction is rolled back, if owned. */
  method TxnCheckTimeout(env: Environment, txn: Txn?, owned: bool) returns (expired: bool, stillOwned: bool)
    requires owned ==> txn != null && txn.open
    modifies env, txn
    ensures expired <==> old(env.clock) == 0
    ensures env.clock == if expired then 0 else old(env.clock) - 1
    ensures stillOwned == (owned && !expired) && (txn != null ==> txn.st == old(txn.st))
    ensures if owned && expired then env.st == old(env.st).(next := txn.st.next) && !txn.open
            else env.st == old(env.st) && (txn != null ==> txn.open == old(txn.open))
  {
    expired := env.CheckTimeout();
    stillOwned := owned;
    if expired {
      stillOwned := TxnAbort(env, txn, owned);
    }
  }

  // -------------------- what a handler call may do --------------------

  /** In a borrowed transaction: exactly what `Serve` says, nothing committed, nothing ended. */
  twostate predicate Borrowed(hp: HandleParams, txn: Txn, ran: Ran, resp: Response)
    reads hp.env, txn
  {
    && hp.env.st == old(hp.env.st)
    && txn.open
    && txn.st == ran.st && hp.env.clock == ran.clock && resp == ran.response
  }

  /** In a transaction of its own: all of `ran` committed with a success answer, or none of it. */
  twostate predicate Owned(hp: HandleParams, h: Handler, ran: Ran, resp: Response)
    reads hp.env
  {
    && (if IsError(resp) || ReadsOnly(h)
        then hp.env.st == old(hp.env.st) || hp.env.st == old(hp.env.st).(next := ran.st.next)
        else hp.env.st == ran.st)
    && (!IsError(resp) ==> resp == ran.response)
    && (resp == ran.response || resp.status == INTERNAL_SERVER_ERROR)
  }

  /** Any routed handler. */
  method Handle(hp: HandleParams, h: Handler) returns (resp: Response)
    requires hp.Lends(h)
    modifies hp, hp.env, hp.txn
    ensures old(hp.txn) != null ==>
              Borrowed(hp, old(hp.txn),
                       Serve(hp.host, old(hp.txn.st), old(hp.env.clock), hp.limits, h, hp.params, hp.body), resp)
    ensures old(hp.txn) == null ==>
              Owned(hp, h, Serve(hp.host, old(hp.env.st), old(hp.env.clock), hp.limits, h, hp.params, hp.body), resp)
    decreases BodySize(hp.body), 4
  {
    if h == Health {
      return HealthBody(hp.host);
    }
    if h == BatchGet || h == BatchPost {
      resp := HandleBatch(hp, h == BatchGet);
    } else {
      resp := HandleRequest(hp, h);
    }
  }

  /** The handlers with one request: checks, TXN_BEGIN, timeout, work, TXN_COMMIT or TXN_ABORT. */
  method HandleRequest(hp: HandleParams, h: Handler) returns (resp: Response)
    requires hp.Lends(h) && h !in {Health, BatchGet, BatchPost}
    modifies hp.env, hp.txn
    ensures hp.txn == old(hp.txn)
    ensures hp.txn != null ==>
              Borrowed(hp, hp.txn,
                       Serve(hp.host, old(hp.txn.st), old(hp.env.clock), hp.limits, h, hp.params, hp.body), resp)
    ensures hp.txn == null ==>
              Owned(hp, h, Serve(hp.host, old(hp.env.st), old(hp.env.clock), hp.limits, h, hp.params, hp.body), resp)
  {
    hide Serve, ServeRequest, Perform, Prepare, Ascii;
    ServeOne(hp.host, if hp.txn != null then hp.txn.st else hp.env.st, hp.env.clock, hp.limits, h, hp.params, hp.body);
    var prepared := Prepare(h, hp.params, hp.body);
    if prepared.Refused? {
      return prepared.response;
    }
    var ok, txn, owned := TxnBegin(hp, ReadsOnly(h));
    if !ok {
      return Error(INTERNAL_SERVER_ERROR, "Failed to begin transaction");
    }
    var expired;
    expired, owned := TxnCheckTimeout(hp.env, txn, owned);
    if expired {
      return Timeout();
    }
    resp := Execute(hp.host, txn, hp.limits, prepared.request);
    if !IsError(resp) && !ReadsOnly(h) {
      ok := TxnCommit(hp.env, txn, owned);
      owned := false;
      if !ok {
        return Error(INTERNAL_SERVER_ERROR, "Failed to commit transaction");
      }
    }
    owned := TxnAbort(hp.env, txn, owned);
  }

  // -------------------- vars --------------------

  method ResolveEntry(token: Bytes, value: Json, done: seq<Response>) returns (r: Resolved)
    ensures r == ResolveVar(token, value, done)
  {
    hide ParseVarRef, BadVars;
    var ok, n, key := false, 0, [];
    if token != [] && value.JString? {
      ok, n, key := ParseReference(value.s);
    }
    if !ok {
      return Unbound(BadVars(Ascii("vars: invalid reference for token '") + token + Ascii("' (expect \"{N:key}\")")));
    }
    if n >= |done| {
      return Unbound(BadVars(Ascii("vars: operation ") + Decimal(n) + Ascii(" referenced by token '") + token
                             + Ascii("' has not been executed")));
    }
    if !done[n].body.JObject? {
      return Unbound(BadVars(Ascii("vars: result of operation ") + Decimal(n) + Ascii(" has no body object")));
    }
    if |key| > MAX_KEY_LEN {
      return Unbound(BadVars(Ascii("vars: reference key for token '") + token + Ascii("' is too long")));
    }
    var found := GetItem(done[n].body.child, key);
    match found
    case None =>
      r := Unbound(BadVars(Ascii("vars: property '") + key + Ascii("' not found in result of operation ") + Decimal(n)));
    case Some(JString(s)) => r := Bound(Binding(token, s));
    case Some(JNumber(text)) => r := Bound(Binding(token, text));
    case Some(_) =>
      r := Unbound(BadVars(Ascii("vars: value of '{") + Decimal(n) + Ascii(":") + key + Ascii("}' is not a string or number")));
  }

  method ResolveBindings(vars: Nodes, done: seq<Response>) returns (r: Collected)
    ensures r == CollectBindings(vars, done, [])
  {
    var filled: seq<Binding> := [];
    var entry := vars;
    while entry.Cons?
      invariant CollectBindings(vars, done, []) == CollectBindings(entry, done, filled)
      decreases entry
    {
      var resolved := ResolveEntry(entry.key, entry.value, done);
      match resolved
      case Unbound(response) => return NoBindings(response);
      case Bound(b) => filled := filled + [b];
      entry := entry.next;
    }
    return Bindings(filled);
  }

  method ResolveFields(fields: Nodes, done: seq<Response>) returns (r: Fields)
    ensures r == ResolveVars(fields, done)
  {
    var vars := GetItem(fields, Ascii("vars"));
    if vars.None? {
      return Fields(fields);
    }
    if !vars.value.JObject? {
      return NoFields(Error(BAD_REQUEST, "Invalid 'vars' (must be a JSON object)"));
    }
    if vars.value.child.Nil? {
      return Fields(fields);
    }
    var collected := ResolveBindings(vars.value.child, done);
    if collected.NoBindings? {
      return NoFields(collected.response);
    }
    var op := fields;
    var path := GetItem(op, Ascii("path"));
    if path.Some? && path.value.JString? {
      var replaced := SubstituteString(path.value.s, collected.bindings);
      op := SetItem(op, Ascii("path"), JString(replaced));
    }
    var body := GetItem(op, Ascii("body"));
    if body.Some? {
      var walked := SubstituteWalk(body.value, collected.bindings);
      op := SetItem(op, Ascii("body"), walked);
    }
    return Fields(op);
  }

  // -------------------- operations --------------------

  /** The operation's method is none of the three the up-front scan refuses. */
  predicate NoWriteMethod(fields: Nodes) {
    GetString(fields, Ascii("method")) !in {Some(Ascii("PUT")), Some(Ascii("POST")), Some(Ascii("DELETE"))}
  }

  /** execute_operation: the operation borrows the batch's transaction. */
  method ExecuteOperation(hp: HandleParams, fields: Nodes) returns (resp: Response)
    requires hp.txn != null && hp.txn.open && (hp.txn.readonly ==> NoWriteMethod(fields))
    modifies hp.env, hp.txn
    ensures hp.txn == old(hp.txn)
    ensures Borrowed(hp, hp.txn, RunOne(hp.host, old(hp.txn.st), old(hp.env.clock), hp.limits, fields), resp)
    decreases SizeAll(fields), 5
  {
    hide Serve;
    var methodText := GetString(fields, Ascii("method"));
    var path := GetString(fields, Ascii("path"));
    if methodText.None? || path.None? {
      return Error(BAD_REQUEST, "Missing method or path");
    }
    var m := ParseMethod(methodText.value);
    if m.None? {
      return Error(BAD_REQUEST, "Invalid HTTP method");
    }
    var target := hp.host.Route(m.value, path.value);
    if target.None? {
      return Error(NOT_FOUND, "Route not found");
    }
    ReadHandlersAreTheGetRoutes(target.value.handler);
    var local := new HandleParams(hp.host, hp.env, hp.limits, target.value.params, OperationBody(fields), hp.txn);
    resp := Handle(local, target.value.handler);
  }

  /** handle_batch_get and handle_batch_post. */
  method HandleBatch(hp: HandleParams, readonly: bool) returns (resp: Response)
    requires hp.Lends(if readonly then BatchGet else BatchPost)
    modifies hp, hp.env, hp.txn
    ensures old(hp.txn) != null ==>
              Borrowed(hp, old(hp.txn),
                       ServeBatch(hp.host, old(hp.txn.st), old(hp.env.clock), hp.limits, readonly, hp.body), resp)
    ensures old(hp.txn) == null ==>
              Owned(hp, if readonly then BatchGet else BatchPost,
                    ServeBatch(hp.host, old(hp.env.st), old(hp.env.clock), hp.limits, readonly, hp.body), resp)
    decreases BodySize(hp.body), 3
  {
    hide RunOps, HasWriteMethod;
    var (ops, refusal) := BatchOperations(readonly, hp.body);
    if ops.None? {
      return refusal;
    }
    assert readonly ==> !HasWriteMethod(ops.value);
    var ok, txn, owned := TxnBegin(hp, readonly);
    if !ok {
      return Error(INTERNAL_SERVER_ERROR, "Failed to begin transaction");
    }
    hp.txn := txn;
    var end := RunOperations(hp, readonly, ops.value);
    match end
    case TimedOut => resp := Timeout();
    case FailedAt(index, response) => resp := BatchResponse(end);
    case Finished(results) =>
      if readonly {
        owned := TxnAbort(hp.env, txn, owned);
      } else {
        ok := TxnCommit(hp.env, txn, owned);
        owned := false;
        if !ok {
          return Error(INTERNAL_SERVER_ERROR, "Failed to commit transaction");
        }
      }
      var items := BuildResults(results);
      resp := Response(OK, JObject(Field("success", JBool(true), Field("results", JArray(items), Nil))));
    owned := TxnAbort(hp.env, txn, owned);
  }

  method BuildResults(results: seq<Response>) returns (items: Nodes)
    ensures items == ResultItems(results)
  {
    items := Nil;
    for i := 0 to |results|
      invariant Concat(items, ResultItems(results[i..])) == ResultItems(results)
    {
      assert results[i..][1..] == results[i + 1..];
      var item := JObject(Field("status", Number(results[i].status), Field("body", results[i].body, Nil)));
      OneMoreEntry(items, Cons([], item, Nil), ResultItems(results[i + 1..]));
      items := Concat(items, Cons([], item, Nil));
    }
    OneMoreEntry(items, Nil, Nil);
  }

  /** One round of the loop. */
  lemma RunOpsStep(host: Host, st: State, clock: nat, limits: Q.Options, ops: Nodes, done: seq<Response>, log: seq<Request>)
    ensures RunOps(host, st, clock, limits, ops, done, log) ==
            if ops.Nil? then OpsRun(st, clock, Finished(done), log)
            else if clock == 0 then OpsRun(st, 0, TimedOut, log)
            else if !ops.value.JObject? then
              OpsRun(st, clock - 1, FailedAt(|done|, Error(BAD_REQUEST, "Invalid operation format")), log)
            else match ResolveVars(ops.value.child, done)
                 case NoFields(response) => OpsRun(st, clock - 1, FailedAt(|done|, response), log)
                 case Fields(fields) =>
                   var ran := RunOne(host, st, clock - 1, limits, fields);
                   if IsError(ran.response) then OpsRun(ran.st, ran.clock, FailedAt(|done|, ran.response), log + ran.trace)
                   else RunOps(host, ran.st, ran.clock, limits, ops.next, done + [ran.response], log + ran.trace)
  {
  }

  lemma WriteMethodStep(ops: Nodes)
    requires ops.Cons? && !HasWriteMethod(ops)
    ensures !HasWriteMethod(ops.next)
    ensures ops.value.JObject? ==> NoWriteMethod(ops.value.child)
  {
  }

  /** The loop of handle_batch_core. */
  method RunOperations(hp: HandleParams, readonly: bool, ops: Nodes) returns (end: End)
    requires hp.txn != null && hp.txn.open && (hp.txn.readonly ==> readonly)
    requires readonly ==> !HasWriteMethod(ops)
    modifies hp.env, hp.txn
    ensures hp.txn == old(hp.txn) && hp.txn.open && hp.env.st == old(hp.env.st)
    ensures var run := RunOps(hp.host, old(hp.txn.st), old(hp.env.clock), hp.limits, ops, [], []);
            hp.txn.st == run.st && hp.env.clock == run.clock && end == run.end
    decreases SizeAll(ops), 6
  {
    hide Serve, Perform, ResolveVars, RunOne, RunOps, HasWriteMethod;
    var results := new Response[Length(ops)](_ => SuccessBody());
    var index := 0;
    var item := ops;
    ghost var log: seq<Request> := [];
    ghost var st0, clock0 := hp.txn.st, hp.env.clock;
    while item.Cons?
      invariant hp.txn == old(hp.txn) && hp.txn.open && hp.env.st == old(hp.env.st)
      invariant fresh(results) && results.Length == Length(ops)
      invariant 0 <= index && index + Length(item) == Length(ops) && SizeAll(item) <= SizeAll(ops)
      invariant readonly ==> !HasWriteMethod(item)
      invariant RunOps(hp.host, st0, clock0, hp.limits, ops, [], []) ==
                RunOps(hp.host, hp.txn.st, hp.env.clock, hp.limits, item, results[..index], log)
      decreases item
    {
      RunOpsStep(hp.host, hp.txn.st, hp.env.clock, hp.limits, item, results[..index], log);
      if readonly { WriteMethodStep(item); }
      var expired := hp.env.CheckTimeout();
      if expired {
        return TimedOut;
      }
      if !item.value.JObject? {
        return FailedAt(index, Error(BAD_REQUEST, "Invalid operation format"));
      }
      var fields := ResolveFields(item.value.child, results[..index]);
      if fields.NoFields? {
        return FailedAt(index, fields.response);
      }
      if readonly { MethodIsKept(item.value.child, results[..index]); }
      assert Size(item.value) == 1 + SizeAll(item.value.child);
      ghost var ran := RunOne(hp.host, hp.txn.st, hp.env.clock, hp.limits, fields.fields);
      ghost var done := results[..index];
      results[index] := ExecuteOperation(hp, fields.fields);
      if IsError(results[index]) {
        return FailedAt(index, results[index]);
      }
      assert results[..index + 1] == done + [ran.response];
      log := log + ran.trace;
      index := index + 1;
      item := item.next;
    }
    RunOpsStep(hp.host, hp.txn.st, hp.env.clock, hp.limits, item, results[..index], log);
    return Finished(results[..index]);
  }
}
