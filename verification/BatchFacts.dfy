/** What a batch guarantees: flattening, read-only safety, results and references. */
module BatchFacts {
  import opened CBytes
  import opened ErrorCodes
  import opened Json
  import opened Platform
  import opened Engine
  import opened Substitution
  import opened Responses
  import opened Routes
  import opened Handlers
  import opened HandlerFacts
  import opened BuildFailure
  import opened Batch
  import Q = QueryPath

  // -------------------- nested batches flatten --------------------

  /** Performing requests one after the other, with no batch around them. */
  function Replay(host: Host, st: State, limits: Q.Options, trace: seq<Request>): State
    decreases |trace|
  {
    if trace == [] then st else Replay(host, Perform(host, st, limits, trace[0]).0, limits, trace[1..])
  }

  predicate AllSucceed(host: Host, st: State, limits: Q.Options, trace: seq<Request>)
    decreases |trace|
  {
    trace != [] ==>
      var (st', response) := Perform(host, st, limits, trace[0]);
      !IsError(response) && AllSucceed(host, st', limits, trace[1..])
  }

  lemma {:induction false} ReplayAppend(host: Host, st: State, limits: Q.Options, a: seq<Request>, b: seq<Request>)
    ensures Replay(host, st, limits, a + b) == Replay(host, Replay(host, st, limits, a), limits, b)
    ensures AllSucceed(host, st, limits, a + b) <==>
              AllSucceed(host, st, limits, a) && AllSucceed(host, Replay(host, st, limits, a), limits, b)
    decreases |a|
  {
    hide Perform;
    if a == [] {
      assert a + b == b;
    } else {
      ReplayAppend(host, Perform(host, st, limits, a[0]).0, limits, a[1..], b);
      assert (a + b)[1..] == a[1..] + b && (a + b)[0] == a[0];
    }
  }

  lemma ReplayOne(host: Host, st: State, limits: Q.Options, r: Request)
    ensures Replay(host, st, limits, [r]) == Perform(host, st, limits, r).0
    ensures AllSucceed(host, st, limits, [r]) <==> !IsError(Perform(host, st, limits, r).1)
    ensures Replay(host, st, limits, []) == st && AllSucceed(host, st, limits, [])
  {
    hide Perform;
    assert [r][1..] == [];
  }

  /**
   Whatever the nesting, a handler acts on the shared view exactly as the requests it
   performed would one after the other; and when it succeeds, all of them succeeded.
   */
  lemma {:induction false} ServeFlattens(host: Host, st: State, clock: nat, limits: Q.Options, h: Handler, params: seq<Bytes>, body: Option<Json>)
    ensures var ran := Serve(host, st, clock, limits, h, params, body);
            && ran.st == Replay(host, st, limits, ran.trace)
            && (!IsError(ran.response) ==> AllSucceed(host, st, limits, ran.trace))
    decreases BodySize(body), 1
  {
    hide Perform, Prepare;
    if h == BatchGet || h == BatchPost {
      var (ops, refusal) := BatchOperations(h == BatchGet, body);
      if ops.Some? {
        RunOpsFlattens(host, st, st, clock, limits, ops.value, [], []);
      }
    } else if h != Health && Prepare(h, params, body).Ready? {
      ReplayOne(host, st, limits, Prepare(h, params, body).request);
    }
  }

  lemma {:induction false} RunOpsFlattens(host: Host, st0: State, st: State, clock: nat, limits: Q.Options, ops: Nodes,
                                          done: seq<Response>, log: seq<Request>)
    requires st == Replay(host, st0, limits, log) && AllSucceed(host, st0, limits, log)
    ensures var run := RunOps(host, st, clock, limits, ops, done, log);
            && run.st == Replay(host, st0, limits, run.trace)
            && (run.end.Finished? ==> AllSucceed(host, st0, limits, run.trace))
    decreases SizeAll(ops), 3
  {
    hide Replay, AllSucceed, ResolveVars, RunOne, IsError;
    if ops.Cons? && clock > 0 && ops.value.JObject? && ResolveVars(ops.value.child, done).Fields? {
      var fields := ResolveVars(ops.value.child, done).fields;
      assert Size(ops.value) == 1 + SizeAll(ops.value.child);
      RunOneFlattens(host, st, clock - 1, limits, fields);
      var ran := RunOne(host, st, clock - 1, limits, fields);
      ReplayAppend(host, st0, limits, log, ran.trace);
      if !IsError(ran.response) {
        RunOpsFlattens(host, st0, ran.st, ran.clock, limits, ops.next, done + [ran.response], log + ran.trace);
      }
    }
  }

  lemma {:induction false} RunOneFlattens(host: Host, st: State, clock: nat, limits: Q.Options, fields: Nodes)
    ensures var ran := RunOne(host, st, clock, limits, fields);
            && ran.st == Replay(host, st, limits, ran.trace)
            && (!IsError(ran.response) ==> AllSucceed(host, st, limits, ran.trace))
    decreases SizeAll(fields), 2
  {
    match (GetString(fields, Ascii("method")), GetString(fields, Ascii("path")))
    case (Some(methodText), Some(path)) =>
      var m := ParseMethod(methodText);
      if m.Some? && host.Route(m.value, path).Some? {
        var target := host.Route(m.value, path).value;
        ServeFlattens(host, st, clock, limits, target.handler, target.params, OperationBody(fields));
      }
    case _ =>
  }

  // -------------------- read-only batches --------------------

  predicate AllRead(trace: seq<Request>) {
    forall i :: 0 <= i < |trace| ==> Reads(trace[i])
  }

  lemma WordsDiffer()
    ensures Ascii("method") != Ascii("path") && Ascii("method") != Ascii("body")
    ensures Ascii("GET") != Ascii("POST") && Ascii("PUT") != Ascii("GET")
    ensures Ascii("DELETE") != Ascii("GET")
  {
    assert Ascii("method")[0] == 'm' as int && Ascii("path")[0] == 'p' as int;
    assert Ascii("PUT")[0] == 'P' as int && Ascii("GET")[0] == 'G' as int;
  }

  /** Substitution never touches an operation's own method. */
  lemma MethodIsKept(fields: Nodes, done: seq<Response>)
    requires ResolveVars(fields, done).Fields?
    ensures GetItem(ResolveVars(fields, done).fields, Ascii("method")) == GetItem(fields, Ascii("method"))
  {
    WordsDiffer();
    var vars := GetItem(fields, Ascii("vars"));
    if vars.Some? && vars.value.JObject? && vars.value.child.Cons? {
      var bindings := CollectBindings(vars.value.child, done, []).bindings;
      var f1 := match GetItem(fields, Ascii("path"))
                case Some(JString(s)) => SetItem(fields, Ascii("path"), JString(Substitute(s, bindings, 0)))
                case _ => fields;
      if GetItem(fields, Ascii("path")).Some? && GetItem(fields, Ascii("path")).value.JString? {
        GetAfterSet(fields, Ascii("path"), JString(Substitute(GetItem(fields, Ascii("path")).value.s, bindings, 0)), Ascii("method"));
      }
      if GetItem(f1, Ascii("body")).Some? {
        GetAfterSet(f1, Ascii("body"), SubstituteTree(GetItem(f1, Ascii("body")).value, bindings), Ascii("method"));
      }
    }
  }

  /** A read-only handler, batches at any depth included, performs reads only and changes nothing. */
  lemma {:induction false} ReadOnlyServe(host: Host, st: State, clock: nat, limits: Q.Options, h: Handler, params: seq<Bytes>, body: Option<Json>)
    requires ReadsOnly(h)
    ensures var ran := Serve(host, st, clock, limits, h, params, body); ran.st == st && AllRead(ran.trace)
    decreases BodySize(body), 1
  {
    hide Prepare, PerformRead, RunOps, HasWriteMethod, BatchResponse;
    if h == BatchGet {
      var (ops, refusal) := BatchOperations(true, body);
      if ops.Some? {
        ReadOnlyOps(host, st, clock, limits, ops.value, [], []);
      }
    }
  }

  lemma {:induction false} ReadOnlyOps(host: Host, st: State, clock: nat, limits: Q.Options, ops: Nodes,
                                       done: seq<Response>, log: seq<Request>)
    requires !HasWriteMethod(ops) && AllRead(log)
    ensures var run := RunOps(host, st, clock, limits, ops, done, log); run.st == st && AllRead(run.trace)
    decreases SizeAll(ops), 3
  {
    hide Perform, Serve, ServeBatch;
    if ops.Cons? && clock > 0 && ops.value.JObject? && ResolveVars(ops.value.child, done).Fields? {
      var fields := ResolveVars(ops.value.child, done).fields;
      MethodIsKept(ops.value.child, done);
      assert Size(ops.value) == 1 + SizeAll(ops.value.child);
      ReadOnlyOne(host, st, clock - 1, limits, fields);
      var ran := RunOne(host, st, clock - 1, limits, fields);
      if !IsError(ran.response) {
        ReadOnlyOps(host, ran.st, ran.clock, limits, ops.next, done + [ran.response], log + ran.trace);
      }
    }
  }

  lemma {:induction false} ReadOnlyOne(host: Host, st: State, clock: nat, limits: Q.Options, fields: Nodes)
    requires GetString(fields, Ascii("method")) !in {Some(Ascii("PUT")), Some(Ascii("POST")), Some(Ascii("DELETE"))}
    ensures var ran := RunOne(host, st, clock, limits, fields); ran.st == st && AllRead(ran.trace)
    decreases SizeAll(fields), 2
  {
    match (GetString(fields, Ascii("method")), GetString(fields, Ascii("path")))
    case (Some(methodText), Some(path)) =>
      var m := ParseMethod(methodText);
      if m.Some? && host.Route(m.value, path).Some? {
        var target := host.Route(m.value, path).value;
        ReadHandlersAreTheGetRoutes(target.handler);
        ReadOnlyServe(host, st, clock, limits, target.handler, target.params, OperationBody(fields));
      }
    case _ =>
  }

  // -------------------- results and the failing index --------------------

  predicate NoErrors(done: seq<Response>) {
    forall i :: 0 <= i < |done| ==> !IsError(done[i])
  }

  /** On success there is one result per operation, none an error; on failure the index is that of an error. */
  lemma {:induction false} ResultsMatchOperations(host: Host, st: State, clock: nat, limits: Q.Options, ops: Nodes,
                                                  done: seq<Response>, log: seq<Request>)
    requires NoErrors(done)
    ensures match RunOps(host, st, clock, limits, ops, done, log).end
            case Finished(results) => |results| == |done| + Length(ops) && done <= results && NoErrors(results)
            case FailedAt(i, response) => |done| <= i < |done| + Length(ops) && IsError(response)
            case TimedOut => true
    decreases ops
  {
    hide RunOne;
    if ops.Cons? && clock > 0 && ops.value.JObject? && ResolveVars(ops.value.child, done).Fields? {
      var ran := RunOne(host, st, clock - 1, limits, ResolveVars(ops.value.child, done).fields);
      if !IsError(ran.response) {
        ResultsMatchOperations(host, ran.st, ran.clock, limits, ops.next, done + [ran.response], log + ran.trace);
      }
    }
  }

  /** The first n operations. */
  function First(ops: Nodes, n: nat): Nodes {
    if n == 0 || ops.Nil? then Nil else Cons(ops.key, ops.value, First(ops.next, n - 1))
  }

  /**
   failed_at is the least failing index: the operations before it run to the end, and
   the ones after it have no effect at all on the run.
   */
  lemma {:induction false} FailedAtIsFirst(host: Host, st: State, clock: nat, limits: Q.Options, ops: Nodes,
                                           done: seq<Response>, log: seq<Request>)
    requires RunOps(host, st, clock, limits, ops, done, log).end.FailedAt?
    ensures var run := RunOps(host, st, clock, limits, ops, done, log);
            var n := run.end.index - |done|;
            && n >= 0
            && RunOps(host, st, clock, limits, First(ops, n), done, log).end.Finished?
            && RunOps(host, st, clock, limits, First(ops, n + 1), done, log) == run
    decreases ops
  {
    hide RunOne, ResolveVars;
    if clock > 0 && ops.value.JObject? && ResolveVars(ops.value.child, done).Fields? {
      var ran := RunOne(host, st, clock - 1, limits, ResolveVars(ops.value.child, done).fields);
      if !IsError(ran.response) {
        FailedAtIsFirst(host, ran.st, ran.clock, limits, ops.next, done + [ran.response], log + ran.trace);
      }
    }
  }

  // -------------------- references --------------------

  /** The value a reference stands for: a string or number field of an earlier, successful result. */
  predicate Refers(value: Json, done: seq<Response>, text: Bytes) {
    value.JString? &&
    match ParseVarRef(value.s)
    case None => false
    case Some((n, key)) =>
      n < |done| && !IsError(done[n]) && done[n].body.JObject? &&
      (GetItem(done[n].body.child, key) == Some(JString(text)) || GetItem(done[n].body.child, key) == Some(JNumber(text)))
  }

  predicate BindsEntry(entry: Nodes, b: Binding, done: seq<Response>) {
    entry.Cons? && b.token == entry.key && b.token != [] && Refers(entry.value, done, b.value)
  }

  lemma BoundRefers(token: Bytes, value: Json, done: seq<Response>)
    requires NoErrors(done) && ResolveVar(token, value, done).Bound?
    ensures var b := ResolveVar(token, value, done).binding;
            b.token == token && token != [] && Refers(value, done, b.value)
  {
    hide ParseVarRef;
  }

  /** Every binding that vars yields carries its own token and reads an earlier, successful result. */
  lemma {:induction false} BindingsReadEarlierResults(vars: Nodes, done: seq<Response>, sofar: seq<Binding>)
    requires NoErrors(done) && CollectBindings(vars, done, sofar).Bindings?
    ensures var bs := CollectBindings(vars, done, sofar).bindings;
            && |bs| == |sofar| + Length(vars) && sofar <= bs
            && forall i :: 0 <= i < Length(vars) ==>
                 BindsEntry(Nth(vars, i), bs[|sofar| + i], done)
    decreases vars
  {
    hide ResolveVar, Refers, NoErrors;
    if vars.Cons? {
      var b := ResolveVar(vars.key, vars.value, done).binding;
      BoundRefers(vars.key, vars.value, done);
      BindingsReadEarlierResults(vars.next, done, sofar + [b]);
      var bs := CollectBindings(vars, done, sofar).bindings;
      assert bs == CollectBindings(vars.next, done, sofar + [b]).bindings;
      assert bs[|sofar|] == (sofar + [b])[|sofar|] == b;
      forall i | 0 <= i < Length(vars)
        ensures BindsEntry(Nth(vars, i), bs[|sofar| + i], done)
      {
        if i == 0 {
          assert Nth(vars, i) == vars;
        } else {
          assert Nth(vars, i) == Nth(vars.next, i - 1);
          assert bs[|sofar| + i] == bs[|sofar + [b]| + (i - 1)];
        }
      }
    }
  }

  // -------------------- the invariant --------------------

  lemma {:induction false} ReplayGrows(host: Host, st: State, limits: Q.Options, trace: seq<Request>)
    requires Inv(st)
    ensures Grows(st, Replay(host, st, limits, trace))
    decreases |trace|
  {
    hide Perform;
    if trace != [] {
      PerformGrows(host, st, limits, trace[0]);
      ReplayGrows(host, Perform(host, st, limits, trace[0]).0, limits, trace[1..]);
    }
  }

  lemma {:induction false} ServeGrows(host: Host, st: State, clock: nat, limits: Q.Options, h: Handler, params: seq<Bytes>, body: Option<Json>)
    requires Inv(st)
    ensures Grows(st, Serve(host, st, clock, limits, h, params, body).st)
  {
    ServeFlattens(host, st, clock, limits, h, params, body);
    ReplayGrows(host, st, limits, Serve(host, st, clock, limits, h, params, body).trace);
  }
}
