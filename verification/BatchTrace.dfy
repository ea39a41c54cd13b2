/**
 Which requests a successful batch performed, worked out from its body and its answer
 alone: every operation's own, in order, nested batches in place.
 */
module BatchTrace {
  import opened CBytes
  import opened ErrorCodes
  import opened Json
  import opened Platform
  import opened Engine
  import opened Substitution
  import opened Responses
  import opened Answers
  import opened Routes
  import opened Handlers
  import opened Batch
  import opened BatchFacts
  import Q = QueryPath

  // -------------------- what a batch's answer says --------------------

  function StatusIn(item: Nodes): nat {
    match GetItem(item, Ascii("status"))
    case Some(JNumber(text)) => if DigitsValue(text) >= 0 then DigitsValue(text) else 0
    case _ => 0
  }

  /** The answers listed in a results array. */
  function ListedAnswers(items: Nodes): seq<Response> {
    match items
    case Nil => []
    case Cons(_, JObject(item), next) =>
      [Response(StatusIn(item), match GetItem(item, Ascii("body")) case Some(b) => b case None => JNull)] + ListedAnswers(next)
    case Cons(_, _, next) => ListedAnswers(next)
  }

  /** The answers of the operations of a batch, read from the batch's own answer. */
  function AnswersIn(answer: Response): seq<Response> {
    if !answer.body.JObject? then []
    else match GetItem(answer.body.child, Ascii("results"))
         case Some(JArray(items)) => ListedAnswers(items)
         case _ => []
  }

  lemma AnswerWords()
    ensures Ascii("status") != Ascii("body") && Ascii("success") != Ascii("results")
    ensures Ascii("success") != Ascii("failed_at") && Ascii("success") != Ascii("details") && Ascii("failed_at") != Ascii("details")
  {
    assert Ascii("status")[0] == 's' as int && Ascii("success")[0] == 's' as int;
  }

  lemma OneResult(answer: Response)
    ensures var item := Field("status", Number(answer.status), Field("body", answer.body, Nil));
            StatusIn(item) == answer.status && GetItem(item, Ascii("body")) == Some(answer.body)
  {
    AnswerWords();
    DigitsValueOfDecimal(answer.status);
  }

  lemma {:induction false} ListedResults(results: seq<Response>)
    ensures ListedAnswers(ResultItems(results)) == results
  {
    if results != [] {
      ListedResults(results[1..]);
      OneResult(results[0]);
      assert results == [results[0]] + results[1..];
    }
  }

  /** A successful batch's answer says so, and lists exactly the answers of its operations. */
  lemma AnswersOfResults(results: seq<Response>)
    ensures Succeeds(BatchResponse(Finished(results)))
    ensures AnswersIn(BatchResponse(Finished(results))) == results
  {
    hide Ascii, ResultItems, ListedAnswers;
    ListedResults(results);
    AnswerWords();
    var fields := BatchResponse(Finished(results)).body.child;
    FieldTells("success", JBool(true), fields.next, "success");
    assert GetItem(fields.next, Ascii("results")) == Some(JArray(ResultItems(results)));
  }

  lemma TimeoutTells()
    ensures Refuses(Timeout(), 408, "Transaction timeout") && BatchResponse(TimedOut) == Timeout()
  {
  }

  /** An operation without a route is refused, and nothing is done for it. */
  lemma OperationRefused(host: Host, st: State, clock: nat, limits: Q.Options, fields: Nodes)
    ensures var ran := RunOne(host, st, clock, limits, fields);
            var (methodText, path) := (GetString(fields, Ascii("method")), GetString(fields, Ascii("path")));
            var refused := ran.st == st && ran.trace == [];
            && (methodText.None? || path.None? ==> refused && Refuses(ran.response, 400, "Missing method or path"))
            && (methodText.Some? && path.Some? && ParseMethod(methodText.value).None? ==>
                  refused && Refuses(ran.response, 400, "Invalid HTTP method"))
            && (methodText.Some? && path.Some? && ParseMethod(methodText.value).Some? &&
                host.Route(ParseMethod(methodText.value).value, path.value).None? ==>
                  refused && Refuses(ran.response, 404, "Route not found"))
  {
    hide Serve, Ascii, ParseMethod, GetString, Refuses;
    ErrorTells(400, "Missing method or path");
    ErrorTells(400, "Invalid HTTP method");
    ErrorTells(404, "Route not found");
  }

  /** A failing batch's answer names the failing operation and carries its answer's body. */
  lemma AnswerOfFailure(index: nat, response: Response)
    ensures var answer := BatchResponse(FailedAt(index, response));
            && answer.status == BAD_REQUEST && answer.body.JObject?
            && GetItem(answer.body.child, Ascii("success")) == Some(JBool(false))
            && GetItem(answer.body.child, Ascii("details")) == Some(response.body)
            && exists text :: GetItem(answer.body.child, Ascii("failed_at")) == Some(JNumber(text)) && DigitsValue(text) == index
  {
    hide Ascii, Decimal, DigitsValue;
    AnswerWords();
    DigitsValueOfDecimal(index);
    var fields := BatchResponse(FailedAt(index, response)).body.child;
    assert GetItem(fields.next.next, Ascii("details")) == Some(response.body);
    assert GetItem(fields, Ascii("failed_at")) == Some(JNumber(Decimal(index)));
  }

  // -------------------- the requests of a body --------------------

  /** The requests of a handler that gave this answer. */
  function HandlerRequests(host: Host, h: Handler, params: seq<Bytes>, body: Option<Json>, answer: Response): seq<Request>
    decreases BodySize(body), 1
  {
    if h == BatchGet || h == BatchPost then
      match BatchOperations(h == BatchGet, body).0
      case None => []
      case Some(ops) => OpsRequests(host, ops, AnswersIn(answer), 0)
    else if h == Health then []
    else match Prepare(h, params, body) case Ready(r) => [r] case Refused(_) => []
  }

  /** The requests of the operations from position i on, one after the other. */
  function OpsRequests(host: Host, ops: Nodes, answers: seq<Response>, i: nat): seq<Request>
    decreases SizeAll(ops), 3
  {
    match ops
    case Nil => []
    case Cons(_, op, next) =>
      if !op.JObject? || i >= |answers| then []
      else
        match ResolveVars(op.child, answers[..i])
        case NoFields(_) => []
        case Fields(fields) =>
          assert Size(op) == 1 + SizeAll(op.child);
          OpRequests(host, fields, answers[i]) + OpsRequests(host, next, answers, i + 1)
  }

  /** The requests of one operation, its tokens replaced. */
  function OpRequests(host: Host, fields: Nodes, answer: Response): seq<Request>
    decreases SizeAll(fields), 2
  {
    match (GetString(fields, Ascii("method")), GetString(fields, Ascii("path")))
    case (Some(methodText), Some(path)) =>
      (match ParseMethod(methodText)
       case None => []
       case Some(m) =>
         match host.Route(m, path)
         case None => []
         case Some(target) => HandlerRequests(host, target.handler, target.params, OperationBody(fields), answer))
    case _ => []
  }

  // -------------------- the trace is theirs --------------------

  /** What a handler performed, when it succeeds, is what its body asks for. */
  lemma {:induction false} ServeTrace(host: Host, st: State, clock: nat, limits: Q.Options, h: Handler, params: seq<Bytes>, body: Option<Json>)
    requires !IsError(Serve(host, st, clock, limits, h, params, body).response)
    ensures var ran := Serve(host, st, clock, limits, h, params, body);
            ran.trace == HandlerRequests(host, h, params, body, ran.response)
    decreases BodySize(body), 1
  {
    hide Perform, Prepare, BatchOperations, RunOps, OpsRequests, AnswersIn;
    if h == BatchGet || h == BatchPost {
      var (ops, refusal) := BatchOperations(h == BatchGet, body);
      if ops.Some? {
        var run := RunOps(host, st, clock, limits, ops.value, [], []);
        OpsTrace(host, st, clock, limits, ops.value, [], []);
        AnswersOfResults(run.end.results);
      }
    }
  }

  lemma {:induction false} OpsTrace(host: Host, st: State, clock: nat, limits: Q.Options, ops: Nodes,
                                    done: seq<Response>, log: seq<Request>)
    requires NoErrors(done) && RunOps(host, st, clock, limits, ops, done, log).end.Finished?
    ensures var run := RunOps(host, st, clock, limits, ops, done, log);
            run.trace == log + OpsRequests(host, ops, run.end.results, |done|)
    decreases SizeAll(ops), 3
  {
    hide ResolveVars, RunOne, OpRequests, IsError;
    if ops.Cons? {
      var fields := ResolveVars(ops.value.child, done).fields;
      assert Size(ops.value) == 1 + SizeAll(ops.value.child);
      var ran := RunOne(host, st, clock - 1, limits, fields);
      OneTrace(host, st, clock - 1, limits, fields);
      OpsTrace(host, ran.st, ran.clock, limits, ops.next, done + [ran.response], log + ran.trace);
      ResultsMatchOperations(host, ran.st, ran.clock, limits, ops.next, done + [ran.response], log + ran.trace);
      var results := RunOps(host, st, clock, limits, ops, done, log).end.results;
      assert results[..|done|] == done && results[|done|] == ran.response;
    }
  }

  lemma {:induction false} OneTrace(host: Host, st: State, clock: nat, limits: Q.Options, fields: Nodes)
    ensures var ran := RunOne(host, st, clock, limits, fields);
            !IsError(ran.response) ==> ran.trace == OpRequests(host, fields, ran.response)
    decreases SizeAll(fields), 2
  {
    hide Serve, HandlerRequests;
    match (GetString(fields, Ascii("method")), GetString(fields, Ascii("path")))
    case (Some(methodText), Some(path)) =>
      var m := ParseMethod(methodText);
      if m.Some? && host.Route(m.value, path).Some? {
        var target := host.Route(m.value, path).value;
        if !IsError(RunOne(host, st, clock, limits, fields).response) {
          ServeTrace(host, st, clock, limits, target.handler, target.params, OperationBody(fields));
        }
      }
    case _ =>
  }

  /** A success is the left-to-right fold of all its operations' requests, and each of them succeeded. */
  lemma {:induction false} SuccessIsTheFold(host: Host, st: State, clock: nat, limits: Q.Options, h: Handler, params: seq<Bytes>, body: Option<Json>)
    requires !IsError(Serve(host, st, clock, limits, h, params, body).response)
    ensures var ran := Serve(host, st, clock, limits, h, params, body);
            var requests := HandlerRequests(host, h, params, body, ran.response);
            ran.st == Replay(host, st, limits, requests) && AllSucceed(host, st, limits, requests)
  {
    hide *;
    ServeFlattens(host, st, clock, limits, h, params, body);
    ServeTrace(host, st, clock, limits, h, params, body);
  }

  /**
   A batch that fails answers 400 with the least failing index and that operation's answer;
   the operations before it, alone, would have run to the end.
   */
  lemma {:induction false} FailureIsServed(host: Host, st: State, clock: nat, limits: Q.Options, h: Handler, params: seq<Bytes>, body: Option<Json>)
    requires h in {BatchGet, BatchPost} && BatchOperations(h == BatchGet, body).0.Some?
    requires RunOps(host, st, clock, limits, BatchOperations(h == BatchGet, body).0.value, [], []).end.FailedAt?
    ensures var ops := BatchOperations(h == BatchGet, body).0.value;
            var run := RunOps(host, st, clock, limits, ops, [], []);
            var answer := Serve(host, st, clock, limits, h, params, body).response;
            && answer.status == 400 && Tells(answer.body, "success", JBool(false))
            && TellsNumber(answer.body, "failed_at", run.end.index) && Tells(answer.body, "details", run.end.response.body)
            && run.end.index < Length(ops) && IsError(run.end.response)
            && RunOps(host, st, clock, limits, First(ops, run.end.index), [], []).end.Finished?
  {
    hide RunOps, Ascii, BatchOperations, First, ServeRequest, BatchResponse, DigitsValue;
    var ops := BatchOperations(h == BatchGet, body).0.value;
    var run := RunOps(host, st, clock, limits, ops, [], []);
    FailedAtIsFirst(host, st, clock, limits, ops, [], []);
    ResultsMatchOperations(host, st, clock, limits, ops, [], []);
    AnswerOfFailure(run.end.index, run.end.response);
  }

  // -------------------- the checks before a batch --------------------

  /** There is an operation at this position, an object with one of the three write methods. */
  predicate WritesAt(ops: Nodes, i: nat) {
    ops.Cons? &&
    if i > 0 then WritesAt(ops.next, i - 1)
    else ops.value.JObject? &&
         GetString(ops.value.child, Ascii("method")) in {Some(Ascii("PUT")), Some(Ascii("POST")), Some(Ascii("DELETE"))}
  }

  lemma {:induction false} ScanFindsWrites(ops: Nodes)
    ensures HasWriteMethod(ops) <==> exists i: nat :: WritesAt(ops, i)
  {
    hide GetString, Ascii;
    if ops.Cons? {
      ScanFindsWrites(ops.next);
      if HasWriteMethod(ops.next) {
        var i: nat :| WritesAt(ops.next, i);
        assert WritesAt(ops, i + 1);
      } else if HasWriteMethod(ops) {
        assert WritesAt(ops, 0);
      } else {
        forall i: nat ensures !WritesAt(ops, i) {
          if i > 0 { assert !WritesAt(ops.next, i - 1); }
        }
      }
    }
  }

  /** A batch starts iff it has 1 to 1000 operations, none of them a write in a read-only batch. */
  lemma BatchStartsWhen(readonly: bool, body: Option<Json>)
    ensures BatchOperations(readonly, body).0.Some? <==>
              && body.Some? && body.value.JObject?
              && match GetItem(body.value.child, Ascii("operations"))
                 case Some(JArray(ops)) =>
                   1 <= Length(ops) <= 1000 &&
                   (readonly ==> forall i: nat :: !WritesAt(ops, i))
                 case _ => false
  {
    if body.Some? && body.value.JObject? {
      match GetItem(body.value.child, Ascii("operations"))
      case Some(JArray(ops)) => ScanFindsWrites(ops);
      case _ =>
    }
  }

  // -------------------- vars --------------------

  /** Tokens are replaced in the path and in the body; every other field is the operation's own. */
  lemma SubstitutedFields(fields: Nodes, bindings: seq<Binding>, key: Bytes)
    ensures GetItem(SubstituteFields(fields, bindings), key) ==
            match GetItem(fields, key)
            case Some(JString(s)) =>
              if key == Ascii("path") then Some(JString(Substitute(s, bindings, 0)))
              else if key == Ascii("body") then Some(SubstituteTree(JString(s), bindings))
              else Some(JString(s))
            case Some(j) => Some(if key == Ascii("body") then SubstituteTree(j, bindings) else j)
            case None => None
  {
    hide Substitute, SubstituteTree;
    WordsDiffer();
    assert Ascii("path")[0] != Ascii("body")[0];
    var path := GetItem(fields, Ascii("path"));
    var f1 := match path
              case Some(JString(s)) => SetItem(fields, Ascii("path"), JString(Substitute(s, bindings, 0)))
              case _ => fields;
    if path.Some? && path.value.JString? {
      GetAfterSet(fields, Ascii("path"), JString(Substitute(path.value.s, bindings, 0)), key);
      GetAfterSet(fields, Ascii("path"), JString(Substitute(path.value.s, bindings, 0)), Ascii("body"));
    }
    if GetItem(f1, Ascii("body")).Some? {
      GetAfterSet(f1, Ascii("body"), SubstituteTree(GetItem(f1, Ascii("body")).value, bindings), key);
    }
  }
}
