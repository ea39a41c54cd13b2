/** What a client reads in the answer to a query, and the whole way from storing a tree to querying it. */
module QueryAnswers {
  import opened CBytes
  import opened ErrorCodes
  import opened Json
  import opened Platform
  import opened Codec
  import opened Engine
  import opened NestedValue
  import opened Layout
  import opened PathText
  import opened QueryPath
  import opened CompileWalk
  import opened Reach
  import opened Responses
  import opened Answers
  import opened Routes
  import opened Handlers
  import opened HandlerFacts
  import opened Batch
  import opened ClientRequests
  import ReadBack
  import BuildFailure

  // -------------------- the answer to a failed query --------------------

  /** The documented status and text of each query failure. */
  predicate RefusesQuery(r: Response, rc: Rc) {
    && (rc == PathParse ==> Refuses(r, 400, "Invalid query path"))
    && (rc == PathInvalidPtr ==> Refuses(r, 400, "Invalid pointer format"))
    && (rc == PathTooDeep ==> Refuses(r, 400, "Query path too deep"))
    && (rc == PathUrlDecode ==> Refuses(r, 400, "Failed to decode query path segment"))
    && (rc == SetNotSupported ==> Refuses(r, 400, "Set does not support member access"))
    && (rc == TypeMismatch ==> Refuses(r, 400, "Intermediate value is not a reference"))
    && (rc == EntityNotFound ==> Refuses(r, 404, "Object not found"))
    && (rc == MemberNotFound ==> Refuses(r, 404, "Member not found"))
    && (rc == ValueTooLarge ==> Refuses(r, 413, "Value too large"))
  }

  /** The fields that say where a query failed and what was found there. */
  predicate TellsWhere(body: Json, e: QueryError) {
    && (match e.at case Some(at) => TellsText(body, "at", at) && TellsNumber(body, "segment", e.segment)
                   case None => Silent(body, "at") && Silent(body, "segment"))
    && (match e.found case Some(ty) => TellsType(body, "found", ty) case None => Silent(body, "found"))
  }

  /** The value limit, told when it was exceeded. */
  predicate TellsLimit(body: Json, rc: Rc, limit: nat) {
    if rc == ValueTooLarge then TellsNumber(body, "limit", limit) else Silent(body, "limit")
  }

  lemma QueryWords()
    ensures Ascii("error") != Ascii("at") && Ascii("error") != Ascii("segment") && Ascii("error") != Ascii("found")
    ensures Ascii("error") != Ascii("limit") && Ascii("at") != Ascii("segment") && Ascii("at") != Ascii("found")
    ensures Ascii("at") != Ascii("limit") && Ascii("segment") != Ascii("found") && Ascii("segment") != Ascii("limit")
    ensures Ascii("found") != Ascii("limit")
  {
    LetterDiffers("error", "found", 0);
    LetterDiffers("error", "limit", 0);
    LetterDiffers("found", "limit", 0);
  }

  lemma FieldIs(present: bool, key: string, value: Json, rest: Nodes, b: Bytes)
    ensures GetItem(if present then Field(key, value, rest) else rest, b) ==
            if present && b == Ascii(key) then Some(value) else GetItem(rest, b)
  {
    hide Ascii;
  }

  /** Looking a key up in a query's error answer, its fields in order. */
  lemma ErrorField(host: Host, rc: Rc, e: QueryError, limit: nat, b: Bytes)
    ensures var body := QueryErrorBody(host, rc, e, limit).body;
            && body.JObject?
            && GetItem(body.child, b) ==
                 if b == Ascii("error") then Some(JString(QueryMessage(host, rc)))
                 else if b == Ascii("at") && e.at.Some? then Some(JString(e.at.value))
                 else if b == Ascii("segment") && e.at.Some? then Some(Number(e.segment))
                 else if b == Ascii("found") && e.found.Some? then Some(Text(TypeName(e.found.value)))
                 else if b == Ascii("limit") && rc == ValueTooLarge then Some(Number(limit))
                 else None
  {
    hide Ascii, TypeName, QueryMessage, Number, GetItem, Field, HttpStatus;
    NothingHolds(b);
    var f4 := if rc == ValueTooLarge then Field("limit", Number(limit), Nil) else Nil;
    FieldIs(rc == ValueTooLarge, "limit", Number(limit), Nil, b);
    var f3 := if e.found.Some? then Field("found", Text(TypeName(e.found.value)), f4) else f4;
    if e.found.Some? { FieldIs(true, "found", Text(TypeName(e.found.value)), f4, b); }
    var f2 := if e.at.Some? then Field("at", JString(e.at.value), Field("segment", Number(e.segment), f3)) else f3;
    if e.at.Some? {
      FieldIs(true, "segment", Number(e.segment), f3, b);
      FieldIs(true, "at", JString(e.at.value), Field("segment", Number(e.segment), f3), b);
    }
    FieldIs(true, "error", JString(QueryMessage(host, rc)), f2, b);
  }

  lemma NothingHolds(b: Bytes)
    ensures GetItem(Nil, b) == None
  {
  }

  lemma PathMessages(host: Host)
    ensures QueryMessage(host, PathParse) == Ascii("Invalid query path")
    ensures QueryMessage(host, PathInvalidPtr) == Ascii("Invalid pointer format")
    ensures QueryMessage(host, PathTooDeep) == Ascii("Query path too deep")
  {
    hide Ascii, Cut;
  }

  lemma WalkMessages(host: Host)
    ensures QueryMessage(host, PathUrlDecode) == Ascii("Failed to decode query path segment")
    ensures QueryMessage(host, SetNotSupported) == Ascii("Set does not support member access")
    ensures QueryMessage(host, TypeMismatch) == Ascii("Intermediate value is not a reference")
  {
    hide Ascii, Cut;
  }

  lemma LeafMessages(host: Host)
    ensures QueryMessage(host, EntityNotFound) == Ascii("Object not found")
    ensures QueryMessage(host, MemberNotFound) == Ascii("Member not found")
    ensures QueryMessage(host, ValueTooLarge) == Ascii("Value too large")
  {
    hide Ascii, Cut;
  }

  lemma QueryMessageTells(host: Host, rc: Rc, r: Response)
    requires TellsText(r.body, "error", QueryMessage(host, rc)) && r.status == HttpStatus(rc)
    ensures RefusesQuery(r, rc)
  {
    hide Ascii, TellsText, QueryMessage;
    PathMessages(host);
    WalkMessages(host);
    LeafMessages(host);
  }

  lemma QueryErrorTells(host: Host, rc: Rc, e: QueryError, limit: nat)
    ensures var r := QueryErrorBody(host, rc, e, limit);
            RefusesQuery(r, rc) && TellsWhere(r.body, e) && TellsLimit(r.body, rc, limit)
  {
    hide Ascii, GetItem, QueryMessage, Field, DigitsValue, Decimal, RefusesQuery, HttpStatus;
    var r := QueryErrorBody(host, rc, e, limit);
    QueryWords();
    ErrorField(host, rc, e, limit, Ascii("error"));
    ErrorField(host, rc, e, limit, Ascii("at"));
    ErrorField(host, rc, e, limit, Ascii("segment"));
    ErrorField(host, rc, e, limit, Ascii("found"));
    ErrorField(host, rc, e, limit, Ascii("limit"));
    QueryMessageTells(host, rc, r);
    DigitsValueOfDecimal(e.segment);
    DigitsValueOfDecimal(limit);
  }

  /** The answer to a query, value or failure, over any store. */
  lemma QueryAnswered(host: Host, st: State, limits: Options, path: Bytes)
    ensures var (st', r) := Perform(host, st, limits, DoQuery(path));
            && st' == st
            && match Query(st.store, path, limits)
               case Value(text, ty) => r.status == 200 && TellsText(r.body, "path", path) && TellsValue(r.body, text, ty)
               case Failed(rc, e) =>
                 RefusesQuery(r, rc) && TellsWhere(r.body, e) && TellsLimit(r.body, rc, WithDefaults(limits).maxValueBytes)
  {
    hide Query, Ascii, TellsText, TellsValue, RefusesQuery, TellsWhere, TellsLimit, QueryErrorBody, ValueEntry, WithDefaults;
    match Query(st.store, path, limits)
    case Value(text, ty) => EntryTells("path", path, text, ty);
    case Failed(rc, e) => QueryErrorTells(host, rc, e, WithDefaults(limits).maxValueBytes);
  }

  // -------------------- roots that are no objects --------------------

  /** A well-formed path that starts at a set, or at no pointer, fails at segment 0. */
  lemma {:induction false} BadRoots(host: Host, s: Store, root: Bytes, names: seq<Bytes>, options: Options)
    requires |root| == 34 && DOT !in root
    requires 1 <= |names| <= WithDefaults(options).maxDepth && forall n :: n in names ==> Printable(n)
    ensures forall id :: root == PtrToHex(Ptr(2, id)) ==>
              Query(s, PrintPath(root, names), options) == Failed(SetNotSupported, QueryError(Some(root), 0, Some(SetType)))
    ensures PtrFromString(root).None? ==>
              Query(s, PrintPath(root, names), options) == Failed(PathInvalidPtr, QueryError(Some(root), 0, None))
  {
    hide ProbeWalk, ParsePath, PrintPath, PtrToHex, PtrFromString, Printable, At, WithDefaults;
    ParseOfPrint(root, names, WithDefaults(options).maxDepth);
    AtFacts([root], [], names, 0);
    forall id | root == PtrToHex(Ptr(2, id)) ensures PtrFromString(root) == Some(Ptr(2, id)) { HexRoundTrip(host, Ptr(2, id)); }
  }

  // -------------------- store, then query --------------------

  /** How a query's answer shows the end of a walk. */
  predicate AnswersWalk(r: Response, path: Bytes, root: Bytes, names: seq<Bytes>, walk: Walk, cap: nat) {
    match walk
    case Leaf(text, ty) => r.status == 200 && TellsText(r.body, "path", path) && TellsValue(r.body, text, ty)
    case Stop(rc, segment, found) =>
      && RefusesQuery(r, rc) && TellsLimit(r.body, rc, cap)
      && TellsWhere(r.body, QueryError(Some(SlashPath(root, if segment <= |names| then names[..segment] else names)), segment, found))
  }

  /**
   The request POST /obj/init with any JSON object, and then GET /obj/query with the pointer
   from its answer and any printable names: the answer is what the object says.
   */
  lemma {:induction false} InitThenQueryServed(host: Host, st: State, clock: nat, limits: Options, params: seq<Bytes>, kv: Nodes,
                                               names: seq<Bytes>, clock': nat, body': Option<Json>)
    requires Inv(st) && clock > 0 && clock' > 0
    requires !IsError(Serve(host, st, clock, limits, ObjInit, params, Some(JObject(kv))).response)
    requires 1 <= |names| <= WithDefaults(limits).maxDepth && forall n :: n in names ==> Printable(n)
    requires |PrintPath(PtrToHex(Ptr(1, IdAt(st.ids, st.next))), names)| <= 1023
    ensures var init := Serve(host, st, clock, limits, ObjInit, params, Some(JObject(kv)));
            var root := PtrToHex(Ptr(1, IdAt(st.ids, st.next)));
            var path := PrintPath(root, names);
            var query := Serve(host, init.st, clock', limits, ObjQuery, [path], body');
            var cap := WithDefaults(limits).maxValueBytes;
            && init.response.status == 201 && TellsText(init.response.body, "ptr", root)
            && TellsNumber(init.response.body, "member_count", Length(kv))
            && Inv(init.st) && Holds(init.st.store, st.ids, st.next, JObject(kv))
            && query.st == init.st
            && AnswersWalk(query.response, path, root, names, Lookup(st.ids, st.next + 1, kv, names, 1, cap), cap)
  {
    hide *;
    InitServed(host, st, clock, limits, params, kv);
    var init := Serve(host, st, clock, limits, ObjInit, params, Some(JObject(kv)));
    var root := PtrToHex(Ptr(1, IdAt(st.ids, st.next)));
    var path := PrintPath(root, names);
    InitThenQuery(host, st, kv, names, limits);
    QueryServed(host, init.st, clock', limits, path, body');
    QueryAnswered(host, init.st, limits, path);
    AnswersOf(Serve(host, init.st, clock', limits, ObjQuery, [path], body').response, path, root, names,
              Lookup(st.ids, st.next + 1, kv, names, 1, WithDefaults(limits).maxValueBytes), WithDefaults(limits).maxValueBytes);
  }

  lemma InitServed(host: Host, st: State, clock: nat, limits: Options, params: seq<Bytes>, kv: Nodes)
    requires Inv(st) && clock > 0
    requires !IsError(Serve(host, st, clock, limits, ObjInit, params, Some(JObject(kv))).response)
    ensures var init := Serve(host, st, clock, limits, ObjInit, params, Some(JObject(kv)));
            var root := PtrToHex(Ptr(1, IdAt(st.ids, st.next)));
            && InitSucceeds(host, st, kv) && init.st == InitObject(host, st, kv).0
            && InitObject(host, st, kv).1 == Some(Ptr(1, IdAt(st.ids, st.next)))
            && Inv(init.st) && Holds(init.st.store, st.ids, st.next, JObject(kv))
            && init.response.status == 201 && TellsText(init.response.body, "ptr", root)
            && TellsNumber(init.response.body, "member_count", Length(kv))
  {
    hide *;
    InitIsPerformed(host, st, limits, kv);
    ServeOne(host, st, clock, limits, ObjInit, params, Some(JObject(kv)));
    PlainRequestIsPrepared(params, None, kv, []);
    InitEndsWell(host, st, kv);
    if InitSucceeds(host, st, kv) { InitAnswer(host, st, kv); }
    InitLayout(host, st, kv);
    CountedPtrTells(InitObject(host, st, kv).1.value, "member_count", Length(kv));
  }

  /** The same for the request POST /set/init with a non-empty array. */
  lemma SetInitServed(host: Host, st: State, clock: nat, limits: Options, params: seq<Bytes>, item: Nodes)
    requires Inv(st) && clock > 0 && item.Cons?
    requires !IsError(Serve(host, st, clock, limits, SetInit, params, Some(JArray(item))).response)
    ensures var init := Serve(host, st, clock, limits, SetInit, params, Some(JArray(item)));
            var root := PtrToHex(Ptr(2, IdAt(st.ids, st.next)));
            && Inv(init.st) && Holds(init.st.store, st.ids, st.next, JArray(item))
            && init.response.status == 201 && TellsText(init.response.body, "ptr", root)
            && TellsNumber(init.response.body, "element_count", ReadBack.ContainerElements(item) + |ReadBack.LeafEncodings(item)|)
  {
    hide *;
    InitIsPerformed(host, st, limits, item);
    ServeOne(host, st, clock, limits, SetInit, params, Some(JArray(item)));
    PlainRequestIsPrepared(params, None, item, []);
    SetInitEndsWell(host, st, item);
    SetInitCountIsExact(host, st, item);
    SetLayout(host, st, item);
    CountedPtrTells(InitSet(host, st, item).1.value, "element_count", ReadBack.ContainerElements(item) + |ReadBack.LeafEncodings(item)|);
  }

  lemma InitIsPerformed(host: Host, st: State, limits: Options, nodes: Nodes)
    ensures Perform(host, st, limits, DoObjInit(nodes)) == PerformObjInit(host, st, nodes)
    ensures Perform(host, st, limits, DoSetInit(nodes)) == PerformSetInit(host, st, nodes)
    ensures OBJ == 1 && SET == 2
  {
    hide PerformObjInit, PerformSetInit;
  }

  lemma InitAnswer(host: Host, st: State, kv: Nodes)
    requires InitSucceeds(host, st, kv)
    ensures var (st', made, _) := InitObject(host, st, kv);
            PerformObjInit(host, st, kv) == (st', CountedPtrBody(made.value, "member_count", Length(kv))) && made.Some?
  {
    hide FillMembers, CountedPtrBody, InitMessage;
  }

  lemma SetInitEndsWell(host: Host, st: State, item: Nodes)
    ensures !IsError(PerformSetInit(host, st, item).1) ==> SetInitSucceeds(host, st, item) && InitSet(host, st, item).1.Some?
  {
    hide FillElements, Ascii, InitMessage;
    var (st1, made) := Create(st, SET);
    if made.Some? { BuildFailure.FillElementsFailsWithReason(host, st1, made.value, item, 0, 0); }
  }

  /** A failed init is answered with an error. */
  lemma InitEndsWell(host: Host, st: State, kv: Nodes)
    ensures !IsError(PerformObjInit(host, st, kv).1) <==> InitSucceeds(host, st, kv)
  {
    hide FillMembers, Ascii, InitMessage;
    var (st1, made) := Create(st, OBJ);
    if made.Some? { BuildFailure.FillFailsWithReason(host, st1, made.value, kv, 0); }
  }

  lemma QueryServed(host: Host, st: State, clock: nat, limits: Options, path: Bytes, body: Option<Json>)
    requires clock > 0 && |path| <= 1023
    ensures var ran := Serve(host, st, clock, limits, ObjQuery, [path], body);
            var (st', r) := Perform(host, st, limits, DoQuery(path));
            ran.st == st' && ran.response == r
  {
    hide Serve, Prepare, Perform;
    ServeOne(host, st, clock, limits, ObjQuery, [path], body);
    PlainRequestIsPrepared([], body, Nil, path);
    assert [path] + [] == [path];
  }

  lemma AnswersOf(r: Response, path: Bytes, root: Bytes, names: seq<Bytes>, walk: Walk, cap: nat)
    ensures AnswersWalk(r, path, root, names, walk, cap) <==>
            match AnswerOf(root, names, walk)
            case Value(text, ty) => r.status == 200 && TellsText(r.body, "path", path) && TellsValue(r.body, text, ty)
            case Failed(rc, e) => RefusesQuery(r, rc) && TellsWhere(r.body, e) && TellsLimit(r.body, rc, cap)
  {
    hide SlashPath, RefusesQuery, TellsWhere, TellsLimit, TellsValue, TellsText;
  }

  /** What a query answers for a value at the end of a chain, by the kind of the value. */
  predicate AnswersNode(r: Response, path: Bytes, node: Json, id: Id, cap: nat) {
    if StoredSize(node) > cap then Refuses(r, 413, "Value too large") && TellsNumber(r.body, "limit", cap)
    else
      var (text, ty) := NodeText(node, id);
      r.status == 200 && TellsText(r.body, "path", path) && TellsValue(r.body, text, ty)
  }

  /**
   In particular, every value of the stored object is answered with its own text and type, a
   container with the pointer of an entity that holds just that container's graph.
   */
  lemma {:induction false} StoredValueIsServed(host: Host, st: State, clock: nat, limits: Options, params: seq<Bytes>, kv: Nodes,
                                               names: seq<Bytes>, clock': nat, body': Option<Json>) returns (at: nat)
    requires Inv(st) && clock > 0 && clock' > 0
    requires !IsError(Serve(host, st, clock, limits, ObjInit, params, Some(JObject(kv))).response)
    requires Reaches(kv, names) && CStringKeys(kv) && |names| <= WithDefaults(limits).maxDepth
    requires |PrintPath(PtrToHex(Ptr(1, IdAt(st.ids, st.next))), names)| <= 1023
    ensures var init := Serve(host, st, clock, limits, ObjInit, params, Some(JObject(kv)));
            var path := PrintPath(PtrToHex(Ptr(1, IdAt(st.ids, st.next))), names);
            var query := Serve(host, init.st, clock', limits, ObjQuery, [path], body');
            && Holds(init.st.store, st.ids, at, ValueAt(kv, names))
            && AnswersNode(query.response, path, ValueAt(kv, names), IdAt(st.ids, at), WithDefaults(limits).maxValueBytes)
  {
    hide *;
    InitServed(host, st, clock, limits, params, kv);
    StoredFits(host, st, kv);
    ReachedIsPrintable(kv, names);
    ReachedIsNotEmpty(kv, names);
    InitThenQueryServed(host, st, clock, limits, params, kv, names, clock', body');
    var init := Serve(host, st, clock, limits, ObjInit, params, Some(JObject(kv)));
    HeldMembers(init.st.store, st.ids, st.next, kv);
    var cap := WithDefaults(limits).maxValueBytes;
    at := LookupTells(init.st.store, st.ids, st.next + 1, kv, names, 1, cap);
    var root := PtrToHex(Ptr(1, IdAt(st.ids, st.next)));
    var path := PrintPath(root, names);
    NodeOfWalk(Serve(host, init.st, clock', limits, ObjQuery, [path], body').response, path, root, names,
               ValueAt(kv, names), IdAt(st.ids, at), cap);
  }

  lemma ReachedIsNotEmpty(kv: Nodes, names: seq<Bytes>)
    requires Reaches(kv, names)
    ensures |names| >= 1
  {
  }

  lemma NodeOfWalk(r: Response, path: Bytes, root: Bytes, names: seq<Bytes>, node: Json, id: Id, cap: nat)
    requires |names| >= 1
    requires AnswersWalk(r, path, root, names,
                         if StoredSize(node) > cap then Stop(ValueTooLarge, 1 + |names| - 1, None)
                         else Leaf(NodeText(node, id).0, NodeText(node, id).1), cap)
    ensures AnswersNode(r, path, node, id, cap)
  {
    hide SlashPath, TellsWhere, TellsValue, TellsText, TellsNumber, Refuses;
  }
}
