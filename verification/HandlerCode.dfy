/** The handlers' work inside an open transaction, as the code does it. */
module HandlerCode {
  import opened CBytes
  import opened ErrorCodes
  import opened Json
  import opened Platform
  import opened Codec
  import opened Engine
  import opened NestedValue
  import opened CompileWalk
  import opened Responses
  import opened Handlers
  import Q = QueryPath

  /** Encode a typed value into a buffer of the size the handlers allocate. */
  method EncodeTyped(host: Host, value: Bytes, tag: Byte) returns (rc: Rc, v: Bytes)
    ensures match EncodeValue(host, value, tag, EncodedSize(value))
            case Encoded(e) => rc == Success && v == e
            case NotEncoded(c) => rc == c && rc != Success
    ensures rc != BufferTooSmall
  {
    BufferSuffices(host, value, tag);
    var buf := new Byte[EncodedSize(value)](_ => NUL);
    var len;
    rc, len := EncodeValueInto(host, value, tag, buf);
    v := if rc == Success then buf[..len] else [];
  }

  /** The handlers' buffer is never too small. */
  lemma BufferSuffices(host: Host, value: Bytes, tag: Byte)
    ensures EncodeValue(host, value, tag, EncodedSize(value)) != NotEncoded(BufferTooSmall)
  {
  }

  method ObjMemberPut(host: Host, txn: Txn, p: Ptr, name: Bytes, value: Bytes, tag: Byte) returns (resp: Response)
    requires txn.open && !txn.readonly
    modifies txn`st
    ensures (txn.st, resp) == PerformPut(host, old(txn.st), p, name, value, tag)
  {
    if p !in txn.st.store.items {
      return NotFound("Object");
    }
    var rc, v := EncodeTyped(host, value, tag);
    if rc != Success {
      return RcError(host, rc);
    }
    rc := txn.Put(p, name, v);
    resp := if rc == Success then SuccessBody() else RcError(host, rc);
  }

  method SetAdd(host: Host, txn: Txn, p: Ptr, value: Bytes, tag: Byte) returns (resp: Response)
    requires txn.open && !txn.readonly
    modifies txn`st
    ensures (txn.st, resp) == PerformAdd(host, old(txn.st), p, value, tag)
  {
    if p !in txn.st.store.items {
      return NotFound("Set");
    }
    var rc, v := EncodeTyped(host, value, tag);
    if rc != Success {
      return RcError(host, rc);
    }
    rc := txn.Add(p, v);
    if rc == MemberExists {
      return Error(CONFLICT, "Element already exists");
    }
    resp := if rc == Success then SuccessBody() else RcError(host, rc);
  }

  method SetRemove(host: Host, txn: Txn, p: Ptr, value: Bytes, tag: Byte) returns (resp: Response)
    requires txn.open && !txn.readonly
    modifies txn`st
    ensures (txn.st, resp) == PerformRemove(host, old(txn.st), p, value, tag)
  {
    if p !in txn.st.store.items {
      return NotFound("Set");
    }
    var rc, v := EncodeTyped(host, value, tag);
    if rc != Success {
      return RcError(host, rc);
    }
    rc := txn.RemoveElement(p, v);
    resp := if rc == Success then SuccessBody() else RcError(host, rc);
  }

  method ObjMemberDel(host: Host, txn: Txn, p: Ptr, name: Bytes) returns (resp: Response)
    requires txn.open && !txn.readonly
    modifies txn`st
    ensures (txn.st, resp) == PerformMemberDel(host, old(txn.st), p, name)
  {
    if p !in txn.st.store.items {
      return NotFound("Object");
    }
    var rc := txn.DeleteMember(p, name);
    if rc == MemberNotFound {
      return Error(NOT_FOUND, "Member not found");
    }
    resp := if rc == Success then SuccessBody() else RcError(host, rc);
  }

  method DeleteWhole(host: Host, txn: Txn, kind: Byte, name: string, p: Ptr) returns (resp: Response)
    requires txn.open && !txn.readonly
    modifies txn`st
    ensures (txn.st, resp) == PerformDelete(host, old(txn.st), kind, name, p)
  {
    if p !in txn.st.store.items {
      return NotFound(name);
    }
    var rc := txn.DeleteEntity(kind, p);
    resp := if rc == Success then SuccessBody() else RcError(host, rc);
  }

  method CreateEmpty(host: Host, txn: Txn, kind: Byte) returns (resp: Response)
    requires txn.open && !txn.readonly
    modifies txn`st
    ensures (txn.st, resp) == PerformCreate(host, old(txn.st), kind)
  {
    var rc, p := txn.CreateEntity(kind);
    resp := if rc == Success then PtrBody(p) else RcError(host, rc);
  }

  /** What the handler prints around the text its error buffer holds. */
  function RootMessage(text: Bytes, step: Step): Bytes {
    Cut(text + Ascii(" (in ") + StepText(step) + Ascii(")"), 1151)
  }

  lemma RootMessageIsInitMessage(f: Failure, step: Step)
    ensures InitMessage(Inside(f, step)) == RootMessage(Shown(1024, f.reason, f.trail), step)
    ensures |f.reason| <= 1023 ==>
              InitMessage(Failure(f.rc, f.reason, [step])) == RootMessage(f.reason, step)
  {
    assert (f.trail + [step])[..|f.trail|] == f.trail;
    assert [step][..0] == [];
  }

  /** handle_obj_init. */
  method ObjInit(host: Host, txn: Txn, root: Nodes) returns (resp: Response)
    requires txn.open && !txn.readonly
    modifies txn`st
    ensures (txn.st, resp) == PerformObjInit(host, old(txn.st), root)
  {
    hide BuildValue, FillMembers, MemberPut, Create, Shown, InitMessage, RootMessage, NameProblem, HttpStatus, Ascii;
    var rc, p := txn.CreateEntity(OBJ);
    if rc != Success {
      return RcError(host, rc);
    }
    var err := new ErrBuf(1024);
    ghost var st1 := txn.st;
    var filled := 0;
    var kv := root;
    while kv.Cons?
      invariant FillMembers(host, st1, p, root, 0) == FillMembers(host, txn.st, p, kv, 0)
      invariant filled + Length(kv) == Length(root)
      decreases kv
    {
      MemberStep(host, txn.st, p, kv, 0);
      var step := InMember(kv.key);
      var problem := NameProblem(kv.key);
      if problem.Some? {
        ghost var f := Failure(InvalidParam, problem.value, []);
        err.SetReason(problem.value);
        RootMessageIsInitMessage(f, step);
        return ErrorText(HttpStatus(InvalidParam), RootMessage(err.text, step));
      }
      ghost var before := txn.st;
      var enc;
      rc, enc := EncodeJson(host, txn, kv.value, 0, err);
      if rc != Success {
        RootMessageIsInitMessage(BuildValue(host, before, kv.value, 0).1.failure, step);
        return ErrorText(HttpStatus(rc), RootMessage(err.text, step));
      }
      rc := txn.Put(p, kv.key, enc);
      if rc != Success {
        RootMessageIsInitMessage(Failure(rc, host.Strerror(rc), []), step);
        return ErrorText(HttpStatus(rc), RootMessage(host.Strerror(rc), step));
      }
      filled := filled + 1;
      kv := kv.next;
    }
    MemberStep(host, txn.st, p, kv, 0);
    resp := CountedPtrBody(p, "member_count", filled);
  }

  /** handle_set_init. */
  method SetInit(host: Host, txn: Txn, root: Nodes) returns (resp: Response)
    requires txn.open && !txn.readonly
    modifies txn`st
    ensures (txn.st, resp) == PerformSetInit(host, old(txn.st), root)
  {
    hide BuildValue, FillElements, SetAddItem, Create, Shown, InitMessage, RootMessage, HttpStatus, Ascii;
    var rc, p := txn.CreateEntity(SET);
    if rc != Success {
      return RcError(host, rc);
    }
    var err := new ErrBuf(1024);
    ghost var st1 := txn.st;
    var index := 0;
    var item := root;
    while item.Cons?
      invariant FillElements(host, st1, p, root, 0, 0) == FillElements(host, txn.st, p, item, index, 0)
      decreases item
    {
      ElementStep(host, txn.st, p, item, index, 0);
      var step := InElement(index);
      ghost var before := txn.st;
      var enc;
      rc, enc := EncodeJson(host, txn, item.value, 0, err);
      if rc != Success {
        RootMessageIsInitMessage(BuildValue(host, before, item.value, 0).1.failure, step);
        return ErrorText(HttpStatus(rc), RootMessage(err.text, step));
      }
      rc := txn.Add(p, enc);
      if rc == MemberExists {
        rc := Success;
      }
      if rc != Success {
        RootMessageIsInitMessage(Failure(rc, host.Strerror(rc), []), step);
        return ErrorText(HttpStatus(rc), RootMessage(host.Strerror(rc), step));
      }
      index := index + 1;
      item := item.next;
    }
    ElementStep(host, txn.st, p, item, index, 0);
    var count := |Items(txn.st.store, p)|;
    if count == 0 && host.emptySetStat != Success {
      return RcError(host, host.emptySetStat);
    }
    resp := CountedPtrBody(p, "element_count", count);
  }

  lemma OneMoreEntry(built: Nodes, entry: Nodes, rest: Nodes)
    ensures Concat(Concat(built, entry), rest) == Concat(built, Concat(entry, rest))
    ensures Length(Concat(built, entry)) == Length(built) + Length(entry)
    ensures Concat(built, Nil) == built
  {
    ConcatAssociative(built, entry, rest);
    LengthOfConcat(built, entry);
    ConcatNil(built);
  }

  lemma MemberEntry(entries: seq<Entry>, i: nat)
    requires i <= |entries|
    ensures MemberEntries(entries[i..]) ==
            if i == |entries| then Nil
            else match DecodeValue(entries[i].value)
                 case Decoded(text, ty) =>
                   Cons([], ValueEntry("name", Cut(entries[i].name, MAX_NAME_LEN), text, ty), MemberEntries(entries[i + 1..]))
                 case NotDecoded(_) => MemberEntries(entries[i + 1..])
  {
    if i < |entries| { assert entries[i..][1..] == entries[i + 1..]; }
  }

  lemma ElementEntry(values: seq<Bytes>, i: nat)
    requires i <= |values|
    ensures ElementEntries(values[i..]) ==
            if i == |values| then Nil
            else match DecodeValue(values[i])
                 case Decoded(text, ty) => Cons([], ValueOnly(text, ty), ElementEntries(values[i + 1..]))
                 case NotDecoded(_) => ElementEntries(values[i + 1..])
  {
    if i < |values| { assert values[i..][1..] == values[i + 1..]; }
  }

  /** handle_obj_get: entries that do not decode are skipped, and not counted. */
  method ObjGet(host: Host, txn: Txn, p: Ptr) returns (resp: Response)
    requires txn.open
    ensures resp == ReadObject(host, txn.st.store, p)
  {
    hide MemberEntries, DecodeValue, ValueEntry;
    if p !in txn.st.store.items {
      return NotFound("Object");
    }
    if p.kind != OBJ {
      return RcError(host, EntityTypeMismatch);
    }
    var entries := Entries(txn.st.store, p, Listing(Items(txn.st.store, p)));
    assert entries[0..] == entries;
    var members := Nil;
    var builtCount := 0;
    for i := 0 to |entries|
      invariant Concat(members, MemberEntries(entries[i..])) == MemberEntries(entries)
      invariant builtCount == Length(members)
    {
      MemberEntry(entries, i);
      match DecodeValue(entries[i].value)
      case NotDecoded(_) =>
      case Decoded(text, ty) =>
        var item := ValueEntry("name", Cut(entries[i].name, MAX_NAME_LEN), text, ty);
        OneMoreEntry(members, Cons([], item, Nil), MemberEntries(entries[i + 1..]));
        members := Concat(members, Cons([], item, Nil));
        builtCount := builtCount + 1;
    }
    MemberEntry(entries, |entries|);
    OneMoreEntry(members, Nil, Nil);
    resp := Response(OK, JObject(Field("ptr", JString(PtrToHex(p)),
                                       Field("members", JArray(members), Field("count", Number(builtCount), Nil)))));
  }

  /** handle_set_get. */
  method SetGet(host: Host, txn: Txn, p: Ptr) returns (resp: Response)
    requires txn.open
    ensures resp == ReadSet(host, txn.st.store, p)
  {
    hide ElementEntries, DecodeValue, ValueOnly;
    if p !in txn.st.store.items {
      return NotFound("Set");
    }
    if p.kind != SET {
      return RcError(host, EntityTypeMismatch);
    }
    var values := Listing(Items(txn.st.store, p));
    assert values[0..] == values;
    var elements := Nil;
    var builtCount := 0;
    for i := 0 to |values|
      invariant Concat(elements, ElementEntries(values[i..])) == ElementEntries(values)
      invariant builtCount == Length(elements)
    {
      ElementEntry(values, i);
      match DecodeValue(values[i])
      case NotDecoded(_) =>
      case Decoded(text, ty) =>
        var item := ValueOnly(text, ty);
        OneMoreEntry(elements, Cons([], item, Nil), ElementEntries(values[i + 1..]));
        elements := Concat(elements, Cons([], item, Nil));
        builtCount := builtCount + 1;
    }
    ElementEntry(values, |values|);
    OneMoreEntry(elements, Nil, Nil);
    resp := Response(OK, JObject(Field("ptr", JString(PtrToHex(p)),
                                       Field("elements", JArray(elements), Field("count", Number(builtCount), Nil)))));
  }

  /** handle_obj_member_get. */
  method ObjMemberGet(host: Host, txn: Txn, p: Ptr, name: Bytes, maxBytes: nat) returns (resp: Response)
    requires txn.open
    ensures resp == ReadMember(host, txn.st.store, p, name, maxBytes)
  {
    if p !in txn.st.store.items {
      return NotFound("Object");
    }
    var r, _, _ := txn.GetCapped(p, name, maxBytes);
    if r == NotGot(MemberNotFound) {
      return Error(NOT_FOUND, "Member not found");
    }
    if r == NotGot(ValueTooLarge) {
      return ValueTooLargeBody(if maxBytes > 0 then maxBytes else DEFAULT_MAX_VALUE_BYTES);
    }
    if r.NotGot? {
      return RcError(host, r.rc);
    }
    match DecodeValue(r.bytes)
    case NotDecoded(rc) => resp := RcError(host, rc);
    case Decoded(text, ty) => resp := Response(OK, ValueEntry("member", name, text, ty));
  }

  /** handle_obj_query. */
  method ObjQuery(host: Host, txn: Txn, path: Bytes, limits: Q.Options) returns (resp: Response)
    requires txn.open
    ensures resp == ReadQuery(host, txn.st.store, path, limits)
  {
    hide Q.Query, Q.WithDefaults, QueryErrorBody, ValueEntry, Ascii;
    Q.DefaultsOnce(txn.st.store, path, limits);
    var options := Q.WithDefaults(limits);
    var rc, value, ty, error := Q.QueryExecute(txn, path, options);
    if rc != Success {
      return QueryErrorBody(host, rc, error, options.maxValueBytes);
    }
    resp := Response(OK, ValueEntry("path", path, value, ty));
  }

  /** Dispatch of a prepared request. */
  method Execute(host: Host, txn: Txn, limits: Q.Options, r: Request) returns (resp: Response)
    requires txn.open && (Reads(r) || !txn.readonly)
    modifies txn`st
    ensures (txn.st, resp) == Perform(host, old(txn.st), limits, r)
  {
    match r
    case DoObjGet(p) => resp := ObjGet(host, txn, p);
    case DoMemberGet(p, name) => resp := ObjMemberGet(host, txn, p, name, limits.maxValueBytes);
    case DoQuery(path) => resp := ObjQuery(host, txn, path, limits);
    case DoSetGet(p) => resp := SetGet(host, txn, p);
    case DoPtrExist(p) => resp := ReadExist(txn.st.store, p);
    case DoObjCreate => resp := CreateEmpty(host, txn, OBJ);
    case DoSetCreate => resp := CreateEmpty(host, txn, SET);
    case DoObjInit(kv) => resp := ObjInit(host, txn, kv);
    case DoSetInit(item) => resp := SetInit(host, txn, item);
    case DoObjDel(p) => resp := DeleteWhole(host, txn, OBJ, "Object", p);
    case DoSetDel(p) => resp := DeleteWhole(host, txn, SET, "Set", p);
    case DoMemberPut(p, name, value, tag) => resp := ObjMemberPut(host, txn, p, name, value, tag);
    case DoMemberDel(p, name) => resp := ObjMemberDel(host, txn, p, name);
    case DoSetAdd(p, value, tag) => resp := SetAdd(host, txn, p, value, tag);
    case DoSetRemove(p, value, tag) => resp := SetRemove(host, txn, p, value, tag);
  }
}
