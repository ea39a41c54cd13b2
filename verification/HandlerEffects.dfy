/**
 What later requests see of earlier ones, over whole runs: the last write decides, whatever
 batch it was part of, and calls that undo each other.
 */
module HandlerEffects {
  import opened CBytes
  import opened ErrorCodes
  import opened Json
  import opened Platform
  import opened Codec
  import opened Engine
  import opened NestedValue
  import opened Layout
  import opened CompileWalk
  import opened Responses
  import opened Handlers
  import opened Answers
  import opened Outcomes
  import opened HandlerFacts
  import opened Batch
  import opened BatchFacts
  import opened Runs
  import Q = QueryPath

  // -------------------- spots and what is written there --------------------

  /** What one request can write: a member of an object, or an element of a set. */
  datatype Spot = Member(owner: Ptr, name: Bytes) | Element(owner: Ptr, value: Bytes)

  /** The stored value of a member, or the element if it is there. */
  function At(s: Store, spot: Spot): Option<Bytes> {
    match spot
    case Member(p, name) => if name in Members(s, p) then Some(Members(s, p)[name]) else None
    case Element(p, v) => if v in Items(s, p) then Some(v) else None
  }

  predicate SoundSpot(spot: Spot) {
    spot.owner.kind == if spot.Member? then OBJ else SET
  }

  /** What a request leaves at a spot, when it writes there: a value, or nothing. */
  function Written(host: Host, r: Request, spot: Spot): Option<Option<Bytes>> {
    match spot
    case Member(p, name) =>
      (match r
       case DoMemberPut(q, n, value, tag) =>
         if q == p && n == name && Stored(host, value, tag).Encoded? then Some(Some(Stored(host, value, tag).bytes)) else None
       case DoMemberDel(q, n) => if q == p && n == name then Some(None) else None
       case DoObjDel(q) => if q == p then Some(None) else None
       case _ => None)
    case Element(p, v) =>
      match r
      case DoSetAdd(q, value, tag) => if q == p && Stored(host, value, tag) == Encoded(v) then Some(Some(v)) else None
      case DoSetRemove(q, value, tag) => if q == p && Stored(host, value, tag) == Encoded(v) then Some(None) else None
      case DoSetDel(q) => if q == p then Some(None) else None
      case _ => None
  }

  // -------------------- one request --------------------

  lemma InitKeepsIssued(host: Host, st: State, nodes: Nodes, q: Ptr)
    requires Inv(st) && !Unissued(st, q)
    ensures Same(st.store, InitObject(host, st, nodes).0.store, q) && Same(st.store, InitSet(host, st, nodes).0.store, q)
  {
    hide WfStore, Same, FillMembers, FillElements;
    CreateGrows(st, OBJ);
    CreateGrows(st, SET);
    SameSelf(st.store, q);
    var (st1, made) := Create(st, OBJ);
    if made.Some? {
      FillMembersSteps(host, st1, made.value, nodes, 0);
      OlderIsOutside(st1, FillMembers(host, st1, made.value, nodes, 0).0, q);
    }
    var (st2, made2) := Create(st, SET);
    if made2.Some? {
      FillElementsSteps(host, st2, made2.value, nodes, 0, 0);
      OlderIsOutside(st2, FillElements(host, st2, made2.value, nodes, 0, 0).0, q);
    }
  }

  lemma SameAt(s: Store, t: Store, spot: Spot)
    requires Same(s, t, spot.owner)
    ensures At(s, spot) == At(t, spot)
  {
  }

  lemma StaysUnavailable(st: State, st': State, q: Ptr)
    requires Grows(st, st') && !Unissued(st, q)
    ensures !Unissued(st', q)
  {
    StaysIssued(st, st', q);
  }

  lemma PutKeeps(host: Host, st: State, p: Ptr, name: Bytes, value: Bytes, tag: Byte, spot: Spot)
    requires SoundSpot(spot) && Written(host, DoMemberPut(p, name, value, tag), spot).None?
    ensures At(PerformPut(host, st, p, name, value, tag).0.store, spot) == At(st.store, spot)
  {
    hide EncodeValue, Ascii, HttpStatus;
  }

  lemma MemberDelKeeps(host: Host, st: State, p: Ptr, name: Bytes, spot: Spot)
    requires SoundSpot(spot) && Written(host, DoMemberDel(p, name), spot).None?
    ensures At(PerformMemberDel(host, st, p, name).0.store, spot) == At(st.store, spot)
  {
    hide EncodeValue, Ascii, HttpStatus;
  }

  lemma AddKeeps(host: Host, st: State, p: Ptr, value: Bytes, tag: Byte, spot: Spot)
    requires SoundSpot(spot) && Written(host, DoSetAdd(p, value, tag), spot).None?
    ensures At(PerformAdd(host, st, p, value, tag).0.store, spot) == At(st.store, spot)
  {
    hide EncodeValue, Ascii, HttpStatus;
  }

  lemma RemoveKeeps(host: Host, st: State, p: Ptr, value: Bytes, tag: Byte, spot: Spot)
    requires SoundSpot(spot) && Written(host, DoSetRemove(p, value, tag), spot).None?
    ensures At(PerformRemove(host, st, p, value, tag).0.store, spot) == At(st.store, spot)
  {
    hide EncodeValue, Ascii, HttpStatus;
  }

  /** A request leaves every spot it does not write as it was. */
  lemma PerformKeeps(host: Host, st: State, limits: Q.Options, r: Request, spot: Spot)
    requires Inv(st) && SoundSpot(spot) && !Unissued(st, spot.owner) && Written(host, r, spot).None?
    ensures var st' := Perform(host, st, limits, r).0;
            At(st'.store, spot) == At(st.store, spot) && !Unissued(st', spot.owner) && Inv(st')
  {
    hide Inv, Unissued, EncodeValue, InitObject, InitSet, PerformRead, Grows, Same;
    hide PerformPut, PerformMemberDel, PerformAdd, PerformRemove, HttpStatus;
    PerformGrows(host, st, limits, r);
    StaysUnavailable(st, Perform(host, st, limits, r).0, spot.owner);
    GrowsInv(st, Perform(host, st, limits, r).0);
    match r
    case DoObjInit(kv) =>
      InitKeepsIssued(host, st, kv, spot.owner);
      SameAt(st.store, InitObject(host, st, kv).0.store, spot);
    case DoSetInit(item) =>
      InitKeepsIssued(host, st, item, spot.owner);
      SameAt(st.store, InitSet(host, st, item).0.store, spot);
    case DoMemberPut(p, name, value, tag) => PutKeeps(host, st, p, name, value, tag, spot);
    case DoMemberDel(p, name) => MemberDelKeeps(host, st, p, name, spot);
    case DoSetAdd(p, value, tag) => AddKeeps(host, st, p, value, tag, spot);
    case DoSetRemove(p, value, tag) => RemoveKeeps(host, st, p, value, tag, spot);
    case _ =>
  }

  /** A successful request that writes a spot leaves there what it writes. */
  lemma PerformWrites(host: Host, st: State, limits: Q.Options, r: Request, spot: Spot)
    requires Inv(st) && SoundSpot(spot) && Written(host, r, spot).Some? && !IsError(Perform(host, st, limits, r).1)
    ensures var st' := Perform(host, st, limits, r).0;
            At(st'.store, spot) == Written(host, r, spot).value && Inv(st') && !Unissued(st', spot.owner)
  {
    hide Inv, Unissued, EncodeValue, PerformRead, Grows, Ascii;
    PerformGrows(host, st, limits, r);
    GrowsInv(st, Perform(host, st, limits, r).0);
    ExistingIsIssued(st, spot.owner);
    StaysUnavailable(st, Perform(host, st, limits, r).0, spot.owner);
  }

  // -------------------- runs of requests --------------------

  predicate NoneWrites(host: Host, trace: seq<Request>, spot: Spot) {
    forall i :: 0 <= i < |trace| ==> Written(host, trace[i], spot).None?
  }

  lemma {:induction false} ReplayKeeps(host: Host, st: State, limits: Q.Options, trace: seq<Request>, spot: Spot)
    requires Inv(st) && SoundSpot(spot) && !Unissued(st, spot.owner) && NoneWrites(host, trace, spot)
    ensures var st' := Replay(host, st, limits, trace);
            At(st'.store, spot) == At(st.store, spot) && !Unissued(st', spot.owner) && Inv(st')
    decreases |trace|
  {
    hide Inv, Unissued, Perform, At, Written, SoundSpot;
    if trace != [] {
      PerformKeeps(host, st, limits, trace[0], spot);
      ReplayKeeps(host, Perform(host, st, limits, trace[0]).0, limits, trace[1..], spot);
    }
  }

  /** No committed request of the run writes the spot. */
  predicate Untouched(host: Host, st: State, limits: Q.Options, events: seq<Event>, spot: Spot)
    decreases |events|
  {
    events != [] ==>
      && (Commits(host, st, limits, events[0]) ==> NoneWrites(host, Requested(host, st, limits, events[0]), spot))
      && Untouched(host, After(host, st, limits, events[0]), limits, events[1..], spot)
  }

  lemma AfterKeeps(host: Host, st: State, limits: Q.Options, e: Event, spot: Spot)
    requires Inv(st) && SoundSpot(spot) && !Unissued(st, spot.owner)
    requires Commits(host, st, limits, e) ==> NoneWrites(host, Requested(host, st, limits, e), spot)
    ensures var st' := After(host, st, limits, e);
            At(st'.store, spot) == At(st.store, spot) && !Unissued(st', spot.owner) && Inv(st')
  {
    hide Inv, Unissued, At, SoundSpot, NoneWrites, Requested, Commits, After, Grows;
    var start := st.(room := e.room);
    RequestsAreAtomic(host, st, limits, e);
    AfterGrows(host, st, limits, e);
    GrowsInv(st, After(host, st, limits, e));
    StaysUnavailable(st, After(host, st, limits, e), spot.owner);
    if Commits(host, st, limits, e) {
      RoomIsFree(st, start);
      SameUnissued(st, start, spot.owner);
      ReplayKeeps(host, start, limits, Requested(host, st, limits, e), spot);
    }
  }

  lemma SameUnissued(st: State, start: State, q: Ptr)
    requires start == st.(room := start.room)
    ensures Unissued(st, q) <==> Unissued(start, q)
  {
  }

  /** Whatever a run does elsewhere, a spot no committed request writes stays as it was. */
  lemma {:induction false} RunKeeps(host: Host, st: State, limits: Q.Options, events: seq<Event>, spot: Spot)
    requires Inv(st) && SoundSpot(spot) && !Unissued(st, spot.owner) && Untouched(host, st, limits, events, spot)
    ensures At(Run(host, st, limits, events).store, spot) == At(st.store, spot)
    decreases |events|
  {
    hide Inv, Unissued, At, SoundSpot, NoneWrites, Requested, Commits, After;
    if events != [] {
      AfterKeeps(host, st, limits, events[0], spot);
      RunKeeps(host, After(host, st, limits, events[0]), limits, events[1..], spot);
    }
  }

  /**
   The last write decides. When a committed request, alone or anywhere in a batch of any
   nesting, writes a spot, and nothing after it does, in its batch or in the events that
   follow, then the spot holds what it wrote at the end of the run.
   */
  lemma LastWriteDecides(host: Host, st: State, limits: Q.Options, e: Event, events: seq<Event>,
                         before: seq<Request>, r: Request, after: seq<Request>, spot: Spot)
    requires Inv(st) && SoundSpot(spot) && Commits(host, st, limits, e)
    requires Requested(host, st, limits, e) == before + [r] + after
    requires Written(host, r, spot).Some? && NoneWrites(host, after, spot)
    requires Untouched(host, After(host, st, limits, e), limits, events, spot)
    ensures var s := Run(host, st, limits, [e] + events).store;
            At(s, spot) == Written(host, r, spot).value && WfStore(s)
  {
    hide *;
    var start := st.(room := e.room);
    RequestsAreAtomic(host, st, limits, e);
    RoomIsFree(st, start);
    ReplayAppend(host, start, limits, before + [r], after);
    ReplayAppend(host, start, limits, before, [r]);
    var st1 := Replay(host, start, limits, before);
    ReplayGrows(host, start, limits, before);
    GrowsInv(start, st1);
    ReplayOne(host, st1, limits, r);
    PerformWrites(host, st1, limits, r, spot);
    ReplayKeeps(host, Perform(host, st1, limits, r).0, limits, after, spot);
    RunKeeps(host, After(host, st, limits, e), limits, events, spot);
    RunStep(host, st, limits, e, events);
    var last := Run(host, After(host, st, limits, e), limits, events);
    RunKeepsInvariant(host, After(host, st, limits, e), limits, events);
    GrowsInv(After(host, st, limits, e), last);
    InvFacts(last);
  }

  lemma RunStep(host: Host, st: State, limits: Q.Options, e: Event, events: seq<Event>)
    ensures Run(host, st, limits, [e] + events) == Run(host, After(host, st, limits, e), limits, events)
  {
    hide After;
    assert ([e] + events)[1..] == events;
  }

  // -------------------- what readers answer --------------------

  /** GET of a member answers a typed value as it was written, if its stored form is within the limit. */
  predicate AnswersTyped(host: Host, r: Response, name: Bytes, value: Bytes, tag: Byte, limit: nat) {
    var size := if tag == 0 then 1 + |value| else if tag == 1 then 18 else 1;
    var cap := if limit == 0 then 8192 else limit;
    if size > cap then Refuses(r, 413, "Value too large") && TellsNumber(r.body, "limit", cap)
    else
      && r.status == 200 && TellsText(r.body, "member", name)
      && (tag == 0 ==> TellsValue(r.body, value, RawType))
      && (tag == 2 ==> TellsValue(r.body, Ascii("null"), NullType))
      && (tag == 1 ==> PtrFromHex(host, value).Some? &&
                       var p := PtrFromHex(host, value).value;
                       TellsValue(r.body, PtrToHex(p), if p.kind == 1 then ObjectType else SetType))
  }

  lemma {:induction false} StoredReadsBack(host: Host, st: State, limits: Q.Options, p: Ptr, name: Bytes, value: Bytes, tag: Byte)
    requires WfStore(st.store) && p.kind == OBJ && Storable(host, value, tag)
    requires Stored(host, value, tag).Encoded? && At(st.store, Member(p, name)) == Some(Stored(host, value, tag).bytes)
    ensures AnswersTyped(host, Perform(host, st, limits, DoMemberGet(p, name)).1, name, value, tag, limits.maxValueBytes)
  {
    hide Perform, DecodeValue, EncodeValue, Ascii, WfStore, TellsValue, TellsText, TellsNumber, Refuses, PtrToHex, PtrFromHex;
    WfMembers(st.store, p);
    StoredWhen(host, value, tag);
    EncodeThenDecode(host, value, tag, EncodedSize(value));
    MemberAnswers(host, st, limits, p, name);
  }

  /** GET answers the last value put, through any later requests that leave the member alone. */
  lemma {:induction false} LastPutIsRead(host: Host, st: State, limits: Q.Options, e: Event, events: seq<Event>,
                                         before: seq<Request>, after: seq<Request>, p: Ptr, name: Bytes, value: Bytes, tag: Byte)
    requires Inv(st) && Commits(host, st, limits, e)
    requires Requested(host, st, limits, e) == before + [DoMemberPut(p, name, value, tag)] + after
    requires NoneWrites(host, after, Member(p, name))
    requires Untouched(host, After(host, st, limits, e), limits, events, Member(p, name))
    ensures var last := Run(host, st, limits, [e] + events);
            AnswersTyped(host, Perform(host, last, limits, DoMemberGet(p, name)).1, name, value, tag, limits.maxValueBytes)
  {
    hide *;
    var st1 := WasAccepted(host, st, limits, e, before, DoMemberPut(p, name, value, tag), after);
    PutSucceedsWhen(host, st1, limits, p, name, value, tag);
    StoredWhen(host, value, tag);
    PutWrites(host, p, name, value, tag);
    LastWriteDecides(host, st, limits, e, events, before, DoMemberPut(p, name, value, tag), after, Member(p, name));
    StoredReadsBack(host, Run(host, st, limits, [e] + events), limits, p, name, value, tag);
  }

  /** A member last deleted is not found, until it is put again. */
  lemma {:induction false} LastDeleteIsNotFound(host: Host, st: State, limits: Q.Options, e: Event, events: seq<Event>,
                                                before: seq<Request>, after: seq<Request>, p: Ptr, name: Bytes)
    requires Inv(st) && Commits(host, st, limits, e)
    requires Requested(host, st, limits, e) == before + [DoMemberDel(p, name)] + after
    requires NoneWrites(host, after, Member(p, name)) && Untouched(host, After(host, st, limits, e), limits, events, Member(p, name))
    ensures var last := Run(host, st, limits, [e] + events);
            var r := Perform(host, last, limits, DoMemberGet(p, name)).1;
            if Exists(last.store, p) then Refuses(r, 404, "Member not found") else Refuses(r, 404, "Object not found")
  {
    hide *;
    var r := DoMemberDel(p, name);
    var st1 := WasAccepted(host, st, limits, e, before, r, after);
    MemberDelSucceedsWhen(host, st1, limits, p, name);
    DeleteWrites(host, p, name);
    LastWriteDecides(host, st, limits, e, events, before, r, after, Member(p, name));
    var last := Run(host, st, limits, [e] + events);
    AtMember(last.store, p, name);
    if Exists(last.store, p) { MemberAnswers(host, last, limits, p, name); } else { AbsentIsNotFound(host, last, limits, p, name); }
  }

  lemma DeleteWrites(host: Host, p: Ptr, name: Bytes)
    ensures Written(host, DoMemberDel(p, name), Member(p, name)) == Some(None)
    ensures SoundSpot(Member(p, name)) <==> p.kind == OBJ
  {
  }

  lemma AtMember(s: Store, p: Ptr, name: Bytes)
    ensures At(s, Member(p, name)) == if name in Members(s, p) then Some(Members(s, p)[name]) else None
  {
  }

  lemma PutWrites(host: Host, p: Ptr, name: Bytes, value: Bytes, tag: Byte)
    requires Stored(host, value, tag).Encoded?
    ensures Written(host, DoMemberPut(p, name, value, tag), Member(p, name)) == Some(Some(Stored(host, value, tag).bytes))
    ensures SoundSpot(Member(p, name)) <==> p.kind == OBJ
  {
  }

  /** A request among those of a committed event succeeded when it was its turn. */
  lemma WasAccepted(host: Host, st: State, limits: Q.Options, e: Event, before: seq<Request>, r: Request, after: seq<Request>)
    returns (st1: State)
    requires Commits(host, st, limits, e) && Requested(host, st, limits, e) == before + [r] + after
    ensures !IsError(Perform(host, st1, limits, r).1)
  {
    hide *;
    var start := st.(room := e.room);
    RequestsAreAtomic(host, st, limits, e);
    ReplayAppend(host, start, limits, before + [r], after);
    ReplayAppend(host, start, limits, before, [r]);
    st1 := Replay(host, start, limits, before);
    ReplayOne(host, st1, limits, r);
  }

  lemma AddWrites(host: Host, p: Ptr, value: Bytes, tag: Byte)
    requires Stored(host, value, tag).Encoded?
    ensures var v := Stored(host, value, tag).bytes;
            && Written(host, DoSetAdd(p, value, tag), Element(p, v)) == Some(Some(v))
            && Written(host, DoSetRemove(p, value, tag), Element(p, v)) == Some(None)
  {
  }

  /** An element last added is there at the end of every run, and adding it again is a conflict. */
  lemma {:induction false} LastAddConflicts(host: Host, st: State, limits: Q.Options, e: Event, events: seq<Event>,
                                            before: seq<Request>, after: seq<Request>, p: Ptr, value: Bytes, tag: Byte, v: Bytes)
    requires Inv(st) && Commits(host, st, limits, e) && Stored(host, value, tag) == Encoded(v)
    requires Requested(host, st, limits, e) == before + [DoSetAdd(p, value, tag)] + after
    requires NoneWrites(host, after, Element(p, v)) && Untouched(host, After(host, st, limits, e), limits, events, Element(p, v))
    ensures var last := Run(host, st, limits, [e] + events);
            var (again, r) := Perform(host, last, limits, DoSetAdd(p, value, tag));
            v in Items(last.store, p) && again == last && Refuses(r, 409, "Element already exists")
  {
    hide *;
    var r := DoSetAdd(p, value, tag);
    var st1 := WasAccepted(host, st, limits, e, before, r, after);
    AddSucceedsWhen(host, st1, limits, p, value, tag);
    AddWrites(host, p, value, tag);
    ElementSpot(p, v);
    LastWriteDecides(host, st, limits, e, events, before, r, after, Element(p, v));
    var last := Run(host, st, limits, [e] + events);
    AtElement(last.store, p, v);
    WfMembers(last.store, p);
    AddSucceedsWhen(host, last, limits, p, value, tag);
    NoErrorSucceeds(Perform(host, last, limits, r).1);
  }

  /** An element last removed is not there, and removing it again is refused. */
  lemma {:induction false} LastRemoveIsGone(host: Host, st: State, limits: Q.Options, e: Event, events: seq<Event>,
                                            before: seq<Request>, after: seq<Request>, p: Ptr, value: Bytes, tag: Byte, v: Bytes)
    requires Inv(st) && Commits(host, st, limits, e) && Stored(host, value, tag) == Encoded(v)
    requires Requested(host, st, limits, e) == before + [DoSetRemove(p, value, tag)] + after
    requires NoneWrites(host, after, Element(p, v)) && Untouched(host, After(host, st, limits, e), limits, events, Element(p, v))
    ensures var last := Run(host, st, limits, [e] + events);
            var (again, r) := Perform(host, last, limits, DoSetRemove(p, value, tag));
            v !in Items(last.store, p) && again == last && IsError(r)
  {
    hide *;
    var r := DoSetRemove(p, value, tag);
    var st1 := WasAccepted(host, st, limits, e, before, r, after);
    RemoveSucceedsWhen(host, st1, limits, p, value, tag);
    AddWrites(host, p, value, tag);
    ElementSpot(p, v);
    LastWriteDecides(host, st, limits, e, events, before, r, after, Element(p, v));
    var last := Run(host, st, limits, [e] + events);
    AtElement(last.store, p, v);
    RemoveSucceedsWhen(host, last, limits, p, value, tag);
  }

  lemma ElementSpot(p: Ptr, v: Bytes)
    ensures SoundSpot(Element(p, v)) <==> p.kind == SET
  {
  }

  lemma AtElement(s: Store, p: Ptr, v: Bytes)
    ensures At(s, Element(p, v)) == if v in Items(s, p) then Some(v) else None
  {
  }

  // -------------------- calls that undo each other --------------------

  /** The two stores read the same everywhere. */
  ghost predicate SameStore(s: Store, t: Store) {
    forall q :: Same(s, t, q) && (Exists(s, q) <==> Exists(t, q))
  }

  /** Putting a new member and deleting it again leaves the store as it was. */
  lemma PutThenDelete(host: Host, st: State, p: Ptr, name: Bytes, value: Bytes, tag: Byte)
    requires WfStore(st.store) && name !in Items(st.store, p)
    requires !IsError(PerformPut(host, st, p, name, value, tag).1)
    ensures var (st', response) := PerformMemberDel(host, PerformPut(host, st, p, name, value, tag).0, p, name);
            !IsError(response) && SameStore(st'.store, st.store)
  {
    hide EncodeValue, Ascii, WfStore, MemberDelete, SameStore;
    MemberPutUndone(st, p, name, Stored(host, value, tag).bytes);
  }

  lemma MemberPutUndone(st: State, p: Ptr, name: Bytes, v: Bytes)
    requires WfStore(st.store) && Exists(st.store, p) && name !in Items(st.store, p)
    requires MemberPut(st, p, name, v).1 == Success
    ensures var st1 := MemberPut(st, p, name, v).0;
            && Exists(st1.store, p) && MemberDelete(st1, p, name).1 == Success
            && SameStore(MemberDelete(st1, p, name).0.store, st.store)
  {
    hide WfEntity;
    WfMembers(st.store, p);
    var st1 := MemberPut(st, p, name, v).0;
    assert Items(st1.store, p) - {name} == Items(st.store, p);
    assert Members(st1.store, p) - {name} == Members(st.store, p);
  }

  /** Adding an element and removing it again leaves the store as it was. */
  lemma AddThenRemove(host: Host, st: State, p: Ptr, value: Bytes, tag: Byte)
    requires WfStore(st.store) && !IsError(PerformAdd(host, st, p, value, tag).1)
    ensures var (st', response) := PerformRemove(host, PerformAdd(host, st, p, value, tag).0, p, value, tag);
            !IsError(response) && SameStore(st'.store, st.store)
  {
    hide EncodeValue, Ascii, WfEntity;
    WfMembers(st.store, p);
    var v := Stored(host, value, tag).bytes;
    var st1 := PerformAdd(host, st, p, value, tag).0;
    assert Items(st1.store, p) - {v} == Items(st.store, p);
  }

  // -------------------- pointers that name nothing --------------------

  /** Every request that needs the entity is refused, and changes nothing. */
  predicate RefusesAll(host: Host, st: State, limits: Q.Options, p: Ptr, name: Bytes, value: Bytes, tag: Byte) {
    && Refuses(Perform(host, st, limits, DoObjGet(p)).1, 404, "Object not found")
    && Refuses(Perform(host, st, limits, DoSetGet(p)).1, 404, "Set not found")
    && Refuses(Perform(host, st, limits, DoMemberGet(p, name)).1, 404, "Object not found")
    && Perform(host, st, limits, DoMemberPut(p, name, value, tag)).0 == st
    && Refuses(Perform(host, st, limits, DoMemberPut(p, name, value, tag)).1, 404, "Object not found")
    && Perform(host, st, limits, DoSetAdd(p, value, tag)).0 == st
    && Refuses(Perform(host, st, limits, DoSetAdd(p, value, tag)).1, 404, "Set not found")
  }

  lemma RefusedWhenAbsent(host: Host, st: State, limits: Q.Options, p: Ptr, name: Bytes, value: Bytes, tag: Byte)
    requires !Exists(st.store, p)
    ensures RefusesAll(host, st, limits, p, name, value, tag)
  {
    hide Perform, Refuses, Succeeds;
    AbsentIsNotFound(host, st, limits, p, name);
    PutSucceedsWhen(host, st, limits, p, name, value, tag);
    AddSucceedsWhen(host, st, limits, p, value, tag);
  }

  /** An issued pointer that names nothing stays so, through later requests of its batch and through later events. */
  lemma StaysAbsent(host: Host, st: State, limits: Q.Options, later: seq<Request>, events: seq<Event>, q: Ptr)
    requires Inv(st) && !Exists(st.store, q) && !Unissued(st, q)
    ensures !Exists(Replay(host, st, limits, later).store, q)
    ensures !Exists(Run(host, Replay(host, st, limits, later), limits, events).store, q)
  {
    hide Inv, Unissued, Replay, Run, Exists;
    var st1 := Replay(host, st, limits, later);
    if Exists(st1.store, q) { BornInReplay(host, st, limits, later, q); }
    ReplayGrows(host, st, limits, later);
    GrowsInv(st, st1);
    StaysUnavailable(st, st1, q);
    GoneForever(host, st1, limits, events, q);
  }

  /** The refusals, after later requests of the same batch and after any events. */
  predicate NeverAgain(host: Host, st: State, limits: Q.Options, later: seq<Request>, events: seq<Event>, p: Ptr,
                       name: Bytes, value: Bytes, tag: Byte) {
    && RefusesAll(host, Replay(host, st, limits, later), limits, p, name, value, tag)
    && RefusesAll(host, Run(host, Replay(host, st, limits, later), limits, events), limits, p, name, value, tag)
  }

  lemma AbsentIsRefused(host: Host, st: State, limits: Q.Options, later: seq<Request>, events: seq<Event>, p: Ptr,
                        name: Bytes, value: Bytes, tag: Byte)
    requires Inv(st) && !Exists(st.store, p) && !Unissued(st, p)
    ensures NeverAgain(host, st, limits, later, events, p, name, value, tag)
  {
    hide Inv, Unissued, Replay, Run, Exists, RefusesAll;
    StaysAbsent(host, st, limits, later, events, p);
    RefusedWhenAbsent(host, Replay(host, st, limits, later), limits, p, name, value, tag);
    RefusedWhenAbsent(host, Run(host, Replay(host, st, limits, later), limits, events), limits, p, name, value, tag);
  }

  /**
   A pointer handed out by POST /obj or POST /set names nothing, and never will: from then
   on, in the same batch and in every later run, reads, puts and adds are refused.
   */
  lemma CreatedNeverExists(host: Host, st: State, kind: Byte, limits: Q.Options, later: seq<Request>, events: seq<Event>,
                           name: Bytes, value: Bytes, tag: Byte)
    requires Inv(st) && !IsError(PerformCreate(host, st, kind).1)
    ensures var (st', response) := PerformCreate(host, st, kind);
            var p := Ptr(kind, st.ids[st.next]);
            response == PtrBody(p) && NeverAgain(host, st', limits, later, events, p, name, value, tag)
  {
    hide Inv, Unissued, NeverAgain;
    CreateGrows(st, kind);
    CreateKeepsInv(st, kind);
    var st' := PerformCreate(host, st, kind).0;
    GrowsInv(st, st');
    AbsentIsRefused(host, st', limits, later, events, Ptr(kind, st.ids[st.next]), name, value, tag);
  }

  /** So it is with a deleted entity. */
  lemma DeletedStaysDeleted(host: Host, st: State, kind: Byte, what: string, p: Ptr, limits: Q.Options,
                            later: seq<Request>, events: seq<Event>, name: Bytes, value: Bytes, tag: Byte)
    requires Inv(st) && !IsError(PerformDelete(host, st, kind, what, p).1)
    ensures NeverAgain(host, PerformDelete(host, st, kind, what, p).0, limits, later, events, p, name, value, tag)
  {
    hide Inv, Unissued, NeverAgain, Ascii;
    var st' := PerformDelete(host, st, kind, what, p).0;
    DeleteGrows(host, st, kind, p);
    GrowsInv(st, st');
    ExistingIsIssued(st, p);
    StaysUnavailable(st, st', p);
    AbsentIsRefused(host, st', limits, later, events, p, name, value, tag);
  }
}
