/** What the handlers promise about the store and about the counts they return. */
module HandlerFacts {
  import opened CBytes
  import opened ErrorCodes
  import opened Json
  import opened Platform
  import opened Codec
  import opened Engine
  import opened NestedValue
  import opened Layout
  import opened ReadBack
  import opened BuildFailure
  import opened CompileWalk
  import opened Responses
  import opened Answers
  import opened Handlers
  import Q = QueryPath

  // -------------------- every request keeps the invariant --------------------

  /** The store stays well formed and the generator only moves on. */
  ghost predicate Grows(st: State, st': State) {
    Inv(st') && st'.ids == st.ids && st.next <= st'.next <= |st.ids|
  }

  lemma GrowsInv(st: State, st': State)
    requires Grows(st, st')
    ensures Inv(st')
  {
  }

  lemma GrowsFromSteps(st: State, st': State, own: set<Ptr>)
    requires Steps(st, st', own)
    ensures Grows(st, st')
  {
  }

  lemma CreateGrows(st: State, kind: Byte)
    requires Inv(st)
    ensures var (st', made) := Create(st, kind);
            Grows(st, st') && st'.store == st.store &&
            (made.Some? ==> made.value == Ptr(kind, IdAt(st.ids, st.next)) && Unissued(st, made.value)
                            && !Unissued(st', made.value) && st' == st.(next := st.next + 1) && st.next < |st.ids|)
  {
    CreateKeepsInv(st, kind);
  }

  lemma InitGrows(host: Host, st: State, nodes: Nodes)
    requires Inv(st)
    ensures Grows(st, InitObject(host, st, nodes).0) && Grows(st, InitSet(host, st, nodes).0)
  {
    CreateGrows(st, OBJ);
    CreateGrows(st, SET);
    var (st1, made) := Create(st, OBJ);
    if made.Some? {
      FillMembersSteps(host, st1, made.value, nodes, 0);
      GrowsFromSteps(st1, FillMembers(host, st1, made.value, nodes, 0).0, {made.value});
    }
    var (st2, made2) := Create(st, SET);
    if made2.Some? {
      FillElementsSteps(host, st2, made2.value, nodes, 0, 0);
      GrowsFromSteps(st2, FillElements(host, st2, made2.value, nodes, 0, 0).0, {made2.value});
    }
  }

  /** An entity that exists is not one the generator may still hand out. */
  lemma ExistingIsIssued(st: State, p: Ptr)
    requires Inv(st) && Exists(st.store, p)
    ensures !Unissued(st, p)
  {
  }

  lemma MemberWritesGrow(host: Host, st: State, p: Ptr, name: Bytes, value: Bytes, tag: Byte)
    requires Inv(st)
    ensures Grows(st, PerformPut(host, st, p, name, value, tag).0)
    ensures Grows(st, PerformMemberDel(host, st, p, name).0)
  {
    hide Inv, Grows, EncodeValue, MemberPut, MemberDelete;
    GrowsSelf(st);
    var e := EncodeValue(host, value, tag, EncodedSize(value));
    if Exists(st.store, p) && e.Encoded? { PutGrows(st, p, name, e.bytes); }
    MemberDeleteGrows(st, p, name);
  }

  lemma PutGrows(st: State, p: Ptr, name: Bytes, v: Bytes)
    requires Inv(st) && Exists(st.store, p) && WfValue(v)
    ensures Grows(st, MemberPut(st, p, name, v).0)
  {
    hide WfStore, WfValue;
    ExistingIsIssued(st, p);
    PutKeepsInv(st, p, name, v);
  }

  lemma MemberDeleteGrows(st: State, p: Ptr, name: Bytes)
    requires Inv(st)
    ensures Grows(st, MemberDelete(st, p, name).0)
  {
    hide WfStore;
    MemberDeleteKeepsInv(st, p, name);
  }

  lemma ElementWritesGrow(host: Host, st: State, p: Ptr, value: Bytes, tag: Byte)
    requires Inv(st)
    ensures Grows(st, PerformAdd(host, st, p, value, tag).0)
    ensures Grows(st, PerformRemove(host, st, p, value, tag).0)
  {
    if Exists(st.store, p) {
      ExistingIsIssued(st, p);
      var e := EncodeValue(host, value, tag, EncodedSize(value));
      if e.Encoded? {
        AddKeepsInv(st, p, e.bytes);
        SetRemoveKeepsInv(st, p, e.bytes);
      }
    }
  }

  /** Every request keeps the store well formed, whether it succeeds or fails half-way. */
  lemma PerformGrows(host: Host, st: State, limits: Q.Options, r: Request)
    requires Inv(st)
    ensures Grows(st, Perform(host, st, limits, r).0)
  {
    hide Inv, Grows, PerformPut, PerformMemberDel, PerformAdd, PerformRemove, InitObject, InitSet, Create, Delete;
    match r
    case DoObjInit(kv) => InitGrows(host, st, kv);
    case DoSetInit(item) => InitGrows(host, st, item);
    case DoObjCreate => CreateGrows(st, OBJ);
    case DoSetCreate => CreateGrows(st, SET);
    case DoObjDel(p) => DeleteGrows(host, st, OBJ, p);
    case DoSetDel(p) => DeleteGrows(host, st, SET, p);
    case DoMemberPut(p, name, value, tag) => MemberWritesGrow(host, st, p, name, value, tag);
    case DoMemberDel(p, name) => MemberWritesGrow(host, st, p, name, [], TAG_NULL);
    case DoSetAdd(p, value, tag) => ElementWritesGrow(host, st, p, value, tag);
    case DoSetRemove(p, value, tag) => ElementWritesGrow(host, st, p, value, tag);
    case _ => GrowsSelf(st);
  }

  lemma GrowsSelf(st: State)
    requires Inv(st)
    ensures Grows(st, st)
  {
  }

  lemma DeleteGrows(host: Host, st: State, kind: Byte, p: Ptr)
    requires Inv(st)
    ensures Grows(st, Delete(st, kind, p).0) && Grows(st, st)
  {
    DeleteKeepsInv(st, kind, p);
  }

  // -------------------- which requests bring entities into existence --------------------

  lemma SteppedExistence(st: State, st': State, own: set<Ptr>, q: Ptr)
    requires Inv(st) && Steps(st, st', own) && q !in own
    ensures Exists(st'.store, q) ==> Exists(st.store, q) || Unissued(st, q)
  {
    if !IssuedIn(st.ids, st.next, st'.next, q) {
      assert Same(st.store, st'.store, q);
      WfMembers(st.store, q);
      WfMembers(st'.store, q);
    }
  }

  lemma InitAddsOnlyNew(host: Host, st: State, nodes: Nodes, q: Ptr)
    requires Inv(st) && !Exists(st.store, q)
    ensures Exists(InitObject(host, st, nodes).0.store, q) || Exists(InitSet(host, st, nodes).0.store, q) ==>
              Unissued(st, q) && nodes.Cons?
  {
    CreateGrows(st, OBJ);
    CreateGrows(st, SET);
    var (st1, made) := Create(st, OBJ);
    if made.Some? && q != made.value {
      FillMembersSteps(host, st1, made.value, nodes, 0);
      SteppedExistence(st1, FillMembers(host, st1, made.value, nodes, 0).0, {made.value}, q);
    }
    var (st2, made2) := Create(st, SET);
    if made2.Some? && q != made2.value {
      FillElementsSteps(host, st2, made2.value, nodes, 0, 0);
      SteppedExistence(st2, FillElements(host, st2, made2.value, nodes, 0, 0).0, {made2.value}, q);
    }
  }

  /** An entity starts to exist only through a non-empty init, under a pointer never handed out before. */
  lemma OnlyInitBringsIntoExistence(host: Host, st: State, limits: Q.Options, r: Request, q: Ptr)
    requires Inv(st) && !Exists(st.store, q) && Exists(Perform(host, st, limits, r).0.store, q)
    ensures Unissued(st, q)
    ensures (r.DoObjInit? && r.kv.Cons?) || (r.DoSetInit? && r.item.Cons?)
  {
    hide Inv, Unissued, EncodeValue, InitObject, InitSet, PerformRead;
    match r
    case DoObjInit(kv) => InitAddsOnlyNew(host, st, kv, q);
    case DoSetInit(item) => InitAddsOnlyNew(host, st, item, q);
    case _ =>
  }

  // -------------------- what the responses count --------------------

  lemma {:induction false} KeysAtMostLength(kv: Nodes)
    ensures |Keys(kv)| <= Length(kv)
    ensures |Keys(kv)| == Length(kv) <==> DistinctKeys(kv)
  {
    if kv.Cons? {
      KeysAtMostLength(kv.next);
      OneMore(kv.key, Keys(kv.next));
    }
  }

  /**
   The documentation says `member_count` is the number of members the root has; the code
   counts pairs, so that is true exactly when no key repeats.
   */
  lemma MemberCountIsExactForDistinctKeys(host: Host, st: State, kv: Nodes)
    requires Inv(st) && InitSucceeds(host, st, kv)
    ensures var (st', made, _) := InitObject(host, st, kv);
            && PerformObjInit(host, st, kv).1 == CountedPtrBody(made.value, "member_count", Length(kv))
            && TellsNumber(PerformObjInit(host, st, kv).1.body, "member_count", Length(kv))
            && (Length(kv) == |Items(st'.store, made.value)| <==> DistinctKeys(kv))
  {
    hide TellsNumber, PtrToHex;
    CountedPtrTells(InitObject(host, st, kv).1.value, "member_count", Length(kv));
    InitLayout(host, st, kv);
    KeysAtMostLength(kv);
  }

  predicate SetInitSucceeds(host: Host, st: State, item: Nodes) {
    var (_, made, failed) := InitSet(host, st, item);
    made.Some? && failed.None?
  }

  /** A set init leaves exactly the body's graph under the next free identifier. */
  lemma SetLayout(host: Host, st: State, item: Nodes)
    requires Inv(st) && SetInitSucceeds(host, st, item)
    ensures var (st', made, _) := InitSet(host, st, item);
            && made.value == Ptr(SET, IdAt(st.ids, st.next))
            && Inv(st') && st'.ids == st.ids && st'.next == st.next + Containers(JArray(item)) <= |st.ids|
            && Holds(st'.store, st.ids, st.next, JArray(item))
  {
    hide *;
    SetParts(host, st, item);
    var st1 := st.(next := st.next + 1);
    var p := Ptr(SET, IdAt(st.ids, st.next));
    FillElementsSteps(host, st1, p, item, 0, 0);
    StepsParts(st1, FillElements(host, st1, p, item, 0, 0).0, p);
    FillElementsLayout(host, st1, p, item, 0, 0);
    OneNode(FillElements(host, st1, p, item, 0, 0).0.store, st.ids, st.next, JArray(item));
  }

  lemma SetParts(host: Host, st: State, item: Nodes)
    requires Inv(st) && SetInitSucceeds(host, st, item)
    ensures var st1 := st.(next := st.next + 1);
            var p := Ptr(SET, IdAt(st.ids, st.next));
            && Inv(st1) && !Unissued(st1, p) && Items(st1.store, p) == {} && IsContainer(JArray(item))
            && FillElements(host, st1, p, item, 0, 0).1.None?
            && InitSet(host, st, item) == (FillElements(host, st1, p, item, 0, 0).0, Some(p), None)
            && KindOf(JArray(item)) == SET
  {
    CreateKeepsInv(st, SET);
    NothingYet(st.store, Create(st, SET).1.value);
  }

  /** The element count of a non-empty set init: its containers plus its distinct scalars. */
  lemma SetInitCountIsExact(host: Host, st: State, item: Nodes)
    requires Inv(st) && SetInitSucceeds(host, st, item) && item.Cons?
    ensures var (st', made, _) := InitSet(host, st, item);
            && made.value == Ptr(SET, IdAt(st.ids, st.next))
            && Holds(st'.store, st.ids, st.next, JArray(item))
            && PerformSetInit(host, st, item) ==
                 (st', CountedPtrBody(made.value, "element_count", ContainerElements(item) + |LeafEncodings(item)|))
  {
    hide *;
    SetLayout(host, st, item);
    var (st', made, _) := InitSet(host, st, item);
    OneNode(st'.store, st.ids, st.next, JArray(item));
    Siblings(st'.store, st.ids, st.next + 1, item);
    InvDistinct(st);
    ElementCount(st.ids, st.next + 1, item);
    assert EncAt(st.ids, st.next + 1, item.value) in ElementSet(st.ids, st.next + 1, item);
    SetAnswer(host, st, item);
  }

  lemma InvDistinct(st: State)
    requires Inv(st)
    ensures DistinctIds(st.ids)
  {
  }

  lemma SetAnswer(host: Host, st: State, item: Nodes)
    requires SetInitSucceeds(host, st, item)
    ensures var (st', made, _) := InitSet(host, st, item);
            var n := |Items(st'.store, made.value)|;
            n != 0 ==> PerformSetInit(host, st, item) == (st', CountedPtrBody(made.value, "element_count", n))
    ensures IsContainer(JArray(item)) && KindOf(JArray(item)) == SET
  {
    hide FillElements, CountedPtrBody, InitMessage, Ascii;
  }

  /** The entry at position i is the i-th name's, with its value decoded. */
  predicate ShowsMember(s: Store, p: Ptr, name: Bytes, shown: Json) {
    name in Members(s, p) &&
    var d := DecodeValue(Members(s, p)[name]);
    d.Decoded? && TellsText(shown, "name", name) && TellsValue(shown, d.text, d.ty)
  }

  lemma {:induction false} EveryEntryShown(s: Store, p: Ptr, names: seq<Bytes>)
    requires WfStore(s) && p.kind == OBJ && forall n | n in names :: n in Members(s, p)
    ensures var list := MemberEntries(Entries(s, p, names));
            && Length(list) == |names|
            && forall i :: 0 <= i < |names| ==> ShowsMember(s, p, names[i], Nth(list, i).value)
  {
    hide WfStore, ShowsMember, DecodeValue, Members, ValueEntry;
    if names != [] {
      EveryEntryShown(s, p, names[1..]);
      FirstEntryShown(s, p, names);
      var list, rest := MemberEntries(Entries(s, p, names)), MemberEntries(Entries(s, p, names[1..]));
      forall i | 0 <= i < |names| ensures ShowsMember(s, p, names[i], Nth(list, i).value) {
        if i > 0 { assert names[i] == names[1..][i - 1] && Nth(list, i) == Nth(rest, i - 1); }
      }
    }
  }

  lemma FirstEntryShown(s: Store, p: Ptr, names: seq<Bytes>)
    requires WfStore(s) && p.kind == OBJ && names != [] && names[0] in Members(s, p)
    ensures var list := MemberEntries(Entries(s, p, names));
            && list.Cons? && list.next == MemberEntries(Entries(s, p, names[1..]))
            && ShowsMember(s, p, names[0], list.value)
  {
    hide WfStore, DecodeValue, ValueEntry, TellsText, TellsValue, Ascii;
    MemberDecodes(s, p, names[0]);
    var d := DecodeValue(Members(s, p)[names[0]]);
    EntryTells("name", names[0], d.text, d.ty);
    assert Entries(s, p, names)[1..] == Entries(s, p, names[1..]);
  }

  lemma MemberDecodes(s: Store, p: Ptr, n: Bytes)
    requires WfStore(s) && p.kind == OBJ && n in Members(s, p)
    ensures DecodeValue(Members(s, p)[n]).Decoded? && |n| <= MAX_NAME_LEN
  {
    WfMembers(s, p);
    assert WfEntity(p, s.items[p], Members(s, p));
    assert n in Items(s, p);
  }

  /** GET of an object shows every member once, in byte order, and counts them: no entry is skipped. */
  lemma ObjGetIsComplete(host: Host, st: State, limits: Q.Options, p: Ptr)
    requires WfStore(st.store) && Exists(st.store, p) && p.kind == OBJ
    ensures var r := Perform(host, st, limits, DoObjGet(p)).1;
            var items := Items(st.store, p);
            && r.status == 200 && TellsText(r.body, "ptr", PtrToHex(p)) && TellsNumber(r.body, "count", |items|)
            && exists list :: Tells(r.body, "members", JArray(list)) && Length(list) == |items|
                              && forall i :: 0 <= i < |items| ==> ShowsMember(st.store, p, Listing(items)[i], Nth(list, i).value)
  {
    hide WfStore, ShowsMember, EntityBody, MemberEntries, Entries, Members, Tells, TellsText, TellsNumber, PtrToHex;
    var names := Listing(Items(st.store, p));
    WfMembers(st.store, p);
    EveryEntryShown(st.store, p, names);
    var list := MemberEntries(Entries(st.store, p, names));
    EntityTells(p, "members", list);
  }

  predicate ShowsElement(value: Bytes, shown: Json) {
    var d := DecodeValue(value);
    d.Decoded? && TellsValue(shown, d.text, d.ty)
  }

  lemma {:induction false} EveryElementShown(values: seq<Bytes>)
    requires forall v | v in values :: WfValue(v)
    ensures var list := ElementEntries(values);
            && Length(list) == |values|
            && forall i :: 0 <= i < |values| ==>
                 ShowsElement(values[i], Nth(list, i).value)
  {
    hide ShowsElement, DecodeValue, WfValue, ValueOnly;
    if values != [] {
      EveryElementShown(values[1..]);
      assert WfValue(values[0]);
      FirstElementShown(values);
      var list, rest := ElementEntries(values), ElementEntries(values[1..]);
      forall i | 0 <= i < |values| ensures ShowsElement(values[i], Nth(list, i).value) {
        if i > 0 { assert values[i] == values[1..][i - 1] && Nth(list, i) == Nth(rest, i - 1); }
      }
    }
  }

  lemma FirstElementShown(values: seq<Bytes>)
    requires values != [] && WfValue(values[0])
    ensures var list := ElementEntries(values);
            list.Cons? && list.next == ElementEntries(values[1..]) && ShowsElement(values[0], list.value)
  {
    hide TellsValue, ValueOnly, Ascii;
    var d := DecodeValue(values[0]);
    ElementTells(d.text, d.ty);
  }

  /** GET of a set shows every element once, in byte order, and counts them. */
  lemma SetGetIsComplete(host: Host, st: State, limits: Q.Options, p: Ptr)
    requires WfStore(st.store) && Exists(st.store, p) && p.kind == SET
    ensures var r := Perform(host, st, limits, DoSetGet(p)).1;
            var items := Items(st.store, p);
            && r.status == 200 && TellsText(r.body, "ptr", PtrToHex(p)) && TellsNumber(r.body, "count", |items|)
            && exists list :: Tells(r.body, "elements", JArray(list)) && Length(list) == |items|
                              && forall i :: 0 <= i < |items| ==> ShowsElement(Listing(items)[i], Nth(list, i).value)
  {
    hide ShowsElement, EntityBody, ElementEntries, Tells, TellsText, TellsNumber, PtrToHex, WfValue;
    var values := Listing(Items(st.store, p));
    forall v | v in values ensures WfValue(v) { assert WfEntity(p, st.store.items[p], Members(st.store, p)); }
    EveryElementShown(values);
    var list := ElementEntries(values);
    EntityTells(p, "elements", list);
  }
}
