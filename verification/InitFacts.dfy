/** POST /obj/init and POST /set/init as a whole: what they store, and what they leave alone. */
module InitFacts {
  import opened CBytes
  import opened ErrorCodes
  import opened Json
  import opened Platform
  import opened Codec
  import opened Engine
  import opened NestedValue
  import opened Layout
  import opened ReadBack
  import opened References
  import opened BuildFailure
  import opened CompileWalk
  import opened Responses
  import opened Handlers
  import opened HandlerFacts

  /** An init of an object or of a set. */
  function Init(host: Host, st: State, root: Json): (State, Option<Ptr>, Option<Failure>)
    requires IsContainer(root)
  {
    if root.JObject? then InitObject(host, st, root.child) else InitSet(host, st, root.child)
  }

  predicate Succeeds(host: Host, st: State, root: Json)
    requires IsContainer(root)
  {
    var (_, made, failed) := Init(host, st, root);
    made.Some? && failed.None?
  }

  /** What both inits establish: one identifier per container, and exactly the tree's graph under the root. */
  lemma InitStoresTheTree(host: Host, st: State, root: Json)
    requires Inv(st) && IsContainer(root) && Succeeds(host, st, root)
    ensures var (st', made, _) := Init(host, st, root);
            && made.value == PtrHere(st.ids, st.next, root)
            && Inv(st') && st'.ids == st.ids && st'.next == st.next + Containers(root) <= |st.ids|
            && Holds(st'.store, st.ids, st.next, root)
  {
    hide Holds, Inv, InitObject, InitSet;
    if root.JObject? { InitLayout(host, st, root.child); } else { SetLayout(host, st, root.child); }
  }

  /** Reading the new root back gives the normal form of the request's tree. */
  lemma InitThenRead(host: Host, st: State, root: Json, readDepth: nat)
    requires Inv(st) && IsContainer(root) && Succeeds(host, st, root) && readDepth > Height(root)
    ensures var (st', made, _) := Init(host, st, root);
            ReadTree(st'.store, RefEncoding(made.value), readDepth) == Normalize(root)
  {
    InitStoresTheTree(host, st, root);
    ReadOfHeld(Init(host, st, root).0.store, st.ids, st.next, root, readDepth);
  }

  lemma InitTouchesItsTree(host: Host, st: State, root: Json, q: Ptr)
    requires Inv(st) && IsContainer(root) && Succeeds(host, st, root)
    requires !InTree(st.ids, st.next, root, q)
    ensures Same(st.store, Init(host, st, root).0.store, q)
  {
    hide Same, Inv;
    var p := PtrHere(st.ids, st.next, root);
    CreateGrows(st, KindOf(root));
    var (st1, made) := Create(st, KindOf(root));
    GrowsInv(st, st1);
    if root.JObject? {
      FillTouchesItsTree(host, st1, p, root.child, 0, q);
    } else {
      FillElementsTouchItsTree(host, st1, p, root.child, 0, 0, q);
    }
  }

  /** Every entity that was there before reads the same afterwards. */
  lemma InitKeepsOldEntities(host: Host, st: State, root: Json, q: Ptr)
    requires Inv(st) && IsContainer(root) && Succeeds(host, st, root) && Exists(st.store, q)
    ensures Same(st.store, Init(host, st, root).0.store, q)
  {
    InitStoresTheTree(host, st, root);
    if InTree(st.ids, st.next, root, q) { TreeIsNew(st, root, q); }
    if !InTree(st.ids, st.next, root, q) { InitTouchesItsTree(host, st, root, q); }
  }

  /**
   The entities an init creates form a tree: in the whole store, each of them but the root
   gets exactly one reference it did not have before, and the root gets none, provided no
   repeated key overwrites a container.
   */
  lemma InitFormsATree(host: Host, st: State, root: Json, q: Ptr) returns (parent: Place)
    requires Inv(st) && IsContainer(root) && Succeeds(host, st, root)
    requires InTree(st.ids, st.next, root, q) && NoneOverwritten(root)
    ensures forall place ::
              RefAt(Init(host, st, root).0.store, place, q) <==>
                RefAt(st.store, place, q) || (q != PtrHere(st.ids, st.next, root) && place == parent)
  {
    var s := Init(host, st, root).0.store;
    InitStoresTheTree(host, st, root);
    parent := OneParent(st.ids, st.next, root, q);
    forall place
      ensures RefAt(s, place, q) <==> RefAt(st.store, place, q) || (q != PtrHere(st.ids, st.next, root) && place == parent)
    {
      if !InTree(st.ids, st.next, root, place.owner) { InitTouchesItsTree(host, st, root, place.owner); }
      ReferencesAfter(st, s, root, place, q);
    }
  }

  /** The proviso is exact: with an overwritten container, some new entity below the root gets no reference at all. */
  lemma OverwrittenLeavesAnOrphan(host: Host, st: State, root: Json) returns (q: Ptr)
    requires Inv(st) && IsContainer(root) && Succeeds(host, st, root) && !NoneOverwritten(root)
    ensures InTree(st.ids, st.next, root, q) && q != PtrHere(st.ids, st.next, root)
    ensures forall place :: RefAt(Init(host, st, root).0.store, place, q) <==> RefAt(st.store, place, q)
  {
    hide RefAt, Holds, NoneOverwritten, WfStore;
    var ids, k := st.ids, st.next;
    var s := Init(host, st, root).0.store;
    InitStoresTheTree(host, st, root);
    q := Orphan(ids, k, root);
    TreeNumbersAll(ids, k + 1, root.child, q);
    assert IdAt(ids, k) == PtrHere(ids, k, root).id;
    Disjoint(ids, k, k + 1, k + 1, k + Containers(root), PtrHere(ids, k, root));
    forall place ensures RefAt(s, place, q) <==> RefAt(st.store, place, q) {
      if !InTree(ids, k, root, place.owner) { InitTouchesItsTree(host, st, root, place.owner); }
      ReferencesAfter(st, s, root, place, q);
    }
  }

  /** The request {n: {n: null}, n: null}: the first pair's object is written, and then overwritten. */
  function TwicePaired(n: Bytes): Nodes {
    Cons(n, JObject(Cons(n, JNull, Nil)), Cons(n, JNull, Nil))
  }

  lemma TwicePairedShape(host: Host, n: Bytes)
    requires 1 <= |n| <= MAX_NAME_LEN
    ensures var kv := TwicePaired(n);
            && FirstFaultIn(host, kv, true, 0, 0).None?
            && ContainersAll(kv) == 1 && Containers(JObject(kv)) == 2 && EdgesAll(kv) == 3 && Length(kv) == 2
            && Keys(kv) == {n} && !DistinctKeys(kv) && !NoneOverwritten(JObject(kv))
  {
    var inner, last := Cons(n, JNull, Nil), Cons(n, JNull, Nil);
    assert ContainersAll(inner) == 0 && EdgesAll(inner) == 1 && Length(last) == 1 && Keys(last) == {n};
    assert FirstFaultIn(host, inner, true, 0, 1).None? && FirstFaultIn(host, last, true, 1, 0).None?;
    assert FirstFault(host, JObject(inner), 0).None?;
    assert ContainersAll(TwicePaired(n)) == Containers(JObject(inner)) + ContainersAll(last);
    assert EdgesAll(TwicePaired(n)) == 1 + Edges(JObject(inner)) + EdgesAll(last);
    assert n in Keys(last) && !NoneOverwrittenIn(TwicePaired(n), true);
  }

  /**
   A request with a repeated key, as the server accepts it: it answers two members where
   there is one, and leaves an entity in the store that no reference leads to.
   */
  lemma {:induction false} RepeatedKeyShows(host: Host, st: State, n: Bytes) returns (q: Ptr)
    requires Inv(st) && Enough(st, 2, 3) && 1 <= |n| <= MAX_NAME_LEN
    ensures var kv := TwicePaired(n);
            var (st', made, _) := InitObject(host, st, kv);
            && InitSucceeds(host, st, kv)
            && PerformObjInit(host, st, kv) == (st', CountedPtrBody(made.value, "member_count", 2))
            && Items(st'.store, made.value) == {n}
            && q == Ptr(OBJ, IdAt(st.ids, st.next + 1)) && Exists(st'.store, q) && !Exists(st.store, q)
            && forall place :: RefAt(st'.store, place, q) <==> RefAt(st.store, place, q)
  {
    hide RefAt, Same, WfStore, FillMembers;
    var kv := TwicePaired(n);
    var (st1, made) := Create(st, OBJ);
    TwicePairedShape(host, n);
    FillFindsFirstFault(host, st1, made.value, kv, 0, 0);
    InitLayout(host, st, kv);
    q := OverwrittenLeavesAnOrphan(host, st, JObject(kv));
    OnlyOneBelow(st.ids, st.next + 1, n, q);
    var s := InitObject(host, st, kv).0.store;
    HoldsFirst(s, st.ids, st.next, kv);
    TreeIsNew(st, JObject(kv), q);
  }

  lemma OnlyOneBelow(ids: seq<Id>, k: nat, n: Bytes, q: Ptr)
    requires InTreeAll(ids, k, TwicePaired(n), q)
    ensures q == Ptr(OBJ, IdAt(ids, k))
  {
    var inner, last := Cons(n, JNull, Nil), Cons(n, JNull, Nil);
    assert !InTree(ids, k + 1, JNull, q) && ContainersAll(inner) == 0 && Containers(JObject(inner)) == 1;
    assert !InTreeAll(ids, k + 1, inner, q) && !InTreeAll(ids, k + 1, last, q);
    assert InTree(ids, k, JObject(inner), q);
  }

  lemma HoldsFirst(s: Store, ids: seq<Id>, k: nat, kv: Nodes)
    requires Holds(s, ids, k, JObject(kv)) && kv.Cons? && kv.value.JObject?
    ensures Items(s, Ptr(OBJ, IdAt(ids, k))) == Keys(kv)
    ensures Items(s, Ptr(OBJ, IdAt(ids, k + 1))) == Keys(kv.value.child)
  {
    assert HoldsAll(s, ids, k + 1, kv) && Holds(s, ids, k + 1, kv.value);
  }

  // -------------------- the text of a failed init --------------------

  lemma AsciiJoin(a: string, b: string)
    ensures Ascii(a) + Ascii(b) == Ascii(a + b)
  {
  }

  lemma Parenthesized(a: Bytes, b: Bytes, name: Bytes, c: Bytes, d: Bytes)
    ensures a + (b + name + c) + d == (a + b) + name + (c + d)
  {
  }

  lemma MemberSuffix(name: Bytes)
    requires |name| <= 493
    ensures Suffix(InMember(name)) == Ascii(" (in member '") + name + Ascii("')")
  {
    Parenthesized(Ascii(" (in "), Ascii("member '"), name, Ascii("'"), Ascii(")"));
    AsciiJoin(" (in ", "member '");
    AsciiJoin("'", ")");
    assert " (in " + "member '" == " (in member '" && "'" + ")" == "')";
    hide Ascii;
  }

  lemma ElementSuffix(i: nat)
    requires |Decimal(i)| <= 50
    ensures Suffix(InElement(i)) == Ascii(" (in element [") + Decimal(i) + Ascii("])")
  {
    Parenthesized(Ascii(" (in "), Ascii("element ["), Decimal(i), Ascii("]"), Ascii(")"));
    AsciiJoin(" (in ", "element [");
    AsciiJoin("]", ")");
    assert " (in " + "element [" == " (in element [" && "]" + ")" == "])";
    hide Ascii, Decimal;
  }

  /** Each level of a message names the member or the element, in parentheses behind the levels below it. */
  lemma MessageForm(reason: Bytes, trail: seq<Step>, name: Bytes, i: nat)
    ensures |name| <= 493 ==>
              Message(reason, trail + [InMember(name)]) == Message(reason, trail) + (Ascii(" (in member '") + name + Ascii("')"))
    ensures |Decimal(i)| <= 50 ==>
              Message(reason, trail + [InElement(i)]) == Message(reason, trail) + (Ascii(" (in element [") + Decimal(i) + Ascii("])"))
  {
    hide Ascii, Decimal, Suffix;
    if |name| <= 493 { MemberSuffix(name); }
    if |Decimal(i)| <= 50 { ElementSuffix(i); }
    assert (trail + [InMember(name)])[..|trail|] == trail && (trail + [InElement(i)])[..|trail|] == trail;
  }

  /** The answer's text: the nested message as its buffer holds it, and the root's own level behind it. */
  lemma InitMessageForm(f: Failure, trail: seq<Step>, last: Step)
    requires f.trail == trail + [last] && |f.reason| <= 767
    ensures InitMessage(f) == Cut(Cut(Message(f.reason, trail), 767) + Ascii(" (in ") + StepText(last) + Ascii(")"), 1151)
    ensures |Message(f.reason, f.trail)| <= 767 && ContextText(last) == StepText(last) ==> InitMessage(f) == Message(f.reason, f.trail)
  {
    hide Ascii, StepText, ContextText;
    assert f.trail[..|trail|] == trail;
    ShownIsCutMessage(f.reason, trail);
  }

  // -------------------- the answer to a failed init --------------------

  /**
   While the engine does not run out, an object init succeeds iff no member, value or
   element of the request is faulty; otherwise it answers with the first fault's status
   and message.
   */
  lemma {:induction false} ObjInitFailsAtFirstFault(host: Host, st: State, kv: Nodes)
    requires Enough(st, 1 + ContainersAll(kv), EdgesAll(kv))
    ensures var response := PerformObjInit(host, st, kv).1;
            match FirstFaultIn(host, kv, true, 0, 0)
            case None => response == CountedPtrBody(InitObject(host, st, kv).1.value, "member_count", Length(kv))
            case Some(path) =>
              var cause := FaultAmong(host, kv, true, 0, 0, path);
              && cause.Some? && IsError(response)
              && response == ErrorText(HttpStatus(cause.value.rc),
                                       InitMessage(Failure(cause.value.rc, cause.value.reason, Reverse(StepsAmong(kv, true, 0, path)))))
  {
    hide FillMembers, FirstFaultIn, FaultAmong, StepsAmong, Reverse, InitMessage, Ascii;
    var (st1, made) := Create(st, OBJ);
    FillFindsFirstFault(host, st1, made.value, kv, 0, 0);
    FillFailsWithReason(host, st1, made.value, kv, 0);
  }

  /** The same for a set init; a success counts the set's elements. */
  lemma {:induction false} SetInitFailsAtFirstFault(host: Host, st: State, item: Nodes)
    requires Inv(st) && item.Cons? && Enough(st, 1 + ContainersAll(item), EdgesAll(item))
    ensures var response := PerformSetInit(host, st, item).1;
            match FirstFaultIn(host, item, false, 0, 0)
            case None =>
              response == CountedPtrBody(InitSet(host, st, item).1.value, "element_count", ContainerElements(item) + |LeafEncodings(item)|)
            case Some(path) =>
              var cause := FaultAmong(host, item, false, 0, 0, path);
              && cause.Some? && IsError(response)
              && response == ErrorText(HttpStatus(cause.value.rc),
                                       InitMessage(Failure(cause.value.rc, cause.value.reason, Reverse(StepsAmong(item, false, 0, path)))))
  {
    hide FillElements, FirstFaultIn, FaultAmong, StepsAmong, Reverse, InitMessage, Ascii, WfStore;
    var (st1, made) := Create(st, SET);
    FillElementsFindsFirstFault(host, st1, made.value, item, 0, 0);
    FillElementsFailsWithReason(host, st1, made.value, item, 0, 0);
    if FirstFaultIn(host, item, false, 0, 0).None? { SetInitCountIsExact(host, st, item); }
  }
}
