/**
 Storing an object and then querying it is looking the path up in the JSON tree.
 */
module CompileWalk {
  import opened CBytes
  import opened ErrorCodes
  import opened Json
  import opened Platform
  import opened Codec
  import opened Engine
  import opened NestedValue
  import opened Layout
  import opened BuildFailure
  import opened PathText
  import opened QueryPath

  // -------------------- lookup in the tree --------------------

  /** The last pair with a key, and the number of the first container in its value. */
  function LastPair(k: nat, kv: Nodes, name: Bytes): (r: (nat, Json))
    requires name in Keys(kv)
    ensures Height(r.1) <= HeightAll(kv) && r.1 < kv
    decreases kv
  {
    if name in Keys(kv.next) then LastPair(k + Containers(kv.value), kv.next, name) else (k, kv.value)
  }

  /** What a query for a node answers: its text, or the pointer of its entity. */
  function Answered(ids: seq<Id>, k: nat, node: Json): (Bytes, ApiType) {
    match node
    case JObject(_) => (PtrToHex(Ptr(OBJ, IdAt(ids, k))), ObjectType)
    case JArray(_) => (PtrToHex(Ptr(SET, IdAt(ids, k))), SetType)
    case JNull => (LeafText(node), NullType)
    case _ => (LeafText(node), RawType)
  }

  /** Looking names up in an object; names[0] is segment i of the query. */
  function Lookup(ids: seq<Id>, k: nat, kv: Nodes, names: seq<Bytes>, i: nat, cap: nat): Walk
    requires |names| >= 1
    decreases |names|
  {
    if kv.Nil? then Stop(EntityNotFound, i, None)            // an object without members does not exist
    else if names[0] !in Keys(kv) then Stop(MemberNotFound, i, None)
    else
      var (at, node) := LastPair(k, kv, names[0]);
      var size := |EncAt(ids, at, node)|;
      if |names| == 1 then
        if size > cap then Stop(ValueTooLarge, i, None)
        else var (text, ty) := Answered(ids, at, node); Leaf(text, ty)
      else
        match node
        case JObject(child) => Lookup(ids, at + 1, child, names[1..], i + 1, cap)
        case JArray(_) => Stop(SetNotSupported, i, Some(SetType))
        case _ => Stop(TypeMismatch, i, if size <= 1 + PTR_LEN then Some(Answered(ids, at, node).1) else None)
  }

  // -------------------- the graph answers like the tree --------------------

  lemma {:induction false} PairOfMember(s: Store, ids: seq<Id>, k: nat, kv: Nodes, name: Bytes)
    requires name in Keys(kv) && HoldsAll(s, ids, k, kv)
    ensures var (at, node) := LastPair(k, kv, name);
            MemberMap(ids, k, kv)[name] == EncAt(ids, at, node) && Holds(s, ids, at, node)
    decreases kv
  {
    hide EncAt, Holds, Containers;
    if name in Keys(kv.next) {
      PairOfMember(s, ids, k + Containers(kv.value), kv.next, name);
    }
  }

  lemma DecodeOfRef(p: Ptr)
    requires p.kind in {OBJ, SET}
    ensures var v := RefEncoding(p);
            && DecodeValue(v) == Decoded(PtrToHex(p), if p.kind == OBJ then ObjectType else SetType)
            && PtrOfBytes(v[1..1 + PTR_LEN]) == p
  {
    var v := RefEncoding(p);
    assert v[1..1 + PTR_LEN] == PtrBytes(p);
    PtrBytesInjective(p, p);
  }

  lemma DecodeOfEnc(ids: seq<Id>, k: nat, node: Json)
    ensures DecodeValue(EncAt(ids, k, node)) == var (text, ty) := Answered(ids, k, node); Decoded(text, ty)
    ensures node.JObject? ==> PtrOfBytes(EncAt(ids, k, node)[1..1 + PTR_LEN]) == Ptr(OBJ, IdAt(ids, k))
  {
    if IsContainer(node) {
      DecodeOfRef(Ptr(KindOf(node), IdAt(ids, k)));
    }
  }

  lemma {:induction false} MemberOfHeld(s: Store, ids: seq<Id>, k: nat, kv: Nodes, name: Bytes)
    requires WfStore(s) && Holds(s, ids, k, JObject(kv))
    ensures MemberValue(s, Ptr(OBJ, IdAt(ids, k)), name) ==
            if kv.Nil? then NotGot(EntityNotFound)
            else if name !in Keys(kv) then NotGot(MemberNotFound)
            else var (at, node) := LastPair(k + 1, kv, name); Got(EncAt(ids, at, node))
  {
    hide WfStore, LastPair, EncAt, MemberMap;
    var p := Ptr(OBJ, IdAt(ids, k));
    WfMembers(s, p);
    if kv.Cons? {
      assert kv.key in Keys(kv);
      if name in Keys(kv) { PairOfMember(s, ids, k + 1, kv, name); }
    }
  }

  /** In a store that holds an object's graph, a full walk is the lookup in the tree. */
  lemma {:induction false} WalkIsLookup(s: Store, ids: seq<Id>, k: nat, kv: Nodes, names: seq<Bytes>, i: nat, cap: nat)
    requires WfStore(s) && Holds(s, ids, k, JObject(kv)) && |names| >= 1 && cap > 0
    ensures FullWalk(s, Ptr(OBJ, IdAt(ids, k)), names, i, cap) == Lookup(ids, k + 1, kv, names, i, cap)
    decreases |names|
  {
    hide *;
    MemberOfHeld(s, ids, k, kv, names[0]);
    WalkStep(s, Ptr(OBJ, IdAt(ids, k)), names, i, cap);
    LookupStep(ids, k + 1, kv, names, i, cap);
    if kv.Cons? && names[0] in Keys(kv) {
      var (at, node) := LastPair(k + 1, kv, names[0]);
      PairOfMember(s, ids, k + 1, kv, names[0]) by { HeldMembers(s, ids, k, kv); }
      DecodeOfEnc(ids, at, node);
      AnsweredType(ids, at, node);
      if |names| > 1 && node.JObject? {
        WalkIsLookup(s, ids, at, node.child, names[1..], i + 1, cap);
      }
    }
  }

  lemma HeldMembers(s: Store, ids: seq<Id>, k: nat, kv: Nodes)
    requires Holds(s, ids, k, JObject(kv))
    ensures HoldsAll(s, ids, k + 1, kv)
  {
  }

  lemma AnsweredType(ids: seq<Id>, k: nat, node: Json)
    ensures match node
            case JObject(_) => Answered(ids, k, node).1 == ObjectType
            case JArray(_) => Answered(ids, k, node).1 == SetType
            case JNull => Answered(ids, k, node).1 == NullType
            case _ => Answered(ids, k, node).1 == RawType
  {
  }

  lemma WalkStep(s: Store, cur: Ptr, names: seq<Bytes>, i: nat, cap: nat)
    requires |names| >= 1 && cap > 0
    ensures FullWalk(s, cur, names, i, cap) ==
            match MemberValue(s, cur, names[0])
            case NotGot(rc) => Stop(rc, i, None)
            case Got(v) =>
              if |names| == 1 && |v| > cap then Stop(ValueTooLarge, i, None)
              else match DecodeValue(v)
                   case NotDecoded(rc) => Stop(rc, i, None)
                   case Decoded(text, ty) =>
                     if |names| == 1 then Leaf(text, ty)
                     else if ty == ObjectType then FullWalk(s, PtrOfBytes(v[1..1 + PTR_LEN]), names[1..], i + 1, cap)
                     else if ty == SetType then Stop(SetNotSupported, i, Some(SetType))
                     else Stop(TypeMismatch, i, if |v| <= 1 + PTR_LEN then Some(ty) else None)
  {
  }

  lemma LookupStep(ids: seq<Id>, k: nat, kv: Nodes, names: seq<Bytes>, i: nat, cap: nat)
    requires |names| >= 1
    ensures kv.Nil? ==> Keys(kv) == {} && Lookup(ids, k, kv, names, i, cap) == Stop(EntityNotFound, i, None)
    ensures kv.Cons? && names[0] !in Keys(kv) ==> Lookup(ids, k, kv, names, i, cap) == Stop(MemberNotFound, i, None)
    ensures kv.Cons? && names[0] in Keys(kv) ==>
              var (at, node) := LastPair(k, kv, names[0]);
              var size := |EncAt(ids, at, node)|;
              var (text, ty) := Answered(ids, at, node);
              Lookup(ids, k, kv, names, i, cap) ==
              if |names| == 1 then if size > cap then Stop(ValueTooLarge, i, None) else Leaf(text, ty)
              else match node
                   case JObject(child) => Lookup(ids, at + 1, child, names[1..], i + 1, cap)
                   case JArray(_) => Stop(SetNotSupported, i, Some(SetType))
                   case _ => Stop(TypeMismatch, i, if size <= 1 + PTR_LEN then Some(ty) else None)
  {
  }

  // -------------------- the whole request --------------------

  /** The writes of POST /obj/init: a root object and its members, their values at depth 0. */
  function InitObject(host: Host, st: State, kv: Nodes): (State, Option<Ptr>, Option<Failure>) {
    var (st1, made) := Create(st, OBJ);
    match made
    case None => (st1, None, None)
    case Some(p) =>
      var (st2, failed) := FillMembers(host, st1, p, kv, 0);
      (st2, Some(p), failed)
  }

  predicate InitSucceeds(host: Host, st: State, kv: Nodes) {
    var (_, made, failed) := InitObject(host, st, kv);
    made.Some? && failed.None?
  }

  lemma InitLayout(host: Host, st: State, kv: Nodes)
    requires Inv(st) && InitSucceeds(host, st, kv)
    ensures var (st', made, _) := InitObject(host, st, kv);
            && made.value == Ptr(OBJ, IdAt(st.ids, st.next))
            && Inv(st') && st'.ids == st.ids && st'.next == st.next + Containers(JObject(kv)) <= |st.ids|
            && Holds(st'.store, st.ids, st.next, JObject(kv))
  {
    hide *;
    InitParts(host, st, kv);
    var st1 := st.(next := st.next + 1);
    var p := Ptr(OBJ, IdAt(st.ids, st.next));
    FillMembersSteps(host, st1, p, kv, 0);
    StepsParts(st1, FillMembers(host, st1, p, kv, 0).0, p);
    FillMembersLayout(host, st1, p, kv, 0);
    JoinEmpty(MemberMap(st.ids, st.next + 1, kv));
    OneNode(FillMembers(host, st1, p, kv, 0).0.store, st.ids, st.next, JObject(kv));
  }

  lemma InitParts(host: Host, st: State, kv: Nodes)
    requires Inv(st) && InitSucceeds(host, st, kv)
    ensures var st1 := st.(next := st.next + 1);
            var p := Ptr(OBJ, IdAt(st.ids, st.next));
            && Inv(st1) && !Unissued(st1, p) && Items(st1.store, p) == {} && Members(st1.store, p) == map[]
            && FillMembers(host, st1, p, kv, 0).1.None?
            && InitObject(host, st, kv) == (FillMembers(host, st1, p, kv, 0).0, Some(p), None)
            && IsContainer(JObject(kv)) && KindOf(JObject(kv)) == OBJ
  {
    CreateKeepsInv(st, OBJ);
    NothingYet(st.store, Create(st, OBJ).1.value);
  }

  lemma StepsParts(st: State, st': State, p: Ptr)
    requires Steps(st, st', {p})
    ensures Inv(st') && st'.ids == st.ids
  {
  }

  /** The root and the names down to a failure, a slash before each name. */
  function SlashPath(root: Bytes, names: seq<Bytes>): Bytes {
    if names == [] then root else SlashPath(root, names[..|names| - 1]) + [SLASH] + names[|names| - 1]
  }

  /** How a query shows the end of a walk: segment 0 is the root, names[0] is segment 1. */
  function AnswerOf(root: Bytes, names: seq<Bytes>, walk: Walk): Answer {
    match walk
    case Leaf(text, ty) => Value(text, ty)
    case Stop(rc, segment, found) =>
      Failed(rc, QueryError(Some(SlashPath(root, if segment <= |names| then names[..segment] else names)), segment, found))
  }

  lemma {:induction false} AtIsSlashPath(root: Bytes, names: seq<Bytes>, upto: nat)
    requires upto <= |names|
    ensures At([root] + names, upto) == SlashPath(root, names[..upto])
  {
    hide At;
    if upto == 0 {
      AtFacts([root], [], names, 0);
    } else {
      AtIsSlashPath(root, names, upto - 1);
      var segs := [root] + names[..upto - 1];
      AtFacts(segs, names[upto - 1], [], 0);
      assert segs + [names[upto - 1]] == [root] + names[..upto];
      AtFacts([root] + names[..upto], [], names[upto..], upto);
      assert [root] + names[..upto] + names[upto..] == [root] + names;
      AtFacts(segs, [], names[upto - 1..], upto - 1);
      assert segs + names[upto - 1..] == [root] + names;
      assert names[..upto][..upto - 1] == names[..upto - 1];
    }
  }

  /** A lookup that stops does so at one of its names. */
  lemma {:induction false} LookupStopsWithin(ids: seq<Id>, k: nat, kv: Nodes, names: seq<Bytes>, i: nat, cap: nat)
    requires |names| >= 1
    ensures var w := Lookup(ids, k, kv, names, i, cap); w.Stop? ==> i <= w.segment < i + |names|
    decreases |names|
  {
    hide EncAt, Answered, LastPair;
    LookupStep(ids, k, kv, names, i, cap);
    if kv.Cons? && names[0] in Keys(kv) {
      var (at, node) := LastPair(k, kv, names[0]);
      if |names| > 1 && node.JObject? { LookupStopsWithin(ids, at + 1, node.child, names[1..], i + 1, cap); }
    }
  }

  lemma PrintedPointerHasNoDot(p: Ptr)
    ensures DOT !in PtrToHex(p)
  {
    PrintedIsHex(p);
    assert HexVal(DOT) == -1;
  }

  /**
   Initialising an object from any JSON tree and querying the returned pointer by any
   printable names, as many as the limit allows, answers what the tree says.
   */
  lemma {:induction false} InitThenQuery(host: Host, st: State, kv: Nodes, names: seq<Bytes>, options: Options)
    requires Inv(st) && InitSucceeds(host, st, kv)
    requires 1 <= |names| <= WithDefaults(options).maxDepth && forall n :: n in names ==> Printable(n)
    ensures var (st', made, _) := InitObject(host, st, kv);
            var root := PtrToHex(made.value);
            Query(st'.store, PrintPath(root, names), options) ==
            AnswerOf(root, names, Lookup(st.ids, st.next + 1, kv, names, 1, WithDefaults(options).maxValueBytes))
  {
    hide *;
    InitLayout(host, st, kv);
    var (st', made, _) := InitObject(host, st, kv);
    InvFacts(st');
    QueryThenLookup(host, st'.store, st.ids, st.next, kv, names, options);
  }

  /** Querying an object whose graph the store holds. */
  lemma {:induction false} QueryThenLookup(host: Host, s: Store, ids: seq<Id>, k: nat, kv: Nodes, names: seq<Bytes>, options: Options)
    requires WfStore(s) && Holds(s, ids, k, JObject(kv))
    requires 1 <= |names| <= WithDefaults(options).maxDepth && forall n :: n in names ==> Printable(n)
    ensures var root := PtrToHex(Ptr(OBJ, IdAt(ids, k)));
            Query(s, PrintPath(root, names), options) ==
            AnswerOf(root, names, Lookup(ids, k + 1, kv, names, 1, WithDefaults(options).maxValueBytes))
  {
    hide WfStore, Holds, ProbeWalk, FullWalk, Lookup, ParsePath, PrintPath, PtrToHex, PtrFromString, Printable, At;
    var o := WithDefaults(options);
    var p := Ptr(OBJ, IdAt(ids, k));
    var root := PtrToHex(p);
    PrintedPointerHasNoDot(p);
    ParseOfPrint(root, names, o.maxDepth);
    HexRoundTrip(host, p);
    assert ([root] + names)[1..] == names;
    ProbeRefinesFull(s, p, names, 1, o.maxValueBytes);
    WalkIsLookup(s, ids, k, kv, names, 1, o.maxValueBytes);
    LookupStopsWithin(ids, k + 1, kv, names, 1, o.maxValueBytes);
    var walk := Lookup(ids, k + 1, kv, names, 1, o.maxValueBytes);
    if walk.Stop? { AtIsSlashPath(root, names, walk.segment); }
  }

  // -------------------- how deep a stored tree goes --------------------

  /** What was built has only acceptable names and elements, and no container too deep. */
  lemma {:induction false} BuiltFits(host: Host, st: State, node: Json, depth: nat)
    requires BuildValue(host, st, node, depth).1.Built?
    ensures !IsContainer(node) || depth + Height(node) <= NEST_DEPTH_MAX
    ensures EdgesFit(node)
    decreases node, 1
  {
    hide BuildValue, FillMembers, FillElements, HeightAll, EdgesFitIn, Create, RefEncoding;
    if IsContainer(node) {
      ContainerStep(host, st, node, depth);
      var (st1, made) := Create(st, KindOf(node));
      if node.JObject? {
        FilledFits(host, st1, made.value, node.child, depth + 1);
      } else {
        FilledElementsFit(host, st1, made.value, node.child, 0, depth + 1);
      }
    }
  }

  lemma {:induction false} FilledFits(host: Host, st: State, p: Ptr, kv: Nodes, depth: nat)
    requires FillMembers(host, st, p, kv, depth).1.None?
    ensures HeightAll(kv) == 0 || depth + HeightAll(kv) <= NEST_DEPTH_MAX
    ensures EdgesFitIn(kv, true)
    decreases kv, 0
  {
    hide BuildValue, FillMembers, EdgesFit, LeafEncoding;
    MemberStep(host, st, p, kv, depth);
    if kv.Cons? {
      var (st1, b) := BuildValue(host, st, kv.value, depth);
      BuiltFits(host, st, kv.value, depth);
      FilledFits(host, MemberPut(st1, p, kv.key, b.bytes).0, p, kv.next, depth);
    }
  }

  lemma {:induction false} FilledElementsFit(host: Host, st: State, p: Ptr, item: Nodes, index: nat, depth: nat)
    requires FillElements(host, st, p, item, index, depth).1.None?
    ensures HeightAll(item) == 0 || depth + HeightAll(item) <= NEST_DEPTH_MAX
    ensures EdgesFitIn(item, false)
    decreases item, 0
  {
    hide BuildValue, FillElements, EdgesFit, LeafEncoding;
    ElementStep(host, st, p, item, index, depth);
    if item.Cons? {
      if !IsContainer(item.value) { LeafBuild(host, st, item.value, depth); }
      var (st1, b) := BuildValue(host, st, item.value, depth);
      BuiltFits(host, st, item.value, depth);
      FilledElementsFit(host, SetAddItem(st1, p, b.bytes).0, p, item.next, index + 1, depth);
    }
  }

  lemma {:induction false} LookupDepth(ids: seq<Id>, k: nat, kv: Nodes, names: seq<Bytes>, i: nat, cap: nat)
    requires |names| >= 1 && Lookup(ids, k, kv, names, i, cap).Leaf?
    ensures |names| <= HeightAll(kv) + 1
    decreases |names|
  {
    if |names| > 1 {
      var (at, node) := LastPair(k, kv, names[0]);
      LookupDepth(ids, at + 1, node.child, names[1..], i + 1, cap);
    }
  }

  /** No value stored by an object init lies more than 65 member segments from its root. */
  lemma AtMost65Segments(host: Host, st: State, kv: Nodes, names: seq<Bytes>, cap: nat)
    requires InitSucceeds(host, st, kv) && |names| >= 1
    requires Lookup(st.ids, st.next + 1, kv, names, 1, cap).Leaf?
    ensures |names| <= 65
  {
    var (st1, made) := Create(st, OBJ);
    FilledFits(host, st1, made.value, kv, 0);
    LookupDepth(st.ids, st.next + 1, kv, names, 1, cap);
  }

  // -------------------- the two limits do not meet --------------------

  /** A chain of n objects, one member each, with a text at its end. */
  function Chain(name: Bytes, n: nat): Json {
    if n == 0 then JString(name) else JObject(Cons(name, Chain(name, n - 1), Nil))
  }

  lemma {:induction false} ChainShape(name: Bytes, n: nat)
    ensures Height(Chain(name, n)) == n && Containers(Chain(name, n)) == n && Edges(Chain(name, n)) == n
  {
    if n > 0 {
      ChainShape(name, n - 1);
      var kv := Cons(name, Chain(name, n - 1), Nil);
      assert HeightAll(kv) == n - 1 && ContainersAll(kv) == n - 1 && EdgesAll(kv) == n;
    }
  }

  lemma {:induction false} ChainFits(name: Bytes, n: nat)
    requires 1 <= |name| <= MAX_NAME_LEN
    ensures EdgesFit(Chain(name, n))
  {
    if n > 0 {
      ChainFits(name, n - 1);
    }
  }

  lemma {:induction false} ChainLookup(ids: seq<Id>, k: nat, name: Bytes, n: nat, names: seq<Bytes>, i: nat, cap: nat)
    requires |name| < cap && |names| == n + 1 && forall m :: m in names ==> m == name
    ensures Lookup(ids, k, Cons(name, Chain(name, n), Nil), names, i, cap) == Leaf(name, RawType)
    decreases n
  {
    assert names[0] in names;
    if n > 0 {
      assert forall m :: m in names[1..] ==> m in names;
      ChainLookup(ids, k + 1, name, n - 1, names[1..], i + 1, cap);
    }
  }

  /**
   The write limit and the default query limit are off by one: an object can be stored
   with a text 65 segments below its root, and the default query for it is refused.
   */
  lemma {:induction false} DeepestTextIsOutOfReach(host: Host, st: State, name: Bytes, names: seq<Bytes>)
    requires Inv(st) && Enough(st, 65, 65)
    requires 1 <= |name| <= MAX_NAME_LEN && NulFree(name)
    requires |names| == 65 && forall m :: m in names ==> m == name
    ensures var kv := Cons(name, Chain(name, 64), Nil);
            var (st', made, _) := InitObject(host, st, kv);
            && InitSucceeds(host, st, kv)
            && Lookup(st.ids, st.next + 1, kv, names, 1, MAX_VALUE_BYTES_DEFAULT) == Leaf(name, RawType)
            && Query(st'.store, PrintPath(PtrToHex(made.value), names), Options(0, 0)) == Failed(PathTooDeep, NO_ERROR)
  {
    var kv := Cons(name, Chain(name, 64), Nil);
    var (st1, made) := Create(st, OBJ);
    ChainFits(name, 64);
    ChainShape(name, 64);
    assert HeightAll(kv) == 64 && ContainersAll(kv) == 64 && EdgesAll(kv) == 65;
    OnlyDepthFailsIn(host, kv, true, 0, 0);
    FillFindsFirstFault(host, st1, made.value, kv, 0, 0);
    ChainLookup(st.ids, st.next + 1, name, 64, names, 1, MAX_VALUE_BYTES_DEFAULT);
    PrintedPointerHasNoDot(made.value);
    PrintTooDeep(PtrToHex(made.value), names, MAX_DEPTH_DEFAULT);
  }
}
