/**
 What a build leaves in the store. Containers take the generator's identifiers
 in document order, so the container at position k of the tree is `ids[k]`.
 */
module Layout {
  import opened CBytes
  import opened ErrorCodes
  import opened Json
  import opened Platform
  import opened Codec
  import opened Engine
  import opened NestedValue

  // -------------------- which entities a build touches --------------------

  ghost predicate IssuedIn(ids: seq<Id>, a: nat, b: nat, p: Ptr) {
    exists i :: a <= i < b <= |ids| && ids[i] == p.id
  }

  /** Outside `own` and the pointers issued in [a, b), nothing changes. */
  ghost predicate Touches(s: Store, t: Store, own: set<Ptr>, ids: seq<Id>, a: nat, b: nat) {
    forall q: Ptr :: q !in own && !IssuedIn(ids, a, b, q) ==> Same(s, t, q)
  }

  lemma SameSelf(s: Store, q: Ptr)
    ensures Same(s, s, q)
  {
  }

  lemma TouchesBoth(s: Store, t: Store, u: Store, own: set<Ptr>, ids: seq<Id>, a: nat, b: nat, c: nat)
    requires a <= b <= c <= |ids|
    requires Touches(s, t, own, ids, a, b) && Touches(t, u, own, ids, b, c)
    ensures Touches(s, u, own, ids, a, c)
  {
    forall q: Ptr | q !in own && !IssuedIn(ids, a, c, q) ensures Same(s, u, q) {
      assert !IssuedIn(ids, a, b, q) && !IssuedIn(ids, b, c, q);
      assert Same(s, t, q) && Same(t, u, q);
    }
  }

  /** A step of a build: the generator moves on, the invariant holds, the frame is kept. */
  ghost predicate Steps(st: State, st': State, own: set<Ptr>) {
    && st'.ids == st.ids && st.next <= st'.next <= |st.ids|
    && Inv(st')
    && Touches(st.store, st'.store, own, st.ids, st.next, st'.next)
  }

  lemma StepsBoth(st: State, st1: State, st2: State, own: set<Ptr>)
    requires Steps(st, st1, own) && Steps(st1, st2, own)
    ensures Steps(st, st2, own)
  {
    TouchesBoth(st.store, st1.store, st2.store, own, st.ids, st.next, st1.next, st2.next);
  }

  lemma StepsFromNothing(st: State, own: set<Ptr>)
    requires Inv(st)
    ensures Steps(st, st, own)
  {
  }

  /** A value built among an object's or set's items touches nothing more. */
  lemma StepsWiden(st: State, st': State, own: set<Ptr>)
    requires Steps(st, st', {})
    ensures Steps(st, st', own)
  {
  }

  /** Making an entity and filling it touches only pointers issued meanwhile. */
  lemma StepsOfEntity(st: State, st1: State, st2: State, p: Ptr)
    requires Inv(st) && st.next < |st.ids| && p.id == st.ids[st.next]
    requires st1 == st.(next := st.next + 1) && Steps(st1, st2, {p})
    ensures Steps(st, st2, {})
  {
    forall q: Ptr | !IssuedIn(st.ids, st.next, st2.next, q) ensures Same(st.store, st2.store, q) {
      assert st.next < st2.next && st.ids[st.next] != q.id;
      if IssuedIn(st.ids, st1.next, st2.next, q) {
        assert IssuedIn(st.ids, st.next, st2.next, q);
      }
      assert Same(st1.store, st2.store, q);
    }
  }

  lemma StaysIssued(st: State, st': State, p: Ptr)
    requires st'.ids == st.ids && st.next <= st'.next && !Unissued(st, p)
    ensures !Unissued(st', p)
  {
    if i :| st'.next <= i < |st'.ids| && st'.ids[i] == p.id {
      assert Unissued(st, p);
      assert false;
    }
  }

  lemma StepsOfPut(st: State, p: Ptr, name: Bytes, value: Bytes)
    requires Inv(st) && WfValue(value) && !Unissued(st, p)
    ensures Steps(st, MemberPut(st, p, name, value).0, {p})
  {
    PutKeepsInv(st, p, name, value);
    forall q: Ptr | q != p ensures Same(st.store, MemberPut(st, p, name, value).0.store, q) {
      PutElsewhere(st, p, name, value, q);
    }
  }

  lemma StepsOfAdd(st: State, p: Ptr, value: Bytes)
    requires Inv(st) && WfValue(value) && !Unissued(st, p)
    ensures Steps(st, SetAddItem(st, p, value).0, {p})
  {
    AddKeepsInv(st, p, value);
    forall q: Ptr | q != p ensures Same(st.store, SetAddItem(st, p, value).0.store, q) {
      AddElsewhere(st, p, value, q);
    }
  }

  /** Every build, failed ones included, keeps the invariant and all older entities. */
  lemma {:induction false} BuildSteps(host: Host, st: State, node: Json, depth: nat)
    requires Inv(st)
    ensures var (st', b) := BuildValue(host, st, node, depth);
            Steps(st, st', {}) && (b.Built? ==> WfValue(b.bytes))
    decreases node, 1
  {
    StepsFromNothing(st, {});
    if IsContainer(node) && depth < NEST_DEPTH_MAX {
      CreateKeepsInv(st, KindOf(node));
      var (st1, made) := Create(st, KindOf(node));
      if made.Some? {
        var p := made.value;
        assert p.id == st.ids[st.next];
        if node.JObject? {
          FillMembersSteps(host, st1, p, node.child, depth + 1);
          StepsOfEntity(st, st1, FillMembers(host, st1, p, node.child, depth + 1).0, p);
        } else {
          FillElementsSteps(host, st1, p, node.child, 0, depth + 1);
          StepsOfEntity(st, st1, FillElements(host, st1, p, node.child, 0, depth + 1).0, p);
        }
      }
    }
  }

  lemma {:induction false} FillMembersSteps(host: Host, st: State, p: Ptr, kv: Nodes, depth: nat)
    requires Inv(st) && !Unissued(st, p)
    ensures Steps(st, FillMembers(host, st, p, kv, depth).0, {p})
    decreases kv, 0
  {
    StepsFromNothing(st, {p});
    if kv.Cons? && NameProblem(kv.key).None? {
      var (st1, b) := BuildValue(host, st, kv.value, depth);
      BuildSteps(host, st, kv.value, depth);
      StepsWiden(st, st1, {p});
      if b.Built? {
        StaysIssued(st, st1, p);
        StepsOfPut(st1, p, kv.key, b.bytes);
        var (st2, rc) := MemberPut(st1, p, kv.key, b.bytes);
        StepsBoth(st, st1, st2, {p});
        if rc == Success {
          StaysIssued(st1, st2, p);
          FillMembersSteps(host, st2, p, kv.next, depth);
          StepsBoth(st, st2, FillMembers(host, st2, p, kv.next, depth).0, {p});
        }
      }
    }
  }

  lemma {:induction false} FillElementsSteps(host: Host, st: State, p: Ptr, item: Nodes, index: nat, depth: nat)
    requires Inv(st) && !Unissued(st, p)
    ensures Steps(st, FillElements(host, st, p, item, index, depth).0, {p})
    decreases item, 0
  {
    StepsFromNothing(st, {p});
    if item.Cons? {
      var (st1, b) := BuildValue(host, st, item.value, depth);
      BuildSteps(host, st, item.value, depth);
      StepsWiden(st, st1, {p});
      if b.Built? {
        StaysIssued(st, st1, p);
        StepsOfAdd(st1, p, b.bytes);
        var (st2, rc) := SetAddItem(st1, p, b.bytes);
        StepsBoth(st, st1, st2, {p});
        if rc == Success || rc == MemberExists {
          StaysIssued(st1, st2, p);
          FillElementsSteps(host, st2, p, item.next, index + 1, depth);
          StepsBoth(st, st2, FillElements(host, st2, p, item.next, index + 1, depth).0, {p});
        }
      }
    }
  }

  // -------------------- the graph of a tree --------------------

  /** The k-th identifier; the builds below never read past the stream. */
  function IdAt(ids: seq<Id>, k: nat): Id {
    if k < |ids| then ids[k] else seq(PTR_LEN - 1, _ => 0)
  }

  /** The value stored for the node whose containers are numbered from k. */
  function EncAt(ids: seq<Id>, k: nat, node: Json): (v: Bytes)
    ensures WfValue(v)
  {
    if IsContainer(node) then RefEncoding(Ptr(KindOf(node), IdAt(ids, k))) else LeafEncoding(node)
  }

  /** An object's members; of pairs with the same key the last one counts. */
  function MemberMap(ids: seq<Id>, k: nat, kv: Nodes): (m: map<Bytes, Bytes>)
    ensures m.Keys == Keys(kv)
    decreases kv
  {
    match kv
    case Nil => map[]
    case Cons(name, value, next) =>
      map[name := EncAt(ids, k, value)] + MemberMap(ids, k + Containers(value), next)
  }

  function ElementSet(ids: seq<Id>, k: nat, item: Nodes): set<Bytes>
    decreases item
  {
    match item
    case Nil => {}
    case Cons(_, value, next) => {EncAt(ids, k, value)} + ElementSet(ids, k + Containers(value), next)
  }

  /** The store holds the tree's graph: each container's entity has exactly its items. */
  ghost predicate Holds(s: Store, ids: seq<Id>, k: nat, node: Json)
    decreases node
  {
    IsContainer(node) ==>
      var p := Ptr(KindOf(node), IdAt(ids, k));
      && (if node.JObject? then Members(s, p) == MemberMap(ids, k + 1, node.child) && Items(s, p) == Keys(node.child)
          else Items(s, p) == ElementSet(ids, k + 1, node.child))
      && HoldsAll(s, ids, k + 1, node.child)
  }

  ghost predicate HoldsAll(s: Store, ids: seq<Id>, k: nat, nodes: Nodes)
    decreases nodes
  {
    match nodes
    case Nil => true
    case Cons(_, value, next) => Holds(s, ids, k, value) && HoldsAll(s, ids, k + Containers(value), next)
  }

  /** Whether the entities numbered [a, b) read the same in both stores. */
  ghost predicate SameRange(s: Store, t: Store, ids: seq<Id>, a: nat, b: nat)
  {
    forall i | a <= i < b :: Same(s, t, Ptr(OBJ, IdAt(ids, i))) && Same(s, t, Ptr(SET, IdAt(ids, i)))
  }

  lemma {:induction false} HoldsFrame(s: Store, t: Store, ids: seq<Id>, k: nat, node: Json)
    requires Holds(s, ids, k, node)
    requires SameRange(s, t, ids, k, k + Containers(node))
    ensures Holds(t, ids, k, node)
    decreases node
  {
    if IsContainer(node) {
      assert Same(s, t, Ptr(OBJ, IdAt(ids, k))) && Same(s, t, Ptr(SET, IdAt(ids, k)));
      HoldsAllFrame(s, t, ids, k + 1, node.child);
    }
  }

  lemma {:induction false} HoldsAllFrame(s: Store, t: Store, ids: seq<Id>, k: nat, nodes: Nodes)
    requires HoldsAll(s, ids, k, nodes)
    requires SameRange(s, t, ids, k, k + ContainersAll(nodes))
    ensures HoldsAll(t, ids, k, nodes)
    decreases nodes
  {
    if nodes.Cons? {
      HoldsFrame(s, t, ids, k, nodes.value);
      HoldsAllFrame(s, t, ids, k + Containers(nodes.value), nodes.next);
    }
  }

  /** Later steps of a build leave the entities issued before them alone. */
  lemma EarlierRangeIsSame(st: State, st': State, p: Ptr, a: nat)
    requires Fresh(st) && Steps(st, st', {p}) && a <= st.next
    requires forall i | a <= i < st.next :: st.ids[i] != p.id
    ensures SameRange(st.store, st'.store, st.ids, a, st.next)
  {
    forall i, kind | a <= i < st.next && kind in {OBJ, SET}
      ensures Same(st.store, st'.store, Ptr(kind, IdAt(st.ids, i)))
    {
      var q := Ptr(kind, IdAt(st.ids, i));
      assert q.id == st.ids[i];
      assert !IssuedIn(st.ids, st.next, st'.next, q);
    }
    forall i | a <= i < st.next
      ensures Same(st.store, st'.store, Ptr(OBJ, IdAt(st.ids, i))) && Same(st.store, st'.store, Ptr(SET, IdAt(st.ids, i)))
    {
      assert OBJ in {OBJ, SET} && SET in {OBJ, SET};
    }
  }

  /** An older entity's own pointer is not in a range issued later. */
  lemma OlderIsOutside(st: State, st': State, p: Ptr)
    requires st'.ids == st.ids && st.next <= st'.next <= |st.ids| && !Unissued(st, p)
    ensures forall i | st.next <= i < st'.next :: st.ids[i] != p.id
    ensures !IssuedIn(st.ids, st.next, st'.next, p)
  {
  }

  lemma NothingYet(s: Store, p: Ptr)
    requires WfStore(s) && !Exists(s, p)
    ensures Items(s, p) == {} && Members(s, p) == map[]
  {
  }

  lemma InvFacts(st: State)
    requires Inv(st)
    ensures WfStore(st.store) && st.next <= |st.ids|
  {
  }

  /** The definitions above, one sibling at a time. */
  lemma Siblings(s: Store, ids: seq<Id>, k: nat, nodes: Nodes)
    ensures nodes.Nil? ==> ContainersAll(nodes) == 0 && MemberMap(ids, k, nodes) == map[] && Keys(nodes) == {}
                           && ElementSet(ids, k, nodes) == {} && HoldsAll(s, ids, k, nodes)
    ensures nodes.Cons? ==>
              var k1 := k + Containers(nodes.value);
              && k + ContainersAll(nodes) == k1 + ContainersAll(nodes.next)
              && MemberMap(ids, k, nodes) == map[nodes.key := EncAt(ids, k, nodes.value)] + MemberMap(ids, k1, nodes.next)
              && Keys(nodes) == {nodes.key} + Keys(nodes.next)
              && ElementSet(ids, k, nodes) == {EncAt(ids, k, nodes.value)} + ElementSet(ids, k1, nodes.next)
              && (HoldsAll(s, ids, k, nodes) <==> Holds(s, ids, k, nodes.value) && HoldsAll(s, ids, k1, nodes.next))
  {
    hide Holds, EncAt, Containers;
  }

  /** One round of the member loop, when it does not fail. */
  lemma MemberRound(host: Host, st: State, p: Ptr, kv: Nodes, depth: nat)
    requires FillMembers(host, st, p, kv, depth).1.None?
    ensures kv.Nil? ==> FillMembers(host, st, p, kv, depth).0 == st
    ensures kv.Cons? ==>
              var (st1, b) := BuildValue(host, st, kv.value, depth);
              && b.Built?
              && var (st2, rc) := MemberPut(st1, p, kv.key, b.bytes);
                 rc == Success && FillMembers(host, st, p, kv, depth) == FillMembers(host, st2, p, kv.next, depth)
  {
  }

  /** One round of the element loop, when it does not fail. */
  lemma ElementRound(host: Host, st: State, p: Ptr, item: Nodes, index: nat, depth: nat)
    requires FillElements(host, st, p, item, index, depth).1.None?
    ensures item.Nil? ==> FillElements(host, st, p, item, index, depth).0 == st
    ensures item.Cons? ==>
              var (st1, b) := BuildValue(host, st, item.value, depth);
              && b.Built?
              && var (st2, rc) := SetAddItem(st1, p, b.bytes);
                 && Items(st2.store, p) == Items(st1.store, p) + {b.bytes}
                 && FillElements(host, st, p, item, index, depth) == FillElements(host, st2, p, item.next, index + 1, depth)
  {
  }

  lemma JoinEmpty(m: map<Bytes, Bytes>)
    ensures map[] + m == m
  {
  }

  lemma OneNode(s: Store, ids: seq<Id>, k: nat, node: Json)
    ensures IsContainer(node) <==> node.JObject? || node.JArray?
    ensures !IsContainer(node) ==> Containers(node) == 0 && EncAt(ids, k, node) == LeafEncoding(node) && Holds(s, ids, k, node)
    ensures IsContainer(node) ==>
              var p := Ptr(KindOf(node), IdAt(ids, k));
              && KindOf(node) == (if node.JObject? then OBJ else SET)
              && Containers(node) == 1 + ContainersAll(node.child)
              && EncAt(ids, k, node) == RefEncoding(p)
              && (Holds(s, ids, k, node) <==>
                    && (if node.JObject? then Members(s, p) == MemberMap(ids, k + 1, node.child) && Items(s, p) == Keys(node.child)
                        else Items(s, p) == ElementSet(ids, k + 1, node.child))
                    && HoldsAll(s, ids, k + 1, node.child))
  {
  }

  /** What a successful build of a container did first and last. */
  lemma ContainerBuild(host: Host, st: State, node: Json, depth: nat)
    requires Inv(st) && IsContainer(node) && BuildValue(host, st, node, depth).1.Built?
    ensures var st1 := st.(next := st.next + 1);
            var p := Ptr(KindOf(node), IdAt(st.ids, st.next));
            var (st2, failed) := if node.JObject? then FillMembers(host, st1, p, node.child, depth + 1)
                                 else FillElements(host, st1, p, node.child, 0, depth + 1);
            && Inv(st1) && !Unissued(st1, p) && Items(st1.store, p) == {} && Members(st1.store, p) == map[]
            && failed.None? && BuildValue(host, st, node, depth) == (st2, Built(RefEncoding(p)))
  {
    CreateKeepsInv(st, KindOf(node));
    NothingYet(st.store, Create(st, KindOf(node)).1.value);
  }

  /**
   A successful build takes one identifier per container and leaves exactly the
   tree's graph; `BuildSteps` adds that nothing older changes.
   */
  lemma {:induction false} BuildLayout(host: Host, st: State, node: Json, depth: nat)
    requires Inv(st) && BuildValue(host, st, node, depth).1.Built?
    ensures var (st', b) := BuildValue(host, st, node, depth);
            && st'.next == st.next + Containers(node) <= |st.ids| && st'.ids == st.ids
            && b.bytes == EncAt(st.ids, st.next, node)
            && Holds(st'.store, st.ids, st.next, node)
    decreases node, 1
  {
    hide *;
    InvFacts(st);
    var ids, k := st.ids, st.next;
    OneNode(BuildValue(host, st, node, depth).0.store, ids, k, node);
    if IsContainer(node) {
      ContainerBuild(host, st, node, depth);
      var st1 := st.(next := st.next + 1);
      var p := Ptr(KindOf(node), IdAt(ids, k));
      if node.JObject? {
        FillMembersLayout(host, st1, p, node.child, depth + 1);
        JoinEmpty(MemberMap(ids, k + 1, node.child));
      } else {
        FillElementsLayout(host, st1, p, node.child, 0, depth + 1);
      }
    } else {
      LeafBuild(host, st, node, depth);
    }
  }

  /** One built value among an entity's items: what the rest of the loop relies on. */
  lemma BuiltItem(host: Host, st: State, p: Ptr, node: Json, depth: nat)
    requires Inv(st) && !Unissued(st, p)
    ensures var (st1, b) := BuildValue(host, st, node, depth);
            && Inv(st1) && !Unissued(st1, p) && (b.Built? ==> WfValue(b.bytes))
            && Items(st1.store, p) == Items(st.store, p) && Members(st1.store, p) == Members(st.store, p)
            && st1.ids == st.ids && st.next <= st1.next <= |st.ids|
            && forall i | st.next <= i < st1.next :: st.ids[i] != p.id
  {
    var st1 := BuildValue(host, st, node, depth).0;
    BuildSteps(host, st, node, depth);
    OlderIsOutside(st, st1, p);
    assert Same(st.store, st1.store, p);
    StaysIssued(st, st1, p);
  }

  /** Writing a member and the ones after it leaves the entities of its value alone. */
  lemma LaterMembersKeep(host: Host, st: State, st1: State, p: Ptr, name: Bytes, enc: Bytes, next: Nodes, depth: nat)
    requires Inv(st1) && !Unissued(st1, p) && WfValue(enc)
    requires st1.ids == st.ids && st.next <= st1.next
    requires forall i | st.next <= i < st1.next :: st.ids[i] != p.id
    ensures var st2 := MemberPut(st1, p, name, enc).0;
            && Inv(st2) && !Unissued(st2, p) && st2.ids == st1.ids && st2.next == st1.next
            && SameRange(st1.store, FillMembers(host, st2, p, next, depth).0.store, st.ids, st.next, st1.next)
  {
    var st2 := MemberPut(st1, p, name, enc).0;
    var st3 := FillMembers(host, st2, p, next, depth).0;
    StepsOfPut(st1, p, name, enc);
    StaysIssued(st1, st2, p);
    FillMembersSteps(host, st2, p, next, depth);
    StepsBoth(st1, st2, st3, {p});
    EarlierRangeIsSame(st1, st3, p, st.next);
  }

  lemma LaterElementsKeep(host: Host, st: State, st1: State, p: Ptr, enc: Bytes, next: Nodes, index: nat, depth: nat)
    requires Inv(st1) && !Unissued(st1, p) && WfValue(enc)
    requires st1.ids == st.ids && st.next <= st1.next
    requires forall i | st.next <= i < st1.next :: st.ids[i] != p.id
    ensures var st2 := SetAddItem(st1, p, enc).0;
            && Inv(st2) && !Unissued(st2, p) && st2.ids == st1.ids && st2.next == st1.next
            && SameRange(st1.store, FillElements(host, st2, p, next, index, depth).0.store, st.ids, st.next, st1.next)
  {
    var st2 := SetAddItem(st1, p, enc).0;
    var st3 := FillElements(host, st2, p, next, index, depth).0;
    StepsOfAdd(st1, p, enc);
    StaysIssued(st1, st2, p);
    FillElementsSteps(host, st2, p, next, index, depth);
    StepsBoth(st1, st2, st3, {p});
    EarlierRangeIsSame(st1, st3, p, st.next);
  }

  lemma LaterPairsWin(m: map<Bytes, Bytes>, name: Bytes, v: Bytes, rest: map<Bytes, Bytes>)
    ensures m[name := v] + rest == m + (map[name := v] + rest)
  {
  }

  lemma {:induction false} FillMembersLayout(host: Host, st: State, p: Ptr, kv: Nodes, depth: nat)
    requires Inv(st) && !Unissued(st, p) && FillMembers(host, st, p, kv, depth).1.None?
    ensures var st' := FillMembers(host, st, p, kv, depth).0;
            && st'.next == st.next + ContainersAll(kv) <= |st.ids| && st'.ids == st.ids
            && Members(st'.store, p) == Members(st.store, p) + MemberMap(st.ids, st.next, kv)
            && Items(st'.store, p) == Items(st.store, p) + Keys(kv)
            && HoldsAll(st'.store, st.ids, st.next, kv)
    decreases kv, 0
  {
    hide *;
    InvFacts(st);
    MemberRound(host, st, p, kv, depth);
    var st' := FillMembers(host, st, p, kv, depth).0;
    Siblings(st'.store, st.ids, st.next, kv);
    if kv.Cons? {
      var (st1, b) := BuildValue(host, st, kv.value, depth);
      var st2 := MemberPut(st1, p, kv.key, b.bytes).0;
      BuiltItem(host, st, p, kv.value, depth);
      BuildLayout(host, st, kv.value, depth);
      LaterMembersKeep(host, st, st1, p, kv.key, b.bytes, kv.next, depth);
      InvFacts(st1);
      PutEffect(st1, p, kv.key, b.bytes);
      FillMembersLayout(host, st2, p, kv.next, depth);
      HoldsFrame(st1.store, st'.store, st.ids, st.next, kv.value);
      LaterPairsWin(Members(st.store, p), kv.key, b.bytes, MemberMap(st.ids, st1.next, kv.next));
    }
  }

  lemma {:induction false} FillElementsLayout(host: Host, st: State, p: Ptr, item: Nodes, index: nat, depth: nat)
    requires Inv(st) && !Unissued(st, p) && FillElements(host, st, p, item, index, depth).1.None?
    ensures var st' := FillElements(host, st, p, item, index, depth).0;
            && st'.next == st.next + ContainersAll(item) <= |st.ids| && st'.ids == st.ids
            && Items(st'.store, p) == Items(st.store, p) + ElementSet(st.ids, st.next, item)
            && HoldsAll(st'.store, st.ids, st.next, item)
    decreases item, 0
  {
    hide *;
    InvFacts(st);
    ElementRound(host, st, p, item, index, depth);
    var st' := FillElements(host, st, p, item, index, depth).0;
    Siblings(st'.store, st.ids, st.next, item);
    if item.Cons? {
      var (st1, b) := BuildValue(host, st, item.value, depth);
      var st2 := SetAddItem(st1, p, b.bytes).0;
      BuiltItem(host, st, p, item.value, depth);
      BuildLayout(host, st, item.value, depth);
      LaterElementsKeep(host, st, st1, p, b.bytes, item.next, index + 1, depth);
      FillElementsLayout(host, st2, p, item.next, index + 1, depth);
      HoldsFrame(st1.store, st'.store, st.ids, st.next, item.value);
    }
  }
}
