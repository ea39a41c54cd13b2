/** Who refers to whom after a build: the new entities form a tree. */
module References {
  import opened CBytes
  import opened ErrorCodes
  import opened Json
  import opened Platform
  import opened Codec
  import opened Engine
  import opened NestedValue
  import opened Layout
  import opened ReadBack

  /** A spot that can hold a reference: a member of an object, or an element of a set. */
  datatype Place = MemberPlace(owner: Ptr, name: Bytes) | ElementPlace(owner: Ptr)

  predicate RefAt(s: Store, place: Place, q: Ptr) {
    match place
    case MemberPlace(p, name) => p.kind == OBJ && name in Members(s, p) && Members(s, p)[name] == RefEncoding(q)
    case ElementPlace(p) => p.kind == SET && RefEncoding(q) in Items(s, p)
  }

  /** The pointer of the container numbered k. */
  function PtrHere(ids: seq<Id>, k: nat, node: Json): Ptr
    requires IsContainer(node)
  {
    Ptr(KindOf(node), IdAt(ids, k))
  }

  // -------------------- the tree's own edges --------------------

  /** The entities of a tree. */
  predicate InTree(ids: seq<Id>, k: nat, node: Json, p: Ptr)
    decreases node
  {
    IsContainer(node) && (p == PtrHere(ids, k, node) || InTreeAll(ids, k + 1, node.child, p))
  }

  predicate InTreeAll(ids: seq<Id>, k: nat, nodes: Nodes, p: Ptr)
    decreases nodes
  {
    nodes.Cons? && (InTree(ids, k, nodes.value, p) || InTreeAll(ids, k + Containers(nodes.value), nodes.next, p))
  }

  /** The last pair named `name` holds container q. */
  predicate PairHolds(ids: seq<Id>, k: nat, kv: Nodes, name: Bytes, q: Ptr)
    decreases kv
  {
    kv.Cons? &&
    ( || (IsContainer(kv.value) && q == PtrHere(ids, k, kv.value) && kv.key == name && name !in Keys(kv.next))
      || PairHolds(ids, k + Containers(kv.value), kv.next, name, q))
  }

  /** Container q is an element. */
  predicate ElementHolds(ids: seq<Id>, k: nat, item: Nodes, q: Ptr)
    decreases item
  {
    item.Cons? &&
    ( || (IsContainer(item.value) && q == PtrHere(ids, k, item.value))
      || ElementHolds(ids, k + Containers(item.value), item.next, q))
  }

  predicate DirectEdge(ids: seq<Id>, k: nat, node: Json, place: Place, q: Ptr)
    requires IsContainer(node)
  {
    place.owner == PtrHere(ids, k, node) &&
    if node.JObject? then place.MemberPlace? && PairHolds(ids, k + 1, node.child, place.name, q)
    else place.ElementPlace? && ElementHolds(ids, k + 1, node.child, q)
  }

  /** The tree puts a reference to q at this place. */
  predicate Edge(ids: seq<Id>, k: nat, node: Json, place: Place, q: Ptr)
    decreases node
  {
    IsContainer(node) && (DirectEdge(ids, k, node, place, q) || EdgeIn(ids, k + 1, node.child, place, q))
  }

  predicate EdgeIn(ids: seq<Id>, k: nat, nodes: Nodes, place: Place, q: Ptr)
    decreases nodes
  {
    nodes.Cons? && (Edge(ids, k, nodes.value, place, q) || EdgeIn(ids, k + Containers(nodes.value), nodes.next, place, q))
  }

  // -------------------- numbering --------------------

  ghost predicate NumberedIn(ids: seq<Id>, a: nat, b: nat, p: Ptr) {
    exists i :: a <= i < b && IdAt(ids, i) == p.id
  }

  lemma Disjoint(ids: seq<Id>, a: nat, b: nat, c: nat, d: nat, p: Ptr)
    requires DistinctIds(ids) && b <= c && d <= |ids| && NumberedIn(ids, a, b, p)
    ensures !NumberedIn(ids, c, d, p)
  {
  }

  lemma {:induction false} TreeNumbers(ids: seq<Id>, k: nat, node: Json, p: Ptr)
    requires InTree(ids, k, node, p)
    ensures NumberedIn(ids, k, k + Containers(node), p)
    decreases node
  {
    if p == PtrHere(ids, k, node) {
      assert IdAt(ids, k) == p.id;
    } else {
      TreeNumbersAll(ids, k + 1, node.child, p);
    }
  }

  lemma {:induction false} TreeNumbersAll(ids: seq<Id>, k: nat, nodes: Nodes, p: Ptr)
    requires InTreeAll(ids, k, nodes, p)
    ensures NumberedIn(ids, k, k + ContainersAll(nodes), p)
    decreases nodes
  {
    if InTree(ids, k, nodes.value, p) {
      TreeNumbers(ids, k, nodes.value, p);
    } else {
      TreeNumbersAll(ids, k + Containers(nodes.value), nodes.next, p);
    }
  }

  /** The owner of an edge and its target are entities of the tree. */
  lemma {:induction false} EdgeEnds(ids: seq<Id>, k: nat, node: Json, place: Place, q: Ptr)
    requires Edge(ids, k, node, place, q)
    ensures InTree(ids, k, node, place.owner) && InTreeAll(ids, k + 1, node.child, q)
    decreases node
  {
    if DirectEdge(ids, k, node, place, q) {
      if node.JObject? { PairTarget(ids, k + 1, node.child, place.name, q); } else { ElementTarget(ids, k + 1, node.child, q); }
    } else {
      EdgeInEnds(ids, k + 1, node.child, place, q);
    }
  }

  lemma {:induction false} EdgeInEnds(ids: seq<Id>, k: nat, nodes: Nodes, place: Place, q: Ptr)
    requires EdgeIn(ids, k, nodes, place, q)
    ensures InTreeAll(ids, k, nodes, place.owner) && InTreeAll(ids, k, nodes, q)
    decreases nodes
  {
    if Edge(ids, k, nodes.value, place, q) {
      EdgeEnds(ids, k, nodes.value, place, q);
    } else {
      EdgeInEnds(ids, k + Containers(nodes.value), nodes.next, place, q);
    }
  }

  lemma {:induction false} PairTarget(ids: seq<Id>, k: nat, kv: Nodes, name: Bytes, q: Ptr)
    requires PairHolds(ids, k, kv, name, q)
    ensures InTreeAll(ids, k, kv, q) && name in Keys(kv)
    decreases kv
  {
    if PairHolds(ids, k + Containers(kv.value), kv.next, name, q) {
      PairTarget(ids, k + Containers(kv.value), kv.next, name, q);
    }
  }

  lemma {:induction false} ElementTarget(ids: seq<Id>, k: nat, item: Nodes, q: Ptr)
    requires ElementHolds(ids, k, item, q)
    ensures InTreeAll(ids, k, item, q)
    decreases item
  {
    if ElementHolds(ids, k + Containers(item.value), item.next, q) {
      ElementTarget(ids, k + Containers(item.value), item.next, q);
    }
  }

  lemma NoEdgeFrom(ids: seq<Id>, k: nat, nodes: Nodes, place: Place, q: Ptr)
    requires !NumberedIn(ids, k, k + ContainersAll(nodes), place.owner)
    ensures !EdgeIn(ids, k, nodes, place, q)
  {
    if EdgeIn(ids, k, nodes, place, q) {
      EdgeInEnds(ids, k, nodes, place, q);
      TreeNumbersAll(ids, k, nodes, place.owner);
    }
  }

  lemma NoEdgeTo(ids: seq<Id>, k: nat, nodes: Nodes, place: Place, q: Ptr)
    requires !NumberedIn(ids, k, k + ContainersAll(nodes), q)
    ensures !EdgeIn(ids, k, nodes, place, q)
  {
    if EdgeIn(ids, k, nodes, place, q) {
      EdgeInEnds(ids, k, nodes, place, q);
      TreeNumbersAll(ids, k, nodes, q);
    }
  }

  // -------------------- the store has exactly these edges --------------------

  lemma {:induction false} MemberRefs(ids: seq<Id>, k: nat, kv: Nodes, name: Bytes, q: Ptr)
    ensures name in MemberMap(ids, k, kv) && MemberMap(ids, k, kv)[name] == RefEncoding(q) <==> PairHolds(ids, k, kv, name, q)
    decreases kv
  {
    hide EncAt, RefEncoding, InTreeAll;
    if kv.Cons? {
      var k1 := k + Containers(kv.value);
      MemberRefs(ids, k1, kv.next, name, q);
      if PairHolds(ids, k1, kv.next, name, q) { PairTarget(ids, k1, kv.next, name, q); }
      EncRefs(ids, k, kv.value, q);
    }
  }

  lemma EncRefs(ids: seq<Id>, k: nat, node: Json, q: Ptr)
    ensures EncAt(ids, k, node) == RefEncoding(q) <==> IsContainer(node) && q == PtrHere(ids, k, node)
  {
    if IsContainer(node) {
      if q != PtrHere(ids, k, node) { RefsDiffer(q, PtrHere(ids, k, node)); }
    } else {
      RefIsNoLeaf(q, node);
    }
  }

  lemma {:induction false} ElementRefs(ids: seq<Id>, k: nat, item: Nodes, q: Ptr)
    ensures RefEncoding(q) in ElementSet(ids, k, item) <==> ElementHolds(ids, k, item, q)
    decreases item
  {
    hide EncAt, RefEncoding;
    if item.Cons? {
      ElementRefs(ids, k + Containers(item.value), item.next, q);
      EncRefs(ids, k, item.value, q);
    }
  }

  /** At the places of a held tree's own entities, the references are exactly the tree's edges. */
  lemma {:induction false} RefsAreEdges(s: Store, ids: seq<Id>, k: nat, node: Json, place: Place, q: Ptr)
    requires Holds(s, ids, k, node) && DistinctIds(ids) && k + Containers(node) <= |ids|
    requires InTree(ids, k, node, place.owner)
    ensures RefAt(s, place, q) <==> Edge(ids, k, node, place, q)
    decreases node
  {
    hide InTreeAll, DistinctIds, HoldsAll, EdgeIn, MemberMap, ElementSet;
    var p := PtrHere(ids, k, node);
    if place.owner == p {
      assert IdAt(ids, k) == p.id;
      Disjoint(ids, k, k + 1, k + 1, k + Containers(node), p);
      NoEdgeFrom(ids, k + 1, node.child, place, q);
      if node.JObject? {
        if place.MemberPlace? { MemberRefs(ids, k + 1, node.child, place.name, q); }
      } else {
        ElementRefs(ids, k + 1, node.child, q);
      }
    } else {
      RefsAreEdgesIn(s, ids, k + 1, node.child, place, q);
    }
  }

  lemma {:induction false} RefsAreEdgesIn(s: Store, ids: seq<Id>, k: nat, nodes: Nodes, place: Place, q: Ptr)
    requires HoldsAll(s, ids, k, nodes) && DistinctIds(ids) && k + ContainersAll(nodes) <= |ids|
    requires InTreeAll(ids, k, nodes, place.owner)
    ensures RefAt(s, place, q) <==> EdgeIn(ids, k, nodes, place, q)
    decreases nodes
  {
    hide RefAt, Edge, InTree, Holds, DistinctIds;
    var k1 := k + Containers(nodes.value);
    if InTree(ids, k, nodes.value, place.owner) {
      TreeNumbers(ids, k, nodes.value, place.owner);
      RefsAreEdges(s, ids, k, nodes.value, place, q);
      Disjoint(ids, k, k1, k1, k + ContainersAll(nodes), place.owner);
      NoEdgeFrom(ids, k1, nodes.next, place, q);
    } else {
      RefsAreEdgesIn(s, ids, k1, nodes.next, place, q);
      if Edge(ids, k, nodes.value, place, q) {
        EdgeEnds(ids, k, nodes.value, place, q);
      }
    }
  }

  // -------------------- one parent each --------------------

  lemma {:induction false} PairIsElement(ids: seq<Id>, k: nat, kv: Nodes, name: Bytes, q: Ptr)
    requires PairHolds(ids, k, kv, name, q)
    ensures ElementHolds(ids, k, kv, q)
    decreases kv
  {
    if PairHolds(ids, k + Containers(kv.value), kv.next, name, q) {
      PairIsElement(ids, k + Containers(kv.value), kv.next, name, q);
    }
  }

  lemma {:induction false} OnePairHolds(ids: seq<Id>, k: nat, kv: Nodes, q: Ptr, a: Bytes, b: Bytes)
    requires DistinctIds(ids) && k + ContainersAll(kv) <= |ids|
    requires PairHolds(ids, k, kv, a, q) && PairHolds(ids, k, kv, b, q)
    ensures a == b
    decreases kv
  {
    var k1 := k + Containers(kv.value);
    if IsContainer(kv.value) && q == PtrHere(ids, k, kv.value) {
      assert IdAt(ids, k) == q.id;
      Disjoint(ids, k, k1, k1, k + ContainersAll(kv), q);
      NoPairTo(ids, k1, kv.next, a, q);
      NoPairTo(ids, k1, kv.next, b, q);
    } else {
      OnePairHolds(ids, k1, kv.next, q, a, b);
    }
  }

  lemma NoPairTo(ids: seq<Id>, k: nat, kv: Nodes, name: Bytes, q: Ptr)
    requires !NumberedIn(ids, k, k + ContainersAll(kv), q)
    ensures !PairHolds(ids, k, kv, name, q)
  {
    if PairHolds(ids, k, kv, name, q) {
      PairTarget(ids, k, kv, name, q);
      TreeNumbersAll(ids, k, kv, q);
    }
  }

  /** A direct child has no edge from deeper in the tree. */
  lemma {:induction false} ChildHasNoEdgeBelow(ids: seq<Id>, k: nat, nodes: Nodes, place: Place, q: Ptr)
    requires DistinctIds(ids) && k + ContainersAll(nodes) <= |ids|
    requires ElementHolds(ids, k, nodes, q)
    ensures !EdgeIn(ids, k, nodes, place, q)
    decreases nodes
  {
    var k1 := k + Containers(nodes.value);
    var end := k + ContainersAll(nodes);
    if IsContainer(nodes.value) && q == PtrHere(ids, k, nodes.value) {
      assert IdAt(ids, k) == q.id;
      Disjoint(ids, k, k + 1, k + 1, end, q);
      NoTreeEdgeTo(ids, k, nodes.value, place, q);
      NoEdgeTo(ids, k1, nodes.next, place, q);
    } else {
      ElementTarget(ids, k1, nodes.next, q);
      TreeNumbersAll(ids, k1, nodes.next, q);
      if IsContainer(nodes.value) && NumberedIn(ids, k + 1, k1, q) { Disjoint(ids, k + 1, k1, k1, end, q); }
      NoTreeEdgeTo(ids, k, nodes.value, place, q);
      ChildHasNoEdgeBelow(ids, k1, nodes.next, place, q);
    }
  }

  lemma NoTreeEdgeTo(ids: seq<Id>, k: nat, node: Json, place: Place, q: Ptr)
    requires !NumberedIn(ids, k + 1, k + Containers(node), q)
    ensures !Edge(ids, k, node, place, q)
  {
    if Edge(ids, k, node, place, q) {
      EdgeEnds(ids, k, node, place, q);
      TreeNumbersAll(ids, k + 1, node.child, q);
    }
  }

  /** No entity has two edges into it. */
  lemma {:induction false} OneEdge(ids: seq<Id>, k: nat, node: Json, q: Ptr, a: Place, b: Place)
    requires DistinctIds(ids) && k + Containers(node) <= |ids|
    requires Edge(ids, k, node, a, q) && Edge(ids, k, node, b, q)
    ensures a == b
    decreases node
  {
    if DirectEdge(ids, k, node, a, q) || DirectEdge(ids, k, node, b, q) {
      var direct := if DirectEdge(ids, k, node, a, q) then a else b;
      if node.JObject? { PairIsElement(ids, k + 1, node.child, direct.name, q); }
      ChildHasNoEdgeBelow(ids, k + 1, node.child, a, q);
      ChildHasNoEdgeBelow(ids, k + 1, node.child, b, q);
      if node.JObject? { OnePairHolds(ids, k + 1, node.child, q, a.name, b.name); }
    } else {
      OneEdgeBelow(ids, k + 1, node.child, q, a, b);
    }
  }

  lemma {:induction false} OneEdgeBelow(ids: seq<Id>, k: nat, nodes: Nodes, q: Ptr, a: Place, b: Place)
    requires DistinctIds(ids) && k + ContainersAll(nodes) <= |ids|
    requires EdgeIn(ids, k, nodes, a, q) && EdgeIn(ids, k, nodes, b, q)
    ensures a == b
    decreases nodes
  {
    var k1 := k + Containers(nodes.value);
    if Edge(ids, k, nodes.value, a, q) || Edge(ids, k, nodes.value, b, q) {
      var place := if Edge(ids, k, nodes.value, a, q) then a else b;
      EdgeEnds(ids, k, nodes.value, place, q);
      TreeNumbers(ids, k, nodes.value, q);
      Disjoint(ids, k, k1, k1, k + ContainersAll(nodes), q);
      NoEdgeTo(ids, k1, nodes.next, a, q);
      NoEdgeTo(ids, k1, nodes.next, b, q);
      OneEdge(ids, k, nodes.value, q, a, b);
    } else {
      OneEdgeBelow(ids, k1, nodes.next, q, a, b);
    }
  }

  // -------------------- every container but the root has its edge --------------------

  /** No pair that holds a container is followed by a pair with the same key. */
  predicate NoneOverwritten(node: Json) {
    IsContainer(node) ==> NoneOverwrittenIn(node.child, node.JObject?)
  }

  predicate NoneOverwrittenIn(nodes: Nodes, inObject: bool) {
    nodes.Cons? ==>
      && (inObject && IsContainer(nodes.value) ==> nodes.key !in Keys(nodes.next))
      && NoneOverwritten(nodes.value) && NoneOverwrittenIn(nodes.next, inObject)
  }

  lemma {:induction false} EdgeTo(ids: seq<Id>, k: nat, node: Json, q: Ptr) returns (place: Place)
    requires IsContainer(node) && InTreeAll(ids, k + 1, node.child, q) && NoneOverwritten(node)
    ensures Edge(ids, k, node, place, q)
    decreases node, 1
  {
    var p := PtrHere(ids, k, node);
    place := EdgeToChild(ids, k + 1, node.child, node.JObject?, p, q);
  }

  lemma {:induction false} EdgeToChild(ids: seq<Id>, k: nat, nodes: Nodes, inObject: bool, p: Ptr, q: Ptr) returns (place: Place)
    requires InTreeAll(ids, k, nodes, q) && NoneOverwrittenIn(nodes, inObject)
    ensures || EdgeIn(ids, k, nodes, place, q)
            || (place.owner == p && if inObject then place.MemberPlace? && PairHolds(ids, k, nodes, place.name, q)
                                    else place.ElementPlace? && ElementHolds(ids, k, nodes, q))
    decreases nodes, 0
  {
    if !InTree(ids, k, nodes.value, q) {
      place := EdgeToChild(ids, k + Containers(nodes.value), nodes.next, inObject, p, q);
    } else if q == PtrHere(ids, k, nodes.value) {
      place := if inObject then MemberPlace(p, nodes.key) else ElementPlace(p);
    } else {
      place := EdgeTo(ids, k, nodes.value, q);
    }
  }

  lemma NoElementTo(ids: seq<Id>, k: nat, item: Nodes, q: Ptr)
    requires !NumberedIn(ids, k, k + ContainersAll(item), q)
    ensures !ElementHolds(ids, k, item, q)
  {
    if ElementHolds(ids, k, item, q) {
      ElementTarget(ids, k, item, q);
      TreeNumbersAll(ids, k, item, q);
    }
  }

  /** With an overwritten container there is an entity below the root that nothing refers to. */
  lemma {:induction false} Orphan(ids: seq<Id>, k: nat, node: Json) returns (q: Ptr)
    requires DistinctIds(ids) && k + Containers(node) <= |ids| && !NoneOverwritten(node)
    ensures IsContainer(node) && InTreeAll(ids, k + 1, node.child, q)
    ensures forall place :: !Edge(ids, k, node, place, q)
    decreases node, 1
  {
    q := OrphanIn(ids, k + 1, node.child, node.JObject?);
  }

  lemma {:induction false} OrphanIn(ids: seq<Id>, k: nat, nodes: Nodes, inObject: bool) returns (q: Ptr)
    requires DistinctIds(ids) && k + ContainersAll(nodes) <= |ids| && !NoneOverwrittenIn(nodes, inObject)
    ensures InTreeAll(ids, k, nodes, q)
    ensures forall place :: !EdgeIn(ids, k, nodes, place, q)
    ensures if inObject then forall name :: !PairHolds(ids, k, nodes, name, q) else !ElementHolds(ids, k, nodes, q)
    decreases nodes, 0
  {
    var value, next := nodes.value, nodes.next;
    var k1, end := k + Containers(value), k + ContainersAll(nodes);
    if inObject && IsContainer(value) && nodes.key in Keys(next) {
      q := PtrHere(ids, k, value);
      assert IdAt(ids, k) == q.id;
      Disjoint(ids, k, k1, k1, end, q);
      forall place ensures !EdgeIn(ids, k, nodes, place, q) { ChildHasNoEdgeBelow(ids, k, nodes, place, q); }
      forall name ensures !PairHolds(ids, k, nodes, name, q) { NoPairTo(ids, k1, next, name, q); }
    } else if !NoneOverwritten(value) {
      q := Orphan(ids, k, value);
      TreeNumbersAll(ids, k + 1, value.child, q);
      Disjoint(ids, k + 1, k1, k1, end, q);
      assert q != PtrHere(ids, k, value);
      forall place ensures !EdgeIn(ids, k, nodes, place, q) { NoEdgeTo(ids, k1, next, place, q); }
      forall name ensures !PairHolds(ids, k, nodes, name, q) { NoPairTo(ids, k1, next, name, q); }
      NoElementTo(ids, k1, next, q);
    } else {
      q := OrphanIn(ids, k1, next, inObject);
      TreeNumbersAll(ids, k1, next, q);
      assert !NumberedIn(ids, k, k1, q);
      forall place ensures !EdgeIn(ids, k, nodes, place, q) { NoTreeEdgeTo(ids, k, value, place, q); }
      assert IsContainer(value) ==> q != PtrHere(ids, k, value) && NumberedIn(ids, k, k1, PtrHere(ids, k, value)) by {
        if IsContainer(value) { assert PtrHere(ids, k, value).id == IdAt(ids, k); }
      }
    }
  }

  lemma {:induction false} DistinctKeysSuffice(nodes: Nodes, inObject: bool)
    requires DistinctKeysAll(nodes) && (inObject ==> DistinctKeys(nodes))
    ensures NoneOverwrittenIn(nodes, inObject)
    decreases nodes
  {
    if nodes.Cons? {
      if IsContainer(nodes.value) { DistinctKeysSuffice(nodes.value.child, nodes.value.JObject?); }
      DistinctKeysSuffice(nodes.next, inObject);
    }
  }

  /** Every object in the list's trees has distinct keys. */
  predicate DistinctKeysAll(nodes: Nodes) {
    nodes.Cons? ==>
      && (IsContainer(nodes.value) ==>
            (nodes.value.JObject? ==> DistinctKeys(nodes.value.child)) && DistinctKeysAll(nodes.value.child))
      && DistinctKeysAll(nodes.next)
  }

  // -------------------- the whole store --------------------

  /** A build changes no entity but the tree's own. */
  lemma {:induction false} BuildTouchesItsTree(host: Host, st: State, node: Json, depth: nat, q: Ptr)
    requires Inv(st) && BuildValue(host, st, node, depth).1.Built?
    requires !InTree(st.ids, st.next, node, q)
    ensures Same(st.store, BuildValue(host, st, node, depth).0.store, q)
    decreases node, 1
  {
    if IsContainer(node) {
      ContainerBuild(host, st, node, depth);
      var st1 := st.(next := st.next + 1);
      var p := PtrHere(st.ids, st.next, node);
      if node.JObject? {
        FillTouchesItsTree(host, st1, p, node.child, depth + 1, q);
      } else {
        FillElementsTouchItsTree(host, st1, p, node.child, 0, depth + 1, q);
      }
    }
  }

  lemma {:induction false} FillTouchesItsTree(host: Host, st: State, p: Ptr, kv: Nodes, depth: nat, q: Ptr)
    requires Inv(st) && !Unissued(st, p) && FillMembers(host, st, p, kv, depth).1.None?
    requires q != p && !InTreeAll(st.ids, st.next, kv, q)
    ensures Same(st.store, FillMembers(host, st, p, kv, depth).0.store, q)
    decreases kv, 0
  {
    hide *;
    MemberRound(host, st, p, kv, depth);
    TreeSiblings(st.ids, st.next, kv, q);
    if kv.Cons? {
      var (st1, b) := BuildValue(host, st, kv.value, depth);
      var st2 := MemberPut(st1, p, kv.key, b.bytes).0;
      BuiltItem(host, st, p, kv.value, depth);
      BuildLayout(host, st, kv.value, depth);
      LaterMembersKeep(host, st, st1, p, kv.key, b.bytes, kv.next, depth);
      BuildTouchesItsTree(host, st, kv.value, depth, q);
      PutElsewhere(st1, p, kv.key, b.bytes, q);
      FillTouchesItsTree(host, st2, p, kv.next, depth, q);
      SameChain(st.store, st1.store, st2.store, q);
      SameChain(st.store, st2.store, FillMembers(host, st, p, kv, depth).0.store, q);
    } else {
      SameSelf(st.store, q);
    }
  }

  lemma {:induction false} FillElementsTouchItsTree(host: Host, st: State, p: Ptr, item: Nodes, index: nat, depth: nat, q: Ptr)
    requires Inv(st) && !Unissued(st, p) && FillElements(host, st, p, item, index, depth).1.None?
    requires q != p && !InTreeAll(st.ids, st.next, item, q)
    ensures Same(st.store, FillElements(host, st, p, item, index, depth).0.store, q)
    decreases item, 0
  {
    hide *;
    ElementRound(host, st, p, item, index, depth);
    TreeSiblings(st.ids, st.next, item, q);
    if item.Cons? {
      var (st1, b) := BuildValue(host, st, item.value, depth);
      var st2 := SetAddItem(st1, p, b.bytes).0;
      BuiltItem(host, st, p, item.value, depth);
      BuildLayout(host, st, item.value, depth);
      LaterElementsKeep(host, st, st1, p, b.bytes, item.next, index + 1, depth);
      BuildTouchesItsTree(host, st, item.value, depth, q);
      AddElsewhere(st1, p, b.bytes, q);
      FillElementsTouchItsTree(host, st2, p, item.next, index + 1, depth, q);
      SameChain(st.store, st1.store, st2.store, q);
      SameChain(st.store, st2.store, FillElements(host, st, p, item, index, depth).0.store, q);
    } else {
      SameSelf(st.store, q);
    }
  }

  lemma TreeSiblings(ids: seq<Id>, k: nat, nodes: Nodes, q: Ptr)
    ensures InTreeAll(ids, k, nodes, q) <==>
              nodes.Cons? && (InTree(ids, k, nodes.value, q) || InTreeAll(ids, k + Containers(nodes.value), nodes.next, q))
  {
  }

  lemma SameChain(s: Store, t: Store, u: Store, q: Ptr)
    requires Same(s, t, q) && Same(t, u, q)
    ensures Same(s, u, q)
  {
  }

  /** Before a build, none of its tree's entities exists. */
  lemma TreeIsNew(st: State, node: Json, p: Ptr)
    requires Inv(st) && st.next + Containers(node) <= |st.ids| && InTree(st.ids, st.next, node, p)
    ensures !Exists(st.store, p) && Items(st.store, p) == {} && Members(st.store, p) == map[]
  {
    TreeNumbers(st.ids, st.next, node, p);
    assert Unissued(st, p);
  }

  /**
   Once the store holds a new tree and is otherwise unchanged, its references are those
   of before and, new, the edges of the tree: nothing else refers to anything new.
   */
  lemma ReferencesAfter(st: State, s: Store, node: Json, place: Place, q: Ptr)
    requires Inv(st) && st.next + Containers(node) <= |st.ids| && Holds(s, st.ids, st.next, node)
    requires !InTree(st.ids, st.next, node, place.owner) ==> Same(st.store, s, place.owner)
    ensures RefAt(s, place, q) <==> RefAt(st.store, place, q) || Edge(st.ids, st.next, node, place, q)
  {
    if InTree(st.ids, st.next, node, place.owner) {
      TreeIsNew(st, node, place.owner);
      RefsAreEdges(s, st.ids, st.next, node, place, q);
    } else if Edge(st.ids, st.next, node, place, q) {
      EdgeEnds(st.ids, st.next, node, place, q);
    }
  }

  /**
   Each entity of a tree but the root has exactly one edge into it, from its parent, and
   the root has none, unless a repeated key overwrites a container.
   */
  lemma OneParent(ids: seq<Id>, k: nat, node: Json, q: Ptr) returns (parent: Place)
    requires DistinctIds(ids) && k + Containers(node) <= |ids|
    requires InTree(ids, k, node, q) && NoneOverwritten(node)
    ensures forall place :: Edge(ids, k, node, place, q) <==> q != PtrHere(ids, k, node) && place == parent
  {
    if q == PtrHere(ids, k, node) {
      parent := ElementPlace(q);
      assert IdAt(ids, k) == q.id;
      Disjoint(ids, k, k + 1, k + 1, k + Containers(node), q);
      forall place ensures !Edge(ids, k, node, place, q) { NoTreeEdgeTo(ids, k, node, place, q); }
    } else {
      parent := EdgeTo(ids, k, node, q);
      forall place ensures Edge(ids, k, node, place, q) <==> place == parent {
        if Edge(ids, k, node, place, q) { OneEdge(ids, k, node, q, place, parent); }
      }
    }
  }

  lemma ReferencesAfterBuild(host: Host, st: State, node: Json, depth: nat, place: Place, q: Ptr)
    requires Inv(st) && BuildValue(host, st, node, depth).1.Built?
    ensures RefAt(BuildValue(host, st, node, depth).0.store, place, q) <==>
              RefAt(st.store, place, q) || Edge(st.ids, st.next, node, place, q)
  {
    BuildLayout(host, st, node, depth);
    if !InTree(st.ids, st.next, node, place.owner) { BuildTouchesItsTree(host, st, node, depth, place.owner); }
    ReferencesAfter(st, BuildValue(host, st, node, depth).0.store, node, place, q);
  }
}
