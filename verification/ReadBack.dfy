/** Reading a stored graph back as a tree, and the normal form a build stores. */
module ReadBack {
  import opened CBytes
  import opened ErrorCodes
  import opened Json
  import opened Platform
  import opened Codec
  import opened Engine
  import opened NestedValue
  import opened Layout

  /** What survives of a tree: texts, nulls, name maps, and bags of elements. */
  datatype Norm =
    | NText(text: Bytes)
    | NNull
    | NObject(members: map<Bytes, Norm>)
    | NSet(elements: multiset<Norm>)
    | NUnread   // below the reading depth

  // -------------------- from the tree --------------------

  function LeafEncodings(nodes: Nodes): set<Bytes> {
    match nodes
    case Nil => {}
    case Cons(_, value, next) => (if IsContainer(value) then {} else {LeafEncoding(value)}) + LeafEncodings(next)
  }

  function Normalize(node: Json): Norm {
    match node
    case JNull => NNull
    case JObject(child) => NObject(NormalMembers(child))
    case JArray(child) => NSet(NormalElements(child))
    case _ => NText(LeafText(node))
  }

  /** The last pair with a key counts. */
  function NormalMembers(kv: Nodes): map<Bytes, Norm> {
    match kv
    case Nil => map[]
    case Cons(name, value, next) => map[name := Normalize(value)] + NormalMembers(next)
  }

  /** Equal scalars collapse into one element; containers never do. */
  function NormalElements(item: Nodes): multiset<Norm> {
    match item
    case Nil => multiset{}
    case Cons(_, value, next) =>
      if !IsContainer(value) && LeafEncoding(value) in LeafEncodings(next) then NormalElements(next)
      else multiset{Normalize(value)} + NormalElements(next)
  }

  // -------------------- from the store --------------------

  /** The tree under a stored value, `depth` references deep at most. */
  ghost function ReadTree(s: Store, v: Bytes, depth: nat): Norm
    decreases depth, 0, 0
  {
    if depth == 0 || !WfValue(v) then NUnread
    else if v[0] == TAG_NULL then NNull
    else if v[0] == TAG_RAW then NText(v[1..])
    else
      var p := PtrOfBytes(v[1..]);
      if p.kind == OBJ then NObject(ReadMembers(s, Members(s, p), depth - 1))
      else NSet(ReadElements(s, Items(s, p), depth - 1))
  }

  ghost function ReadMembers(s: Store, m: map<Bytes, Bytes>, depth: nat): (r: map<Bytes, Norm>)
    decreases depth, 1, 0
  {
    map n | n in m :: ReadTree(s, m[n], depth)
  }

  ghost function ReadElements(s: Store, items: set<Bytes>, depth: nat): multiset<Norm>
    decreases depth, 1, |items|
  {
    if items == {} then multiset{}
    else
      var v :| v in items;
      multiset{ReadTree(s, v, depth)} + ReadElements(s, items - {v}, depth)
  }

  /** The bag does not depend on the order in which the elements are read. */
  lemma {:induction false} ReadOneMore(s: Store, items: set<Bytes>, v: Bytes, depth: nat)
    requires v !in items
    ensures ReadElements(s, items + {v}, depth) == multiset{ReadTree(s, v, depth)} + ReadElements(s, items, depth)
    decreases |items|
  {
    var all := items + {v};
    var w :| w in all && ReadElements(s, all, depth) == multiset{ReadTree(s, w, depth)} + ReadElements(s, all - {w}, depth);
    if w == v {
      assert all - {w} == items;
    } else {
      ReadOneMore(s, items - {w}, v, depth);
      assert all - {w} == items - {w} + {v};
      ReadOneMore(s, items - {w}, w, depth);
      assert items - {w} + {w} == items;
    }
  }

  lemma ReadRef(s: Store, p: Ptr, depth: nat)
    requires p.kind in {OBJ, SET} && depth > 0
    ensures ReadTree(s, RefEncoding(p), depth) == if p.kind == OBJ then NObject(ReadMembers(s, Members(s, p), depth - 1))
                                              else NSet(ReadElements(s, Items(s, p), depth - 1))
  {
    var v := RefEncoding(p);
    assert v[1..] == PtrBytes(p) && v[1] == p.kind;
    PtrBytesInjective(p, p);
  }

  lemma ReadOfLeaf(s: Store, node: Json, depth: nat)
    requires !IsContainer(node) && depth > 0
    ensures ReadTree(s, LeafEncoding(node), depth) == Normalize(node)
  {
    if !node.JNull? {
      assert LeafEncoding(node)[1..] == LeafText(node);
    }
  }

  // -------------------- elements of an array --------------------

  ghost predicate DistinctIds(ids: seq<Id>) {
    forall i, j :: 0 <= i < j < |ids| ==> ids[i] != ids[j]
  }

  lemma RefIsNoLeaf(p: Ptr, node: Json)
    requires !IsContainer(node)
    ensures RefEncoding(p) != LeafEncoding(node)
  {
    assert RefEncoding(p)[0] == TAG_PTR;
  }

  lemma RefsDiffer(p: Ptr, q: Ptr)
    requires p != q
    ensures RefEncoding(p) != RefEncoding(q)
  {
    assert RefEncoding(p)[1..] == PtrBytes(p) && RefEncoding(q)[1..] == PtrBytes(q);
    PtrBytesInjective(p, q);
  }

  /** A scalar's encoding is an element iff a scalar of the array has that encoding. */
  lemma {:induction false} ScalarElement(ids: seq<Id>, k: nat, item: Nodes, node: Json)
    requires !IsContainer(node)
    ensures LeafEncoding(node) in ElementSet(ids, k, item) <==> LeafEncoding(node) in LeafEncodings(item)
    decreases item
  {
    if item.Cons? {
      if IsContainer(item.value) { RefIsNoLeaf(Ptr(KindOf(item.value), IdAt(ids, k)), node); }
      ScalarElement(ids, k + Containers(item.value), item.next, node);
    }
  }

  /** A reference is an element only if its identifier was taken for the array's containers. */
  lemma {:induction false} ForeignRef(ids: seq<Id>, k: nat, item: Nodes, p: Ptr)
    requires forall j :: k <= j < k + ContainersAll(item) ==> IdAt(ids, j) != p.id
    ensures RefEncoding(p) !in ElementSet(ids, k, item)
    decreases item
  {
    if item.Cons? {
      if IsContainer(item.value) {
        assert Containers(item.value) >= 1;
        assert k < k + ContainersAll(item) && IdAt(ids, k) != p.id;
        RefsDiffer(p, Ptr(KindOf(item.value), IdAt(ids, k)));
      } else {
        RefIsNoLeaf(p, item.value);
      }
      ForeignRef(ids, k + Containers(item.value), item.next, p);
    }
  }

  /** An element occurs again among later ones iff it is a scalar that does. */
  lemma OccursAgain(ids: seq<Id>, k: nat, node: Json, next: Nodes)
    requires DistinctIds(ids) && k + Containers(node) + ContainersAll(next) <= |ids|
    ensures EncAt(ids, k, node) in ElementSet(ids, k + Containers(node), next) <==>
              !IsContainer(node) && LeafEncoding(node) in LeafEncodings(next)
  {
    if IsContainer(node) {
      ForeignRef(ids, k + Containers(node), next, Ptr(KindOf(node), IdAt(ids, k)));
    } else {
      ScalarElement(ids, k, next, node);
    }
  }

  // -------------------- the theorems --------------------

  lemma NormalForm(node: Json)
    ensures Normalize(node) == match node
                               case JNull => NNull
                               case JObject(child) => NObject(NormalMembers(child))
                               case JArray(child) => NSet(NormalElements(child))
                               case _ => NText(LeafText(node))
    ensures IsContainer(node) <==> node.JObject? || node.JArray?
    ensures Height(node) == if IsContainer(node) then 1 + HeightAll(node.child) else 0
    ensures IsContainer(node) ==> (KindOf(node) == if node.JObject? then OBJ else SET) && OBJ == 1 && SET == 2
  {
  }

  lemma NormalSiblings(nodes: Nodes)
    ensures nodes.Nil? ==> NormalMembers(nodes) == map[] && NormalElements(nodes) == multiset{} && LeafEncodings(nodes) == {}
                           && ContainerElements(nodes) == 0
    ensures nodes.Cons? ==>
              && NormalMembers(nodes) == map[nodes.key := Normalize(nodes.value)] + NormalMembers(nodes.next)
              && (NormalElements(nodes) ==
                    if !IsContainer(nodes.value) && LeafEncoding(nodes.value) in LeafEncodings(nodes.next)
                    then NormalElements(nodes.next)
                    else multiset{Normalize(nodes.value)} + NormalElements(nodes.next))
              && LeafEncodings(nodes) == (if IsContainer(nodes.value) then {} else {LeafEncoding(nodes.value)}) + LeafEncodings(nodes.next)
              && ContainerElements(nodes) == (if IsContainer(nodes.value) then 1 else 0) + ContainerElements(nodes.next)
              && HeightAll(nodes) >= Height(nodes.value) && HeightAll(nodes) >= HeightAll(nodes.next)
  {
  }

  lemma ReadJoined(s: Store, name: Bytes, v: Bytes, rest: map<Bytes, Bytes>, depth: nat)
    ensures ReadMembers(s, map[name := v] + rest, depth) == map[name := ReadTree(s, v, depth)] + ReadMembers(s, rest, depth)
  {
  }

  lemma ReadNothing(s: Store, depth: nat)
    ensures ReadMembers(s, map[], depth) == map[] && ReadElements(s, {}, depth) == multiset{}
  {
  }

  /** Reading the graph of a tree rebuilds its normal form. */
  lemma {:induction false} ReadOfHeld(s: Store, ids: seq<Id>, k: nat, node: Json, depth: nat)
    requires Holds(s, ids, k, node) && DistinctIds(ids) && k + Containers(node) <= |ids|
    requires depth > Height(node)
    ensures ReadTree(s, EncAt(ids, k, node), depth) == Normalize(node)
    decreases node
  {
    hide *;
    OneNode(s, ids, k, node);
    NormalForm(node);
    if IsContainer(node) {
      ReadRef(s, Ptr(KindOf(node), IdAt(ids, k)), depth);
      if node.JObject? {
        ReadOfHeldMembers(s, ids, k + 1, node.child, depth - 1);
      } else {
        ReadOfHeldElements(s, ids, k + 1, node.child, depth - 1);
      }
    } else {
      ReadOfLeaf(s, node, depth);
    }
  }

  lemma {:induction false} ReadOfHeldMembers(s: Store, ids: seq<Id>, k: nat, kv: Nodes, depth: nat)
    requires HoldsAll(s, ids, k, kv) && DistinctIds(ids) && k + ContainersAll(kv) <= |ids|
    requires depth > HeightAll(kv)
    ensures ReadMembers(s, MemberMap(ids, k, kv), depth) == NormalMembers(kv)
    decreases kv
  {
    hide *;
    Siblings(s, ids, k, kv);
    NormalSiblings(kv);
    if kv.Cons? {
      var k1 := k + Containers(kv.value);
      var v := EncAt(ids, k, kv.value);
      ReadOfHeld(s, ids, k, kv.value, depth);
      ReadOfHeldMembers(s, ids, k1, kv.next, depth);
      ReadJoined(s, kv.key, v, MemberMap(ids, k1, kv.next), depth);
    } else {
      ReadNothing(s, depth);
    }
  }

  lemma {:induction false} ReadOfHeldElements(s: Store, ids: seq<Id>, k: nat, item: Nodes, depth: nat)
    requires HoldsAll(s, ids, k, item) && DistinctIds(ids) && k + ContainersAll(item) <= |ids|
    requires depth > HeightAll(item)
    ensures ReadElements(s, ElementSet(ids, k, item), depth) == NormalElements(item)
    decreases item
  {
    hide *;
    Siblings(s, ids, k, item);
    NormalSiblings(item);
    ReadNothing(s, depth);
    if item.Cons? {
      var k1 := k + Containers(item.value);
      var v, rest := EncAt(ids, k, item.value), ElementSet(ids, k1, item.next);
      ReadOfHeld(s, ids, k, item.value, depth);
      ReadOfHeldElements(s, ids, k1, item.next, depth);
      OccursAgain(ids, k, item.value, item.next);
      if v in rest {
        assert {v} + rest == rest;
      } else {
        ReadOneMore(s, rest, v, depth);
        assert {v} + rest == rest + {v};
      }
    }
  }

  /** Storing a tree and reading it back gives its normal form. */
  lemma BuildThenRead(host: Host, st: State, node: Json, depth: nat, readDepth: nat)
    requires Inv(st) && BuildValue(host, st, node, depth).1.Built?
    requires readDepth > Height(node)
    ensures var (st', b) := BuildValue(host, st, node, depth);
            ReadTree(st'.store, b.bytes, readDepth) == Normalize(node)
  {
    BuildLayout(host, st, node, depth);
    ReadOfHeld(BuildValue(host, st, node, depth).0.store, st.ids, st.next, node, readDepth);
  }

  // -------------------- counting elements --------------------

  function ContainerElements(item: Nodes): nat {
    match item
    case Nil => 0
    case Cons(_, value, next) => (if IsContainer(value) then 1 else 0) + ContainerElements(next)
  }

  lemma OneMore(v: Bytes, s: set<Bytes>)
    ensures |{v} + s| == if v in s then |s| else |s| + 1
    ensures {} + s == s
  {
    if v in s {
      assert {v} + s == s;
    }
  }

  /** A set holds one element per container and one per distinct scalar encoding. */
  lemma {:induction false} ElementCount(ids: seq<Id>, k: nat, item: Nodes)
    requires DistinctIds(ids) && k + ContainersAll(item) <= |ids|
    ensures |ElementSet(ids, k, item)| == ContainerElements(item) + |LeafEncodings(item)|
    decreases item
  {
    hide *;
    Siblings(Store(map[], map[]), ids, k, item);
    NormalSiblings(item);
    if item.Cons? {
      var k1 := k + Containers(item.value);
      var v, rest := EncAt(ids, k, item.value), ElementSet(ids, k1, item.next);
      OneNode(Store(map[], map[]), ids, k, item.value);
      ElementCount(ids, k1, item.next);
      OccursAgain(ids, k, item.value, item.next);
      OneMore(v, rest);
      OneMore(v, LeafEncodings(item.next));
    }
  }
}
