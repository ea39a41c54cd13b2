/**
 JSON trees in cJSON's shape: a container points at its first child, and each
 child carries its key and points at its next sibling. Array elements have a
 key too, which nothing reads.
 */
module Json {
  import opened CBytes

  datatype Json =
    | JNull
    | JBool(b: bool)
    | JNumber(text: Bytes)   // the number's decimal text
    | JString(s: Bytes)
    | JObject(child: Nodes)
    | JArray(child: Nodes)

  datatype Nodes = Nil | Cons(key: Bytes, value: Json, next: Nodes)

  predicate IsContainer(j: Json) {
    j.JObject? || j.JArray?
  }

  function Length(nodes: Nodes): nat {
    match nodes
    case Nil => 0
    case Cons(_, _, next) => 1 + Length(next)
  }

  /** The number of JSON nodes, used as the measure of nested batches. */
  function Size(j: Json): (n: nat)
    ensures n >= 1
  {
    if IsContainer(j) then 1 + SizeAll(j.child) else 1
  }

  function SizeAll(nodes: Nodes): nat {
    match nodes
    case Nil => 0
    case Cons(_, value, next) => Size(value) + SizeAll(next)
  }

  /** cJSON_GetObjectItemCaseSensitive: the first child with that key. */
  function GetItem(nodes: Nodes, key: Bytes): (r: Option<Json>)
    ensures r.Some? ==> Size(r.value) <= SizeAll(nodes)
  {
    match nodes
    case Nil => None
    case Cons(k, value, next) => if k == key then Some(value) else GetItem(next, key)
  }

  function GetString(nodes: Nodes, key: Bytes): Option<Bytes> {
    match GetItem(nodes, key)
    case Some(JString(s)) => Some(s)
    case _ => None
  }

  /** cJSON trees with the first child under `key` replaced. */
  function SetItem(nodes: Nodes, key: Bytes, value: Json): (r: Nodes)
  {
    match nodes
    case Nil => Nil
    case Cons(k, v, next) =>
      if k == key then Cons(k, value, next) else Cons(k, v, SetItem(next, key, value))
  }

  lemma {:induction false} GetAfterSet(nodes: Nodes, key: Bytes, value: Json, other: Bytes)
    ensures GetItem(SetItem(nodes, key, value), other) ==
            if other == key && GetItem(nodes, key).Some? then Some(value) else GetItem(nodes, other)
    ensures Length(SetItem(nodes, key, value)) == Length(nodes)
  {
    match nodes
    case Nil =>
    case Cons(k, v, next) => GetAfterSet(next, key, value, other);
  }

  lemma {:induction false} SizeAfterSet(nodes: Nodes, key: Bytes, value: Json)
    requires GetItem(nodes, key).Some? ==> Size(value) == Size(GetItem(nodes, key).value)
    ensures SizeAll(SetItem(nodes, key, value)) == SizeAll(nodes)
  {
    match nodes
    case Nil =>
    case Cons(k, v, next) => if k != key { SizeAfterSet(next, key, value); }
  }

  function Concat(a: Nodes, b: Nodes): Nodes {
    match a
    case Nil => b
    case Cons(k, v, next) => Cons(k, v, Concat(next, b))
  }

  lemma {:induction false} ConcatAssociative(a: Nodes, b: Nodes, c: Nodes)
    ensures Concat(Concat(a, b), c) == Concat(a, Concat(b, c))
  {
    if a.Cons? {
      ConcatAssociative(a.next, b, c);
    }
  }

  lemma {:induction false} ConcatNil(a: Nodes)
    ensures Concat(a, Nil) == a
  {
    if a.Cons? {
      ConcatNil(a.next);
    }
  }

  lemma {:induction false} LengthOfConcat(a: Nodes, b: Nodes)
    ensures Length(Concat(a, b)) == Length(a) + Length(b)
  {
    if a.Cons? {
      LengthOfConcat(a.next, b);
    }
  }

  // -------------------- shape of a tree --------------------

  /** How many objects and arrays a tree holds, itself included. */
  function Containers(j: Json): nat {
    if IsContainer(j) then 1 + ContainersAll(j.child) else 0
  }

  function ContainersAll(nodes: Nodes): nat {
    match nodes
    case Nil => 0
    case Cons(_, value, next) => Containers(value) + ContainersAll(next)
  }

  /** How many objects and arrays lie on the deepest chain of a tree. */
  function Height(j: Json): nat {
    if IsContainer(j) then 1 + HeightAll(j.child) else 0
  }

  function HeightAll(nodes: Nodes): nat {
    match nodes
    case Nil => 0
    case Cons(_, value, next) => Max(Height(value), HeightAll(next))
  }

  function Max(a: nat, b: nat): nat { if a < b then b else a }

  function Keys(nodes: Nodes): set<Bytes> {
    match nodes
    case Nil => {}
    case Cons(k, _, next) => {k} + Keys(next)
  }

  /** One-key-one-pair objects: the keys of the list occur once each. */
  predicate DistinctKeys(nodes: Nodes) {
    match nodes
    case Nil => true
    case Cons(k, _, next) => k !in Keys(next) && DistinctKeys(next)
  }
}
