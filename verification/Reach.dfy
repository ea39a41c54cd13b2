/** Which stored values a query can reach: the depth limits of writing and of querying against each other. */
module Reach {
  import opened CBytes
  import opened ErrorCodes
  import opened Json
  import opened Platform
  import opened Codec
  import opened Engine
  import opened NestedValue
  import opened Layout
  import opened BuildFailure
  import opened PathText
  import opened QueryPath
  import opened CompileWalk

  // -------------------- chains of last pairs --------------------

  /** The value of the last pair with a key. */
  function LastValue(kv: Nodes, name: Bytes): Json
    requires name in Keys(kv)
  {
    if name in Keys(kv.next) then LastValue(kv.next, name) else kv.value
  }

  /** The names lead through objects to a value, along last pairs. */
  predicate Reaches(kv: Nodes, names: seq<Bytes>)
    decreases |names|
  {
    && names != [] && names[0] in Keys(kv)
    && (|names| == 1 || (var v := LastValue(kv, names[0]); v.JObject? && Reaches(v.child, names[1..])))
  }

  /** How far the longest such chain goes. */
  function LongestChain(kv: Nodes): nat {
    match kv
    case Nil => 0
    case Cons(name, value, next) =>
      Max(if name in Keys(next) then 0 else if value.JObject? then 1 + LongestChain(value.child) else 1,
          LongestChain(next))
  }

  lemma {:induction false} LastValueInChain(kv: Nodes, name: Bytes)
    requires name in Keys(kv)
    ensures var v := LastValue(kv, name); LongestChain(kv) >= if v.JObject? then 1 + LongestChain(v.child) else 1
  {
    if name in Keys(kv.next) { LastValueInChain(kv.next, name); }
  }

  lemma {:induction false} ReachedWithinChain(kv: Nodes, names: seq<Bytes>)
    requires Reaches(kv, names)
    ensures |names| <= LongestChain(kv)
    decreases |names|
  {
    LastValueInChain(kv, names[0]);
    if |names| > 1 { ReachedWithinChain(LastValue(kv, names[0]).child, names[1..]); }
  }

  /** Every length up to the longest is some chain's. */
  lemma {:induction false} ChainOfLength(kv: Nodes, n: nat) returns (names: seq<Bytes>)
    requires 1 <= n <= LongestChain(kv)
    ensures |names| == n && Reaches(kv, names)
    decreases kv
  {
    if n <= LongestChain(kv.next) {
      names := ChainOfLength(kv.next, n);
    } else if n == 1 {
      names := [kv.key];
    } else {
      var rest := ChainOfLength(kv.value.child, n - 1);
      names := [kv.key] + rest;
      assert names[1..] == rest;
    }
  }

  /** No key holds a NUL: keys of a parsed tree are C strings. */
  predicate CStringKeys(nodes: Nodes) {
    nodes.Cons? ==>
      && NulFree(nodes.key) && (IsContainer(nodes.value) ==> CStringKeys(nodes.value.child))
      && CStringKeys(nodes.next)
  }

  lemma {:induction false} LastValueFits(kv: Nodes, name: Bytes)
    requires CStringKeys(kv) && EdgesFitIn(kv, true) && name in Keys(kv)
    ensures Printable(name) && EdgesFit(LastValue(kv, name))
    ensures IsContainer(LastValue(kv, name)) ==> CStringKeys(LastValue(kv, name).child)
  {
    if name in Keys(kv.next) { LastValueFits(kv.next, name); }
  }

  lemma {:induction false} ReachedIsPrintable(kv: Nodes, names: seq<Bytes>)
    requires CStringKeys(kv) && EdgesFitIn(kv, true) && Reaches(kv, names)
    ensures forall n :: n in names ==> Printable(n)
    decreases |names|
  {
    LastValueFits(kv, names[0]);
    if |names| > 1 { ReachedIsPrintable(LastValue(kv, names[0]).child, names[1..]); }
    assert names == [names[0]] + names[1..];
  }

  // -------------------- chains and lookups --------------------

  lemma {:induction false} LastPairHolds(k: nat, kv: Nodes, name: Bytes)
    requires name in Keys(kv)
    ensures LastPair(k, kv, name).1 == LastValue(kv, name)
    decreases kv
  {
    if name in Keys(kv.next) { LastPairHolds(k + Containers(kv.value), kv.next, name); }
  }

  /** A lookup finds a value, of whatever size, iff the names are a chain. */
  lemma {:induction false} LookupOfReached(ids: seq<Id>, k: nat, kv: Nodes, names: seq<Bytes>, i: nat, cap: nat)
    requires names != []
    ensures Reaches(kv, names) <==>
              var w := Lookup(ids, k, kv, names, i, cap); w.Leaf? || w.rc == ValueTooLarge
    decreases |names|
  {
    hide EncAt, Answered, LastPair, LastValue;
    LookupStep(ids, k, kv, names, i, cap);
    if kv.Cons? && names[0] in Keys(kv) {
      LastPairHolds(k, kv, names[0]);
      var (at, node) := LastPair(k, kv, names[0]);
      if |names| > 1 && node.JObject? { LookupOfReached(ids, at + 1, node.child, names[1..], i + 1, cap); }
    }
  }

  // -------------------- what a lookup answers, by the kind of the value --------------------

  /** The value at the end of a chain. */
  function ValueAt(kv: Nodes, names: seq<Bytes>): Json
    requires Reaches(kv, names)
    decreases |names|
  {
    var v := LastValue(kv, names[0]);
    if |names| == 1 then v else ValueAt(v.child, names[1..])
  }

  /** How long a node's stored form is. */
  function StoredSize(node: Json): nat {
    match node
    case JNull => 1
    case JBool(b) => if b then 5 else 6
    case JNumber(digits) => 1 + |digits|
    case JString(s) => 1 + |s|
    case _ => 18
  }

  /** The text and type a query gives for a node; a container is shown by its entity's pointer. */
  function NodeText(node: Json, id: Id): (Bytes, ApiType) {
    match node
    case JNull => (Ascii("null"), NullType)
    case JBool(b) => (if b then Ascii("true") else Ascii("false"), RawType)
    case JNumber(digits) => (digits, RawType)
    case JString(s) => (s, RawType)
    case JObject(_) => (PtrToHex(Ptr(1, id)), ObjectType)
    case JArray(_) => (PtrToHex(Ptr(2, id)), SetType)
  }

  lemma NodeShown(ids: seq<Id>, at: nat, node: Json)
    ensures Answered(ids, at, node) == NodeText(node, IdAt(ids, at)) && |EncAt(ids, at, node)| == StoredSize(node)
  {
  }

  /** A lookup along a chain answers the value at its end, or that it is too large. */
  lemma {:induction false} LookupTells(s: Store, ids: seq<Id>, k: nat, kv: Nodes, names: seq<Bytes>, i: nat, cap: nat) returns (at: nat)
    requires Reaches(kv, names) && HoldsAll(s, ids, k, kv)
    ensures var node := ValueAt(kv, names);
            && Holds(s, ids, at, node)
            && Lookup(ids, k, kv, names, i, cap) ==
                 if StoredSize(node) > cap then Stop(ValueTooLarge, i + |names| - 1, None)
                 else Leaf(NodeText(node, IdAt(ids, at)).0, NodeText(node, IdAt(ids, at)).1)
    decreases |names|
  {
    hide EncAt, Answered, LastPair, LastValue, NodeText, StoredSize, MemberMap;
    LookupStep(ids, k, kv, names, i, cap);
    LastPairHolds(k, kv, names[0]);
    PairOfMember(s, ids, k, kv, names[0]);
    var (first, node) := LastPair(k, kv, names[0]);
    NodeShown(ids, first, node);
    at := first;
    if |names| > 1 {
      at := LookupTells(s, ids, first + 1, node.child, names[1..], i + 1, cap);
    }
  }

  // -------------------- the two limits --------------------

  /** A value that is stored and not too large answers a query iff its path is within the query limit. */
  lemma {:induction false} AnswersWithinLimit(host: Host, st: State, kv: Nodes, names: seq<Bytes>, options: Options)
    requires Inv(st) && InitSucceeds(host, st, kv)
    requires names != [] && forall n :: n in names ==> Printable(n)
    requires Lookup(st.ids, st.next + 1, kv, names, 1, WithDefaults(options).maxValueBytes).Leaf?
    ensures var (st', made, _) := InitObject(host, st, kv);
            var answer := Query(st'.store, PrintPath(PtrToHex(made.value), names), options);
            && (answer.Value? <==> |names| <= WithDefaults(options).maxDepth)
            && (!answer.Value? ==> answer == Failed(PathTooDeep, NO_ERROR))
  {
    TooDeepBeyondLimit(host, st, kv, names, options);
    if |names| <= WithDefaults(options).maxDepth { InitThenQuery(host, st, kv, names, options); }
  }

  /** The limit's refusal is given to exactly the longer paths, whatever they lead to. */
  lemma {:induction false} TooDeepBeyondLimit(host: Host, st: State, kv: Nodes, names: seq<Bytes>, options: Options)
    requires Inv(st) && InitSucceeds(host, st, kv)
    requires names != [] && forall n :: n in names ==> Printable(n)
    ensures var (st', made, _) := InitObject(host, st, kv);
            Query(st'.store, PrintPath(PtrToHex(made.value), names), options) == Failed(PathTooDeep, NO_ERROR) <==>
              |names| > WithDefaults(options).maxDepth
  {
    hide InitObject, Lookup, PrintPath, ParsePath, PtrToHex, Inv, Printable, ProbeWalk, At;
    var p := InitObject(host, st, kv).1.value;
    if |names| > WithDefaults(options).maxDepth {
      PrintedPointerHasNoDot(p);
      PrintTooDeep(PtrToHex(p), names, WithDefaults(options).maxDepth);
    } else {
      InitThenQuery(host, st, kv, names, options);
    }
  }

  /** No path to a stored value is refused as too deep iff no chain of last pairs is longer than the query limit. */
  lemma {:induction false} EveryValueInReachIff(host: Host, st: State, kv: Nodes, options: Options)
    requires Inv(st) && InitSucceeds(host, st, kv) && CStringKeys(kv)
    ensures var (st', made, _) := InitObject(host, st, kv);
            (forall names :: Reaches(kv, names) ==>
               Query(st'.store, PrintPath(PtrToHex(made.value), names), options) != Failed(PathTooDeep, NO_ERROR)) <==>
            LongestChain(kv) <= WithDefaults(options).maxDepth
  {
    var (st', made, _) := InitObject(host, st, kv);
    var root, max := PtrToHex(made.value), WithDefaults(options).maxDepth;
    StoredFits(host, st, kv);
    forall names | Reaches(kv, names)
      ensures Query(st'.store, PrintPath(root, names), options) == Failed(PathTooDeep, NO_ERROR) <==> |names| > max
      ensures |names| <= LongestChain(kv)
    {
      hide Query, InitObject, Printable;
      ReachedIsPrintable(kv, names);
      ReachedWithinChain(kv, names);
      TooDeepBeyondLimit(host, st, kv, names, options);
    }
    if LongestChain(kv) > max {
      var names := ChainOfLength(kv, max + 1);
      assert Reaches(kv, names);
    }
  }

  /** The code's own limit: no chain is longer than 65, so a query limit of 65 reaches everything. */
  lemma {:induction false} StoredFits(host: Host, st: State, kv: Nodes)
    requires InitSucceeds(host, st, kv)
    ensures EdgesFitIn(kv, true) && LongestChain(kv) <= HeightAll(kv) + 1 <= 65
  {
    var (st1, made) := Create(st, OBJ);
    FilledFits(host, st1, made.value, kv, 0);
    ChainWithinHeight(kv);
  }

  lemma {:induction false} ChainWithinHeight(kv: Nodes)
    ensures LongestChain(kv) <= HeightAll(kv) + 1
  {
    if kv.Cons? {
      ChainWithinHeight(kv.next);
      if kv.value.JObject? { ChainWithinHeight(kv.value.child); }
    }
  }
}
