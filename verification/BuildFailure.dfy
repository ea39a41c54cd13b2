/**
 When a build fails, where, and what it says: the first faulty node in document
 order, located by child positions, against the trail the code collects.
 */
module BuildFailure {
  import opened CBytes
  import opened ErrorCodes
  import opened Json
  import opened Platform
  import opened Codec
  import opened Engine
  import opened NestedValue

  /** A node's position: which child to take, from the root down. */
  type Path = seq<nat>

  function Nth(nodes: Nodes, i: nat): Nodes
    requires i < Length(nodes)
    ensures Nth(nodes, i).Cons?
  {
    if i == 0 then nodes else Nth(nodes.next, i - 1)
  }

  /** Document order: a node before its children, children left to right. */
  predicate Earlier(a: Path, b: Path) {
    b != [] && (a == [] || a[0] < b[0] || (a[0] == b[0] && Earlier(a[1..], b[1..])))
  }

  datatype Cause = Cause(rc: Rc, reason: Bytes)

  /** What is wrong with a pair or an element itself, apart from the tree below it. */
  function EdgeFault(host: Host, inObject: bool, key: Bytes, value: Json): Option<Cause> {
    if inObject then
      var problem := NameProblem(key);
      if problem.Some? then Some(Cause(InvalidParam, problem.value)) else None
    else if !IsContainer(value) && |LeafEncoding(value)| > MAX_ELEMENT_LEN then
      Some(Cause(MemberTooLong, host.Strerror(MemberTooLong)))
    else None
  }

  /** What is wrong with the node at a position: nesting, or its own pair or element. */
  function FaultAt(host: Host, node: Json, depth: nat, path: Path): Option<Cause>
    decreases |path|
  {
    if !IsContainer(node) then None
    else if path == [] then
      if depth >= NEST_DEPTH_MAX then Some(Cause(InvalidParam, DepthReason())) else None
    else if path[0] >= Length(node.child) then None
    else
      var c := Nth(node.child, path[0]);
      var edge := EdgeFault(host, node.JObject?, c.key, c.value);
      if |path| == 1 && edge.Some? then edge else FaultAt(host, c.value, depth + 1, path[1..])
  }

  /** The levels from the root to a position. */
  function StepsAlong(node: Json, path: Path): seq<Step>
    decreases |path|
  {
    if path == [] || !IsContainer(node) || path[0] >= Length(node.child) then []
    else
      var c := Nth(node.child, path[0]);
      [if node.JObject? then InMember(c.key) else InElement(path[0])] + StepsAlong(c.value, path[1..])
  }

  function Reverse<T>(s: seq<T>): seq<T> {
    if s == [] then [] else Reverse(s[1..]) + [s[0]]
  }

  // -------------------- searching in document order --------------------

  function FirstFault(host: Host, node: Json, depth: nat): Option<Path>
    decreases node, 1
  {
    if !IsContainer(node) then None
    else if depth >= NEST_DEPTH_MAX then Some([])
    else FirstFaultIn(host, node.child, node.JObject?, 0, depth + 1)
  }

  /** Among the siblings from position i on. */
  function FirstFaultIn(host: Host, nodes: Nodes, inObject: bool, i: nat, depth: nat): (r: Option<Path>)
    ensures r.Some? ==> r.value != [] && i <= r.value[0]
    decreases nodes, 0
  {
    match nodes
    case Nil => None
    case Cons(key, value, next) =>
      if EdgeFault(host, inObject, key, value).Some? then Some([i])
      else match FirstFault(host, value, depth)
           case Some(p) => Some([i] + p)
           case None => FirstFaultIn(host, next, inObject, i + 1, depth)
  }

  /** The same fault, seen from a list of siblings whose first is at position i. */
  function FaultAmong(host: Host, nodes: Nodes, inObject: bool, i: nat, depth: nat, path: Path): Option<Cause> {
    if path == [] || path[0] < i || path[0] - i >= Length(nodes) then None
    else
      var c := Nth(nodes, path[0] - i);
      var edge := EdgeFault(host, inObject, c.key, c.value);
      if |path| == 1 && edge.Some? then edge else FaultAt(host, c.value, depth, path[1..])
  }

  function StepsAmong(nodes: Nodes, inObject: bool, i: nat, path: Path): seq<Step> {
    if path == [] || path[0] < i || path[0] - i >= Length(nodes) then []
    else
      var c := Nth(nodes, path[0] - i);
      [if inObject then InMember(c.key) else InElement(path[0])] + StepsAlong(c.value, path[1..])
  }

  lemma AmongNext(host: Host, nodes: Nodes, inObject: bool, i: nat, depth: nat, path: Path)
    requires nodes.Cons? && path != [] && path[0] > i
    ensures FaultAmong(host, nodes, inObject, i, depth, path) == FaultAmong(host, nodes.next, inObject, i + 1, depth, path)
    ensures StepsAmong(nodes, inObject, i, path) == StepsAmong(nodes.next, inObject, i + 1, path)
  {
  }

  /** At the first of the siblings, and at a container's children. */
  lemma AmongHere(host: Host, nodes: Nodes, inObject: bool, i: nat, depth: nat, rest: Path)
    requires nodes.Cons?
    ensures var edge := EdgeFault(host, inObject, nodes.key, nodes.value);
            FaultAmong(host, nodes, inObject, i, depth, [i] + rest) ==
            if rest == [] && edge.Some? then edge else FaultAt(host, nodes.value, depth, rest)
    ensures StepsAmong(nodes, inObject, i, [i] + rest) ==
            [if inObject then InMember(nodes.key) else InElement(i)] + StepsAlong(nodes.value, rest)
    ensures StepsAlong(nodes.value, []) == []
  {
    assert ([i] + rest)[1..] == rest;
  }

  lemma AmongChildren(host: Host, node: Json, depth: nat, path: Path)
    requires IsContainer(node) && path != []
    ensures FaultAt(host, node, depth, path) == FaultAmong(host, node.child, node.JObject?, 0, depth + 1, path)
    ensures StepsAlong(node, path) == StepsAmong(node.child, node.JObject?, 0, path)
  {
  }

  lemma AtRoot(host: Host, node: Json, depth: nat)
    requires IsContainer(node)
    ensures FaultAt(host, node, depth, []) == if depth >= NEST_DEPTH_MAX then Some(Cause(InvalidParam, DepthReason())) else None
    ensures Reverse(StepsAlong(node, [])) == []
  {
  }

  lemma NoFaultInLeaf(host: Host, node: Json, depth: nat)
    ensures !IsContainer(node) ==> FirstFault(host, node, depth).None?
  {
  }

  /** The search finds a fault exactly when there is one, and the earliest. */
  lemma {:induction false} FirstFaultIsFirst(host: Host, node: Json, depth: nat, other: Path)
    ensures match FirstFault(host, node, depth)
            case Some(path) => FaultAt(host, node, depth, path).Some? && (Earlier(other, path) ==> FaultAt(host, node, depth, other).None?)
            case None => FaultAt(host, node, depth, other).None?
    decreases node, 1
  {
    if IsContainer(node) && depth < NEST_DEPTH_MAX {
      FirstFaultInIsFirst(host, node.child, node.JObject?, 0, depth + 1, other);
    }
  }

  lemma {:induction false} FirstFaultInIsFirst(host: Host, nodes: Nodes, inObject: bool, i: nat, depth: nat, other: Path)
    ensures match FirstFaultIn(host, nodes, inObject, i, depth)
            case Some(path) => FaultAmong(host, nodes, inObject, i, depth, path).Some?
                               && (Earlier(other, path) ==> FaultAmong(host, nodes, inObject, i, depth, other).None?)
            case None => FaultAmong(host, nodes, inObject, i, depth, other).None?
    decreases nodes, 0
  {
    if nodes.Nil? {
    } else if EdgeFault(host, inObject, nodes.key, nodes.value).Some? {
      var path: Path := [i];
      if other != [] && other[0] == i { assert !Earlier(other[1..], path[1..]); }
    } else {
      var below := FirstFault(host, nodes.value, depth);
      FirstFaultIsFirst(host, nodes.value, depth, if other == [] then [] else other[1..]);
      if below.Some? {
        assert ([i] + below.value)[1..] == below.value;
      } else {
        FirstFaultInIsFirst(host, nodes.next, inObject, i + 1, depth, other);
        var found := FirstFaultIn(host, nodes.next, inObject, i + 1, depth);
        if found.Some? { AmongNext(host, nodes, inObject, i, depth, found.value); }
        if other != [] && other[0] > i { AmongNext(host, nodes, inObject, i, depth, other); }
      }
    }
  }

  // -------------------- the build and the search --------------------

  /** How many pairs and elements a tree has: the writes it may need. */
  function Edges(node: Json): nat {
    if IsContainer(node) then EdgesAll(node.child) else 0
  }

  function EdgesAll(nodes: Nodes): nat {
    match nodes
    case Nil => 0
    case Cons(_, value, next) => 1 + Edges(value) + EdgesAll(next)
  }

  /** The engine can create and write all the tree needs. */
  predicate Enough(st: State, containers: nat, writes: nat) {
    st.next + containers <= |st.ids| && writes <= st.room
  }

  predicate Used(st: State, st': State, containers: nat, writes: nat) {
    st'.ids == st.ids && st'.next == st.next + containers && st'.room + writes >= st.room
  }

  /**
   While the engine does not run out, a build succeeds iff the tree has no fault, and
   otherwise reports the first fault: its cause, and the way back up from it.
   */
  lemma {:induction false} BuildFindsFirstFault(host: Host, st: State, node: Json, depth: nat)
    requires Enough(st, Containers(node), Edges(node))
    ensures var (st', b) := BuildValue(host, st, node, depth);
            match FirstFault(host, node, depth)
            case None => b.Built? && Used(st, st', Containers(node), Edges(node))
                         && (IsContainer(node) ==> |b.bytes| == 1 + PTR_LEN) && (!IsContainer(node) ==> b.bytes == LeafEncoding(node))
            case Some(path) =>
              var cause := FaultAt(host, node, depth, path);
              && cause.Some?
              && b == NotBuilt(Failure(cause.value.rc, cause.value.reason, Reverse(StepsAlong(node, path))))
    decreases node, 1
  {
    hide BuildValue, FillMembers, FillElements, FirstFaultIn, FaultAmong, StepsAmong, Reverse, ContainersAll, EdgesAll;
    if IsContainer(node) { AtRoot(host, node, depth); ContainerStep(host, st, node, depth); } else { LeafBuild(host, st, node, depth); }
    if IsContainer(node) && depth < NEST_DEPTH_MAX {
      var (st1, made) := Create(st, KindOf(node));
      var p := made.value;
      var found := FirstFaultIn(host, node.child, node.JObject?, 0, depth + 1);
      if found.Some? { AmongChildren(host, node, depth, found.value); }
      if node.JObject? {
        FillFindsFirstFault(host, st1, p, node.child, 0, depth + 1);
      } else {
        FillElementsFindsFirstFault(host, st1, p, node.child, 0, depth + 1);
      }
    }
  }

  lemma {:induction false} FillFindsFirstFault(host: Host, st: State, p: Ptr, kv: Nodes, i: nat, depth: nat)
    requires p.kind == OBJ && Enough(st, ContainersAll(kv), EdgesAll(kv))
    ensures var (st', failed) := FillMembers(host, st, p, kv, depth);
            match FirstFaultIn(host, kv, true, i, depth)
            case None => failed.None? && Used(st, st', ContainersAll(kv), EdgesAll(kv))
            case Some(path) =>
              var cause := FaultAmong(host, kv, true, i, depth, path);
              && cause.Some?
              && failed == Some(Failure(cause.value.rc, cause.value.reason, Reverse(StepsAmong(kv, true, i, path))))
    decreases kv, 0
  {
    hide BuildValue, FillMembers, FirstFault, FaultAt, FaultAmong, StepsAlong, StepsAmong, Reverse, Containers, Edges, LeafEncoding;
    MemberStep(host, st, p, kv, depth);
    if kv.Cons? {
      if NameProblem(kv.key).Some? {
        AmongHere(host, kv, true, i, depth, []);
        assert [i] + [] == [i] && [InMember(kv.key)] + [] == [InMember(kv.key)];
        ReverseOne(InMember(kv.key), []);
      } else {
        BuildFindsFirstFault(host, st, kv.value, depth);
        var below := FirstFault(host, kv.value, depth);
        if below.Some? {
          AmongHere(host, kv, true, i, depth, below.value);
          ReverseOne(InMember(kv.key), StepsAlong(kv.value, below.value));
        } else {
          var (st1, b) := BuildValue(host, st, kv.value, depth);
          var (st2, rc) := MemberPut(st1, p, kv.key, b.bytes);
          FillFindsFirstFault(host, st2, p, kv.next, i + 1, depth);
          var found := FirstFaultIn(host, kv.next, true, i + 1, depth);
          if found.Some? { AmongNext(host, kv, true, i, depth, found.value); }
        }
      }
    }
  }

  lemma {:induction false} FillElementsFindsFirstFault(host: Host, st: State, p: Ptr, item: Nodes, i: nat, depth: nat)
    requires p.kind == SET && Enough(st, ContainersAll(item), EdgesAll(item))
    ensures var (st', failed) := FillElements(host, st, p, item, i, depth);
            match FirstFaultIn(host, item, false, i, depth)
            case None => failed.None? && Used(st, st', ContainersAll(item), EdgesAll(item))
            case Some(path) =>
              var cause := FaultAmong(host, item, false, i, depth, path);
              && cause.Some?
              && failed == Some(Failure(cause.value.rc, cause.value.reason, Reverse(StepsAmong(item, false, i, path))))
    decreases item, 0
  {
    hide BuildValue, FillElements, FirstFault, FaultAt, FaultAmong, StepsAlong, StepsAmong, Reverse, Containers, Edges, LeafEncoding;
    ElementStep(host, st, p, item, i, depth);
    if item.Cons? {
      NoFaultInLeaf(host, item.value, depth);
      BuildFindsFirstFault(host, st, item.value, depth);
      var below := FirstFault(host, item.value, depth);
      if EdgeFault(host, false, item.key, item.value).Some? {
        AmongHere(host, item, false, i, depth, []);
        assert [i] + [] == [i] && [InElement(i)] + [] == [InElement(i)];
        ReverseOne(InElement(i), []);
      } else if below.Some? {
        AmongHere(host, item, false, i, depth, below.value);
        ReverseOne(InElement(i), StepsAlong(item.value, below.value));
      } else {
        var (st1, b) := BuildValue(host, st, item.value, depth);
        var (st2, rc) := SetAddItem(st1, p, b.bytes);
        FillElementsFindsFirstFault(host, st2, p, item.next, i + 1, depth);
        var found := FirstFaultIn(host, item.next, false, i + 1, depth);
        if found.Some? { AmongNext(host, item, false, i, depth, found.value); }
      }
    }
  }

  lemma ReverseOne(step: Step, rest: seq<Step>)
    ensures Reverse([step] + rest) == Reverse(rest) + [step]
    ensures Reverse([step]) == [step]
  {
    assert ([step] + rest)[1..] == rest;
  }

  // -------------------- what a failure says --------------------

  /** Every failure carries an error code and a short reason. */
  lemma {:induction false} BuildFailsWithReason(host: Host, st: State, node: Json, depth: nat)
    ensures match BuildValue(host, st, node, depth).1
            case Built(_) => true
            case NotBuilt(f) => f.rc != Success && |f.reason| <= 255
    decreases node, 1
  {
    if IsContainer(node) && depth < NEST_DEPTH_MAX {
      var (st1, made) := Create(st, KindOf(node));
      if made.Some? && node.JObject? {
        FillFailsWithReason(host, st1, made.value, node.child, depth + 1);
      } else if made.Some? {
        FillElementsFailsWithReason(host, st1, made.value, node.child, 0, depth + 1);
      }
    }
  }

  lemma {:induction false} FillFailsWithReason(host: Host, st: State, p: Ptr, kv: Nodes, depth: nat)
    ensures match FillMembers(host, st, p, kv, depth).1
            case None => true
            case Some(f) => f.rc != Success && |f.reason| <= 255 && f.trail != []
    decreases kv, 0
  {
    if kv.Cons? {
      BuildFailsWithReason(host, st, kv.value, depth);
      var (st1, b) := BuildValue(host, st, kv.value, depth);
      if b.Built? { FillFailsWithReason(host, MemberPut(st1, p, kv.key, b.bytes).0, p, kv.next, depth); }
    }
  }

  lemma {:induction false} FillElementsFailsWithReason(host: Host, st: State, p: Ptr, item: Nodes, i: nat, depth: nat)
    ensures match FillElements(host, st, p, item, i, depth).1
            case None => true
            case Some(f) => f.rc != Success && |f.reason| <= 255 && f.trail != []
    decreases item, 0
  {
    if item.Cons? {
      BuildFailsWithReason(host, st, item.value, depth);
      var (st1, b) := BuildValue(host, st, item.value, depth);
      if b.Built? { FillElementsFailsWithReason(host, SetAddItem(st1, p, b.bytes).0, p, item.next, i + 1, depth); }
    }
  }

  /** The 1024-byte buffer always holds the first 767 bytes of the message with nothing cut off between levels. */
  lemma FailureTextIsMessagePrefix(host: Host, st: State, node: Json, depth: nat)
    requires BuildValue(host, st, node, depth).1.NotBuilt?
    ensures var f := BuildValue(host, st, node, depth).1.failure;
            Shown(1024, f.reason, f.trail) == Cut(Message(f.reason, f.trail), 767)
  {
    var f := BuildValue(host, st, node, depth).1.failure;
    BuildFailsWithReason(host, st, node, depth);
    ShownIsCutMessage(f.reason, f.trail);
  }

  // -------------------- the depth limit --------------------

  /** All names and elements are acceptable; only nesting can fail. */
  predicate EdgesFit(node: Json) {
    IsContainer(node) ==> EdgesFitIn(node.child, node.JObject?)
  }

  predicate EdgesFitIn(nodes: Nodes, inObject: bool) {
    nodes.Cons? ==>
      && (if inObject then 1 <= |nodes.key| <= MAX_NAME_LEN
          else !IsContainer(nodes.value) ==> |LeafEncoding(nodes.value)| <= MAX_ELEMENT_LEN)
      && EdgesFit(nodes.value) && EdgesFitIn(nodes.next, inObject)
  }

  lemma {:induction false} OnlyDepthFails(host: Host, node: Json, depth: nat)
    requires EdgesFit(node)
    ensures FirstFault(host, node, depth).None? <==> !IsContainer(node) || depth + Height(node) <= NEST_DEPTH_MAX
    decreases node, 1
  {
    if IsContainer(node) && depth < NEST_DEPTH_MAX {
      OnlyDepthFailsIn(host, node.child, node.JObject?, 0, depth + 1);
    }
  }

  lemma {:induction false} OnlyDepthFailsIn(host: Host, nodes: Nodes, inObject: bool, i: nat, depth: nat)
    requires EdgesFitIn(nodes, inObject) && depth <= NEST_DEPTH_MAX
    ensures FirstFaultIn(host, nodes, inObject, i, depth).None? <==> depth + HeightAll(nodes) <= NEST_DEPTH_MAX
    decreases nodes, 0
  {
    if nodes.Cons? {
      OnlyDepthFails(host, nodes.value, depth);
      OnlyDepthFailsIn(host, nodes.next, inObject, i + 1, depth);
    }
  }

  /** With acceptable names and a willing engine, a value is stored iff no container is nested 64 deep or more. */
  lemma DepthLimitIsExact(host: Host, st: State, node: Json, depth: nat)
    requires EdgesFit(node) && Enough(st, Containers(node), Edges(node))
    ensures BuildValue(host, st, node, depth).1.Built? <==> !IsContainer(node) || depth + Height(node) <= NEST_DEPTH_MAX
  {
    OnlyDepthFails(host, node, depth);
    BuildFindsFirstFault(host, st, node, depth);
  }
}
