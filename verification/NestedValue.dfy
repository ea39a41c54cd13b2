/**
 nested_value.c: writing a JSON tree as fresh entities linked by references.
 `Build` and the two `Fill` functions say what the methods below them do.
 */
module NestedValue {
  import opened CBytes
  import opened ErrorCodes
  import opened Json
  import opened Platform
  import opened Codec
  import opened Engine

  const NEST_DEPTH_MAX := 64

  /** Where a failure happened, one level of the tree at a time. */
  datatype Step = InMember(name: Bytes) | InElement(index: nat)

  /** A failed build: the reason, and the levels left on the way out, innermost first. */
  datatype Failure = Failure(rc: Rc, reason: Bytes, trail: seq<Step>)

  datatype Build = Built(bytes: Bytes) | NotBuilt(failure: Failure)

  function KindOf(node: Json): Byte
    requires IsContainer(node)
  {
    if node.JObject? then OBJ else SET
  }

  /** Scalars are stored as their text, null as the null marker. */
  function LeafText(node: Json): Bytes
    requires !IsContainer(node)
  {
    match node
    case JNull => Ascii("null")
    case JBool(b) => if b then Ascii("true") else Ascii("false")
    case JNumber(text) => text
    case JString(s) => s
  }

  function LeafEncoding(node: Json): (v: Bytes)
    requires !IsContainer(node)
    ensures WfValue(v)
    ensures DecodeValue(v) == Decoded(LeafText(node), if node.JNull? then NullType else RawType)
  {
    if node.JNull? then NULL_ENCODING
    else
      assert RawEncoding(LeafText(node))[1..] == LeafText(node);
      RawEncoding(LeafText(node))
  }

  function DepthReason(): Bytes { Ascii("nesting depth exceeds max 64") }
  function EmptyNameReason(): Bytes { Ascii("member name must not be empty") }
  function LongNameReason(): Bytes { Ascii("member name too long (max 493)") }

  /** lmjcore_nested_member_name_check. */
  function NameProblem(name: Bytes): (reason: Option<Bytes>)
    ensures reason.None? <==> 1 <= |name| <= 493
    ensures reason == Some(Ascii("member name must not be empty")) <==> |name| == 0
    ensures reason == Some(Ascii("member name too long (max 493)")) <==> |name| > 493
  {
    assert EmptyNameReason()[12] != LongNameReason()[12];
    if |name| == 0 then Some(EmptyNameReason())
    else if |name| > MAX_NAME_LEN then Some(LongNameReason())
    else None
  }

  function Inside(f: Failure, step: Step): Failure {
    f.(trail := f.trail + [step])
  }

  /** Storing one JSON node at nesting depth `depth`. */
  function BuildValue(host: Host, st: State, node: Json, depth: nat): (State, Build)
    decreases node, 1
  {
    if !IsContainer(node) then (st, Built(LeafEncoding(node)))
    else if depth >= NEST_DEPTH_MAX then (st, NotBuilt(Failure(InvalidParam, DepthReason(), [])))
    else
      var (st1, made) := Create(st, KindOf(node));
      match made
      case None => (st1, NotBuilt(Failure(NoPointer, host.Strerror(NoPointer), [])))
      case Some(p) =>
        var (st2, failed) := if node.JObject? then FillMembers(host, st1, p, node.child, depth + 1)
                             else FillElements(host, st1, p, node.child, 0, depth + 1);
        match failed
        case Some(f) => (st2, NotBuilt(f))
        case None => (st2, Built(RefEncoding(p)))
  }

  /** Writing the remaining members of an object, their values at depth `depth`. */
  function FillMembers(host: Host, st: State, p: Ptr, kv: Nodes, depth: nat): (State, Option<Failure>)
    decreases kv, 0
  {
    match kv
    case Nil => (st, None)
    case Cons(name, value, next) =>
      var problem := NameProblem(name);
      if problem.Some? then (st, Some(Failure(InvalidParam, problem.value, [InMember(name)])))
      else
        var (st1, b) := BuildValue(host, st, value, depth);
        match b
        case NotBuilt(f) => (st1, Some(Inside(f, InMember(name))))
        case Built(enc) =>
          var (st2, rc) := MemberPut(st1, p, name, enc);
          if rc != Success then (st2, Some(Failure(rc, host.Strerror(rc), [InMember(name)])))
          else FillMembers(host, st2, p, next, depth)
  }

  /** Adding the remaining elements of a set; an element already present is no error. */
  function FillElements(host: Host, st: State, p: Ptr, item: Nodes, index: nat, depth: nat): (State, Option<Failure>)
    decreases item, 0
  {
    match item
    case Nil => (st, None)
    case Cons(_, value, next) =>
      var (st1, b) := BuildValue(host, st, value, depth);
      match b
      case NotBuilt(f) => (st1, Some(Inside(f, InElement(index))))
      case Built(enc) =>
        var (st2, rc) := SetAddItem(st1, p, enc);
        if rc != Success && rc != MemberExists
        then (st2, Some(Failure(rc, host.Strerror(rc), [InElement(index)])))
        else FillElements(host, st2, p, next, index + 1, depth)
  }

  // -------------------- error text --------------------

  function StepText(step: Step): Bytes {
    match step
    case InMember(name) => Ascii("member '") + name + Ascii("'")
    case InElement(i) => Ascii("element [") + Decimal(i) + Ascii("]")
  }

  /** The context string each level prints into its own buffer (560 or 64 bytes). */
  function ContextText(step: Step): Bytes {
    Cut(StepText(step), if step.InMember? then 559 else 63)
  }

  function Suffix(step: Step): Bytes {
    Ascii(" (in ") + ContextText(step) + Ascii(")")
  }

  /** What `snprintf(buf, size, ...)` leaves in a buffer that may be absent. */
  function Fit(size: nat, text: Bytes): Bytes {
    if size == 0 then [] else Cut(text, size - 1)
  }

  /** The content of the error buffer after a failure has travelled up its trail. */
  function Shown(size: nat, reason: Bytes, trail: seq<Step>): Bytes {
    if trail == [] then Fit(size, reason)
    else
      var n := |trail| - 1;
      Fit(size, Cut(Shown(size, reason, trail[..n]) + Suffix(trail[n]), 767))
  }

  /** The same message with unlimited buffers. */
  function Message(reason: Bytes, trail: seq<Step>): Bytes {
    if trail == [] then reason
    else Message(reason, trail[..|trail| - 1]) + Suffix(trail[|trail| - 1])
  }

  lemma ShownInside(size: nat, reason: Bytes, trail: seq<Step>, step: Step)
    ensures Shown(size, reason, trail + [step]) == Fit(size, Cut(Shown(size, reason, trail) + Suffix(step), 767))
    ensures Shown(size, reason, []) == Fit(size, reason)
    ensures size == 0 ==> Shown(size, reason, trail) == []
  {
    assert (trail + [step])[..|trail|] == trail;
  }

  /** A reason set at this very level. */
  lemma ShownHere(size: nat, reason: Bytes, step: Step)
    ensures Shown(size, reason, [step]) == Fit(size, Cut(Fit(size, reason) + Suffix(step), 767))
    ensures size == 0 ==> Fit(size, reason) == []
    ensures Shown(size, reason, []) == Fit(size, reason)
  {
    assert [step][..0] == [];
  }

  lemma CutOfCut(a: Bytes, b: Bytes, n: nat)
    ensures Cut(Cut(a, n) + b, n) == Cut(a + b, n)
  {
  }

  lemma {:induction false} ShownIsCutMessage(reason: Bytes, trail: seq<Step>)
    requires |reason| <= 767
    ensures Shown(1024, reason, trail) == Cut(Message(reason, trail), 767)
  {
    if trail != [] {
      var n := |trail| - 1;
      ShownIsCutMessage(reason, trail[..n]);
      CutOfCut(Message(reason, trail[..n]), Suffix(trail[n]), 767);
    }
  }

  // -------------------- the code --------------------

  class ErrBuf {
    var text: Bytes
    const size: nat

    constructor (size: nat)
      ensures this.size == size && text == []
    {
      this.size := size;
      text := [];
    }

    method SetReason(reason: Bytes)
      requires size == 0 ==> text == []
      modifies this`text
      ensures text == Fit(size, reason)
    {
      if size == 0 {
        return;
      }
      text := Cut(reason, size - 1);
    }

    /** fail_in: the reason so far, one more level after it. */
    method FailIn(step: Step)
      requires size == 0 ==> text == []
      modifies this`text
      ensures text == Fit(size, Cut(old(text) + Suffix(step), 767))
    {
      if size > 0 {
        var tmp := Cut(text + Suffix(step), 767);
        text := Cut(tmp, size - 1);
      }
    }
  }

  /** How a finished call reports what `BuildValue` computes. */
  ghost predicate Reports(b: Build, rc: Rc, enc: Bytes, err: ErrBuf)
    reads err
  {
    match b
    case Built(e) => rc == Success && enc == e && err.text == []
    case NotBuilt(f) => rc == f.rc && rc != Success && err.text == Shown(err.size, f.reason, f.trail)
  }

  /** One scalar, one container, one member, one element of the specification. */
  lemma LeafBuild(host: Host, st: State, node: Json, depth: nat)
    requires !IsContainer(node)
    ensures BuildValue(host, st, node, depth) == (st, Built(LeafEncoding(node)))
  {
  }

  lemma ContainerStep(host: Host, st: State, node: Json, depth: nat)
    requires IsContainer(node)
    ensures BuildValue(host, st, node, depth) ==
            if depth >= NEST_DEPTH_MAX then (st, NotBuilt(Failure(InvalidParam, DepthReason(), [])))
            else match Create(st, KindOf(node))
                 case (st1, None) => (st1, NotBuilt(Failure(NoPointer, host.Strerror(NoPointer), [])))
                 case (st1, Some(p)) =>
                   var (st2, failed) := if node.JObject? then FillMembers(host, st1, p, node.child, depth + 1)
                                        else FillElements(host, st1, p, node.child, 0, depth + 1);
                   (st2, match failed case Some(f) => NotBuilt(f) case None => Built(RefEncoding(p)))
  {
  }

  lemma MemberStep(host: Host, st: State, p: Ptr, kv: Nodes, depth: nat)
    ensures FillMembers(host, st, p, kv, depth) ==
            match kv
            case Nil => (st, None)
            case Cons(name, value, next) =>
              var (st1, b) := BuildValue(host, st, value, depth);
              var problem := NameProblem(name);
              if problem.Some? then (st, Some(Failure(InvalidParam, problem.value, [InMember(name)])))
              else if b.NotBuilt? then (st1, Some(Inside(b.failure, InMember(name))))
              else
                var (st2, rc) := MemberPut(st1, p, name, b.bytes);
                if rc != Success then (st2, Some(Failure(rc, host.Strerror(rc), [InMember(name)])))
                else FillMembers(host, st2, p, next, depth)
  {
  }

  lemma ElementStep(host: Host, st: State, p: Ptr, item: Nodes, index: nat, depth: nat)
    ensures FillElements(host, st, p, item, index, depth) ==
            match item
            case Nil => (st, None)
            case Cons(_, value, next) =>
              var (st1, b) := BuildValue(host, st, value, depth);
              if b.NotBuilt? then (st1, Some(Inside(b.failure, InElement(index))))
              else
                var (st2, rc) := SetAddItem(st1, p, b.bytes);
                if rc != Success && rc != MemberExists then (st2, Some(Failure(rc, host.Strerror(rc), [InElement(index)])))
                else FillElements(host, st2, p, next, index + 1, depth)
  {
  }

  /** lmjcore_json_encode_value. */
  method EncodeJson(host: Host, txn: Txn, node: Json, depth: nat, err: ErrBuf) returns (rc: Rc, enc: Bytes)
    requires txn.open && !txn.readonly
    modifies txn`st, err`text
    ensures txn.st == BuildValue(host, old(txn.st), node, depth).0
    ensures Reports(BuildValue(host, old(txn.st), node, depth).1, rc, enc, err)
    decreases Size(node), 1
  {
    err.text := [];
    if node.JObject? {
      rc, enc := EncodeObject(host, txn, node, depth, err);
    } else if node.JArray? {
      rc, enc := EncodeArray(host, txn, node, depth, err);
    } else {
      rc, enc := Success, LeafEncoding(node);
    }
  }

  method EncodeObject(host: Host, txn: Txn, node: Json, depth: nat, err: ErrBuf) returns (rc: Rc, enc: Bytes)
    requires node.JObject? && txn.open && !txn.readonly && err.text == []
    modifies txn`st, err`text
    ensures txn.st == BuildValue(host, old(txn.st), node, depth).0
    ensures Reports(BuildValue(host, old(txn.st), node, depth).1, rc, enc, err)
    decreases Size(node), 0
  {
    hide BuildValue, FillMembers, FillElements, MemberPut, SetAddItem, Create;
    hide Shown, Fit, Cut, Suffix, NameProblem, DepthReason, RefEncoding;
    ContainerStep(host, txn.st, node, depth);
    ShownHere(err.size, DepthReason(), InElement(0));
    ShownHere(err.size, host.Strerror(NoPointer), InElement(0));
    enc := [];
    if depth >= NEST_DEPTH_MAX {
      err.SetReason(DepthReason());
      return InvalidParam, enc;
    }
    var p;
    rc, p := txn.CreateEntity(OBJ);
    if rc != Success {
      err.SetReason(host.Strerror(rc));
      return;
    }
    ghost var st1 := txn.st;
    var kv := node.child;
    while kv.Cons?
      invariant SizeAll(kv) < Size(node)
      invariant FillMembers(host, st1, p, node.child, depth + 1) == FillMembers(host, txn.st, p, kv, depth + 1)
      invariant err.text == []
      decreases kv
    {
      MemberStep(host, txn.st, p, kv, depth + 1);
      var step := InMember(kv.key);
      var problem := NameProblem(kv.key);
      if problem.Some? {
        err.SetReason(problem.value);
        ShownHere(err.size, problem.value, step);
        err.FailIn(step);
        return InvalidParam, enc;
      }
      var value;
      ghost var before := txn.st;
      rc, value := EncodeJson(host, txn, kv.value, depth + 1, err);
      if rc != Success {
        ghost var f := BuildValue(host, before, kv.value, depth + 1).1.failure;
        ShownInside(err.size, f.reason, f.trail, step);
        err.FailIn(step);
        return;
      }
      rc := txn.Put(p, kv.key, value);
      if rc != Success {
        err.SetReason(host.Strerror(rc));
        ShownHere(err.size, host.Strerror(rc), step);
        err.FailIn(step);
        return;
      }
      kv := kv.next;
    }
    MemberStep(host, txn.st, p, kv, depth + 1);
    return Success, RefEncoding(p);
  }

  method EncodeArray(host: Host, txn: Txn, node: Json, depth: nat, err: ErrBuf) returns (rc: Rc, enc: Bytes)
    requires node.JArray? && txn.open && !txn.readonly && err.text == []
    modifies txn`st, err`text
    ensures txn.st == BuildValue(host, old(txn.st), node, depth).0
    ensures Reports(BuildValue(host, old(txn.st), node, depth).1, rc, enc, err)
    decreases Size(node), 0
  {
    hide BuildValue, FillMembers, FillElements, MemberPut, SetAddItem, Create;
    hide Shown, Fit, Cut, Suffix, NameProblem, DepthReason, RefEncoding;
    ContainerStep(host, txn.st, node, depth);
    ShownHere(err.size, DepthReason(), InElement(0));
    ShownHere(err.size, host.Strerror(NoPointer), InElement(0));
    enc := [];
    if depth >= NEST_DEPTH_MAX {
      err.SetReason(DepthReason());
      return InvalidParam, enc;
    }
    var p;
    rc, p := txn.CreateEntity(SET);
    if rc != Success {
      err.SetReason(host.Strerror(rc));
      return;
    }
    ghost var st1 := txn.st;
    var index := 0;
    var item := node.child;
    while item.Cons?
      invariant SizeAll(item) < Size(node)
      invariant FillElements(host, st1, p, node.child, 0, depth + 1) ==
                FillElements(host, txn.st, p, item, index, depth + 1)
      invariant err.text == []
      decreases item
    {
      ElementStep(host, txn.st, p, item, index, depth + 1);
      var value;
      ghost var before := txn.st;
      rc, value := EncodeJson(host, txn, item.value, depth + 1, err);
      if rc != Success {
        ghost var f := BuildValue(host, before, item.value, depth + 1).1.failure;
        ShownInside(err.size, f.reason, f.trail, InElement(index));
        err.FailIn(InElement(index));
        return;
      }
      rc := txn.Add(p, value);
      if rc == MemberExists {
        rc := Success;
      }
      if rc != Success {
        err.SetReason(host.Strerror(rc));
        ShownHere(err.size, host.Strerror(rc), InElement(index));
        err.FailIn(InElement(index));
        return;
      }
      index := index + 1;
      item := item.next;
    }
    ElementStep(host, txn.st, p, item, index, depth + 1);
    return Success, RefEncoding(p);
  }
}
