/** query_path.c: walking a path through the stored graph. */
module QueryPath {
  import opened CBytes
  import opened ErrorCodes
  import opened Codec
  import opened Engine
  import opened PathText

  const MAX_DEPTH_DEFAULT := 64
  const MAX_VALUE_BYTES_DEFAULT := 8192

  datatype Options = Options(maxDepth: nat, maxValueBytes: nat)

  /** query_options_init: zero stands for the default. */
  function WithDefaults(o: Options): (r: Options)
    ensures r.maxDepth > 0 && r.maxValueBytes > 0
    ensures o.maxDepth > 0 ==> r.maxDepth == o.maxDepth
    ensures o.maxValueBytes > 0 ==> r.maxValueBytes == o.maxValueBytes
    ensures o == Options(0, 0) ==> r == Options(64, 8192)
  {
    Options(if o.maxDepth > 0 then o.maxDepth else MAX_DEPTH_DEFAULT,
            if o.maxValueBytes > 0 then o.maxValueBytes else MAX_VALUE_BYTES_DEFAULT)
  }

  /** Where a query failed, and what was found there in place of a reference. */
  datatype QueryError = QueryError(at: Option<Bytes>, segment: nat, found: Option<ApiType>)

  const NO_ERROR := QueryError(None, 0, None)

  datatype Answer = Value(text: Bytes, ty: ApiType) | Failed(rc: Rc, error: QueryError)

  /** Where and why a walk ended: at a leaf, or stopped at a segment. */
  datatype Walk = Leaf(text: Bytes, ty: ApiType) | Stop(rc: Rc, segment: nat, found: Option<ApiType>)

  // -------------------- the walk as a full read --------------------

  /** The last segment: read up to the cap and decode. */
  function ReadLeaf(s: Store, cur: Ptr, name: Bytes, i: nat, cap: nat): Walk {
    match CappedGet(s, cur, name, cap)
    case NotGot(rc) => Stop(rc, i, None)
    case Got(v) =>
      match DecodeValue(v)
      case Decoded(text, ty) => Leaf(text, ty)
      case NotDecoded(rc) => Stop(rc, i, None)
  }

  /**
   Reading and decoding every intermediate value in full; names[0] is segment i.
   The type of a value that is no reference is reported if it is at most 18 bytes long.
   */
  function FullWalk(s: Store, cur: Ptr, names: seq<Bytes>, i: nat, cap: nat): Walk
    requires |names| >= 1
    decreases |names|
  {
    if |names| == 1 then ReadLeaf(s, cur, names[0], i, cap)
    else
      match MemberValue(s, cur, names[0])
      case NotGot(rc) => Stop(rc, i, None)
      case Got(v) =>
        match DecodeValue(v)
        case NotDecoded(rc) => Stop(rc, i, None)
        case Decoded(_, ObjectType) => FullWalk(s, PtrOfBytes(v[1..1 + PTR_LEN]), names[1..], i + 1, cap)
        case Decoded(_, SetType) => Stop(SetNotSupported, i, Some(SetType))
        case Decoded(_, ty) => Stop(TypeMismatch, i, if |v| <= 1 + PTR_LEN then Some(ty) else None)
  }

  // -------------------- the walk with the 18-byte probe --------------------

  datatype Hop = Next(p: Ptr) | NoHop(rc: Rc, found: Option<ApiType>)

  /** tag_to_api_type. */
  function TagType(tag: Byte): Option<ApiType> {
    if tag == TAG_RAW then Some(RawType) else if tag == TAG_NULL then Some(NullType) else None
  }

  /** One intermediate segment, seen through an 18-byte buffer. */
  function ProbeHop(s: Store, cur: Ptr, name: Bytes): Hop {
    match MemberGet(s, cur, name, 1 + PTR_LEN)
    case NotGot(BufferTooSmall) => NoHop(TypeMismatch, None)
    case NotGot(rc) => NoHop(rc, None)
    case Got(probe) =>
      if |probe| < 1 then NoHop(InvalidType, None)
      else if probe[0] != TAG_PTR then NoHop(TypeMismatch, TagType(probe[0]))
      else if |probe| < 1 + PTR_LEN then NoHop(InvalidType, None)
      else
        var p := PtrOfBytes(probe[1..1 + PTR_LEN]);
        if p.kind == OBJ then Next(p)
        else if p.kind == SET then NoHop(SetNotSupported, Some(SetType))
        else NoHop(TypeMismatch, None)
  }

  function ProbeWalk(s: Store, cur: Ptr, names: seq<Bytes>, i: nat, cap: nat): Walk
    requires |names| >= 1
    decreases |names|
  {
    if |names| == 1 then ReadLeaf(s, cur, names[0], i, cap)
    else
      match ProbeHop(s, cur, names[0])
      case NoHop(rc, found) => Stop(rc, i, found)
      case Next(p) => ProbeWalk(s, p, names[1..], i + 1, cap)
  }

  /** On a well-formed store one probe decides what a full read and decode would. */
  lemma ProbeHopIsFull(s: Store, cur: Ptr, name: Bytes)
    requires WfStore(s)
    ensures match MemberValue(s, cur, name)
            case NotGot(rc) => ProbeHop(s, cur, name) == NoHop(rc, None)
            case Got(v) =>
              match DecodeValue(v)
              case NotDecoded(_) => false
              case Decoded(_, ObjectType) => |v| == 1 + PTR_LEN && ProbeHop(s, cur, name) == Next(PtrOfBytes(v[1..]))
              case Decoded(_, SetType) => ProbeHop(s, cur, name) == NoHop(SetNotSupported, Some(SetType))
              case Decoded(_, ty) => ProbeHop(s, cur, name) == NoHop(TypeMismatch, if |v| <= 1 + PTR_LEN then Some(ty) else None)
  {
    WfMembers(s, cur);
    if MemberValue(s, cur, name).Got? {
      var v := MemberValue(s, cur, name).bytes;
      assert WfValue(v);
      if v[0] == TAG_PTR { assert v[1..1 + PTR_LEN] == v[1..]; }
    }
  }

  /** One segment of either walk. */
  lemma FullStep(s: Store, cur: Ptr, names: seq<Bytes>, i: nat, cap: nat)
    requires |names| >= 1
    ensures FullWalk(s, cur, names, i, cap) ==
            if |names| == 1 then ReadLeaf(s, cur, names[0], i, cap)
            else match MemberValue(s, cur, names[0])
                 case NotGot(rc) => Stop(rc, i, None)
                 case Got(v) =>
                   match DecodeValue(v)
                   case NotDecoded(rc) => Stop(rc, i, None)
                   case Decoded(_, ObjectType) => FullWalk(s, PtrOfBytes(v[1..1 + PTR_LEN]), names[1..], i + 1, cap)
                   case Decoded(_, SetType) => Stop(SetNotSupported, i, Some(SetType))
                   case Decoded(_, ty) => Stop(TypeMismatch, i, if |v| <= 1 + PTR_LEN then Some(ty) else None)
  {
  }

  lemma ProbeStep(s: Store, cur: Ptr, names: seq<Bytes>, i: nat, cap: nat)
    requires |names| >= 1
    ensures ProbeWalk(s, cur, names, i, cap) ==
            if |names| == 1 then ReadLeaf(s, cur, names[0], i, cap)
            else match ProbeHop(s, cur, names[0])
                 case NoHop(rc, found) => Stop(rc, i, found)
                 case Next(p) => ProbeWalk(s, p, names[1..], i + 1, cap)
  {
  }

  /** The probing walk is the full walk: same answer, same failing segment, same reported type. */
  lemma {:induction false} ProbeRefinesFull(s: Store, cur: Ptr, names: seq<Bytes>, i: nat, cap: nat)
    requires WfStore(s) && |names| >= 1
    ensures ProbeWalk(s, cur, names, i, cap) == FullWalk(s, cur, names, i, cap)
    decreases |names|
  {
    hide *;
    FullStep(s, cur, names, i, cap);
    ProbeStep(s, cur, names, i, cap);
    if |names| > 1 {
      ProbeHopIsFull(s, cur, names[0]);
      var hop := ProbeHop(s, cur, names[0]);
      if hop.Next? {
        var v := MemberValue(s, cur, names[0]).bytes;
        assert v[1..1 + PTR_LEN] == v[1..];
        ProbeRefinesFull(s, hop.p, names[1..], i + 1, cap);
      }
    }
  }

  // -------------------- the whole query --------------------

  /** build_at: the segments up to a position, joined by slashes. */
  function At(segs: seq<Bytes>, upto: nat): Bytes
    requires |segs| >= 1
  {
    Join(SLASH, segs[..(if upto >= |segs| then |segs| - 1 else upto) + 1])
  }

  /** The location grows by a slash and a name per segment, and later segments play no part in it. */
  lemma AtFacts(segs: seq<Bytes>, n: Bytes, more: seq<Bytes>, upto: nat)
    requires |segs| >= 1
    ensures |segs| == 1 ==> At(segs, 0) == segs[0]
    ensures At(segs + [n], |segs|) == At(segs, |segs| - 1) + [SLASH] + n
    ensures upto < |segs| ==> At(segs + more, upto) == At(segs, upto)
  {
    hide Join;
    assert (segs + [n])[..|segs| + 1] == segs + [n] && segs[..|segs|] == segs;
    JoinAppend(SLASH, segs, n);
    if |segs| == 1 { JoinOne(SLASH, segs[0]); assert segs == [segs[0]]; }
    if upto < |segs| { assert (segs + more)[..upto + 1] == segs[..upto + 1]; }
  }

  lemma JoinOne(sep: Byte, seg: Bytes)
    ensures Join(sep, [seg]) == seg
  {
  }

  function FailedAtSegment(segs: seq<Bytes>, rc: Rc, segment: nat, found: Option<ApiType>): Answer
    requires |segs| >= 1
  {
    Failed(rc, QueryError(Some(At(segs, segment)), segment, found))
  }

  function Query(s: Store, path: Bytes, options: Options): Answer {
    var o := WithDefaults(options);
    match ParsePath(path, o.maxDepth)
    case Bad(rc) => Failed(rc, NO_ERROR)
    case Segments(segs) =>
      if |segs| < 2 then Failed(PathParse, NO_ERROR)
      else
        match PtrFromString(segs[0])
        case None => FailedAtSegment(segs, PathInvalidPtr, 0, None)
        case Some(root) =>
          if root.kind == SET then FailedAtSegment(segs, SetNotSupported, 0, Some(SetType))
          else if root.kind != OBJ then FailedAtSegment(segs, PathInvalidPtr, 0, None)
          else
            match ProbeWalk(s, root, segs[1..], 1, o.maxValueBytes)
            case Leaf(text, ty) => Value(text, ty)
            case Stop(rc, segment, found) => FailedAtSegment(segs, rc, segment, found)
  }

  /** Filling in the defaults twice is filling them in once. */
  lemma DefaultsOnce(s: Store, path: Bytes, o: Options)
    ensures WithDefaults(WithDefaults(o)) == WithDefaults(o)
    ensures Query(s, path, WithDefaults(o)) == Query(s, path, o)
  {
    hide ParsePath, PtrFromString, ProbeWalk, At;
  }

  // -------------------- the code --------------------

  method BuildAt(segs: seq<Bytes>, upto: nat) returns (at: Bytes)
    requires |segs| >= 1
    ensures at == At(segs, upto)
  {
    var last := upto;
    if last >= |segs| {
      last := |segs| - 1;
    }
    var total := 0;
    at := [];
    ghost var wanted := segs[..last + 1];
    for i := 0 to last + 1
      invariant total >= |at|
      invariant i > 0 ==> at == Join(SLASH, wanted[..i])
      invariant i == 0 ==> at == []
    {
      total := total + |segs[i]| + 1;
      if i > 0 {
        at := at + [SLASH];
      }
      at := at + segs[i];
      assert wanted[..i + 1] == wanted[..i] + [segs[i]];
      if i > 0 { JoinAppend(SLASH, wanted[..i], segs[i]); }
    }
    assert wanted[..last + 1] == wanted;
  }

  lemma {:induction false} JoinAppend(sep: Byte, segs: seq<Bytes>, last: Bytes)
    requires |segs| >= 1
    ensures Join(sep, segs + [last]) == Join(sep, segs) + [sep] + last
  {
    if |segs| == 1 {
      assert (segs + [last])[1..] == [last];
    } else {
      JoinAppend(sep, segs[1..], last);
      assert (segs + [last])[1..] == segs[1..] + [last];
      assert (segs + [last])[0] == segs[0];
    }
  }

  /** The walking loop of query_path_execute. */
  method WalkSegments(txn: Txn, root: Ptr, segs: seq<Bytes>, maxValueBytes: nat)
    returns (rc: Rc, failIndex: nat, found: Option<ApiType>, value: Bytes, ty: ApiType)
    requires txn.open && |segs| >= 2 && root.kind == OBJ
    ensures match ProbeWalk(txn.st.store, root, segs[1..], 1, maxValueBytes)
            case Leaf(t, y) => rc == Success && value == t && ty == y
            case Stop(c, i, f) => rc == c && rc != Success && failIndex == i && found == f
  {
    var cur := root;
    var last := |segs| - 1;
    failIndex, found, value, ty := 1, None, [], NullType;
    var i := 1;
    ghost var goal := ProbeWalk(txn.st.store, root, segs[1..], 1, maxValueBytes);
    while i < last
      invariant 1 <= i <= last && found == None && cur.kind == OBJ
      invariant goal == ProbeWalk(txn.st.store, cur, segs[i..], i, maxValueBytes)
    {
      var name := segs[i];
      assert segs[i..][1..] == segs[i + 1..];
      var probe := txn.Get(cur, name, 1 + PTR_LEN);
      rc := Success;
      if probe == NotGot(BufferTooSmall) {
        rc := TypeMismatch;
      } else if probe.NotGot? {
        rc := probe.rc;
      } else if |probe.bytes| < 1 {
        rc := InvalidType;
      } else if probe.bytes[0] != TAG_PTR {
        found := TagType(probe.bytes[0]);
        rc := TypeMismatch;
      } else if |probe.bytes| < 1 + PTR_LEN {
        rc := InvalidType;
      }
      if rc != Success {
        failIndex := i;
        return;
      }
      cur := PtrOfBytes(probe.bytes[1..1 + PTR_LEN]);
      if cur.kind != OBJ {
        if cur.kind == SET {
          found := Some(SetType);
          rc := SetNotSupported;
        } else {
          rc := TypeMismatch;
        }
        failIndex := i;
        return;
      }
      i := i + 1;
    }
    assert |segs[i..]| == 1;
    var r, _, _ := txn.GetCapped(cur, segs[i], maxValueBytes);
    if r.NotGot? {
      rc, failIndex := r.rc, i;
      return;
    }
    match DecodeValue(r.bytes)
    case NotDecoded(c) => rc, failIndex := c, i;
    case Decoded(t, y) => rc, value, ty := Success, t, y;
  }

  method QueryExecute(txn: Txn, path: Bytes, options: Options)
    returns (rc: Rc, value: Bytes, ty: ApiType, error: QueryError)
    requires txn.open
    ensures match Query(txn.st.store, path, options)
            case Value(t, y) => rc == Success && value == t && ty == y && error == NO_ERROR
            case Failed(c, e) => rc == c && rc != Success && error == e
  {
    value, ty, error := [], NullType, NO_ERROR;
    var o := WithDefaults(options);
    var segs;
    rc, segs := SegmentsParse(path, o.maxDepth);
    if rc != Success {
      return;
    }
    var root := PtrFromString(segs[0]);
    if root.None? || root.value.kind != OBJ {
      var at := BuildAt(segs, 0);
      error := QueryError(Some(at), 0, None);
      rc := PathInvalidPtr;
      if root.Some? && root.value.kind == SET {
        error := error.(found := Some(SetType));
        rc := SetNotSupported;
      }
      return;
    }
    var failIndex, found;
    rc, failIndex, found, value, ty := WalkSegments(txn, root.value, segs, o.maxValueBytes);
    if rc != Success {
      var at := BuildAt(segs, failIndex);
      error := QueryError(Some(at), failIndex, found);
    }
  }
}
