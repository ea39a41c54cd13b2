/** The text of a query path: splitting, percent-decoding, and the grammar it obeys. */
module PathText {
  import opened CBytes
  import opened ErrorCodes
  import opened Codec

  /** strchr: the first position of a byte, or the length. */
  function Find(b: Bytes, c: Byte): (i: nat)
    ensures i <= |b| && c !in b[..i]
    ensures i < |b| ==> b[i] == c
  {
    if b == [] || b[0] == c then 0
    else
      var i := Find(b[1..], c);
      assert b[..i + 1] == [b[0]] + b[1..][..i];
      i + 1
  }

  lemma {:induction false} FindUnique(a: Bytes, c: Byte, rest: Bytes)
    requires c !in a
    ensures Find(a, c) == |a| && Find(a + [c] + rest, c) == |a|
  {
    if a != [] {
      FindUnique(a[1..], c, rest);
      assert (a + [c] + rest)[1..] == a[1..] + [c] + rest;
    }
  }

  function Split(b: Bytes): (r: seq<Bytes>)
    ensures |r| >= 1
    ensures forall p :: p in r ==> DOT !in p
  {
    var i := Find(b, DOT);
    if i == |b| then
      assert b[..i] == b;
      [b]
    else [b[..i]] + Split(b[i + 1..])
  }

  function Join(sep: Byte, segs: seq<Bytes>): Bytes
    requires |segs| >= 1
  {
    if |segs| == 1 then segs[0] else segs[0] + [sep] + Join(sep, segs[1..])
  }

  lemma {:induction false} JoinOfSplit(b: Bytes)
    ensures Join(DOT, Split(b)) == b
  {
    hide Split, Join, Find;
    var i := Find(b, DOT);
    SplitStep(b);
    JoinStep(DOT, Split(b));
    if i < |b| {
      JoinOfSplit(b[i + 1..]);
      assert Split(b)[1..] == Split(b[i + 1..]);
      assert b == b[..i] + [DOT] + b[i + 1..];
    }
  }

  lemma JoinStep(sep: Byte, segs: seq<Bytes>)
    requires |segs| >= 1
    ensures Join(sep, segs) == if |segs| == 1 then segs[0] else segs[0] + [sep] + Join(sep, segs[1..])
  {
  }

  lemma {:induction false} SplitOfJoin(segs: seq<Bytes>)
    requires |segs| >= 1 && forall p :: p in segs ==> DOT !in p
    ensures Split(Join(DOT, segs)) == segs
  {
    hide Split, Join, Find;
    JoinStep(DOT, segs);
    SplitStep(Join(DOT, segs));
    if |segs| == 1 {
      FindUnique(segs[0], DOT, []);
      assert segs == [segs[0]];
    } else {
      var rest := Join(DOT, segs[1..]);
      var b := Join(DOT, segs);
      SplitOfJoin(segs[1..]);
      FindUnique(segs[0], DOT, rest);
      assert b[..|segs[0]|] == segs[0] && b[|segs[0]| + 1..] == rest;
      assert segs == [segs[0]] + segs[1..];
    }
  }

  // -------------------- what the parser computes --------------------

  datatype Parsed = Segments(segs: seq<Bytes>) | Bad(rc: Rc)

  /** The counting pass over the member pieces, `count` of them seen already. */
  function CheckMembers(pieces: seq<Bytes>, count: nat, maxDepth: nat): Rc {
    if pieces == [] then Success
    else if pieces[0] == [] then PathParse
    else if count + 1 > maxDepth then PathTooDeep
    else CheckMembers(pieces[1..], count + 1, maxDepth)
  }

  /** A decoded segment, as its readers see it: up to its first NUL. */
  function DecodeSegment(piece: Bytes): Bytes {
    CStr(UrlDecode(piece))
  }

  function DecodeAll(pieces: seq<Bytes>): (r: seq<Bytes>)
    ensures |r| == |pieces|
    ensures forall i :: 0 <= i < |r| ==> r[i] == DecodeSegment(pieces[i])
  {
    seq(|pieces|, i requires 0 <= i < |pieces| => DecodeSegment(pieces[i]))
  }

  function ParsePath(path: Bytes, maxDepth: nat): Parsed {
    var pieces := Split(path);
    if maxDepth == 0 || |pieces| == 1 || |pieces[0]| != PTR_STRING_LEN then Bad(PathParse)
    else
      var rc := CheckMembers(pieces[1..], 0, maxDepth);
      if rc != Success then Bad(rc) else Segments([pieces[0]] + DecodeAll(pieces[1..]))
  }

  // -------------------- the grammar --------------------

  predicate Shape(segs: seq<Bytes>, maxDepth: nat) {
    && 2 <= |segs| <= maxDepth + 1
    && |segs[0]| == PTR_STRING_LEN
    && (forall i :: 0 <= i < |segs| ==> DOT !in segs[i])
    && (forall i :: 1 <= i < |segs| ==> segs[i] != [])
  }

  /** `<34 bytes>.<segment>[.<segment>...]` with non-empty segments, at most maxDepth of them. */
  ghost predicate IsQueryPath(path: Bytes, maxDepth: nat) {
    exists segs :: Shape(segs, maxDepth) && path == Join(DOT, segs)
  }

  lemma {:induction false} MembersOk(pieces: seq<Bytes>, count: nat, maxDepth: nat)
    requires count <= maxDepth
    ensures CheckMembers(pieces, count, maxDepth) == Success <==>
              count + |pieces| <= maxDepth && forall i :: 0 <= i < |pieces| ==> pieces[i] != []
    ensures CheckMembers(pieces, count, maxDepth) == PathTooDeep <==>
              count + |pieces| > maxDepth && forall i :: 0 <= i <= maxDepth - count ==> pieces[i] != []
    ensures CheckMembers(pieces, count, maxDepth) in {Success, PathParse, PathTooDeep}
  {
    if pieces != [] && pieces[0] != [] && count < maxDepth {
      MembersOk(pieces[1..], count + 1, maxDepth);
      var c := CheckMembers(pieces[1..], count + 1, maxDepth);
      assert forall i :: 1 <= i < |pieces| ==> pieces[i] == pieces[1..][i - 1];
      assert forall i :: 0 <= i < |pieces| - 1 ==> pieces[1..][i] == pieces[i + 1];
    }
  }

  /** Parsing succeeds exactly on the grammar, and then its segments are the decoded ones. */
  lemma ParseAcceptsTheGrammar(path: Bytes, maxDepth: nat)
    ensures ParsePath(path, maxDepth).Segments? <==> IsQueryPath(path, maxDepth)
    ensures ParsePath(path, maxDepth).Segments? ==>
              && Shape(Split(path), maxDepth) && path == Join(DOT, Split(path))
              && ParsePath(path, maxDepth).segs == [Split(path)[0]] + DecodeAll(Split(path)[1..])
  {
    var pieces := Split(path);
    JoinOfSplit(path);
    MembersOk(pieces[1..], 0, maxDepth);
    if ParsePath(path, maxDepth).Segments? {
      forall i | 1 <= i < |pieces| ensures pieces[i] != [] { assert pieces[i] == pieces[1..][i - 1]; }
      assert Shape(pieces, maxDepth);
    }
    if IsQueryPath(path, maxDepth) {
      var segs :| Shape(segs, maxDepth) && path == Join(DOT, segs);
      SplitOfJoin(segs);
      assert forall i :: 0 <= i < |pieces[1..]| ==> pieces[1..][i] == segs[i + 1];
    }
  }

  /** A path is too deep when its first maxDepth + 1 members are sound and there are that many. */
  lemma TooDeepExactly(path: Bytes, maxDepth: nat)
    requires maxDepth > 0
    ensures ParsePath(path, maxDepth) == Bad(PathTooDeep) <==>
              var pieces := Split(path);
              |pieces[0]| == PTR_STRING_LEN && |pieces| > maxDepth + 1 && forall i :: 1 <= i <= maxDepth + 1 ==> pieces[i] != []
  {
    var pieces := Split(path);
    MembersOk(pieces[1..], 0, maxDepth);
    assert forall i :: 1 <= i < |pieces| ==> pieces[i] == pieces[1..][i - 1];
    assert forall i :: 0 <= i < |pieces| - 1 ==> pieces[1..][i] == pieces[i + 1];
  }

  // -------------------- print, then parse --------------------

  function EncodeAll(names: seq<Bytes>): (r: seq<Bytes>)
    ensures |r| == |names|
    ensures forall i :: 0 <= i < |r| ==> r[i] == PercentEncode(names[i])
  {
    seq(|names|, i requires 0 <= i < |names| => PercentEncode(names[i]))
  }

  /** The path a client writes for a root and member names. */
  function PrintPath(root: Bytes, names: seq<Bytes>): Bytes {
    Join(DOT, [root] + EncodeAll(names))
  }

  /** A name a path can carry. */
  predicate Printable(name: Bytes) {
    name != [] && NulFree(name)
  }

  lemma SegmentOfPercentEncode(name: Bytes)
    requires NulFree(name)
    ensures DecodeSegment(PercentEncode(name)) == name
  {
    DecodeOfPercentEncode(name);
    CStrOfNulFree(name);
  }

  /** An encoded NUL ends a segment: what follows it is not seen. */
  lemma NulEndsSegment(name: Bytes, rest: Bytes)
    requires NulFree(name)
    ensures DecodeSegment(PercentEncode(name) + Ascii("%00") + rest) == name
  {
    hide UrlDecode, PercentEncode, Ascii, CStr;
    Reassociate(PercentEncode(name), Ascii("%00"), rest);
    DecodeAfterName(name, Ascii("%00") + rest);
    ByteDecodes(NUL, rest);
    CStrEnds(name, [NUL] + UrlDecode(rest));
  }

  lemma PrintedShape(root: Bytes, names: seq<Bytes>)
    requires DOT !in root && forall n :: n in names ==> Printable(n)
    ensures var segs := [root] + EncodeAll(names);
            && (forall i :: 1 <= i < |segs| ==> segs[i] != [])
            && (forall p :: p in segs ==> DOT !in p)
  {
    var segs := [root] + EncodeAll(names);
    forall i | 1 <= i < |segs| ensures segs[i] != [] {
      assert names[i - 1] in names && segs[i] == PercentEncode(names[i - 1]);
    }
  }

  lemma ParseOfPrint(root: Bytes, names: seq<Bytes>, maxDepth: nat)
    requires |root| == PTR_STRING_LEN && DOT !in root
    requires 1 <= |names| <= maxDepth && forall n :: n in names ==> Printable(n)
    ensures ParsePath(PrintPath(root, names), maxDepth) == Segments([root] + names)
  {
    var segs := [root] + EncodeAll(names);
    PrintedShape(root, names);
    SplitOfJoin(segs);
    ParseAcceptsTheGrammar(PrintPath(root, names), maxDepth);
    assert segs[1..] == EncodeAll(names);
    forall i | 0 <= i < |names| ensures DecodeAll(EncodeAll(names))[i] == names[i] {
      assert names[i] in names;
      SegmentOfPercentEncode(names[i]);
    }
    assert DecodeAll(EncodeAll(names)) == names;
  }

  /** One name too many is refused whatever the names are. */
  lemma PrintTooDeep(root: Bytes, names: seq<Bytes>, maxDepth: nat)
    requires |root| == PTR_STRING_LEN && DOT !in root && maxDepth > 0
    requires |names| > maxDepth && forall n :: n in names ==> Printable(n)
    ensures ParsePath(PrintPath(root, names), maxDepth) == Bad(PathTooDeep)
  {
    var segs := [root] + EncodeAll(names);
    PrintedShape(root, names);
    SplitOfJoin(segs);
    TooDeepExactly(PrintPath(root, names), maxDepth);
  }

  // -------------------- the code --------------------

  lemma SplitStep(b: Bytes)
    ensures var i := Find(b, DOT);
            Split(b) == if i == |b| then [b] else [b[..i]] + Split(b[i + 1..])
  {
    hide Find;
  }

  lemma SplitHere(path: Bytes, p: nat)
    requires p <= |path|
    ensures var len := Find(path[p..], DOT);
            && len <= |path| - p && path[p..p + len] == path[p..][..len]
            && Split(path[p..]) == if p + len == |path| then [path[p..p + len]]
                                   else [path[p..p + len]] + Split(path[p + len + 1..])
  {
    var b := path[p..];
    var len := Find(b, DOT);
    assert path[p..p + len] == b[..len];
    if p + len < |path| {
      assert b[len + 1..] == path[p + len + 1..];
    } else {
      assert b[..len] == b;
    }
  }

  /** The first loop of segments_parse: count the members and check each. */
  method CountMembers(path: Bytes, start: nat, maxDepth: nat) returns (rc: Rc, count: nat)
    requires start <= |path|
    ensures rc == CheckMembers(Split(path[start..]), 0, maxDepth)
    ensures rc == Success ==> count == |Split(path[start..])|
  {
    hide Split, Find;
    count := 0;
    var p := start;
    while true
      invariant 0 <= p <= |path|
      invariant |Split(path[p..])| + count == |Split(path[start..])|
      invariant CheckMembers(Split(path[start..]), 0, maxDepth) == CheckMembers(Split(path[p..]), count, maxDepth)
      decreases |path| - p
    {
      SplitHere(path, p);
      var len := Find(path[p..], DOT);
      if len == 0 {
        return PathParse, count;
      }
      count := count + 1;
      if count > maxDepth {
        return PathTooDeep, count;
      }
      if p + len == |path| {
        return Success, count;
      }
      assert Split(path[p..])[1..] == Split(path[p + len + 1..]);
      p := p + len + 1;
    }
  }

  /** The second loop: decode each member into a buffer of its own length plus one. */
  method FillSegments(path: Bytes, start: nat, slots: array<Bytes>) returns (rc: Rc)
    requires start <= |path| && slots.Length == |Split(path[start..])| + 1
    modifies slots
    ensures rc == Success
    ensures slots[0] == old(slots[0]) && slots[1..] == DecodeAll(Split(path[start..]))
  {
    hide Split, Find, UrlDecode, CStr;
    ghost var members := Split(path[start..]);
    var index := 1;
    var p := start;
    while index < slots.Length
      invariant 1 <= index <= slots.Length && 0 <= p <= |path|
      invariant index < slots.Length ==> Split(path[p..]) == members[index - 1..]
      invariant slots[0] == old(slots[0])
      invariant forall j :: 1 <= j < index ==> slots[j] == DecodeSegment(members[j - 1])
    {
      SplitHere(path, p);
      var len := Find(path[p..], DOT);
      var piece := path[p..p + len];
      assert piece == members[index - 1..][0];
      var buf := new Byte[len + 1](_ => NUL);
      var n := UrlDecodeInto(piece, buf);
      if n < 0 {
        return PathUrlDecode;
      }
      slots[index] := CStr(buf[..n]);
      index := index + 1;
      if p + len == |path| {
        break;
      }
      assert Split(path[p + len + 1..]) == members[index - 2..][1..];
      p := p + len + 1;
    }
    return Success;
  }

  /** segments_parse: one pass to count and check, one to fill the array it sized. */
  method SegmentsParse(path: Bytes, maxDepth: nat) returns (rc: Rc, segs: seq<Bytes>)
    ensures rc == Success ==> ParsePath(path, maxDepth) == Segments(segs) && |segs| >= 2
    ensures rc != Success ==> ParsePath(path, maxDepth) == Bad(rc)
  {
    segs := [];
    if maxDepth == 0 {
      return PathParse, segs;
    }
    SplitStep(path);
    var firstDot := Find(path, DOT);
    if firstDot == |path| {
      return PathParse, segs;
    }
    if firstDot != PTR_STRING_LEN {
      return PathParse, segs;
    }
    ghost var members := Split(path[firstDot + 1..]);
    assert Split(path)[1..] == members;
    var count;
    rc, count := CountMembers(path, firstDot + 1, maxDepth);
    if rc != Success {
      return;
    }
    var slots := new Bytes[count + 1](_ => []);
    slots[0] := path[..firstDot];
    rc := FillSegments(path, firstDot + 1, slots);
    segs := slots[..];
    assert segs == [slots[0]] + slots[1..];
  }
}
