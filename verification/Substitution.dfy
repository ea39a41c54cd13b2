/** The `vars` of a batch operation: reference expressions and token substitution. */
module Substitution {
  import opened CBytes
  import opened Json
  import opened PathText

  const MAX_OPERATIONS := 1000

  datatype Binding = Binding(token: Bytes, value: Bytes)

  // -------------------- matching --------------------

  /** strncmp(src + pos, token, |token|) == 0. */
  predicate Matches(src: Bytes, pos: nat, token: Bytes) {
    pos + |token| <= |src| && src[pos..pos + |token|] == token
  }

  /** Among the first n bindings, the first of the longest that match here. */
  function Best(src: Bytes, pos: nat, bindings: seq<Binding>, n: nat): (r: Option<nat>)
    requires n <= |bindings|
    ensures r.Some? ==> r.value < n && |bindings[r.value].token| > 0
  {
    if n == 0 then None
    else
      var r := Best(src, pos, bindings, n - 1);
      var len := if r.Some? then |bindings[r.value].token| else 0;
      if |bindings[n - 1].token| > len && Matches(src, pos, bindings[n - 1].token) then Some(n - 1) else r
  }

  /** What "longest match" means, whatever the way it is found. */
  predicate IsBest(src: Bytes, pos: nat, bindings: seq<Binding>, b: nat) {
    && b < |bindings| && |bindings[b].token| > 0 && Matches(src, pos, bindings[b].token)
    && forall i :: 0 <= i < |bindings| && Matches(src, pos, bindings[i].token) ==>
         |bindings[i].token| < |bindings[b].token| || (|bindings[i].token| == |bindings[b].token| && b <= i)
  }

  predicate NoToken(src: Bytes, pos: nat, bindings: seq<Binding>) {
    forall i :: 0 <= i < |bindings| && Matches(src, pos, bindings[i].token) ==> bindings[i].token == []
  }

  lemma {:induction false} BestAmong(src: Bytes, pos: nat, bindings: seq<Binding>, n: nat)
    requires n <= |bindings|
    ensures match Best(src, pos, bindings, n)
            case Some(b) => IsBest(src, pos, bindings[..n], b) && bindings[..n][b] == bindings[b]
            case None => NoToken(src, pos, bindings[..n])
  {
    if n > 0 {
      BestAmong(src, pos, bindings, n - 1);
      assert forall i :: 0 <= i < n - 1 ==> bindings[..n][i] == bindings[..n - 1][i];
      assert bindings[..n][n - 1] == bindings[n - 1];
    }
  }

  lemma BestIsBest(src: Bytes, pos: nat, bindings: seq<Binding>)
    ensures match Best(src, pos, bindings, |bindings|)
            case Some(b) => IsBest(src, pos, bindings, b)
            case None => NoToken(src, pos, bindings)
  {
    BestAmong(src, pos, bindings, |bindings|);
    assert bindings[..|bindings|] == bindings;
  }

  // -------------------- substitution --------------------

  /** Left to right, a matched token gives its value, any other byte itself. */
  function Substitute(src: Bytes, bindings: seq<Binding>, pos: nat): Bytes
    decreases |src| - pos
  {
    if pos >= |src| then []
    else
      match Best(src, pos, bindings, |bindings|)
      case Some(b) => bindings[b].value + Substitute(src, bindings, pos + |bindings[b].token|)
      case None => [src[pos]] + Substitute(src, bindings, pos + 1)
  }

  datatype Piece = Token(binding: nat) | Char(c: Byte)

  /** A cut of src[pos..] into longest-match tokens and bytes at which no token matches. */
  predicate IsSegmentation(src: Bytes, bindings: seq<Binding>, pos: nat, pieces: seq<Piece>)
    decreases |pieces|
  {
    if pieces == [] then pos == |src|
    else
      pos < |src| &&
      match pieces[0]
      case Token(b) => IsBest(src, pos, bindings, b) && IsSegmentation(src, bindings, pos + |bindings[b].token|, pieces[1..])
      case Char(c) => NoToken(src, pos, bindings) && c == src[pos] && IsSegmentation(src, bindings, pos + 1, pieces[1..])
  }

  /** Every token replaced by its value: the pieces are never looked at again. */
  function Expand(bindings: seq<Binding>, pieces: seq<Piece>): Bytes {
    if pieces == [] then []
    else (match pieces[0]
          case Token(b) => if b < |bindings| then bindings[b].value else []
          case Char(c) => [c]) + Expand(bindings, pieces[1..])
  }

  /** There is one segmentation, and the output is its expansion. */
  lemma {:induction false} SegmentationExists(src: Bytes, bindings: seq<Binding>, pos: nat) returns (pieces: seq<Piece>)
    requires pos <= |src|
    ensures IsSegmentation(src, bindings, pos, pieces)
    decreases |src| - pos
  {
    if pos == |src| {
      pieces := [];
    } else {
      BestIsBest(src, pos, bindings);
      var rest;
      match Best(src, pos, bindings, |bindings|)
      case Some(b) =>
        rest := SegmentationExists(src, bindings, pos + |bindings[b].token|);
        pieces := [Token(b)] + rest;
      case None =>
        rest := SegmentationExists(src, bindings, pos + 1);
        pieces := [Char(src[pos])] + rest;
      assert pieces[1..] == rest;
    }
  }

  lemma {:induction false} SubstituteExpandsSegmentation(src: Bytes, bindings: seq<Binding>, pos: nat, pieces: seq<Piece>)
    requires IsSegmentation(src, bindings, pos, pieces)
    ensures Substitute(src, bindings, pos) == Expand(bindings, pieces)
    decreases |pieces|
  {
    hide Substitute, Best, IsBest, NoToken;
    SubstituteStep(src, bindings, pos);
    if pieces != [] {
      BestHere(src, pos, bindings, pieces);
      match pieces[0]
      case Token(b) => SubstituteExpandsSegmentation(src, bindings, pos + |bindings[b].token|, pieces[1..]);
      case Char(c) => SubstituteExpandsSegmentation(src, bindings, pos + 1, pieces[1..]);
    }
  }

  lemma BestHere(src: Bytes, pos: nat, bindings: seq<Binding>, pieces: seq<Piece>)
    requires pieces != [] && IsSegmentation(src, bindings, pos, pieces)
    ensures Best(src, pos, bindings, |bindings|) == match pieces[0] case Token(b) => Some(b) case Char(_) => None
  {
    BestIsBest(src, pos, bindings);
  }

  lemma {:induction false} SegmentationIsUnique(src: Bytes, bindings: seq<Binding>, pos: nat, p: seq<Piece>, q: seq<Piece>)
    requires IsSegmentation(src, bindings, pos, p) && IsSegmentation(src, bindings, pos, q)
    ensures p == q
    decreases |p|
  {
    if p != [] && q != [] {
      BestHere(src, pos, bindings, p);
      BestHere(src, pos, bindings, q);
      match p[0]
      case Token(b) => SegmentationIsUnique(src, bindings, pos + |bindings[b].token|, p[1..], q[1..]);
      case Char(c) => SegmentationIsUnique(src, bindings, pos + 1, p[1..], q[1..]);
      assert p == [p[0]] + p[1..] && q == [q[0]] + q[1..];
    }
  }

  predicate DistinctTokens(bindings: seq<Binding>) {
    forall i, j :: 0 <= i < j < |bindings| ==> bindings[i].token != bindings[j].token
  }

  /** The bindings are the same, in whatever order. */
  ghost predicate SameBindings(a: seq<Binding>, b: seq<Binding>) {
    (forall i :: 0 <= i < |a| ==> a[i] in b) && (forall i :: 0 <= i < |b| ==> b[i] in a)
  }

  lemma BestIsNoLonger(src: Bytes, pos: nat, a: seq<Binding>, b: seq<Binding>, i: nat, j: nat)
    requires IsBest(src, pos, a, i) && IsBest(src, pos, b, j) && b[j] in a
    ensures |b[j].token| <= |a[i].token|
  {
    var k :| 0 <= k < |a| && a[k] == b[j];
  }

  lemma BestIsTheSame(src: Bytes, pos: nat, a: seq<Binding>, b: seq<Binding>, i: nat, j: nat)
    requires DistinctTokens(a) && SameBindings(a, b)
    requires IsBest(src, pos, a, i) && IsBest(src, pos, b, j)
    ensures a[i] == b[j]
  {
    BestIsNoLonger(src, pos, a, b, i, j);
    BestIsNoLonger(src, pos, b, a, j, i);
    var k :| 0 <= k < |a| && a[k] == b[j];
    assert a[i].token == src[pos..pos + |a[i].token|] == a[k].token;
  }

  lemma BestInBoth(src: Bytes, pos: nat, a: seq<Binding>, b: seq<Binding>, i: nat)
    requires SameBindings(a, b) && IsBest(src, pos, a, i)
    ensures !NoToken(src, pos, b)
  {
    var k :| 0 <= k < |b| && b[k] == a[i];
  }

  lemma SameBest(src: Bytes, pos: nat, a: seq<Binding>, b: seq<Binding>)
    requires DistinctTokens(a) && SameBindings(a, b)
    ensures var r, t := Best(src, pos, a, |a|), Best(src, pos, b, |b|);
            (r.Some? <==> t.Some?) && (r.Some? ==> a[r.value] == b[t.value])
  {
    hide *;
    var r, t := Best(src, pos, a, |a|), Best(src, pos, b, |b|);
    BestIsBest(src, pos, a);
    BestIsBest(src, pos, b);
    SameBindingsBack(a, b);
    if r.Some? { BestInBoth(src, pos, a, b, r.value); }
    if t.Some? { BestInBoth(src, pos, b, a, t.value); }
    if r.Some? && t.Some? { BestIsTheSame(src, pos, a, b, r.value, t.value); }
  }

  lemma SameBindingsBack(a: seq<Binding>, b: seq<Binding>)
    requires SameBindings(a, b)
    ensures SameBindings(b, a)
  {
  }

  lemma SubstituteStep(src: Bytes, bindings: seq<Binding>, pos: nat)
    ensures Substitute(src, bindings, pos) ==
            if pos >= |src| then []
            else match Best(src, pos, bindings, |bindings|)
                 case Some(b) => bindings[b].value + Substitute(src, bindings, pos + |bindings[b].token|)
                 case None => [src[pos]] + Substitute(src, bindings, pos + 1)
  {
  }

  /** With distinct tokens the order of the bindings does not matter. */
  lemma {:induction false} OrderIsIrrelevant(src: Bytes, a: seq<Binding>, b: seq<Binding>, pos: nat)
    requires DistinctTokens(a) && SameBindings(a, b)
    ensures Substitute(src, a, pos) == Substitute(src, b, pos)
    decreases |src| - pos
  {
    hide *;
    SubstituteStep(src, a, pos);
    SubstituteStep(src, b, pos);
    if pos < |src| {
      SameBest(src, pos, a, b);
      match Best(src, pos, a, |a|)
      case Some(i) => OrderIsIrrelevant(src, a, b, pos + |a[i].token|);
      case None => OrderIsIrrelevant(src, a, b, pos + 1);
    }
  }

  method MatchBinding(src: Bytes, pos: nat, bindings: seq<Binding>) returns (len: nat, index: nat)
    requires pos <= |src|
    ensures match Best(src, pos, bindings, |bindings|)
            case Some(b) => index == b && len == |bindings[b].token| > 0 && pos + len <= |src|
            case None => len == 0
  {
    len, index := 0, 0;
    for i := 0 to |bindings|
      invariant match Best(src, pos, bindings, i)
                case Some(b) => index == b && len == |bindings[b].token| > 0 && pos + len <= |src|
                case None => len == 0
    {
      var n := |bindings[i].token|;
      if n > len && Matches(src, pos, bindings[i].token) {
        len, index := n, i;
      }
    }
  }

  /** memcpy of a whole value. */
  method CopyInto(buf: array<Byte>, at: nat, value: Bytes)
    requires at + |value| <= buf.Length
    modifies buf
    ensures buf[..at + |value|] == old(buf[..at]) + value
  {
    forall i | 0 <= i < |value| { buf[at + i] := value[i]; }
  }

  /** substitute_string: one pass sizes the buffer, the other fills exactly that much of it. */
  method SubstituteString(src: Bytes, bindings: seq<Binding>) returns (out: Bytes)
    ensures out == Substitute(src, bindings, 0)
  {
    hide Substitute, Best, Matches;
    var outLen := 0;
    var pos := 0;
    while pos < |src|
      invariant 0 <= pos <= |src|
      invariant outLen + |Substitute(src, bindings, pos)| == |Substitute(src, bindings, 0)|
    {
      SubstituteStep(src, bindings, pos);
      var matched, binding := MatchBinding(src, pos, bindings);
      if matched > 0 {
        outLen := outLen + |bindings[binding].value|;
        pos := pos + matched;
      } else {
        outLen := outLen + 1;
        pos := pos + 1;
      }
    }
    SubstituteStep(src, bindings, pos);
    ghost var whole := Substitute(src, bindings, 0);
    assert outLen == |whole|;

    var buf := new Byte[outLen + 1](_ => NUL);
    var written := 0;
    pos := 0;
    while pos < |src|
      invariant 0 <= pos <= |src| && 0 <= written <= outLen
      invariant buf[..written] + Substitute(src, bindings, pos) == whole
    {
      SubstituteStep(src, bindings, pos);
      var matched, binding := MatchBinding(src, pos, bindings);
      ghost var before := buf[..written];
      if matched > 0 {
        var value := bindings[binding].value;
        CopyInto(buf, written, value);
        Reassociate(before, value, Substitute(src, bindings, pos + matched));
        written := written + |value|;
        pos := pos + matched;
      } else {
        buf[written] := src[pos];
        assert buf[..written + 1] == before + [src[pos]];
        Reassociate(before, [src[pos]], Substitute(src, bindings, pos + 1));
        written := written + 1;
        pos := pos + 1;
      }
    }
    SubstituteStep(src, bindings, pos);
    buf[written] := NUL;
    out := buf[..written];
    assert written == outLen;
  }

  // -------------------- substitution in a body --------------------

  /** substitute_walk: every string value of the tree, never a key. */
  function SubstituteTree(j: Json, bindings: seq<Binding>): Json {
    match j
    case JString(s) => JString(Substitute(s, bindings, 0))
    case JObject(child) => JObject(SubstituteAll(child, bindings))
    case JArray(child) => JArray(SubstituteAll(child, bindings))
    case _ => j
  }

  function SubstituteAll(nodes: Nodes, bindings: seq<Binding>): Nodes {
    match nodes
    case Nil => Nil
    case Cons(key, value, next) => Cons(key, SubstituteTree(value, bindings), SubstituteAll(next, bindings))
  }

  /** A tree with its string values blanked: its shape, its keys, and its other scalars. */
  function Skeleton(j: Json): Json {
    match j
    case JString(_) => JString([])
    case JObject(child) => JObject(SkeletonAll(child))
    case JArray(child) => JArray(SkeletonAll(child))
    case _ => j
  }

  function SkeletonAll(nodes: Nodes): Nodes {
    match nodes
    case Nil => Nil
    case Cons(key, value, next) => Cons(key, Skeleton(value), SkeletonAll(next))
  }

  lemma {:induction false} SubstitutionKeepsSkeleton(j: Json, bindings: seq<Binding>)
    ensures Skeleton(SubstituteTree(j, bindings)) == Skeleton(j)
    ensures Size(SubstituteTree(j, bindings)) == Size(j)
  {
    if IsContainer(j) {
      SubstitutionKeepsSkeletons(j.child, bindings);
    }
  }

  lemma {:induction false} SubstitutionKeepsSkeletons(nodes: Nodes, bindings: seq<Binding>)
    ensures SkeletonAll(SubstituteAll(nodes, bindings)) == SkeletonAll(nodes)
    ensures SizeAll(SubstituteAll(nodes, bindings)) == SizeAll(nodes)
  {
    if nodes.Cons? {
      SubstitutionKeepsSkeleton(nodes.value, bindings);
      SubstitutionKeepsSkeletons(nodes.next, bindings);
    }
  }

  method SubstituteWalk(j: Json, bindings: seq<Binding>) returns (r: Json)
    ensures r == SubstituteTree(j, bindings)
    decreases j
  {
    match j
    case JString(s) =>
      var replaced := SubstituteString(s, bindings);
      r := JString(replaced);
    case JObject(child) =>
      var walked := SubstituteChildren(child, bindings);
      r := JObject(walked);
    case JArray(child) =>
      var walked := SubstituteChildren(child, bindings);
      r := JArray(walked);
    case _ => r := j;
  }

  method SubstituteChildren(nodes: Nodes, bindings: seq<Binding>) returns (r: Nodes)
    ensures r == SubstituteAll(nodes, bindings)
    decreases nodes
  {
    match nodes
    case Nil => r := Nil;
    case Cons(key, value, next) =>
      var v := SubstituteWalk(value, bindings);
      var rest := SubstituteChildren(next, bindings);
      r := Cons(key, v, rest);
  }

  // -------------------- reference expressions --------------------

  predicate AllDigits(t: Bytes) {
    forall i :: 0 <= i < |t| ==> ZERO <= t[i] <= ZERO + 9
  }

  /** parse_var_ref: `{N:key}` with N at most 1000 and a key. */
  function ParseVarRef(expr: Bytes): Option<(nat, Bytes)> {
    var len := |expr|;
    if len < 5 || expr[0] != LBRACE || expr[len - 1] != RBRACE then None
    else
      var colon := 1 + Find(expr[1..], COLON);
      if colon >= len || colon == 1 then None
      else
        var digits, key := expr[1..colon], expr[colon + 1..len - 1];
        if !AllDigits(digits) || DigitsValue(digits) > MAX_OPERATIONS || DigitsValue(digits) < 0 || key == [] then None
        else Some((DigitsValue(digits), key))
  }

  function PrintVarRef(n: nat, key: Bytes): Bytes {
    [LBRACE] + Decimal(n) + [COLON] + key + [RBRACE]
  }

  /** A reference: digits worth n, at most 1000, and a key, in braces with a colon between. */
  predicate RefForm(expr: Bytes, digits: Bytes, n: nat, key: Bytes) {
    && AllDigits(digits) && digits != [] && DigitsValue(digits) == n && n <= 1000 && key != []
    && expr == [LBRACE] + digits + [COLON] + key + [RBRACE]
  }

  lemma FormParses(expr: Bytes, digits: Bytes, n: nat, key: Bytes)
    requires RefForm(expr, digits, n, key)
    ensures ParseVarRef(expr) == Some((n, key))
  {
    forall i | 0 <= i < |digits| ensures digits[i] != COLON { }
    assert COLON !in digits;
    assert expr[1..] == digits + [COLON] + (key + [RBRACE]);
    FindUnique(digits, COLON, key + [RBRACE]);
    assert expr[1..1 + |digits|] == digits;
    assert expr[1 + |digits| + 1..|expr| - 1] == key;
  }

  /** An expression parses exactly if it has that form. */
  lemma ParsesExactly(expr: Bytes, n: nat, key: Bytes)
    ensures ParseVarRef(expr) == Some((n, key)) <==> exists digits :: RefForm(expr, digits, n, key)
  {
    if ParseVarRef(expr) == Some((n, key)) {
      var colon := 1 + Find(expr[1..], COLON);
      var digits := expr[1..colon];
      assert expr[colon] == expr[1..][colon - 1];
      assert expr == [LBRACE] + digits + [COLON] + key + [RBRACE];
      assert RefForm(expr, digits, n, key);
    }
    if digits :| RefForm(expr, digits, n, key) {
      FormParses(expr, digits, n, key);
    }
  }

  lemma PrintThenParse(n: nat, key: Bytes)
    requires n <= 1000 && key != []
    ensures ParseVarRef(PrintVarRef(n, key)) == Some((n, key))
  {
    var d := Decimal(n);
    forall i | 0 <= i < |d| ensures ZERO <= d[i] <= ZERO + 9 { assert d[i] in d; }
    DigitsValueOfDecimal(n);
    FormParses(PrintVarRef(n, key), d, n, key);
  }

  lemma {:induction false} PrefixValue(t: Bytes, n: nat)
    requires AllDigits(t) && n <= |t|
    ensures 0 <= DigitsValue(t[..n]) <= DigitsValue(t)
    decreases |t| - n
  {
    if n == |t| {
      assert t[..n] == t;
      DigitsAreNatural(t);
    } else {
      PrefixValue(t, n + 1);
      DigitsAreNatural(t[..n]);
      assert t[..n + 1][..n] == t[..n] && t[..n + 1][n] == t[n];
    }
  }

  lemma {:induction false} DigitsAreNatural(t: Bytes)
    requires AllDigits(t)
    ensures DigitsValue(t) >= 0
  {
    if t != [] {
      DigitsAreNatural(t[..|t| - 1]);
    }
  }

  method ParseReference(expr: Bytes) returns (ok: bool, index: nat, key: Bytes)
    ensures ok <==> ParseVarRef(expr).Some?
    ensures ok ==> ParseVarRef(expr) == Some((index, key))
  {
    index, key := 0, [];
    var len := |expr|;
    if len < 5 || expr[0] != LBRACE || expr[len - 1] != RBRACE {
      return false, 0, [];
    }
    var colon := 1 + Find(expr[1..], COLON);
    if colon >= len || colon == 1 {
      return false, 0, [];
    }
    ghost var digits := expr[1..colon];
    var p := 1;
    while p < colon
      invariant 1 <= p <= colon && AllDigits(digits[..p - 1])
      invariant index == DigitsValue(digits[..p - 1]) <= MAX_OPERATIONS
    {
      assert digits[p - 1] == expr[p];
      if expr[p] < ZERO || expr[p] > ZERO + 9 {
        return false, 0, [];
      }
      assert digits[..p][..p - 1] == digits[..p - 1];
      var next := index * 10 + (expr[p] - ZERO);
      assert next == DigitsValue(digits[..p]);
      if next > MAX_OPERATIONS {
        if AllDigits(digits) { PrefixValue(digits, p); }
        return false, 0, [];
      }
      index := next;
      p := p + 1;
    }
    assert digits[..p - 1] == digits;
    key := expr[colon + 1..len - 1];
    if |key| == 0 {
      return false, 0, [];
    }
    return true, index, key;
  }
}
