/**
 Byte strings as the C code handles them: NUL-terminated reads, snprintf-style
 cutting, decimal text, and the byte order in which LMDB lists duplicates.
 */
module CBytes {
  type Byte = b: int | 0 <= b < 256
  type Bytes = seq<Byte>

  const NUL: Byte := 0
  const PERCENT: Byte := 37
  const DOT: Byte := 46
  const SLASH: Byte := 47
  const ZERO: Byte := 48
  const COLON: Byte := 58
  const LBRACE: Byte := 123
  const RBRACE: Byte := 125

  datatype Option<+T> = None | Some(value: T)

  /** The bytes of a string literal. */
  function Ascii(s: string): (b: Bytes)
    ensures |b| == |s| && forall i :: 0 <= i < |s| ==> b[i] == s[i] as int % 256
  {
    seq(|s|, i requires 0 <= i < |s| => s[i] as int % 256)
  }

  predicate NulFree(b: Bytes) {
    NUL !in b
  }

  /** What `strlen` and `%s` see of a buffer: everything before the first NUL. */
  function CStr(b: Bytes): (s: Bytes)
    ensures s <= b && NulFree(s)
    ensures |s| < |b| ==> b[|s|] == NUL
  {
    if b == [] || b[0] == NUL then [] else [b[0]] + CStr(b[1..])
  }

  lemma {:induction false} CStrOfNulFree(b: Bytes)
    requires NulFree(b)
    ensures CStr(b) == b
  {
    if b == [] {
    } else {
      CStrOfNulFree(b[1..]);
      assert b == [b[0]] + b[1..];
    }
  }

  /** A NUL behind a NUL-free text ends it. */
  lemma {:induction false} CStrEnds(name: Bytes, rest: Bytes)
    requires NulFree(name) && rest != [] && rest[0] == NUL
    ensures CStr(name + rest) == name
  {
    if name == [] {
      assert name + rest == rest;
    } else {
      CStrEnds(name[1..], rest);
      assert (name + rest)[1..] == name[1..] + rest && name == [name[0]] + name[1..];
    }
  }

  /** What `snprintf` leaves of a text when at most `n` characters fit. */
  function Cut(b: Bytes, n: nat): (r: Bytes)
    ensures r <= b && |r| == if |b| <= n then |b| else n
  {
    if |b| <= n then b else b[..n]
  }

  // -------------------- decimal text --------------------

  /** `%d` of a non-negative number. */
  function Decimal(n: nat): (t: Bytes)
    ensures |t| >= 1 && forall c :: c in t ==> ZERO <= c <= ZERO + 9
  {
    if n < 10 then [ZERO + n] else Decimal(n / 10) + [ZERO + n % 10]
  }

  /** The value a run of digits spells, read left to right. */
  function DigitsValue(t: Bytes): (v: int) {
    if t == [] then 0 else DigitsValue(t[..|t| - 1]) * 10 + (t[|t| - 1] - ZERO)
  }

  lemma {:induction false} DigitsValueOfDecimal(n: nat)
    ensures DigitsValue(Decimal(n)) == n
  {
    if n < 10 {
      assert Decimal(n)[..0] == [];
    } else {
      DigitsValueOfDecimal(n / 10);
      var t := Decimal(n);
      assert t[..|t| - 1] == Decimal(n / 10);
    }
  }

  // -------------------- byte order --------------------

  /** memcmp order, a proper prefix first: the order LMDB keeps duplicates in. */
  predicate LexLe(a: Bytes, b: Bytes) {
    a == [] || (b != [] && (a[0] < b[0] || (a[0] == b[0] && LexLe(a[1..], b[1..]))))
  }

  lemma {:induction false} LexTotal(a: Bytes, b: Bytes)
    ensures LexLe(a, b) || LexLe(b, a)
    ensures LexLe(a, b) && LexLe(b, a) ==> a == b
  {
    if a != [] && b != [] && a[0] == b[0] {
      LexTotal(a[1..], b[1..]);
      assert a == [a[0]] + a[1..] && b == [b[0]] + b[1..];
    }
  }

  lemma {:induction false} LexTransitive(a: Bytes, b: Bytes, c: Bytes)
    requires LexLe(a, b) && LexLe(b, c)
    ensures LexLe(a, c)
  {
    if a != [] && a[0] == b[0] && b[0] == c[0] {
      LexTransitive(a[1..], b[1..], c[1..]);
    }
  }

  predicate IsLeast(x: Bytes, s: set<Bytes>) {
    x in s && forall y | y in s :: LexLe(x, y)
  }

  lemma {:induction false} LeastExists(s: set<Bytes>)
    requires s != {}
    ensures exists x :: IsLeast(x, s)
  {
    var x :| x in s;
    LexTotal(x, x);
    if s == {x} {
      assert IsLeast(x, s);
    } else {
      LeastExists(s - {x});
      var y :| IsLeast(y, s - {x});
      LexTotal(x, y);
      if LexLe(x, y) {
        forall z | z in s ensures LexLe(x, z) {
          if z != x { LexTransitive(x, y, z); }
        }
        assert IsLeast(x, s);
      } else {
        assert IsLeast(y, s);
      }
    }
  }

  lemma LeastUnique(s: set<Bytes>)
    ensures forall x, y | IsLeast(x, s) && IsLeast(y, s) :: x == y
  {
    forall x, y | IsLeast(x, s) && IsLeast(y, s) ensures x == y {
      LexTotal(x, y);
    }
  }

  function Least(s: set<Bytes>): (x: Bytes)
    requires s != {}
    ensures x in s && IsLeast(x, s)
  {
    LeastExists(s);
    LeastUnique(s);
    var x :| IsLeast(x, s);
    x
  }

  /** The items of a set in the order LMDB lists them. */
  function Listing(s: set<Bytes>): (r: seq<Bytes>)
    ensures |r| == |s|
    ensures forall v :: v in r <==> v in s
  {
    hide IsLeast;
    if s == {} then [] else [Least(s)] + Listing(s - {Least(s)})
  }

  lemma ListingStep(s: set<Bytes>)
    requires s != {}
    ensures Listing(s) == [Least(s)] + Listing(s - {Least(s)})
  {
  }

  lemma LeastIsBelow(s: set<Bytes>, v: Bytes)
    requires v in s
    ensures LexLe(Least(s), v)
  {
  }

  lemma {:induction false} ListingIsSorted(s: set<Bytes>, i: nat, j: nat)
    requires i < j < |s|
    ensures LexLe(Listing(s)[i], Listing(s)[j]) && Listing(s)[i] != Listing(s)[j]
  {
    hide LexLe, Listing, Least, IsLeast;
    ListingStep(s);
    var x, rest := Least(s), Listing(s - {Least(s)});
    if i == 0 {
      assert rest[j - 1] in rest;
      LeastIsBelow(s, rest[j - 1]);
    } else {
      ListingIsSorted(s - {x}, i - 1, j - 1);
    }
  }

  lemma Reassociate(a: Bytes, b: Bytes, c: Bytes)
    ensures a + (b + c) == (a + b) + c
  {
  }
}
