/** The codecs of handle_utils.c: pointers, stored values, percent-decoding. */
module Codec {
  import opened CBytes
  import opened ErrorCodes
  import opened Platform

  const PTR_LEN := 17
  const PTR_STRING_LEN := 34

  /** The 16 generated bytes of a pointer. */
  type Id = b: Bytes | |b| == PTR_LEN - 1 witness seq(PTR_LEN - 1, _ => 0)

  /** A 17-byte entity pointer: a byte that tells objects from sets, then the identifier. */
  datatype Ptr = Ptr(kind: Byte, id: Id)

  const OBJ: Byte := 1
  const SET: Byte := 2

  function PtrBytes(p: Ptr): (b: Bytes)
    ensures |b| == PTR_LEN
  {
    [p.kind] + p.id
  }

  function PtrOfBytes(b: Bytes): (p: Ptr)
    requires |b| == PTR_LEN
    ensures PtrBytes(p) == b
  {
    Ptr(b[0], b[1..])
  }

  lemma PtrBytesInjective(p: Ptr, q: Ptr)
    ensures PtrOfBytes(PtrBytes(p)) == p
    ensures PtrBytes(p) == PtrBytes(q) ==> p == q
  {
    assert PtrBytes(p)[0] == p.kind && PtrBytes(p)[1..] == p.id;
    assert PtrBytes(q)[0] == q.kind && PtrBytes(q)[1..] == q.id;
  }

  const TAG_RAW: Byte := 0
  const TAG_PTR: Byte := 1
  const TAG_NULL: Byte := 2

  datatype ApiType = RawType | NullType | SetType | ObjectType

  // -------------------- hexadecimal pointers --------------------

  function HexVal(c: Byte): (v: int)
    ensures -1 <= v < 16
  {
    if 48 <= c <= 57 then c - 48
    else if 65 <= c <= 70 then c - 65 + 10
    else if 97 <= c <= 102 then c - 97 + 10
    else -1
  }

  /** The digit printed by `%x`. */
  function HexDigit(v: int): (c: Byte)
    requires 0 <= v < 16
    ensures HexVal(c) == v && c !in {NUL, PERCENT, DOT}
  {
    if v < 10 then 48 + v else 97 + v - 10
  }

  function Lower(c: Byte): Byte {
    if 65 <= c <= 90 then c + 32 else c
  }

  predicate IsHex(s: Bytes) {
    forall c :: c in s ==> HexVal(c) >= 0
  }

  /** lmjcore_ptr_to_hex. */
  function PtrToHex(p: Ptr): (s: Bytes)
    ensures |s| == PTR_STRING_LEN
  {
    var b := PtrBytes(p);
    seq(PTR_STRING_LEN, i requires 0 <= i < PTR_STRING_LEN =>
      if i % 2 == 0 then HexDigit(b[i / 2] / 16) else HexDigit(b[i / 2] % 16))
  }

  /** One `sscanf("%2x")`, exact on two hex digits, left to the host elsewhere. */
  function ScanByte(host: Host, s: Bytes): Option<Byte>
    requires |s| >= 2
  {
    if HexVal(s[0]) >= 0 && HexVal(s[1]) >= 0 then Some(16 * HexVal(s[0]) + HexVal(s[1]))
    else host.scan(s)
  }

  /** lmjcore_ptr_from_hex. */
  function PtrFromHex(host: Host, s: Bytes): Option<Ptr> {
    if |s| != PTR_STRING_LEN || exists i | 0 <= i < PTR_LEN :: ScanByte(host, s[2 * i..]).None? then None
    else Some(PtrOfBytes(seq(PTR_LEN, i requires 0 <= i < PTR_LEN && ScanByte(host, s[2 * i..]).Some? =>
                                        ScanByte(host, s[2 * i..]).value)))
  }

  /** lmjcore_ptr_from_string: strict decoding by the engine. */
  function PtrFromString(s: Bytes): Option<Ptr> {
    if |s| == PTR_STRING_LEN && IsHex(s)
    then Some(PtrOfBytes(seq(PTR_LEN, i requires 0 <= i < PTR_LEN => 16 * HexVal(s[2 * i]) + HexVal(s[2 * i + 1]))))
    else None
  }

  lemma HexDigitsOf(p: Ptr, i: nat)
    requires i < PTR_LEN
    ensures var s := PtrToHex(p);
            HexVal(s[2 * i]) == PtrBytes(p)[i] / 16 && HexVal(s[2 * i + 1]) == PtrBytes(p)[i] % 16
  {
  }

  lemma PrintedIsHex(p: Ptr)
    ensures IsHex(PtrToHex(p))
  {
    var s := PtrToHex(p);
    forall c | c in s ensures HexVal(c) >= 0 {
      var i :| 0 <= i < |s| && s[i] == c;
    }
  }

  /** Printing then reading a pointer gives it back, by either reader. */
  lemma {:induction false} HexRoundTrip(host: Host, p: Ptr)
    ensures PtrFromHex(host, PtrToHex(p)) == Some(p)
    ensures PtrFromString(PtrToHex(p)) == Some(p)
  {
    var s := PtrToHex(p);
    PrintedIsHex(p);
    HexTextRoundTrip(host, s);
    var q := PtrFromString(s).value;
    forall i | 0 <= i < PTR_LEN ensures PtrBytes(q)[i] == PtrBytes(p)[i] {
      HexDigitsOf(p, i);
    }
    assert PtrBytes(q) == PtrBytes(p);
    PtrBytesInjective(q, p);
  }

  /** On hex digits both readers agree, and printing gives the lower-case text. */
  lemma {:induction false} HexTextRoundTrip(host: Host, s: Bytes)
    requires |s| == PTR_STRING_LEN && IsHex(s)
    ensures PtrFromHex(host, s) == PtrFromString(s)
    ensures PtrFromString(s).Some?
    ensures PtrToHex(PtrFromString(s).value) == seq(|s|, i requires 0 <= i < |s| => Lower(s[i]))
  {
    ReadersAgree(host, s);
    var t := PtrToHex(PtrFromString(s).value);
    forall i | 0 <= i < |s| ensures t[i] == Lower(s[i]) {
      PrintedPair(s, i / 2);
      assert i == 2 * (i / 2) || i == 2 * (i / 2) + 1;
    }
  }

  lemma ReadersAgree(host: Host, s: Bytes)
    requires |s| == PTR_STRING_LEN && IsHex(s)
    ensures PtrFromHex(host, s) == PtrFromString(s)
  {
    hide HexVal;
    var p := PtrFromString(s).value;
    forall i | 0 <= i < PTR_LEN ensures ScanByte(host, s[2 * i..]) == Some(PtrBytes(p)[i]) {
      assert s[2 * i..][0] == s[2 * i] && s[2 * i..][1] == s[2 * i + 1];
      assert s[2 * i] in s && s[2 * i + 1] in s;
    }
    assert PtrBytes(PtrFromHex(host, s).value) == PtrBytes(p);
    PtrBytesInjective(PtrFromHex(host, s).value, p);
  }

  lemma DigitOfValue(c: Byte)
    requires HexVal(c) >= 0
    ensures HexDigit(HexVal(c)) == Lower(c)
  {
  }

  lemma HalvesOf(p: Ptr, h: nat, high: int, low: int)
    requires h < PTR_LEN && 0 <= high < 16 && 0 <= low < 16 && PtrBytes(p)[h] == 16 * high + low
    ensures PtrToHex(p)[2 * h] == HexDigit(high) && PtrToHex(p)[2 * h + 1] == HexDigit(low)
  {
    hide HexDigit, PtrBytes;
    assert (16 * high + low) / 16 == high && (16 * high + low) % 16 == low;
  }

  lemma PrintedPair(s: Bytes, h: nat)
    requires |s| == PTR_STRING_LEN && IsHex(s) && h < PTR_LEN
    ensures var t := PtrToHex(PtrFromString(s).value); t[2 * h] == Lower(s[2 * h]) && t[2 * h + 1] == Lower(s[2 * h + 1])
  {
    hide HexVal, HexDigit, Lower, PtrToHex;
    assert s[2 * h] in s && s[2 * h + 1] in s;
    DigitOfValue(s[2 * h]);
    DigitOfValue(s[2 * h + 1]);
    HalvesOf(PtrFromString(s).value, h, HexVal(s[2 * h]), HexVal(s[2 * h + 1]));
  }

  method PtrToHexInto(p: Ptr, out: array<Byte>)
    requires out.Length > PTR_STRING_LEN
    modifies out
    ensures out[..PTR_STRING_LEN] == PtrToHex(p) && out[PTR_STRING_LEN] == NUL
    ensures out[PTR_STRING_LEN + 1..] == old(out[PTR_STRING_LEN + 1..])
  {
    var b := PtrBytes(p);
    for i := 0 to PTR_LEN
      invariant forall j :: 0 <= j < 2 * i ==> out[j] == PtrToHex(p)[j]
      invariant out[PTR_STRING_LEN + 1..] == old(out[PTR_STRING_LEN + 1..])
    {
      out[2 * i] := HexDigit(b[i] / 16);
      out[2 * i + 1] := HexDigit(b[i] % 16);
    }
    out[PTR_STRING_LEN] := NUL;
  }

  method PtrFromHexInto(host: Host, s: Bytes, out: array<Byte>) returns (ok: bool)
    requires out.Length == PTR_LEN
    modifies out
    ensures ok <==> PtrFromHex(host, s).Some?
    ensures ok ==> out[..] == PtrBytes(PtrFromHex(host, s).value)
  {
    if |s| != PTR_STRING_LEN {
      return false;
    }
    for i := 0 to PTR_LEN
      invariant forall j :: 0 <= j < i ==> ScanByte(host, s[2 * j..]) == Some(out[j])
    {
      var b := ScanByte(host, s[2 * i..]);
      if b.None? {
        return false;
      }
      out[i] := b.value;
    }
    return true;
  }

  // -------------------- stored values --------------------

  function RefEncoding(p: Ptr): Bytes {
    [TAG_PTR] + PtrBytes(p)
  }

  function RawEncoding(text: Bytes): Bytes {
    [TAG_RAW] + text
  }

  const NULL_ENCODING: Bytes := [TAG_NULL]

  /** What the shell may have stored: raw bytes, a null, or a typed reference. */
  predicate WfValue(v: Bytes) {
    |v| >= 1 &&
    ( || v[0] == TAG_RAW
      || v == NULL_ENCODING
      || (v[0] == TAG_PTR && |v| == 1 + PTR_LEN && v[1] in {OBJ, SET}))
  }

  datatype Encoded = Encoded(bytes: Bytes) | NotEncoded(rc: Rc)

  /** lmjcore_encode_value, for a buffer of `size` bytes. */
  function EncodeValue(host: Host, value: Bytes, tag: Byte, size: nat): (r: Encoded)
    ensures r.Encoded? ==> WfValue(r.bytes) && |r.bytes| <= size && r.bytes[0] == tag
    ensures r.NotEncoded? ==> r.rc != Success
  {
    if size < 1 + PTR_LEN then NotEncoded(BufferTooSmall)
    else if tag == TAG_NULL then Encoded(NULL_ENCODING)
    else if tag == TAG_PTR then
      var p := PtrFromHex(host, value);
      if p.None? || p.value.kind !in {OBJ, SET} then NotEncoded(InvalidParam) else Encoded(RefEncoding(p.value))
    else if tag == TAG_RAW then
      if |value| > size - 1 then NotEncoded(BufferTooSmall) else Encoded(RawEncoding(value))
    else NotEncoded(InvalidParam)
  }

  datatype Decoded = Decoded(text: Bytes, ty: ApiType) | NotDecoded(rc: Rc)

  /** lmjcore_decode_value. */
  function DecodeValue(data: Bytes): Decoded {
    if |data| < 1 then NotDecoded(InvalidParam)
    else if data[0] == TAG_NULL then Decoded(Ascii("null"), NullType)
    else if data[0] == TAG_PTR then
      if |data| < 1 + PTR_LEN then NotDecoded(InvalidParam)
      else
        var p := PtrOfBytes(data[1..1 + PTR_LEN]);
        if p.kind == OBJ then Decoded(PtrToHex(p), ObjectType)
        else if p.kind == SET then Decoded(PtrToHex(p), SetType)
        else NotDecoded(InvalidType)
    else if data[0] == TAG_RAW then Decoded(data[1..], RawType)
    else NotDecoded(InvalidParam)
  }

  method EncodeValueInto(host: Host, value: Bytes, tag: Byte, out: array<Byte>) returns (rc: Rc, len: nat)
    modifies out
    ensures rc == Success <==> EncodeValue(host, value, tag, out.Length).Encoded?
    ensures rc == Success ==> len <= out.Length && out[..len] == EncodeValue(host, value, tag, out.Length).bytes
    ensures rc != Success ==> EncodeValue(host, value, tag, out.Length) == NotEncoded(rc)
    ensures out[if rc == Success then len else 0..] == old(out[..])[if rc == Success then len else 0..]
  {
    len := 0;
    if out.Length < 1 + PTR_LEN {
      return BufferTooSmall, 0;
    }
    if tag == TAG_NULL {
      out[0] := TAG_NULL;
      return Success, 1;
    }
    if tag == TAG_PTR {
      if |value| != PTR_STRING_LEN {
        return InvalidParam, 0;
      }
      var ptr := new Byte[PTR_LEN](_ => 0);
      var ok := PtrFromHexInto(host, value, ptr);
      if !ok || ptr[0] !in {OBJ, SET} {
        return InvalidParam, 0;
      }
      out[0] := TAG_PTR;
      forall i | 0 <= i < PTR_LEN { out[1 + i] := ptr[i]; }
      assert out[..1 + PTR_LEN] == [TAG_PTR] + ptr[..];
      return Success, 1 + PTR_LEN;
    }
    if tag == TAG_RAW {
      if |value| > out.Length - 1 {
        return BufferTooSmall, 0;
      }
      out[0] := TAG_RAW;
      forall i | 0 <= i < |value| { out[1 + i] := value[i]; }
      assert out[..1 + |value|] == [TAG_RAW] + value;
      return Success, 1 + |value|;
    }
    return InvalidParam, 0;
  }

  /** A well-formed value always decodes, and to text that encodes back to it. */
  lemma {:induction false} DecodeThenEncode(host: Host, v: Bytes)
    requires WfValue(v)
    ensures DecodeValue(v).Decoded?
    ensures EncodeValue(host, DecodeValue(v).text, v[0], 1 + PTR_LEN + |DecodeValue(v).text|) == Encoded(v)
    ensures DecodeValue(v).ty == if v[0] == TAG_RAW then RawType else if v[0] == TAG_NULL then NullType
                                 else if v[1] == OBJ then ObjectType else SetType
  {
    assert v == [v[0]] + v[1..];
    if v[0] == TAG_PTR {
      assert v[1..1 + PTR_LEN] == v[1..];
      HexRoundTrip(host, PtrOfBytes(v[1..]));
    } else if v[0] == TAG_RAW {
      assert DecodeValue(v).text == v[1..];
    }
  }

  /** What was encoded decodes to the text given, in lower case for a hex pointer. */
  lemma EncodeThenDecode(host: Host, value: Bytes, tag: Byte, size: nat)
    requires EncodeValue(host, value, tag, size).Encoded?
    ensures var d := DecodeValue(EncodeValue(host, value, tag, size).bytes);
            && d.Decoded?
            && (tag == TAG_RAW ==> d == Decoded(value, RawType))
            && (tag == TAG_NULL ==> d == Decoded(Ascii("null"), NullType))
            && (tag == TAG_PTR ==>
                  var p := PtrFromHex(host, value).value;
                  d == Decoded(PtrToHex(p), if p.kind == OBJ then ObjectType else SetType))
            && (tag == TAG_PTR && IsHex(value) ==> d.text == seq(|value|, i requires 0 <= i < |value| => Lower(value[i])))
  {
    var v := EncodeValue(host, value, tag, size).bytes;
    if tag == TAG_PTR {
      var p := PtrFromHex(host, value).value;
      assert v[1..1 + PTR_LEN] == PtrBytes(p);
      PtrBytesInjective(p, p);
      if IsHex(value) {
        HexTextRoundTrip(host, value);
      }
    } else if tag == TAG_RAW {
      assert v[1..] == value;
    }
  }

  // -------------------- percent-decoding --------------------

  /** Whether a `%XX` that url_decode accepts stands at the front of the text. */
  predicate EscapeAt(src: Bytes) {
    |src| > 2 && src[0] == PERCENT && HexVal(src[1]) >= 0 && HexVal(src[2]) >= 0
  }

  /** url_decode without its buffer (section 2.1 of RFC 3986; bad escapes are kept). */
  function UrlDecode(src: Bytes): (r: Bytes)
    ensures |r| <= |src|
  {
    if src == [] then []
    else if EscapeAt(src) then [16 * HexVal(src[1]) + HexVal(src[2])] + UrlDecode(src[3..])
    else [src[0]] + UrlDecode(src[1..])
  }

  lemma EmptyDecodes()
    ensures UrlDecode([]) == []
  {
  }

  /** The byte decoded at a position, and where decoding goes on. */
  lemma DecodeNext(src: Bytes, i: nat)
    requires i < |src|
    ensures UrlDecode(src[i..]) ==
            if src[i] == PERCENT && i + 2 < |src| && HexVal(src[i + 1]) >= 0 && HexVal(src[i + 2]) >= 0
            then [16 * HexVal(src[i + 1]) + HexVal(src[i + 2])] + UrlDecode(src[i + 3..])
            else [src[i]] + UrlDecode(src[i + 1..])
  {
    var rest := src[i..];
    assert rest[1..] == src[i + 1..];
    if |rest| > 2 { assert rest[3..] == src[i + 3..]; }
  }

  /** url_decode into a buffer: it fails exactly when the text and its NUL do not fit. */
  method UrlDecodeInto(src: Bytes, out: array<Byte>) returns (n: int)
    modifies out
    ensures n >= 0 <==> |UrlDecode(src)| < out.Length
    ensures n >= 0 ==> n == |UrlDecode(src)| && out[..n] == UrlDecode(src) && out[n] == NUL
    ensures n < 0 ==> n == -1
  {
    hide UrlDecode, EscapeAt;
    assert src[0..] == src;
    assert UrlDecode([]) == [] by { EmptyDecodes(); }
    if out.Length == 0 {
      return -1;
    }
    var j := 0;
    var i := 0;
    while i < |src|
      invariant 0 <= i <= |src| && 0 <= j < out.Length
      invariant out[..j] + UrlDecode(src[i..]) == UrlDecode(src)
    {
      DecodeNext(src, i);
      var c := src[i];
      var step := 1;
      if src[i] == PERCENT && i + 2 < |src| {
        var high := HexVal(src[i + 1]);
        var low := HexVal(src[i + 2]);
        if high >= 0 && low >= 0 {
          c := 16 * high + low;
          step := 3;
        }
      }
      if j >= out.Length - 1 {
        return -1;
      }
      ghost var before := out[..j];
      out[j] := c;
      assert out[..j + 1] == before + [c];
      Reassociate(before, [c], UrlDecode(src[i + step..]));
      j := j + 1;
      i := i + step;
    }
    assert src[i..] == [];
    out[j] := NUL;
    return j;
  }

  /** The escape a client writes for a member name inside a query path. */
  function PercentEncode(name: Bytes): (r: Bytes)
    ensures |name| <= |r|
    ensures DOT !in r
  {
    if name == [] then []
    else (if name[0] == DOT then Ascii("%2E") else if name[0] == PERCENT then Ascii("%25") else [name[0]])
         + PercentEncode(name[1..])
  }

  lemma EscapeDecodes(e: Bytes, tail: Bytes)
    requires |e| == 3 && e[0] == PERCENT && HexVal(e[1]) >= 0 && HexVal(e[2]) >= 0
    ensures UrlDecode(e + tail) == [16 * HexVal(e[1]) + HexVal(e[2])] + UrlDecode(tail)
  {
    hide HexVal;
    assert (e + tail)[3..] == tail;
  }

  lemma PlainDecodes(c: Byte, tail: Bytes)
    requires c != PERCENT
    ensures UrlDecode([c] + tail) == [c] + UrlDecode(tail)
  {
    hide HexVal;
    assert ([c] + tail)[1..] == tail;
  }

  lemma ByteDecodes(c: Byte, tail: Bytes)
    ensures c != PERCENT ==> UrlDecode([c] + tail) == [c] + UrlDecode(tail)
    ensures c == DOT ==> UrlDecode(Ascii("%2E") + tail) == [c] + UrlDecode(tail)
    ensures c == PERCENT ==> UrlDecode(Ascii("%25") + tail) == [c] + UrlDecode(tail)
    ensures c == NUL ==> UrlDecode(Ascii("%00") + tail) == [c] + UrlDecode(tail)
  {
    hide UrlDecode;
    if c != PERCENT { PlainDecodes(c, tail); }
    EscapeDecodes(Ascii("%2E"), tail);
    EscapeDecodes(Ascii("%25"), tail);
    EscapeDecodes(Ascii("%00"), tail);
  }

  lemma EncodeStep(name: Bytes)
    ensures PercentEncode(name) ==
            if name == [] then []
            else (if name[0] == DOT then Ascii("%2E") else if name[0] == PERCENT then Ascii("%25") else [name[0]])
                 + PercentEncode(name[1..])
  {
  }

  /** Behind an encoded name, decoding goes on with what follows. */
  lemma {:induction false} DecodeAfterName(name: Bytes, rest: Bytes)
    ensures UrlDecode(PercentEncode(name) + rest) == name + UrlDecode(rest)
  {
    hide UrlDecode, PercentEncode, Ascii;
    EncodeStep(name);
    if name == [] {
      assert [] + rest == rest;
    } else {
      var tail := PercentEncode(name[1..]);
      var first := if name[0] == DOT then Ascii("%2E") else if name[0] == PERCENT then Ascii("%25") else [name[0]];
      DecodeAfterName(name[1..], rest);
      ByteDecodes(name[0], tail + rest);
      Reassociate(first, tail, rest);
      Reassociate([name[0]], name[1..], UrlDecode(rest));
      assert name == [name[0]] + name[1..];
    }
  }

  lemma DecodeOfPercentEncode(name: Bytes)
    ensures UrlDecode(PercentEncode(name)) == name
  {
    DecodeAfterName(name, []);
    assert PercentEncode(name) + [] == PercentEncode(name);
    EmptyDecodes();
  }
}
