/** Requests as clients write them, and what the handlers' checks make of them. */
module ClientRequests {
  import opened CBytes
  import opened Json
  import opened Platform
  import opened Codec
  import opened Responses
  import opened Answers
  import opened Routes
  import opened Handlers
  import opened Engine
  import opened Batch
  import Q = QueryPath

  function TypeWord(tag: Byte): string
    requires tag in {TAG_RAW, TAG_PTR, TAG_NULL}
  {
    if tag == TAG_RAW then "raw" else if tag == TAG_PTR then "ref" else "null"
  }

  /** The body of a write. */
  function TypedJson(value: Bytes, tag: Byte): Json
    requires tag in {TAG_RAW, TAG_PTR, TAG_NULL}
  {
    JObject(Field("value", JString(value), Field("type", Text(TypeWord(tag)), Nil)))
  }

  lemma TypedJsonIsRead(value: Bytes, tag: Byte)
    requires tag in {TAG_RAW, TAG_PTR, TAG_NULL}
    ensures TypedValue(TypedJson(value, tag)) == Some((value, tag))
  {
    TypeWords();
    hide Ascii;
    var fields := TypedJson(value, tag).child;
    assert GetItem(fields.next, Ascii("type")) == Some(Text(TypeWord(tag)));
  }

  lemma TypeWords()
    ensures Ascii("value") != Ascii("type") && Ascii("raw") != Ascii("ref") && Ascii("null") != Ascii("raw") && Ascii("null") != Ascii("ref")
  {
    assert Ascii("raw")[1] != Ascii("ref")[1] && Ascii("null")[0] != Ascii("raw")[0];
  }

  /** A body is a typed value exactly if it has both texts, the type one of the three words; other fields and their order play no part. */
  lemma TypedBodyIs(body: Json, value: Bytes, tag: Byte)
    ensures TypedValue(body) == Some((value, tag)) <==>
              && TellsText(body, "value", value)
              && ((tag == 0 && TellsText(body, "type", Ascii("raw"))) || (tag == 1 && TellsText(body, "type", Ascii("ref")))
                  || (tag == 2 && TellsText(body, "type", Ascii("null"))))
  {
    TypeWords();
    hide Ascii;
  }

  /** A parameter is cut at 1023 bytes, and a member name may decode to 511 at most. */
  lemma ParamLimits(params: seq<Bytes>, i: nat, text: Bytes)
    ensures Param(params, i).Some? <==> i < |params|
    ensures i < |params| ==> Param(params, i).value <= params[i] && |Param(params, i).value| == if |params[i]| > 1023 then 1023 else |params[i]|
    ensures NameParam(text).Some? <==> |UrlDecode(text)| <= 511
  {
    hide UrlDecode, CStr;
  }

  /** A printed pointer and a percent-encoded name come through the parameters unchanged. */
  lemma PrintedParams(host: Host, p: Ptr, name: Bytes)
    requires NulFree(name) && |name| < 512 && |PercentEncode(name)| <= 1023
    ensures var params := [PtrToHex(p), PercentEncode(name)];
            PtrParam(params) == Some(p) && MemberParam(params) == Some(name)
  {
    hide PtrToHex, PtrFromString, PercentEncode, UrlDecode, CStr;
    HexRoundTrip(host, p);
    DecodeOfPercentEncode(name);
    CStrOfNulFree(name);
  }

  /** The request a client means by calling a handler. */
  function Meant(h: Handler, p: Ptr, name: Bytes, value: Bytes, tag: Byte): Option<Request> {
    match h
    case ObjGet => Some(DoObjGet(p))
    case ObjDel => Some(DoObjDel(p))
    case MemberGet => Some(DoMemberGet(p, name))
    case MemberPut => Some(DoMemberPut(p, name, value, tag))
    case MemberDel => Some(DoMemberDel(p, name))
    case SetGet => Some(DoSetGet(p))
    case SetDel => Some(DoSetDel(p))
    case SetAdd => Some(DoSetAdd(p, value, tag))
    case SetRemove => Some(DoSetRemove(p, value, tag))
    case PtrExist => Some(DoPtrExist(p))
    case _ => None
  }

  /** It is the one the checks yield, for every pointer, name and value. */
  lemma PrintedRequestIsPrepared(host: Host, h: Handler, p: Ptr, name: Bytes, value: Bytes, tag: Byte)
    requires NulFree(name) && |name| < 512 && |PercentEncode(name)| <= 1023 && tag in {TAG_RAW, TAG_PTR, TAG_NULL}
    requires Meant(h, p, name, value, tag).Some?
    ensures Prepare(h, [PtrToHex(p), PercentEncode(name)], Some(TypedJson(value, tag))) ==
            Ready(Meant(h, p, name, value, tag).value)
  {
    hide PtrChecked, MemberChecked, ElementChecked, PreparePut, PrepareInit, PtrParam, MemberParam, TypedValue, TypedJson, PtrToHex, PercentEncode;
    PrintedParams(host, p, name);
    TypedJsonIsRead(value, tag);
  }

  /** An init takes its whole body, a query its path; a create takes nothing. */
  lemma PlainRequestIsPrepared(params: seq<Bytes>, body: Option<Json>, nodes: Nodes, path: Bytes)
    ensures Prepare(ObjInit, params, Some(JObject(nodes))) == Ready(DoObjInit(nodes))
    ensures Prepare(SetInit, params, Some(JArray(nodes))) == Ready(DoSetInit(nodes))
    ensures body.None? || !body.value.JObject? ==> Prepare(ObjInit, params, body).Refused?
    ensures body.None? || !body.value.JArray? ==> Prepare(SetInit, params, body).Refused?
    ensures |path| <= 1023 ==> Prepare(ObjQuery, [path] + params, body) == Ready(DoQuery(path))
    ensures Prepare(ObjQuery, [], body).Refused?
    ensures Prepare(ObjCreate, params, body) == Ready(DoObjCreate) && Prepare(SetCreate, params, body) == Ready(DoSetCreate)
  {
    hide PreparePut, PrepareInit, Error, Ascii, Missing;
  }

  /** And it is the one carried out, with its answer handed back. */
  lemma {:induction false} MeantIsServed(host: Host, st: State, clock: nat, limits: Q.Options, h: Handler, p: Ptr, name: Bytes, value: Bytes, tag: Byte)
    requires NulFree(name) && |name| < 512 && |PercentEncode(name)| <= 1023 && tag in {TAG_RAW, TAG_PTR, TAG_NULL}
    requires Meant(h, p, name, value, tag).Some? && clock > 0
    ensures var ran := Serve(host, st, clock, limits, h, [PtrToHex(p), PercentEncode(name)], Some(TypedJson(value, tag)));
            var done := Perform(host, st, limits, Meant(h, p, name, value, tag).value);
            ran.st == done.0 && ran.response == done.1 && ran.trace == [Meant(h, p, name, value, tag).value]
  {
    hide Serve, Prepare, Perform, PtrToHex, PercentEncode, TypedJson;
    ServeOne(host, st, clock, limits, h, [PtrToHex(p), PercentEncode(name)], Some(TypedJson(value, tag)));
    PrintedRequestIsPrepared(host, h, p, name, value, tag);
  }
}
