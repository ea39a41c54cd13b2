/** What a client reads in an answer: the fields of its body, by name. */
module Answers {
  import opened CBytes
  import opened ErrorCodes
  import opened Json
  import opened Platform
  import opened Codec
  import opened Responses

  /** The body is an object with this value under this key. */
  predicate Tells(body: Json, key: string, value: Json) {
    body.JObject? && GetItem(body.child, Ascii(key)) == Some(value)
  }

  predicate TellsText(body: Json, key: string, text: Bytes) {
    Tells(body, key, JString(text))
  }

  /** The number under a key, whatever way its digits are written. */
  predicate TellsNumber(body: Json, key: string, n: nat) {
    body.JObject? &&
    match GetItem(body.child, Ascii(key))
    case Some(JNumber(digits)) => DigitsValue(digits) == n
    case _ => false
  }

  predicate Silent(body: Json, key: string) {
    body.JObject? && GetItem(body.child, Ascii(key)).None?
  }

  /** The documented word for a type. */
  predicate TellsType(body: Json, key: string, ty: ApiType) {
    && (ty == RawType ==> TellsText(body, key, Ascii("raw")))
    && (ty == NullType ==> TellsText(body, key, Ascii("null")))
    && (ty == ObjectType ==> TellsText(body, key, Ascii("object")))
    && (ty == SetType ==> TellsText(body, key, Ascii("set")))
  }

  /** A value and its type. */
  predicate TellsValue(body: Json, text: Bytes, ty: ApiType) {
    TellsText(body, "value", text) && TellsType(body, "type", ty)
  }

  /** An answer with this status that gives a reason. */
  predicate Refuses(r: Response, status: nat, reason: string) {
    r.status == status && TellsText(r.body, "error", Ascii(reason))
  }

  predicate Succeeds(r: Response) {
    r.status == 200 && Tells(r.body, "success", JBool(true))
  }

  // -------------------- keys --------------------

  /** The first fields of a body, one at a time. */
  lemma FieldTells(key: string, value: Json, rest: Nodes, other: string)
    ensures GetItem(Field(key, value, rest), Ascii(other)) ==
            if Ascii(key) == Ascii(other) then Some(value) else GetItem(rest, Ascii(other))
  {
  }

  lemma ShorterDiffers(a: string, b: string)
    requires |a| != |b|
    ensures Ascii(a) != Ascii(b)
  {
  }

  lemma LetterDiffers(a: string, b: string, i: nat)
    requires i < |a| == |b| && a[i] as int % 256 != b[i] as int % 256
    ensures Ascii(a) != Ascii(b)
  {
    assert Ascii(a)[i] != Ascii(b)[i];
  }

  // -------------------- the shell's answers --------------------

  lemma EntryTells(key: string, name: Bytes, text: Bytes, ty: ApiType)
    requires key in {"name", "member", "path"}
    ensures var body := ValueEntry(key, name, text, ty); TellsText(body, key, name) && TellsValue(body, text, ty)
  {
    hide Ascii;
    var last := Field("type", Text(TypeName(ty)), Nil);
    var rest := Field("value", JString(text), last);
    EntryWords();
    FieldTells(key, JString(name), rest, key);
    FieldTells(key, JString(name), rest, "value");
    FieldTells("value", JString(text), last, "value");
    FieldTells(key, JString(name), rest, "type");
    FieldTells("value", JString(text), last, "type");
    FieldTells("type", Text(TypeName(ty)), Nil, "type");
  }

  lemma EntryWords()
    ensures Ascii("value") != Ascii("type")
    ensures Ascii("name") != Ascii("value") && Ascii("member") != Ascii("value") && Ascii("path") != Ascii("value")
    ensures Ascii("name") != Ascii("type") && Ascii("member") != Ascii("type") && Ascii("path") != Ascii("type")
  {
    LetterDiffers("name", "type", 0);
    LetterDiffers("path", "type", 0);
  }

  lemma ElementTells(text: Bytes, ty: ApiType)
    ensures TellsValue(ValueOnly(text, ty), text, ty)
  {
    hide Ascii;
    EntryWords();
    var last := Field("type", Text(TypeName(ty)), Nil);
    FieldTells("value", JString(text), last, "value");
    FieldTells("value", JString(text), last, "type");
    FieldTells("type", Text(TypeName(ty)), Nil, "type");
  }

  lemma ErrorTells(status: nat, reason: string)
    ensures Refuses(Error(status, reason), status, reason)
  {
  }

  lemma SuccessTells()
    ensures Succeeds(SuccessBody())
  {
  }

  lemma PtrTells(p: Ptr)
    ensures PtrBody(p).status == 201 && TellsText(PtrBody(p).body, "ptr", PtrToHex(p))
  {
  }

  lemma CountedPtrTells(p: Ptr, key: string, count: nat)
    requires key in {"member_count", "element_count"}
    ensures var r := CountedPtrBody(p, key, count);
            r.status == 201 && TellsText(r.body, "ptr", PtrToHex(p)) && TellsNumber(r.body, key, count)
  {
    hide Ascii, PtrToHex;
    var rest := Field(key, Number(count), Nil);
    CountWords();
    FieldTells("ptr", JString(PtrToHex(p)), rest, "ptr");
    FieldTells("ptr", JString(PtrToHex(p)), rest, key);
    FieldTells(key, Number(count), Nil, key);
    DigitsValueOfDecimal(count);
  }

  lemma CountWords()
    ensures Ascii("ptr") != Ascii("member_count") && Ascii("ptr") != Ascii("element_count")
    ensures Ascii("ptr") != Ascii("members") && Ascii("ptr") != Ascii("elements") && Ascii("ptr") != Ascii("count")
    ensures Ascii("members") != Ascii("count") && Ascii("elements") != Ascii("count")
  {
  }

  lemma EntityTells(p: Ptr, key: string, list: Nodes)
    requires key in {"members", "elements"}
    ensures var r := EntityBody(p, key, list);
            && r.status == 200 && TellsText(r.body, "ptr", PtrToHex(p)) && Tells(r.body, key, JArray(list))
            && TellsNumber(r.body, "count", Length(list))
  {
    hide Ascii, PtrToHex;
    var last := Field("count", Number(Length(list)), Nil);
    var rest := Field(key, JArray(list), last);
    CountWords();
    FieldTells("ptr", JString(PtrToHex(p)), rest, "ptr");
    FieldTells("ptr", JString(PtrToHex(p)), rest, key);
    FieldTells(key, JArray(list), last, key);
    FieldTells("ptr", JString(PtrToHex(p)), rest, "count");
    FieldTells(key, JArray(list), last, "count");
    FieldTells("count", Number(Length(list)), Nil, "count");
    DigitsValueOfDecimal(Length(list));
  }
}
