/** When each request succeeds, and what it answers when it does not. */
module Outcomes {
  import opened CBytes
  import opened ErrorCodes
  import opened Json
  import opened Platform
  import opened Codec
  import opened Engine
  import opened Responses
  import opened Handlers
  import opened Answers
  import Q = QueryPath

  /** The stored form of a typed value, as the handlers encode it. */
  function Stored(host: Host, value: Bytes, tag: Byte): Encoded {
    EncodeValue(host, value, tag, EncodedSize(value))
  }

  /** Any text and null can be stored, a reference if its text reads as an object's or a set's pointer. */
  predicate Storable(host: Host, value: Bytes, tag: Byte) {
    tag == 0 || tag == 2 || (tag == 1 && PtrFromHex(host, value).Some? && PtrFromHex(host, value).value.kind in {1, 2})
  }

  lemma StoredWhen(host: Host, value: Bytes, tag: Byte)
    ensures Stored(host, value, tag).Encoded? <==> Storable(host, value, tag)
    ensures Storable(host, value, tag) ==>
              |Stored(host, value, tag).bytes| == if tag == 0 then 1 + |value| else if tag == 1 then 18 else 1
  {
  }

  lemma NotFoundTells(what: string)
    requires what in {"Object", "Set"}
    ensures Refuses(NotFound(what), 404, if what == "Object" then "Object not found" else "Set not found")
  {
    assert "Object" + " not found" == "Object not found" && "Set" + " not found" == "Set not found";
    ErrorTells(404, what + " not found");
  }

  // -------------------- writes --------------------

  /** PUT succeeds exactly on an existing object, a sound name and value, and while there is room. */
  lemma PutSucceedsWhen(host: Host, st: State, limits: Q.Options, p: Ptr, name: Bytes, value: Bytes, tag: Byte)
    ensures var (st', r) := Perform(host, st, limits, DoMemberPut(p, name, value, tag));
            && (Succeeds(r) <==>
                  && Exists(st.store, p) && p.kind == OBJ && 1 <= |name| <= 493 && st.room > 0 && Storable(host, value, tag))
            && (Succeeds(r) <==> !IsError(r)) && (IsError(r) ==> st' == st)
            && (!Exists(st.store, p) ==> Refuses(r, 404, "Object not found"))
  {
    hide EncodeValue, Ascii, HttpStatus, Storable, Succeeds, Refuses;
    StoredWhen(host, value, tag);
    NotFoundTells("Object");
    SuccessTells();
    NoErrorSucceeds(Perform(host, st, limits, DoMemberPut(p, name, value, tag)).1);
  }

  lemma NoErrorSucceeds(r: Response)
    ensures Succeeds(r) ==> !IsError(r)
  {
  }

  /** DELETE of a member succeeds exactly on an object that has it, be it the last one. */
  lemma MemberDelSucceedsWhen(host: Host, st: State, limits: Q.Options, p: Ptr, name: Bytes)
    ensures var (st', r) := Perform(host, st, limits, DoMemberDel(p, name));
            && (Succeeds(r) <==> Exists(st.store, p) && p.kind == OBJ && name in Items(st.store, p))
            && (Succeeds(r) <==> !IsError(r)) && (IsError(r) ==> st' == st)
            && (!Exists(st.store, p) ==> Refuses(r, 404, "Object not found"))
            && (Exists(st.store, p) && p.kind == OBJ && name !in Items(st.store, p) ==> Refuses(r, 404, "Member not found"))
  {
    hide Ascii, HttpStatus, Succeeds, Refuses, WithoutMember;
    NotFoundTells("Object");
    ErrorTells(404, "Member not found");
    SuccessTells();
    NoErrorSucceeds(Perform(host, st, limits, DoMemberDel(p, name)).1);
  }

  /** Adding succeeds exactly on an existing set, a sound and new element, and while there is room. */
  lemma AddSucceedsWhen(host: Host, st: State, limits: Q.Options, p: Ptr, value: Bytes, tag: Byte)
    ensures var (st', r) := Perform(host, st, limits, DoSetAdd(p, value, tag));
            var stored := Stored(host, value, tag);
            var sound := Exists(st.store, p) && p.kind == SET && Storable(host, value, tag) && |stored.bytes| <= 511;
            && (Succeeds(r) <==> sound && stored.bytes !in Items(st.store, p) && st.room > 0)
            && (Succeeds(r) <==> !IsError(r)) && (IsError(r) ==> st' == st)
            && (!Exists(st.store, p) ==> Refuses(r, 404, "Set not found"))
            && (sound && stored.bytes in Items(st.store, p) ==> Refuses(r, 409, "Element already exists"))
  {
    hide EncodeValue, Ascii, HttpStatus, Storable, Succeeds, Refuses;
    StoredWhen(host, value, tag);
    NotFoundTells("Set");
    ErrorTells(409, "Element already exists");
    SuccessTells();
    NoErrorSucceeds(Perform(host, st, limits, DoSetAdd(p, value, tag)).1);
  }

  /** Removing succeeds exactly on a set that has the element, be it the last one. */
  lemma RemoveSucceedsWhen(host: Host, st: State, limits: Q.Options, p: Ptr, value: Bytes, tag: Byte)
    ensures var (st', r) := Perform(host, st, limits, DoSetRemove(p, value, tag));
            var stored := Stored(host, value, tag);
            var sound := Exists(st.store, p) && p.kind == SET && Storable(host, value, tag);
            && (Succeeds(r) <==> sound && stored.bytes in Items(st.store, p))
            && (Succeeds(r) <==> !IsError(r)) && (IsError(r) ==> st' == st)
            && (!Exists(st.store, p) ==> Refuses(r, 404, "Set not found"))
            && (sound && stored.bytes !in Items(st.store, p) ==> r.status == 404)
  {
    hide EncodeValue, Ascii, Storable, Succeeds, Refuses, WithoutItem;
    StoredWhen(host, value, tag);
    NotFoundTells("Set");
    SuccessTells();
    NoErrorSucceeds(Perform(host, st, limits, DoSetRemove(p, value, tag)).1);
  }

  /** DELETE of a whole entity succeeds exactly on an existing one of the handler's kind. */
  lemma DeleteSucceedsWhen(host: Host, st: State, limits: Q.Options, p: Ptr)
    ensures var (st', r) := Perform(host, st, limits, DoObjDel(p));
            && (Succeeds(r) <==> Exists(st.store, p) && p.kind == OBJ)
            && (Succeeds(r) <==> !IsError(r)) && (IsError(r) ==> st' == st)
            && (!Exists(st.store, p) ==> Refuses(r, 404, "Object not found"))
    ensures var (st', r) := Perform(host, st, limits, DoSetDel(p));
            && (Succeeds(r) <==> Exists(st.store, p) && p.kind == SET)
            && (Succeeds(r) <==> !IsError(r)) && (IsError(r) ==> st' == st)
            && (!Exists(st.store, p) ==> Refuses(r, 404, "Set not found"))
  {
    hide Ascii, HttpStatus, Succeeds, Refuses;
    NotFoundTells("Object");
    NotFoundTells("Set");
    SuccessTells();
    NoErrorSucceeds(Perform(host, st, limits, DoObjDel(p)).1);
    NoErrorSucceeds(Perform(host, st, limits, DoSetDel(p)).1);
  }

  /** A create answers the next free pointer of its kind and stores nothing. */
  lemma CreateAnswers(host: Host, st: State, limits: Q.Options)
    requires st.next < |st.ids|
    ensures var (st', r) := Perform(host, st, limits, DoObjCreate);
            r.status == 201 && TellsText(r.body, "ptr", PtrToHex(Ptr(1, st.ids[st.next]))) && st' == st.(next := st.next + 1)
    ensures var (st', r) := Perform(host, st, limits, DoSetCreate);
            r.status == 201 && TellsText(r.body, "ptr", PtrToHex(Ptr(2, st.ids[st.next]))) && st' == st.(next := st.next + 1)
  {
    hide TellsText, PtrToHex, Ascii;
    PtrTells(Ptr(OBJ, st.ids[st.next]));
    PtrTells(Ptr(SET, st.ids[st.next]));
  }

  // -------------------- reads --------------------

  /** Whether an entity exists, and which kind it is. */
  lemma ExistAnswers(host: Host, st: State, limits: Q.Options, p: Ptr)
    requires p.kind in {OBJ, SET}
    ensures var (st', r) := Perform(host, st, limits, DoPtrExist(p));
            && st' == st && r.status == 200 && Tells(r.body, "exist", JBool(Exists(st.store, p)))
            && (Exists(st.store, p) ==> TellsText(r.body, "type", if p.kind == 1 then Ascii("object") else Ascii("set")))
            && (!Exists(st.store, p) ==> Silent(r.body, "type"))
  {
    assert Ascii("exist") != Ascii("type") by { ShorterDiffers("exist", "type"); }
    hide Ascii;
  }

  lemma HealthAnswers(host: Host)
    ensures var r := HealthBody(host); r.status == 200 && TellsText(r.body, "status", Ascii("ok")) && TellsNumber(r.body, "uptime", host.uptime)
  {
    LetterDiffers("status", "uptime", 0);
    DigitsValueOfDecimal(host.uptime);
    hide Ascii;
    FieldTells("status", Text("ok"), Field("uptime", Number(host.uptime), Nil), "uptime");
    FieldTells("uptime", Number(host.uptime), Nil, "uptime");
  }

  /** Reading an entity as the other kind is a bad request. */
  lemma WrongKindIsRefused(host: Host, st: State, limits: Q.Options, p: Ptr)
    requires Exists(st.store, p)
    ensures p.kind != OBJ ==> Perform(host, st, limits, DoObjGet(p)).1.status == 400
    ensures p.kind != SET ==> Perform(host, st, limits, DoSetGet(p)).1.status == 400
  {
    hide MemberEntries, ElementEntries, Entries, Ascii;
  }

  /** Readers of what does not exist answer 404. */
  lemma AbsentIsNotFound(host: Host, st: State, limits: Q.Options, p: Ptr, name: Bytes)
    requires !Exists(st.store, p)
    ensures Refuses(Perform(host, st, limits, DoObjGet(p)).1, 404, "Object not found")
    ensures Refuses(Perform(host, st, limits, DoSetGet(p)).1, 404, "Set not found")
    ensures Refuses(Perform(host, st, limits, DoMemberGet(p, name)).1, 404, "Object not found")
  {
    hide Ascii, HttpStatus, Refuses;
    NotFoundTells("Object");
    NotFoundTells("Set");
  }

  /** A member GET answers the decoded value, or that it is missing or too large. */
  lemma MemberAnswers(host: Host, st: State, limits: Q.Options, p: Ptr, name: Bytes)
    requires WfStore(st.store) && Exists(st.store, p) && p.kind == OBJ
    ensures var r := Perform(host, st, limits, DoMemberGet(p, name)).1;
            var cap := if limits.maxValueBytes == 0 then 8192 else limits.maxValueBytes;
            if name !in Members(st.store, p) then Refuses(r, 404, "Member not found")
            else
              var v := Members(st.store, p)[name];
              if |v| > cap then Refuses(r, 413, "Value too large") && TellsNumber(r.body, "limit", cap)
              else
                var d := DecodeValue(v);
                d.Decoded? && r.status == 200 && TellsText(r.body, "member", name) && TellsValue(r.body, d.text, d.ty)
  {
    hide Ascii, HttpStatus, Refuses, TellsText, TellsValue, TellsNumber, DecodeValue, WfStore, ValueEntry, ValueTooLargeBody, WfValue;
    WfMembers(st.store, p);
    ErrorTells(404, "Member not found");
    var cap := if limits.maxValueBytes == 0 then 8192 else limits.maxValueBytes;
    TooLargeTells(cap);
    if name in Members(st.store, p) {
      DecodeThenEncode(host, Members(st.store, p)[name]);
      var d := DecodeValue(Members(st.store, p)[name]);
      EntryTells("member", name, d.text, d.ty);
    }
  }

  lemma TooLargeTells(cap: nat)
    ensures var r := ValueTooLargeBody(cap); Refuses(r, 413, "Value too large") && TellsNumber(r.body, "limit", cap)
  {
    var last := Field("limit", Number(cap), Nil);
    DigitsValueOfDecimal(cap);
    LetterDiffers("error", "limit", 0);
    hide Ascii;
    FieldTells("error", Text("Value too large"), last, "error");
    FieldTells("error", Text("Value too large"), last, "limit");
    FieldTells("limit", Number(cap), Nil, "limit");
  }
}
