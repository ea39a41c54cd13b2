/**
 The storage engine's contract: two LMDB tables, a pointer generator, and the
 calls the shell makes inside a transaction.
 */
module Engine {
  import opened CBytes
  import opened ErrorCodes
  import opened Platform
  import opened Codec

  const MAX_NAME_LEN := 493      // longest member name the engine registers
  const MAX_ELEMENT_LEN := 511   // LMDB's limit for duplicate values
  const DEFAULT_MAX_VALUE_BYTES := 8192

  /**
   `items` is the `set` table: the names or elements of an entity. `main` holds the
   values of members, its 17-byte key prefix and its name suffix as two map levels.
   */
  datatype Store = Store(items: map<Ptr, set<Bytes>>, main: map<Ptr, map<Bytes, Bytes>>)

  /**
   A write transaction's view: the store, the identifiers the generator hands out
   (from `next` on), and the number of writes LMDB still accepts.
   */
  datatype State = State(store: Store, ids: seq<Id>, next: nat, room: nat)

  predicate Exists(s: Store, p: Ptr) {
    p in s.items
  }

  function Items(s: Store, p: Ptr): set<Bytes> {
    if p in s.items then s.items[p] else {}
  }

  function Members(s: Store, p: Ptr): map<Bytes, Bytes> {
    if p in s.main then s.main[p] else map[]
  }

  /** The entity reads the same in both stores. */
  ghost predicate Same(s: Store, t: Store, p: Ptr) {
    Items(s, p) == Items(t, p) && Members(s, p) == Members(t, p)
  }

  // -------------------- engine calls --------------------

  /** lmjcore_obj_create / lmjcore_set_create: a new pointer, nothing stored yet. */
  function Create(st: State, kind: Byte): (State, Option<Ptr>) {
    if st.next < |st.ids| then (st.(next := st.next + 1), Some(Ptr(kind, st.ids[st.next])))
    else (st, None)
  }

  function MemberPut(st: State, p: Ptr, name: Bytes, value: Bytes): (State, Rc) {
    if p.kind != OBJ then (st, EntityTypeMismatch)
    else if |name| == 0 then (st, InvalidParam)
    else if |name| > MAX_NAME_LEN then (st, MemberTooLong)
    else if st.room == 0 then (st, MapFull)
    else
      var s := Store(st.store.items[p := Items(st.store, p) + {name}], st.store.main[p := Members(st.store, p)[name := value]]);
      (st.(store := s, room := st.room - 1), Success)
  }

  function SetAddItem(st: State, p: Ptr, value: Bytes): (State, Rc) {
    if p.kind != SET then (st, EntityTypeMismatch)
    else if |value| > MAX_ELEMENT_LEN then (st, MemberTooLong)
    else if value in Items(st.store, p) then (st, MemberExists)
    else if st.room == 0 then (st, MapFull)
    else
      var s := st.store.(items := st.store.items[p := Items(st.store, p) + {value}]);
      (st.(store := s, room := st.room - 1), Success)
  }

  /** The table after one duplicate of a key is gone; the key goes with its last one. */
  function WithoutItem(items: map<Ptr, set<Bytes>>, p: Ptr, v: Bytes): map<Ptr, set<Bytes>>
    requires p in items
  {
    if items[p] == {v} then items - {p} else items[p := items[p] - {v}]
  }

  function WithoutMember(s: Store, p: Ptr, name: Bytes): Store
    requires p in s.items
  {
    var left := Members(s, p) - {name};
    Store(WithoutItem(s.items, p, name), if left == map[] then s.main - {p} else s.main[p := left])
  }

  function MemberDelete(st: State, p: Ptr, name: Bytes): (State, Rc) {
    if p.kind != OBJ then (st, EntityTypeMismatch)
    else if p !in st.store.items then (st, EntityNotFound)
    else if name !in st.store.items[p] then (st, MemberNotFound)
    else (st.(store := WithoutMember(st.store, p, name)), Success)
  }

  function SetRemoveItem(st: State, p: Ptr, value: Bytes): (State, Rc) {
    if p.kind != SET then (st, EntityTypeMismatch)
    else if p !in st.store.items then (st, EntityNotFound)
    else if value !in st.store.items[p] then (st, MemberNotFound)
    else (st.(store := st.store.(items := WithoutItem(st.store.items, p, value))), Success)
  }

  /** lmjcore_obj_del / lmjcore_set_del. */
  function Delete(st: State, kind: Byte, p: Ptr): (State, Rc) {
    if p.kind != kind then (st, EntityTypeMismatch)
    else if p !in st.store.items then (st, EntityNotFound)
    else
      (st.(store := Store(st.store.items - {p}, st.store.main - {p})), Success)
  }

  datatype Read = Got(bytes: Bytes) | NotGot(rc: Rc)

  /** lmjcore_obj_member_get: all of the value, or nothing when `cap` is too small. */
  function MemberGet(s: Store, p: Ptr, name: Bytes, cap: nat): Read {
    if p.kind != OBJ then NotGot(EntityTypeMismatch)
    else if p !in s.items then NotGot(EntityNotFound)
    else if name !in s.items[p] || name !in Members(s, p) then NotGot(MemberNotFound)
    else if |Members(s, p)[name]| > cap then NotGot(BufferTooSmall)
    else Got(Members(s, p)[name])
  }

  /** A read with no buffer limit. */
  function MemberValue(s: Store, p: Ptr, name: Bytes): Read {
    if p.kind != OBJ then NotGot(EntityTypeMismatch)
    else if p !in s.items then NotGot(EntityNotFound)
    else if name !in s.items[p] || name !in Members(s, p) then NotGot(MemberNotFound)
    else Got(Members(s, p)[name])
  }

  /** lmjcore_obj_member_get_capped, as a bound on the unlimited read. */
  function CappedGet(s: Store, p: Ptr, name: Bytes, maxBytes: nat): Read {
    var cap := if maxBytes == 0 then DEFAULT_MAX_VALUE_BYTES else maxBytes;
    match MemberValue(s, p, name)
    case Got(v) => if |v| <= cap then Got(v) else NotGot(ValueTooLarge)
    case NotGot(rc) => NotGot(rc)
  }

  datatype Entry = Entry(name: Bytes, value: Bytes)

  function Entries(s: Store, p: Ptr, names: seq<Bytes>): seq<Entry> {
    if names == [] then []
    else (if names[0] in Members(s, p) then [Entry(names[0], Members(s, p)[names[0]])] else [])
         + Entries(s, p, names[1..])
  }

  // -------------------- invariants --------------------

  /** An entity's items: an object's names, each with a value, or a set's elements. */
  ghost predicate WfEntity(p: Ptr, items: set<Bytes>, members: map<Bytes, Bytes>) {
    && items != {}
    && p.kind in {OBJ, SET}
    && (p.kind == OBJ ==> members.Keys == items && forall n | n in items :: 1 <= |n| <= MAX_NAME_LEN && WfValue(members[n]))
    && (p.kind == SET ==> forall v | v in items :: WfValue(v))
  }

  ghost predicate WfStore(s: Store) {
    && (forall p | p in s.items :: WfEntity(p, s.items[p], Members(s, p)))
    && (forall p | p in s.main :: p in s.items && p.kind == OBJ)
  }

  /** The generator may still hand out this pointer. */
  ghost predicate Unissued(st: State, p: Ptr) {
    exists i :: st.next <= i < |st.ids| && st.ids[i] == p.id
  }

  /** Generated identifiers are new. */
  ghost predicate Fresh(st: State) {
    && st.next <= |st.ids|
    && (forall i, j :: 0 <= i < j < |st.ids| ==> st.ids[i] != st.ids[j])
    && (forall p | p in st.store.items :: !Unissued(st, p))
  }

  ghost predicate Inv(st: State) {
    WfStore(st.store) && Fresh(st)
  }

  lemma FreshAfter(st: State, st': State)
    requires Fresh(st) && st'.ids == st.ids && st.next <= st'.next <= |st.ids|
    requires forall q | q in st'.store.items :: q in st.store.items || !Unissued(st, q)
    ensures Fresh(st')
  {
    forall q | q in st'.store.items ensures !Unissued(st', q) {
      if i :| st'.next <= i < |st.ids| && st.ids[i] == q.id {
        assert Unissued(st, q);
        assert false;
      }
    }
  }

  lemma CreateKeepsInv(st: State, kind: Byte)
    requires Inv(st)
    ensures var (st', p) := Create(st, kind);
            Inv(st') && st'.store == st.store &&
            (p.Some? ==> Unissued(st, p.value) && !Unissued(st', p.value) && !Exists(st.store, p.value))
  {
    var (st', p) := Create(st, kind);
    FreshAfter(st, st');
    if p.Some? {
      assert p.value.id == st.ids[st.next];
      assert Unissued(st, p.value);
    }
  }

  lemma {:induction false} PutKeepsInv(st: State, p: Ptr, name: Bytes, value: Bytes)
    requires Inv(st) && WfValue(value) && !Unissued(st, p)
    ensures Inv(MemberPut(st, p, name, value).0)
  {
    hide *;
    PutKeepsWf(st, p, name, value) by { InvParts(st); }
    PutKeepsFresh(st, p, name, value) by { InvParts(st); }
    InvParts(MemberPut(st, p, name, value).0);
  }

  lemma InvParts(st: State)
    ensures Inv(st) <==> WfStore(st.store) && Fresh(st)
  {
  }

  lemma PutKeepsFresh(st: State, p: Ptr, name: Bytes, value: Bytes)
    requires Fresh(st) && !Unissued(st, p)
    ensures Fresh(MemberPut(st, p, name, value).0)
  {
    FreshAfter(st, MemberPut(st, p, name, value).0);
  }

  lemma PutKeepsWf(st: State, p: Ptr, name: Bytes, value: Bytes)
    requires WfStore(st.store) && WfValue(value)
    ensures WfStore(MemberPut(st, p, name, value).0.store)
  {
    hide WfEntity, WfValue;
    var s, t := st.store, MemberPut(st, p, name, value).0.store;
    if MemberPut(st, p, name, value).1 == Success {
      PutKeepsEntity(st, p, name, value);
      forall q | q in t.items ensures WfEntity(q, t.items[q], Members(t, q)) {
        if q != p { assert WfEntity(q, s.items[q], Members(s, q)); }
      }
    }
  }

  lemma PutKeepsEntity(st: State, p: Ptr, name: Bytes, value: Bytes)
    requires WfStore(st.store) && WfValue(value) && MemberPut(st, p, name, value).1 == Success
    ensures WfEntity(p, Items(st.store, p) + {name}, Members(st.store, p)[name := value])
  {
    hide WfValue;
    if p in st.store.items { assert WfEntity(p, st.store.items[p], Members(st.store, p)); }
  }

  lemma PutElsewhere(st: State, p: Ptr, name: Bytes, value: Bytes, q: Ptr)
    requires q != p
    ensures Same(st.store, MemberPut(st, p, name, value).0.store, q)
  {
  }

  lemma PutEffect(st: State, p: Ptr, name: Bytes, value: Bytes)
    requires WfStore(st.store)
    requires MemberPut(st, p, name, value).1 == Success
    ensures var s := MemberPut(st, p, name, value).0.store;
            && Items(s, p) == Items(st.store, p) + {name}
            && Members(s, p) == Members(st.store, p)[name := value]
  {
  }

  lemma AddKeepsInv(st: State, p: Ptr, value: Bytes)
    requires Inv(st) && WfValue(value) && !Unissued(st, p)
    ensures Inv(SetAddItem(st, p, value).0)
  {
    var st' := SetAddItem(st, p, value).0;
    FreshAfter(st, st');
  }

  lemma AddElsewhere(st: State, p: Ptr, value: Bytes, q: Ptr)
    requires q != p
    ensures Same(st.store, SetAddItem(st, p, value).0.store, q)
  {
  }

  lemma MemberDeleteKeepsWf(s: Store, p: Ptr, name: Bytes)
    requires WfStore(s) && p.kind == OBJ && p in s.items && name in s.items[p]
    ensures WfStore(WithoutMember(s, p, name))
  {
    var t := WithoutMember(s, p, name);
    assert WfEntity(p, s.items[p], Members(s, p));
    forall q | q in t.items ensures WfEntity(q, t.items[q], Members(t, q)) {
      assert WfEntity(q, s.items[q], Members(s, q));
    }
  }

  lemma MemberDeleteKeepsInv(st: State, p: Ptr, name: Bytes)
    requires Inv(st)
    ensures Inv(MemberDelete(st, p, name).0)
  {
    var (st', rc) := MemberDelete(st, p, name);
    FreshAfter(st, st');
    if rc == Success {
      MemberDeleteKeepsWf(st.store, p, name);
    }
  }

  lemma SetRemoveKeepsInv(st: State, p: Ptr, value: Bytes)
    requires Inv(st)
    ensures Inv(SetRemoveItem(st, p, value).0)
  {
    hide *;
    InvParts(st);
    InvParts(SetRemoveItem(st, p, value).0);
    SetRemoveKeepsWf(st, p, value);
    SetRemoveKeepsFresh(st, p, value);
  }

  lemma SetRemoveKeepsWf(st: State, p: Ptr, value: Bytes)
    requires WfStore(st.store)
    ensures WfStore(SetRemoveItem(st, p, value).0.store)
  {
    hide WfValue;
    var s, t := st.store, SetRemoveItem(st, p, value).0.store;
    forall q | q in t.items ensures WfEntity(q, t.items[q], Members(t, q)) {
      assert WfEntity(q, s.items[q], Members(s, q));
    }
  }

  lemma SetRemoveKeepsFresh(st: State, p: Ptr, value: Bytes)
    requires Fresh(st)
    ensures Fresh(SetRemoveItem(st, p, value).0)
  {
    FreshAfter(st, SetRemoveItem(st, p, value).0);
  }

  lemma DeleteKeepsInv(st: State, kind: Byte, p: Ptr)
    requires Inv(st)
    ensures Inv(Delete(st, kind, p).0)
  {
    var st' := Delete(st, kind, p).0;
    FreshAfter(st, st');
  }

  /** The last item takes the entity with it; any other leaves it standing. */
  lemma LastItemEndsTheEntity(st: State, p: Ptr, v: Bytes, q: Ptr)
    requires WfStore(st.store)
    requires MemberDelete(st, p, v).1 == Success || SetRemoveItem(st, p, v).1 == Success
    ensures var s := (if p.kind == OBJ then MemberDelete(st, p, v).0 else SetRemoveItem(st, p, v).0).store;
            && Items(s, p) == Items(st.store, p) - {v}
            && (Exists(s, p) <==> Items(st.store, p) != {v})
            && (q != p ==> Same(st.store, s, q))
  {
    hide WfEntity, WfValue;
    if p.kind == OBJ { MemberGone(st.store, p, v, q); }
  }

  lemma MemberGone(s: Store, p: Ptr, v: Bytes, q: Ptr)
    requires p in s.items && v in s.items[p]
    ensures var t := WithoutMember(s, p, v);
            && Items(t, p) == Items(s, p) - {v} && (Exists(t, p) <==> Items(s, p) != {v})
            && (q != p ==> Same(s, t, q))
  {
  }

  /** In a well-formed store an entity exists iff it has items, and an object has its names' values. */
  lemma WfMembers(s: Store, p: Ptr)
    requires WfStore(s)
    ensures Exists(s, p) <==> Items(s, p) != {}
    ensures p.kind == OBJ ==> Members(s, p).Keys == Items(s, p)
    ensures forall n | n in Members(s, p) :: WfValue(Members(s, p)[n])
  {
    if p in s.items {
      assert WfEntity(p, s.items[p], Members(s, p));
    }
  }

  // -------------------- a transaction handle --------------------

  function Pow2(n: nat): nat {
    if n == 0 then 1 else 2 * Pow2(n - 1)
  }

  class Txn {
    var st: State
    var open: bool
    const readonly: bool

    constructor (st: State, readonly: bool)
      ensures this.st == st && this.readonly == readonly && open
    {
      this.st := st;
      this.readonly := readonly;
      open := true;
    }

    method CreateEntity(kind: Byte) returns (rc: Rc, p: Ptr)
      requires open && !readonly
      modifies this`st
      ensures st == Create(old(st), kind).0
      ensures match Create(old(st), kind).1 case Some(q) => rc == Success && p == q case None => rc == NoPointer
    {
      p := Ptr(kind, seq(PTR_LEN - 1, _ => 0));
      rc := NoPointer;
      if st.next < |st.ids| {
        rc, p := Success, Ptr(kind, st.ids[st.next]);
        st := st.(next := st.next + 1);
      }
    }

    method Put(p: Ptr, name: Bytes, value: Bytes) returns (rc: Rc)
      requires open && !readonly
      modifies this`st
      ensures (st, rc) == MemberPut(old(st), p, name, value)
    {
      var r := MemberPut(st, p, name, value);
      st, rc := r.0, r.1;
    }

    method Add(p: Ptr, value: Bytes) returns (rc: Rc)
      requires open && !readonly
      modifies this`st
      ensures (st, rc) == SetAddItem(old(st), p, value)
    {
      var r := SetAddItem(st, p, value);
      st, rc := r.0, r.1;
    }

    method DeleteMember(p: Ptr, name: Bytes) returns (rc: Rc)
      requires open && !readonly
      modifies this`st
      ensures (st, rc) == MemberDelete(old(st), p, name)
    {
      var r := MemberDelete(st, p, name);
      st, rc := r.0, r.1;
    }

    method RemoveElement(p: Ptr, value: Bytes) returns (rc: Rc)
      requires open && !readonly
      modifies this`st
      ensures (st, rc) == SetRemoveItem(old(st), p, value)
    {
      var r := SetRemoveItem(st, p, value);
      st, rc := r.0, r.1;
    }

    method DeleteEntity(kind: Byte, p: Ptr) returns (rc: Rc)
      requires open && !readonly
      modifies this`st
      ensures (st, rc) == Delete(old(st), kind, p)
    {
      var r := Delete(st, kind, p);
      st, rc := r.0, r.1;
    }

    method Get(p: Ptr, name: Bytes, cap: nat) returns (r: Read)
      requires open
      ensures r == MemberGet(st.store, p, name, cap)
    {
      r := MemberGet(st.store, p, name, cap);
    }

    /**
     lmjcore_obj_member_get_capped. Doubling never allocates past the cap, and the
     number of engine reads grows with the logarithm of cap / 1024.
     */
    method GetCapped(p: Ptr, name: Bytes, maxBytes: nat) returns (r: Read, ghost calls: nat, ghost peak: nat)
      requires open
      ensures r == CappedGet(st.store, p, name, maxBytes)
      ensures var cap := if maxBytes == 0 then DEFAULT_MAX_VALUE_BYTES else maxBytes;
              peak <= cap && calls >= 1 && (calls >= 2 ==> 1024 * Pow2(calls - 2) < cap)
    {
      var cap := if maxBytes == 0 then DEFAULT_MAX_VALUE_BYTES else maxBytes;
      var capacity := if 1024 > cap then cap else 1024;
      calls, peak := 1, capacity;
      r := Get(p, name, capacity);
      while r == NotGot(BufferTooSmall)
        invariant 1 <= capacity <= cap && peak == capacity && calls >= 1
        invariant r == MemberGet(st.store, p, name, capacity)
        invariant capacity < cap ==> capacity == 1024 * Pow2(calls - 1)
        invariant calls >= 2 ==> 1024 * Pow2(calls - 2) < cap
        decreases cap - capacity
      {
        if capacity >= cap {
          r := NotGot(ValueTooLarge);
          return;
        }
        var next := capacity * 2;
        if next > cap {
          next := cap;
        }
        capacity := next;
        calls, peak := calls + 1, capacity;
        r := Get(p, name, capacity);
      }
    }
  }
}
