/** Whole runs of the server: one top-level request, one transaction, after another. */
module Runs {
  import opened CBytes
  import opened ErrorCodes
  import opened Json
  import opened Platform
  import opened Engine
  import opened Responses
  import opened Routes
  import opened Handlers
  import opened HandlerFacts
  import opened Batch
  import opened BatchFacts
  import opened BatchTrace
  import Q = QueryPath

  /** A request, with what the environment decides about its transaction. */
  datatype Event = Event(
    handler: Handler, params: seq<Bytes>, body: Option<Json>,
    begins: bool,     // the engine opens the transaction
    commits: bool,    // the engine commits it
    clock: nat,       // how many timeout checks pass
    room: nat)        // how many writes LMDB accepts

  function RanBy(host: Host, st: State, limits: Q.Options, e: Event): Ran {
    Serve(host, st.(room := e.room), e.clock, limits, e.handler, e.params, e.body)
  }

  predicate Commits(host: Host, st: State, limits: Q.Options, e: Event) {
    e.begins && !ReadsOnly(e.handler) && e.commits && !IsError(RanBy(host, st, limits, e).response)
  }

  /** What the request's body asks for, given the answers it got. */
  function Requested(host: Host, st: State, limits: Q.Options, e: Event): seq<Request> {
    HandlerRequests(host, e.handler, e.params, e.body, RanBy(host, st, limits, e).response)
  }

  /** The committed state afterwards; identifiers handed out in a rolled-back transaction are spent. */
  function After(host: Host, st: State, limits: Q.Options, e: Event): State {
    var start := st.(room := e.room);
    if Commits(host, st, limits, e) then RanBy(host, st, limits, e).st
    else if e.begins then start.(next := RanBy(host, st, limits, e).st.next)
    else start
  }

  function Run(host: Host, st: State, limits: Q.Options, events: seq<Event>): State
    decreases |events|
  {
    if events == [] then st else Run(host, After(host, st, limits, events[0]), limits, events[1..])
  }

  /** All or nothing: the store is the old one, or that of all the requests the body asks for in order, each a success. */
  lemma RequestsAreAtomic(host: Host, st: State, limits: Q.Options, e: Event)
    ensures var start := st.(room := e.room);
            var requests := Requested(host, st, limits, e);
            if Commits(host, st, limits, e)
            then After(host, st, limits, e) == Replay(host, start, limits, requests) && AllSucceed(host, start, limits, requests)
            else After(host, st, limits, e).store == st.store
  {
    hide Serve, HandlerRequests, Replay, AllSucceed;
    if Commits(host, st, limits, e) {
      SuccessIsTheFold(host, st.(room := e.room), e.clock, limits, e.handler, e.params, e.body);
    }
  }

  lemma AfterGrows(host: Host, st: State, limits: Q.Options, e: Event)
    requires Inv(st)
    ensures Grows(st, After(host, st, limits, e))
  {
    hide Serve, Inv;
    var start := st.(room := e.room);
    RoomIsFree(st, start);
    ServeGrows(host, start, e.clock, limits, e.handler, e.params, e.body);
    GrowsSelf(start);
    RollbackGrows(start, RanBy(host, st, limits, e).st.next);
  }

  lemma RoomIsFree(st: State, start: State)
    requires Inv(st) && start == st.(room := start.room)
    ensures Inv(start)
  {
    FreshAfter(st, start);
  }

  lemma RollbackGrows(st: State, next: nat)
    requires Inv(st) && st.next <= next <= |st.ids|
    ensures Grows(st, st.(next := next))
  {
    FreshAfter(st, st.(next := next));
  }

  /** The store is well formed, and generated pointers are new, throughout every run. */
  lemma {:induction false} RunKeepsInvariant(host: Host, st: State, limits: Q.Options, events: seq<Event>)
    requires Inv(st)
    ensures Grows(st, Run(host, st, limits, events))
    decreases |events|
  {
    if events == [] {
      GrowsSelf(st);
    } else {
      AfterGrows(host, st, limits, events[0]);
      RunKeepsInvariant(host, After(host, st, limits, events[0]), limits, events[1..]);
    }
  }

  // -------------------- existence --------------------

  predicate NonEmptyInit(r: Request) {
    (r.DoObjInit? && r.kv.Cons?) || (r.DoSetInit? && r.item.Cons?)
  }

  lemma {:induction false} BornInReplay(host: Host, st: State, limits: Q.Options, trace: seq<Request>, q: Codec.Ptr)
    requires Inv(st) && !Exists(st.store, q) && Exists(Replay(host, st, limits, trace).store, q)
    ensures Unissued(st, q) && exists i :: 0 <= i < |trace| && NonEmptyInit(trace[i])
    decreases |trace|
  {
    hide Perform;
    var st1 := Perform(host, st, limits, trace[0]).0;
    PerformGrows(host, st, limits, trace[0]);
    if Exists(st1.store, q) {
      OnlyInitBringsIntoExistence(host, st, limits, trace[0], q);
      assert NonEmptyInit(trace[0]);
    } else {
      BornInReplay(host, st1, limits, trace[1..], q);
      var i :| 0 <= i < |trace[1..]| && NonEmptyInit(trace[1..][i]);
      assert trace[1..][i] == trace[i + 1];
      StillUnissued(st, st1, q);
    }
  }

  lemma StillUnissued(st: State, st1: State, q: Codec.Ptr)
    requires st1.ids == st.ids && st.next <= st1.next && Unissued(st1, q)
    ensures Unissued(st, q)
  {
  }

  /** An entity begins to exist only by a committed request that performed a non-empty init. */
  lemma BornByInit(host: Host, st: State, limits: Q.Options, e: Event, q: Codec.Ptr)
    requires Inv(st) && !Exists(st.store, q) && Exists(After(host, st, limits, e).store, q)
    ensures Unissued(st, q) && Commits(host, st, limits, e)
    ensures exists i :: 0 <= i < |Requested(host, st, limits, e)| && NonEmptyInit(Requested(host, st, limits, e)[i])
  {
    hide Serve, HandlerRequests;
    var start := st.(room := e.room);
    RequestsAreAtomic(host, st, limits, e);
    RoomIsFree(st, start);
    BornInReplay(host, start, limits, Requested(host, st, limits, e), q);
    StillUnissued(st, start, q);
  }

  /** A pointer that has been handed out and names nothing never names anything again. */
  lemma {:induction false} GoneForever(host: Host, st: State, limits: Q.Options, events: seq<Event>, q: Codec.Ptr)
    requires Inv(st) && !Exists(st.store, q) && !Unissued(st, q)
    ensures !Exists(Run(host, st, limits, events).store, q)
    decreases |events|
  {
    if events != [] {
      var st1 := After(host, st, limits, events[0]);
      AfterGrows(host, st, limits, events[0]);
      if Exists(st1.store, q) { BornByInit(host, st, limits, events[0], q); }
      if Unissued(st1, q) { StillUnissued(st, st1, q); }
      GoneForever(host, st1, limits, events[1..], q);
    }
  }

  /** Once an entity's last item is removed, no later run brings the pointer back. */
  lemma NoResurrection(host: Host, st: State, limits: Q.Options, before: seq<Event>, after: seq<Event>, q: Codec.Ptr)
    requires Inv(st) && Exists(st.store, q)
    requires !Exists(Run(host, st, limits, before).store, q)
    ensures !Exists(Run(host, Run(host, st, limits, before), limits, after).store, q)
  {
    var st1 := Run(host, st, limits, before);
    ExistingIsIssued(st, q);
    RunKeepsInvariant(host, st, limits, before);
    if Unissued(st1, q) { StillUnissued(st, st1, q); }
    GoneForever(host, st1, limits, after, q);
  }
}
