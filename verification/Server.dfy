/**
 The server's requests, one after the other, through the code of the handlers: each
 is one event of a run, so that what holds of all runs holds of the database.
 */
module Server {
  import opened CBytes
  import opened Json
  import opened Platform
  import opened Codec
  import opened Engine
  import opened Responses
  import opened Routes
  import opened HandlerFacts
  import opened Batch
  import opened Runs
  import opened BatchCode
  import Q = QueryPath

  /** A request outside any transaction is an event of a run, committed iff a write handler answers with success. */
  method AnswerRequest(hp: HandleParams, h: Handler) returns (resp: Response, ghost e: Event)
    requires hp.txn == null
    modifies hp, hp.env
    ensures e.handler == h && e.params == hp.params && e.body == hp.body && e.clock == old(hp.env.clock)
    ensures e.room == old(hp.env.st.room)
    ensures hp.env.st == After(hp.host, old(hp.env.st), hp.limits, e)
    ensures Commits(hp.host, old(hp.env.st), hp.limits, e) <==> !IsError(resp) && !ReadsOnly(h)
    ensures !IsError(resp) ==> resp == RanBy(hp.host, old(hp.env.st), hp.limits, e).response
  {
    hide Serve;
    ghost var before, clock := hp.env.st, hp.env.clock;
    resp := Handle(hp, h);
    e := Event(h, hp.params, hp.body, hp.env.st != before || (!IsError(resp) && !ReadsOnly(h)), !IsError(resp), clock, before.room);
    assert before.(room := before.room) == before;
  }

  /** A request as it comes in, its route matched. */
  datatype Call = Call(handler: Handler, params: seq<Bytes>, body: Option<Json>)

  /** The room left by earlier requests plays no part: each event brings its own. */
  lemma RoomIsRenewed(host: Host, st: State, limits: Q.Options, e: Event, room: nat)
    ensures After(host, st.(room := room), limits, e) == After(host, st, limits, e)
  {
    hide Serve;
    assert st.(room := room).(room := e.room) == st.(room := e.room);
  }

  lemma {:induction false} RunAppend(host: Host, st: State, limits: Q.Options, events: seq<Event>, e: Event)
    ensures Run(host, st, limits, events + [e]) == After(host, Run(host, st, limits, events), limits, e)
    decreases |events|
  {
    hide After;
    if events == [] {
      assert events + [e] == [e] && [e][1..] == [];
    } else {
      assert (events + [e])[0] == events[0] && (events + [e])[1..] == events[1..] + [e];
      RunAppend(host, After(host, st, limits, events[0]), limits, events[1..], e);
    }
  }

  /**
   Requests in a row. The database is left as the run of their events leaves it; with a
   well-formed start it stays well formed, and no pointer that was handed out and names
   nothing comes back.
   */
  method AnswerAll(host: Host, env: Environment, limits: Q.Options, calls: seq<Call>)
    returns (answers: seq<Response>, ghost events: seq<Event>)
    modifies env
    ensures |answers| == |events| == |calls|
    ensures env.st == Run(host, old(env.st), limits, events)
    ensures forall i :: 0 <= i < |calls| ==>
              events[i].handler == calls[i].handler && events[i].params == calls[i].params && events[i].body == calls[i].body
    ensures Inv(old(env.st)) ==> Grows(old(env.st), env.st)
    ensures Inv(old(env.st)) ==>
              forall q: Ptr :: !Exists(old(env.st.store), q) && !Unissued(old(env.st), q) ==> !Exists(env.st.store, q)
  {
    hide Inv, Grows, Exists, Unissued, After, Commits, RanBy;
    answers, events := [], [];
    ghost var start := env.st;
    for i := 0 to |calls|
      invariant |answers| == |events| == i
      invariant env.st == Run(host, start, limits, events)
      invariant forall j :: 0 <= j < i ==>
                  events[j].handler == calls[j].handler && events[j].params == calls[j].params && events[j].body == calls[j].body
    {
      ghost var last := env.st;
      env.Renew();
      ghost var room := env.st.room;
      var hp := new HandleParams(host, env, limits, calls[i].params, calls[i].body, null);
      var resp;
      ghost var e;
      resp, e := AnswerRequest(hp, calls[i].handler);
      RunAppend(host, start, limits, events, e);
      RoomIsRenewed(host, last, limits, e, room);
      answers, events := answers + [resp], events + [e];
    }
    if Inv(start) {
      RunKeepsInvariant(host, start, limits, events);
      forall q: Ptr | !Exists(start.store, q) && !Unissued(start, q) ensures !Exists(env.st.store, q) {
        GoneForever(host, start, limits, events, q);
      }
    }
  }
}
