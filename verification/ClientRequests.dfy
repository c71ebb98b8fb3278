/**
 * Requests on pooled clients (`execute` of `chipotle.ts`): a request takes a client, makes one call on it,
 * and when the call settles gives the client back or, after a failure, closes it. This module composes the
 * pool with the clients' pending calls.
 */
module ClientRequests {
  import opened Options
  import opened OrderedMaps
  import A = AmeliaClient
  import P = ClientPool

  /** Each client made has a session; each busy client serves one call. */
  datatype State = State(pool: P.State, sessions: map<nat, A.State>, serving: map<nat, A.CallId>)

  const START := State(P.START, map[], map[])

  /**
   * A request begins (`opens`: a client made for it connects), something happens to a client, or a request
   * goes on after its call has settled.
   */
  datatype Event =
    | Begin(id: A.CallId, opens: bool, c: A.Condition)
    | Happens(client: nat, e: A.Event)
    | Finish(client: nat)

  function SessionOf(s: State, client: nat): A.State {
    if client in s.sessions then s.sessions[client] else A.START
  }

  /** A request takes a client and calls `chat` on it with a fresh id. */
  function BeginOn(s: State, id: A.CallId, c: A.Condition): State {
    var (pool, client) := P.Take(s.pool);
    State(pool, s.sessions[client := A.Step(SessionOf(s, client), A.Chat(id, c))], s.serving[client := id])
  }

  predicate Settled(s: State, client: nat) {
    && client in s.serving && client in s.sessions && s.serving[client] in s.sessions[client].calls
    && s.sessions[client].calls[s.serving[client]].outcome.Some?
  }

  function FinishOn(s: State, client: nat): State
    requires Settled(s, client)
  {
    var answered := s.sessions[client].calls[s.serving[client]].outcome.value.Resolved?;
    State(P.Step(s.pool, if answered then P.Release(client) else P.Fail(client)), s.sessions, s.serving - {client})
  }

  function Step(s: State, e: Event): State {
    match e
    case Begin(id, opens, c) =>
      var (_, client) := P.Take(s.pool);
      if (s.pool.pool == [] && !opens) || id in SessionOf(s, client).calls then s else BeginOn(s, id, c)
    case Happens(client, e) =>
      if client !in s.sessions || e.Chat? then s
      else s.(sessions := s.sessions[client := A.Step(s.sessions[client], e)])
    case Finish(client) => if Settled(s, client) then FinishOn(s, client) else s
  }

  function Run(events: seq<Event>): State {
    if events == [] then START else Step(Run(events[..|events| - 1]), events[|events| - 1])
  }

  // ---------------------------------------------------------------- the invariant

  /** A client serves its current call only: no other callback is registered on it. */
  ghost predicate Serves(session: A.State, id: A.CallId) {
    id in session.calls && forall other :: other in session.callbacks ==> other == id
  }

  /** One session: idle when its client is pooled, given to one call when it is busy. */
  ghost predicate SessionInv(session: A.State, pooled: bool, serving: Option<A.CallId>) {
    && A.Inv(session)
    && (pooled ==> session.callbacks == [])
    && (serving.Some? ==> Serves(session, serving.value))
  }

  function ServingOf(s: State, client: nat): Option<A.CallId> {
    if client in s.serving then Some(s.serving[client]) else None
  }

  ghost predicate SessionOk(s: State, client: nat)
    requires client in s.sessions
  {
    SessionInv(s.sessions[client], client in s.pool.pool, ServingOf(s, client))
  }

  /** Every client made has a session, and every busy one a call. */
  ghost predicate Matches(s: State) {
    s.serving.Keys == s.pool.busy && forall c: nat :: c in s.sessions <==> c < s.pool.made
  }

  ghost predicate Inv(s: State) {
    && P.Inv(s.pool)
    && Matches(s)
    && (forall c :: c in s.sessions ==> SessionOk(s, c))
  }

  /** A pooled client has no callback to begin with, and neither has a new one. */
  lemma TakenIsIdle(s: State)
    requires Inv(s)
    ensures var (_, client) := P.Take(s.pool);
            A.Inv(SessionOf(s, client)) && SessionOf(s, client).callbacks == []
  {
    var (_, client) := P.Take(s.pool);
    if s.pool.pool != [] {
      assert client in s.pool.pool;
      assert client in s.sessions && SessionOk(s, client);
    } else {
      assert client !in s.sessions;
    }
  }

  /** Where the clients are when one has been taken. */
  ghost predicate TakenFrom(before: P.State, after: P.State, client: nat) {
    && after.busy == before.busy + {client} && client !in after.pool
    && (forall c :: c in after.pool ==> c in before.pool)
    && client <= before.made && after.made == if client == before.made then before.made + 1 else before.made
  }

  lemma TakeTakes(pool: P.State)
    requires P.Inv(pool)
    ensures P.Inv(P.Take(pool).0) && TakenFrom(pool, P.Take(pool).0, P.Take(pool).1)
  {
    P.StepKeeps(pool, P.Acquire);
    if pool.pool != [] {
      var top := pool.pool[|pool.pool| - 1];
      assert top in pool.pool;
    }
  }

  lemma NewCall(session: A.State, id: A.CallId, c: A.Condition)
    requires A.Inv(session) && session.callbacks == [] && id !in session.calls
    ensures SessionInv(A.Step(session, A.Chat(id, c)), false, Some(id))
  {
    A.ChatKeeps(session, id, c);
  }

  /** All clients but one are where they were. */
  ghost predicate OthersStay(s: State, t: State, client: nat) {
    forall c :: c in t.sessions && c != client ==>
      && c in s.sessions && t.sessions[c] == s.sessions[c]
      && (c in t.pool.pool ==> c in s.pool.pool) && ServingOf(t, c) == ServingOf(s, c)
  }

  lemma OneChange(s: State, t: State, client: nat)
    requires Inv(s) && OthersStay(s, t, client)
    requires P.Inv(t.pool) && Matches(t)
    requires client in t.sessions && SessionOk(t, client)
    ensures Inv(t)
  {
    forall c | c in t.sessions ensures SessionOk(t, c) {
      if c != client {
        assert SessionOk(s, c);
      }
    }
  }

  lemma BeginMoves(s: State, pool: P.State, client: nat, id: A.CallId, session: A.State)
    requires Matches(s) && TakenFrom(s.pool, pool, client)
    ensures var t := State(pool, s.sessions[client := session], s.serving[client := id]);
            Matches(t) && OthersStay(s, t, client) && client !in t.pool.pool && ServingOf(t, client) == Some(id)
  {
  }

  lemma BeginStays(s: State, pool: P.State, client: nat, id: A.CallId, session: A.State)
    requires Inv(s) && P.Inv(pool) && TakenFrom(s.pool, pool, client) && SessionInv(session, false, Some(id))
    ensures Inv(State(pool, s.sessions[client := session], s.serving[client := id]))
  {
    BeginMoves(s, pool, client, id, session);
    OneChange(s, State(pool, s.sessions[client := session], s.serving[client := id]), client);
  }

  lemma BeginKeeps(s: State, id: A.CallId, c: A.Condition)
    requires Inv(s)
    requires var (_, client) := P.Take(s.pool); id !in SessionOf(s, client).calls
    ensures Inv(BeginOn(s, id, c))
  {
    var (pool, client) := P.Take(s.pool);
    TakenIsIdle(s);
    NewCall(SessionOf(s, client), id, c);
    TakeTakes(s.pool);
    BeginStays(s, pool, client, id, A.Step(SessionOf(s, client), A.Chat(id, c)));
  }

  /** Nothing but a call adds a callback. */
  lemma CallbacksShrink(session: A.State, e: A.Event)
    requires !e.Chat?
    ensures forall id :: id in A.Step(session, e).callbacks ==> id in session.callbacks
    ensures forall id :: id in session.calls ==> id in A.Step(session, e).calls
  {
  }

  lemma SomeMember(s: seq<A.CallId>)
    requires s != []
    ensures exists id :: id in s
  {
    assert s[0] in s;
  }

  lemma SessionHappens(session: A.State, e: A.Event, pooled: bool, serving: Option<A.CallId>)
    requires SessionInv(session, pooled, serving) && !e.Chat?
    ensures SessionInv(A.Step(session, e), pooled, serving)
  {
    A.StepKeeps(session, e);
    CallbacksShrink(session, e);
    if A.Step(session, e).callbacks != [] {
      SomeMember(A.Step(session, e).callbacks);
    }
  }

  lemma HappensKeeps(s: State, client: nat, e: A.Event)
    requires Inv(s) && client in s.sessions && !e.Chat?
    ensures Inv(Step(s, Happens(client, e)))
  {
    var t := Step(s, Happens(client, e));
    assert SessionOk(s, client);
    SessionHappens(s.sessions[client], e, client in s.pool.pool, ServingOf(s, client));
    OneChange(s, t, client);
  }

  /** A call that was answered has no callback any more, so its client is idle. */
  lemma AnsweredIsIdle(session: A.State, id: A.CallId)
    requires SessionInv(session, false, Some(id))
    requires session.calls[id].outcome.Some? && session.calls[id].outcome.value.Resolved?
    ensures SessionInv(session, true, None)
  {
    if session.callbacks != [] {
      SomeMember(session.callbacks);
    }
  }

  /** Where the clients are when a busy one has been given back or closed. */
  ghost predicate GivenUp(before: P.State, after: P.State, client: nat, back: bool) {
    && client in before.busy && after.busy == before.busy - {client} && after.made == before.made
    && (forall c :: c in after.pool ==> c in before.pool || (c == client && back))
  }

  lemma GivesUp(pool: P.State, client: nat, back: bool)
    requires P.Inv(pool) && client in pool.busy
    ensures var after := P.Step(pool, if back then P.Release(client) else P.Fail(client));
            P.Inv(after) && GivenUp(pool, after, client, back)
  {
    P.StepKeeps(pool, if back then P.Release(client) else P.Fail(client));
  }

  lemma FinishMoves(s: State, pool: P.State, client: nat, back: bool)
    requires Matches(s) && client in s.serving && GivenUp(s.pool, pool, client, back)
    ensures var t := State(pool, s.sessions, s.serving - {client});
            Matches(t) && OthersStay(s, t, client) && ServingOf(t, client) == None
  {
  }

  lemma FinishStays(s: State, pool: P.State, client: nat, back: bool)
    requires Inv(s) && client in s.sessions && client in s.serving && client !in s.pool.pool
    requires P.Inv(pool) && GivenUp(s.pool, pool, client, back)
    requires SessionInv(s.sessions[client], back, None)
    ensures Inv(State(pool, s.sessions, s.serving - {client}))
  {
    FinishMoves(s, pool, client, back);
    OneChange(s, State(pool, s.sessions, s.serving - {client}), client);
  }

  lemma FinishKeeps(s: State, client: nat)
    requires Inv(s) && Settled(s, client)
    ensures Inv(FinishOn(s, client))
  {
    var session, id := s.sessions[client], s.serving[client];
    var answered := session.calls[id].outcome.value.Resolved?;
    assert SessionOk(s, client);
    assert client in s.serving.Keys;
    GivesUp(s.pool, client, answered);
    if answered {
      AnsweredIsIdle(session, id);
    }
    FinishStays(s, P.Step(s.pool, if answered then P.Release(client) else P.Fail(client)), client, answered);
  }

  lemma StepKeeps(s: State, e: Event)
    requires Inv(s)
    ensures Inv(Step(s, e))
  {
    match e
    case Begin(id, opens, c) =>
      var (_, client) := P.Take(s.pool);
      if !((s.pool.pool == [] && !opens) || id in SessionOf(s, client).calls) {
        BeginKeeps(s, id, c);
      }
    case Happens(client, happening) =>
      if client in s.sessions && !happening.Chat? {
        HappensKeeps(s, client, happening);
      }
    case Finish(client) =>
      if Settled(s, client) {
        FinishKeeps(s, client);
      }
  }

  lemma {:induction false} RunStays(events: seq<Event>)
    ensures Inv(Run(events))
  {
    if events == [] {
      assert START.serving.Keys == {};
    } else {
      RunStays(events[..|events| - 1]);
      StepKeeps(Run(events[..|events| - 1]), events[|events| - 1]);
    }
  }

  // ---------------------------------------------------------------- over every run

  /**
   * Over every run of requests: a pooled client has no registered callback, and a busy one has at most
   * one, that of the call it serves.
   */
  lemma {:induction false} AtMostOneCallback(events: seq<Event>, client: nat)
    requires client in Run(events).sessions
    ensures var s := Run(events);
            && (client in s.pool.pool ==> s.sessions[client].callbacks == [])
            && (client in s.pool.busy ==>
                  client in s.serving
                  && (s.sessions[client].callbacks == [] || s.sessions[client].callbacks == [s.serving[client]]))
  {
    RunStays(events);
    var s := Run(events);
    assert SessionOk(s, client);
    SessionCallbacks(s.sessions[client], client in s.pool.pool, ServingOf(s, client));
    assert client in s.pool.busy ==> client in s.serving.Keys;
  }

  lemma SessionCallbacks(session: A.State, pooled: bool, serving: Option<A.CallId>)
    requires SessionInv(session, pooled, serving)
    ensures pooled ==> session.callbacks == []
    ensures serving.Some? ==> session.callbacks == [] || session.callbacks == [serving.value]
  {
    if serving.Some? && session.callbacks != [] {
      OnlyOne(session.callbacks, serving.value);
    }
  }

  lemma OnlyOne(callbacks: seq<A.CallId>, id: A.CallId)
    requires callbacks != [] && Distinct(callbacks) && forall other :: other in callbacks ==> other == id
    ensures callbacks == [id]
  {
    forall i | 0 <= i < |callbacks| ensures callbacks[i] == id {
      assert callbacks[i] in callbacks;
    }
    if |callbacks| > 1 {
      FirstTwoDiffer(callbacks);
    }
  }

  lemma FirstTwoDiffer(s: seq<A.CallId>)
    requires Distinct(s) && |s| > 1
    ensures s[0] != s[1]
  {
  }
}
