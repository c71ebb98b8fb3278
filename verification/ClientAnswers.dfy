/**
 * Whose answers requests are given. Messages carry no mark of the call they answer; `owner` says, for each
 * text, the call it belongs to. Every request is given its own answer exactly as long as no foreign message
 * arrives while its call is open.
 */
module ClientAnswers {
  import opened Options
  import A = AmeliaClient
  import P = ClientPool
  import opened ClientRequests

  type Owner = string -> A.CallId

  // ---------------------------------------------------------------- what is asked

  /** Every resolved call of the session was resolved by a message that belongs to it. */
  ghost predicate SessionOwn(session: A.State, owner: Owner) {
    forall id :: id in session.calls && Answer(session.calls[id]).Some? ==> owner(Answer(session.calls[id]).value) == id
  }

  function Answer(call: A.Call): Option<string> {
    match call.outcome
    case Some(Resolved(text)) => Some(text)
    case _ => None
  }

  /** Every request that was answered was given its own answer. */
  ghost predicate AllOwn(s: State, owner: Owner) {
    forall c :: c in s.sessions ==> SessionOwn(s.sessions[c], owner)
  }

  /** A text message arrives at a client. */
  predicate IsText(e: Event, client: nat) {
    e.Happens? && e.client == client && e.e.Message? && e.e.text.Some?
  }

  /** A call of the session is open and the text belongs to another. */
  ghost predicate IsForeign(session: A.State, text: string, owner: Owner) {
    exists id :: id in session.calls && session.calls[id].outcome == None && owner(text) != id
  }

  /** The event is a text message that comes while its client's call is open but belongs to another call. */
  ghost predicate Crosses(s: State, e: Event, owner: Owner) {
    && e.Happens? && e.client in s.sessions && e.e.Message? && e.e.text.Some?
    && IsForeign(s.sessions[e.client], e.e.text.value, owner)
  }

  ghost predicate NeverCrosses(events: seq<Event>, owner: Owner) {
    events == []
    || (NeverCrosses(events[..|events| - 1], owner)
        && !Crosses(Run(events[..|events| - 1]), events[|events| - 1], owner))
  }

  // ---------------------------------------------------------------- one event on one session

  /** Only messages resolve calls. */
  lemma OthersResolveNothing(session: A.State, e: A.Event)
    requires !(e.Message? && e.text.Some?)
    ensures forall id :: id in session.calls ==>
              && id in A.Step(session, e).calls
              && Answer(A.Step(session, e).calls[id]) == Answer(session.calls[id])
    ensures forall id :: id in A.Step(session, e).calls && id !in session.calls ==>
              Answer(A.Step(session, e).calls[id]) == None
  {
  }

  /** A message resolves just the open calls. */
  lemma MessageResolvesOpen(session: A.State, text: string, id: A.CallId)
    requires A.Inv(session) && id in session.calls
    ensures var t := A.Step(session, A.Message(Some(text)));
            && t.calls.Keys == session.calls.Keys
            && Answer(t.calls[id])
               == if session.calls[id].outcome == None then Some(text) else Answer(session.calls[id])
  {
  }

  lemma OtherKeepsOwn(session: A.State, e: A.Event, owner: Owner)
    requires !(e.Message? && e.text.Some?)
    ensures SessionOwn(A.Step(session, e), owner) <==> SessionOwn(session, owner)
  {
    OthersResolveNothing(session, e);
    var t := A.Step(session, e);
    if SessionOwn(t, owner) {
      forall id | id in session.calls && Answer(session.calls[id]).Some?
        ensures owner(Answer(session.calls[id]).value) == id
      {
        assert id in t.calls && Answer(t.calls[id]) == Answer(session.calls[id]);
      }
    }
  }

  /** After a message all answers are own exactly if they were before and it is not foreign. */
  lemma MessageOwnIff(session: A.State, text: string, owner: Owner)
    requires A.Inv(session)
    ensures SessionOwn(A.Step(session, A.Message(Some(text))), owner)
            <==> SessionOwn(session, owner) && !IsForeign(session, text, owner)
  {
    var t := A.Step(session, A.Message(Some(text)));
    forall id | id in session.calls
      ensures id in t.calls
      ensures Answer(t.calls[id]) == if session.calls[id].outcome == None then Some(text) else Answer(session.calls[id])
    {
      MessageResolvesOpen(session, text, id);
    }
    assert forall id :: id in t.calls <==> id in session.calls;
  }

  // ---------------------------------------------------------------- the exact condition

  lemma SessionOwnAll(s: State, t: State, client: nat, owner: Owner)
    requires client in t.sessions && t.sessions == s.sessions[client := t.sessions[client]]
    requires client !in s.sessions ==> SessionOwn(A.START, owner)
    ensures AllOwn(t, owner) && SessionOwn(SessionOf(s, client), owner) ==> AllOwn(s, owner)
    ensures AllOwn(s, owner) && SessionOwn(t.sessions[client], owner) ==> AllOwn(t, owner)
    ensures AllOwn(t, owner) ==> SessionOwn(t.sessions[client], owner)
    ensures AllOwn(s, owner) ==> SessionOwn(SessionOf(s, client), owner)
  {
    if AllOwn(t, owner) && SessionOwn(SessionOf(s, client), owner) {
      forall c | c in s.sessions ensures SessionOwn(s.sessions[c], owner) {
        if c != client {
          assert c in t.sessions && t.sessions[c] == s.sessions[c];
        }
      }
    }
  }

  lemma StepOwnIff(s: State, e: Event, owner: Owner)
    requires Inv(s)
    ensures AllOwn(Step(s, e), owner) <==> AllOwn(s, owner) && !Crosses(s, e, owner)
  {
    var t := Step(s, e);
    match e
    case Begin(id, opens, c) =>
      if t != s {
        var client := P.Take(s.pool).1;
        SessionOwnAll(s, t, client, owner);
        OtherKeepsOwn(SessionOf(s, client), A.Chat(id, c), owner);
      }
    case Happens(client, happening) =>
      if client in s.sessions && !happening.Chat? {
        assert SessionOk(s, client);
        SessionOwnAll(s, t, client, owner);
        if happening.Message? && happening.text.Some? {
          MessageOwnIff(s.sessions[client], happening.text.value, owner);
        } else {
          OtherKeepsOwn(s.sessions[client], happening, owner);
        }
      }
    case Finish(client) =>
      assert t.sessions == s.sessions;
  }

  /**
   * The exact condition. Over every run, every answered request was given its own answer if and only if no
   * text message came while the call of its client was open but belonged to another call.
   */
  lemma {:induction false} OwnIffNeverCrosses(events: seq<Event>, owner: Owner)
    ensures AllOwn(Run(events), owner) <==> NeverCrosses(events, owner)
  {
    if events != [] {
      OwnIffNeverCrosses(events[..|events| - 1], owner);
      RunStays(events[..|events| - 1]);
      StepOwnIff(Run(events[..|events| - 1]), events[|events| - 1], owner);
    }
  }

  // ---------------------------------------------------------------- what every run records

  /** The texts that have arrived at a client. */
  function Heard(events: seq<Event>, client: nat): set<string> {
    if events == [] then {}
    else
      var e := events[|events| - 1];
      Heard(events[..|events| - 1], client) + if IsText(e, client) then {e.e.text.value} else {}
  }

  /**
   * One call: only a served call is open; a call of a client that is not closed is served or was answered;
   * and an answer has been heard.
   */
  predicate CallRecord(call: A.Call, closed: bool, served: bool, heard: set<string>) {
    && (call.outcome == None ==> served)
    && (!closed && !served ==> Answer(call).Some?)
    && (Answer(call).Some? ==> Answer(call).value in heard)
  }

  ghost predicate SessionRecord(session: A.State, closed: bool, serving: Option<A.CallId>, heard: set<string>) {
    forall id :: id in session.calls ==> CallRecord(session.calls[id], closed, serving == Some(id), heard)
  }

  ghost predicate Recorded(s: State, client: nat, heard: set<string>)
    requires client in s.sessions
  {
    SessionRecord(s.sessions[client], client in s.pool.closed, ServingOf(s, client), heard)
  }

  ghost predicate AllRecorded(events: seq<Event>) {
    forall c :: c in Run(events).sessions ==> Recorded(Run(events), c, Heard(events, c))
  }

  lemma NewCallRecorded(session: A.State, id: A.CallId, c: A.Condition, heard: set<string>)
    requires SessionRecord(session, false, None, heard) && id !in session.calls
    ensures SessionRecord(A.Step(session, A.Chat(id, c)), false, Some(id), heard)
  {
    var t := A.Step(session, A.Chat(id, c));
    forall other | other in t.calls ensures CallRecord(t.calls[other], false, Some(id) == Some(other), heard) {
      if other != id {
        assert other in session.calls && t.calls[other] == session.calls[other];
      }
    }
  }

  lemma HappeningRecorded(session: A.State, e: A.Event, closed: bool, serving: Option<A.CallId>, heard: set<string>)
    requires SessionRecord(session, closed, serving, heard) && !e.Chat?
    ensures SessionRecord(A.Step(session, e), closed, serving,
                          heard + if e.Message? && e.text.Some? then {e.text.value} else {})
  {
    var t := A.Step(session, e);
    var more := heard + if e.Message? && e.text.Some? then {e.text.value} else {};
    forall id | id in t.calls ensures CallRecord(t.calls[id], closed, serving == Some(id), more) {
      assert id in session.calls && CallRecord(session.calls[id], closed, serving == Some(id), heard);
    }
  }

  /** When the served call has settled: it was answered, or the client is closed. */
  lemma FinishedRecorded(session: A.State, id: A.CallId, closed: bool, heard: set<string>)
    requires SessionRecord(session, false, Some(id), heard) && id in session.calls
    requires session.calls[id].outcome.Some? && (session.calls[id].outcome.value.Resolved? || closed)
    ensures SessionRecord(session, closed, None, heard)
  {
    forall other | other in session.calls ensures CallRecord(session.calls[other], closed, false, heard) {
      assert CallRecord(session.calls[other], false, Some(id) == Some(other), heard);
    }
  }

  lemma HeardLast(events: seq<Event>, e: Event, client: nat)
    ensures Run(events + [e]) == Step(Run(events), e)
    ensures Heard(events + [e], client) == Heard(events, client) + if IsText(e, client) then {e.e.text.value} else {}
  {
    assert (events + [e])[..|events|] == events;
  }

  /** A client that is taken is not closed, and no other client changes. */
  lemma BeginRecorded(s: State, id: A.CallId, c: A.Condition, client: nat, heard: set<string>)
    requires Inv(s) && id !in SessionOf(s, P.Take(s.pool).1).calls
    requires client in BeginOn(s, id, c).sessions
    requires client in s.sessions ==> Recorded(s, client, heard)
    ensures Recorded(BeginOn(s, id, c), client, heard)
  {
    var (pool, taken) := P.Take(s.pool);
    TakeTakes(s.pool);
    if client == taken {
      TakenIsServed(s);
      NewCallRecorded(SessionOf(s, taken), id, c, heard);
    }
  }

  lemma TakenIsServed(s: State)
    requires Inv(s)
    ensures var (pool, client) := P.Take(s.pool);
            client !in s.pool.closed && client !in pool.closed && client !in s.serving
            && (client !in s.sessions ==> SessionOf(s, client) == A.START)
  {
    var (pool, client) := P.Take(s.pool);
    if s.pool.pool != [] {
      assert client in s.pool.pool;
    }
    assert client !in s.serving.Keys;
  }

  lemma FinishRecorded(s: State, done: nat, client: nat, heard: set<string>)
    requires Inv(s) && Settled(s, done) && client in s.sessions && Recorded(s, client, heard)
    ensures Recorded(FinishOn(s, done), client, heard)
  {
    var t := FinishOn(s, done);
    if client == done {
      assert done in s.serving.Keys;
      FinishedRecorded(s.sessions[done], s.serving[done], done in t.pool.closed, heard);
    }
  }

  lemma BeginStepRecorded(s: State, e: Event, client: nat, heard: set<string>)
    requires Inv(s) && e.Begin? && client in Step(s, e).sessions
    requires client in s.sessions ==> Recorded(s, client, heard)
    ensures Recorded(Step(s, e), client, heard)
  {
    if Step(s, e) != s {
      BeginRecorded(s, e.id, e.c, client, heard);
    }
  }

  lemma HappensStepRecorded(s: State, e: Event, client: nat, heard: set<string>)
    requires e.Happens? && client in Step(s, e).sessions
    requires client in s.sessions ==> Recorded(s, client, heard)
    ensures Recorded(Step(s, e), client, heard + if IsText(e, client) then {e.e.text.value} else {})
  {
    assert client in s.sessions;
    if client == e.client && !e.e.Chat? {
      HappeningRecorded(s.sessions[client], e.e, client in s.pool.closed, ServingOf(s, client), heard);
    }
  }

  lemma FinishStepRecorded(s: State, e: Event, client: nat, heard: set<string>)
    requires Inv(s) && e.Finish? && client in s.sessions && Recorded(s, client, heard)
    ensures Recorded(Step(s, e), client, heard)
  {
    if Settled(s, e.client) {
      FinishRecorded(s, e.client, client, heard);
    }
  }

  lemma StepRecorded(events: seq<Event>, e: Event, client: nat)
    requires AllRecorded(events) && client in Run(events + [e]).sessions
    ensures Recorded(Run(events + [e]), client, Heard(events + [e], client))
  {
    var s, heard := Run(events), Heard(events, client);
    HeardLast(events, e, client);
    RunStays(events);
    assert client in s.sessions ==> Recorded(s, client, heard);
    match e
    case Begin(_, _, _) => BeginStepRecorded(s, e, client, heard);
    case Happens(_, _) => HappensStepRecorded(s, e, client, heard);
    case Finish(_) =>
      assert client in s.sessions;
      FinishStepRecorded(s, e, client, heard);
  }

  lemma {:induction false} RunRecorded(events: seq<Event>)
    ensures AllRecorded(events)
  {
    if events != [] {
      var rest, e := events[..|events| - 1], events[|events| - 1];
      assert events == rest + [e];
      RunRecorded(rest);
      forall c | c in Run(events).sessions ensures Recorded(Run(events), c, Heard(events, c)) {
        StepRecorded(rest, e, c);
      }
    }
  }

  // ---------------------------------------------------------------- orderly messages

  /** A text message is orderly: it belongs to a call made on its client, and is the first one for it there. */
  ghost predicate IsOrderly(events: seq<Event>, e: Event, owner: Owner) {
    e.Happens? && e.e.Message? && e.e.text.Some? ==>
      && e.client in Run(events).sessions
      && owner(e.e.text.value) in Run(events).sessions[e.client].calls
      && forall text :: text in Heard(events, e.client) ==> owner(text) != owner(e.e.text.value)
  }

  ghost predicate Orderly(events: seq<Event>, owner: Owner) {
    events == []
    || (Orderly(events[..|events| - 1], owner)
        && IsOrderly(events[..|events| - 1], events[|events| - 1], owner))
  }

  /** A call of a client that is not serving it, while the client serves another, was answered. */
  lemma UnservedIsAnswered(s: State, client: nat, other: A.CallId, heard: set<string>)
    requires client in s.sessions && Recorded(s, client, heard) && client !in s.pool.closed
    requires other in s.sessions[client].calls && ServingOf(s, client) != Some(other)
    ensures Answer(s.sessions[client].calls[other]).Some? && Answer(s.sessions[client].calls[other]).value in heard
  {
    assert CallRecord(s.sessions[client].calls[other], false, false, heard);
  }

  lemma OpenIsServed(s: State, client: nat, id: A.CallId, heard: set<string>)
    requires Inv(s) && client in s.sessions && Recorded(s, client, heard)
    requires id in s.sessions[client].calls && s.sessions[client].calls[id].outcome == None
    ensures ServingOf(s, client) == Some(id) && client !in s.pool.closed
  {
    assert CallRecord(s.sessions[client].calls[id], client in s.pool.closed, ServingOf(s, client) == Some(id), heard);
    assert client in s.serving.Keys;
  }

  /** A text that belongs to a call of the client, the first one for it, belongs to the open call. */
  lemma FirstForItsCall(s: State, client: nat, heard: set<string>, owner: Owner, text: string, id: A.CallId)
    requires Inv(s) && client in s.sessions && Recorded(s, client, heard) && SessionOwn(s.sessions[client], owner)
    requires owner(text) in s.sessions[client].calls
    requires forall t :: t in heard ==> owner(t) != owner(text)
    requires id in s.sessions[client].calls && s.sessions[client].calls[id].outcome == None
    ensures owner(text) == id
  {
    OpenIsServed(s, client, id, heard);
    if ServingOf(s, client) != Some(owner(text)) {
      UnservedIsAnswered(s, client, owner(text), heard);
    }
  }

  /** While all answers are own, an orderly message that meets an open call belongs to it. */
  lemma OrderlyIsOwn(events: seq<Event>, e: Event, owner: Owner)
    requires AllOwn(Run(events), owner) && IsOrderly(events, e, owner)
    ensures !Crosses(Run(events), e, owner)
  {
    var s := Run(events);
    RunStays(events);
    RunRecorded(events);
    if e.Happens? && e.client in s.sessions && e.e.Message? && e.e.text.Some? {
      var calls := s.sessions[e.client].calls;
      forall id | id in calls && calls[id].outcome == None ensures owner(e.e.text.value) == id {
        FirstForItsCall(s, e.client, Heard(events, e.client), owner, e.e.text.value, id);
      }
    }
  }

  /**
   * With orderly messages every request gets its own answer: failed and aborted calls close their clients,
   * so a message for an earlier call of the same client would be a second one for it.
   */
  lemma {:induction false} OrderlyAnswersAreOwn(events: seq<Event>, owner: Owner)
    requires Orderly(events, owner)
    ensures AllOwn(Run(events), owner)
  {
    if events != [] {
      var rest, e := events[..|events| - 1], events[|events| - 1];
      OrderlyAnswersAreOwn(rest, owner);
      OrderlyIsOwn(rest, e, owner);
      RunStays(rest);
      StepOwnIff(Run(rest), e, owner);
    }
  }

  // ---------------------------------------------------------------- a second message for an earlier call

  /** A call made earlier on a client that lies idle in the pool has been answered. */
  lemma EarlierCallWasAnswered(events: seq<Event>, client: nat, first: A.CallId)
    requires client in Run(events).pool.pool && first in SessionOf(Run(events), client).calls
    ensures client in Run(events).sessions
            && Answer(Run(events).sessions[client].calls[first]).Some?
            && Answer(Run(events).sessions[client].calls[first]).value in Heard(events, client)
  {
    var s := Run(events);
    RunStays(events);
    RunRecorded(events);
    assert client !in s.serving.Keys;
    UnservedIsAnswered(s, client, first, Heard(events, client));
  }

  lemma MessageAnswers(session: A.State, id: A.CallId, hasSignal: bool, text: string)
    requires id !in session.calls
    ensures var t := A.Step(A.Step(session, A.Chat(id, A.Connecting(false, false, true, hasSignal))),
                            A.Message(Some(text)));
            id in t.calls && t.calls[id].outcome == Some(A.Resolved(text))
  {
  }

  lemma RunTwo(events: seq<Event>, a: Event, b: Event)
    ensures Run(events + [a, b]) == Step(Step(Run(events), a), b)
  {
    var one, two := events + [a], events + [a, b];
    assert one[..|events|] == events;
    assert two[..|one|] == one && two[|one|] == b;
  }

  lemma NextMessageAnswers(s: State, client: nat, id: A.CallId, hasSignal: bool, text: string)
    requires s.pool.pool != [] && client == s.pool.pool[|s.pool.pool| - 1] && id !in SessionOf(s, client).calls
    ensures var t := Step(Step(s, Begin(id, true, A.Connecting(false, false, true, hasSignal))),
                          Happens(client, A.Message(Some(text))));
            && client in t.sessions && id in t.sessions[client].calls
            && Answer(t.sessions[client].calls[id]) == Some(text)
  {
    var session := SessionOf(s, client);
    var ready := A.Connecting(false, false, true, hasSignal);
    MessageAnswers(session, id, hasSignal, text);
    assert Step(s, Begin(id, true, ready)).sessions[client] == A.Step(session, A.Chat(id, ready));
  }

  /**
   * A second message crosses. Whatever happened before: a call that was made earlier on an idle client has
   * been answered; when another message for it comes after a new request has taken the client, the new
   * request is given that message as its answer.
   */
  lemma LateAnswerCrosses(events: seq<Event>, owner: Owner, client: nat, first: A.CallId, id: A.CallId,
                          hasSignal: bool, late: string)
    requires var pool := Run(events).pool.pool; pool != [] && client == pool[|pool| - 1]
    requires first in SessionOf(Run(events), client).calls && id !in SessionOf(Run(events), client).calls
    requires owner(late) == first
    ensures var s := Run(events);
            client in s.sessions && Answer(s.sessions[client].calls[first]).Some?
            && Answer(s.sessions[client].calls[first]).value in Heard(events, client)
    ensures var ready := A.Connecting(false, false, true, hasSignal);
            var t := Run(events + [Begin(id, true, ready), Happens(client, A.Message(Some(late)))]);
            && client in t.sessions && id in t.sessions[client].calls
            && Answer(t.sessions[client].calls[id]) == Some(late) && owner(late) != id && !AllOwn(t, owner)
  {
    EarlierCallWasAnswered(events, client, first);
    var ready := A.Connecting(false, false, true, hasSignal);
    RunTwo(events, Begin(id, true, ready), Happens(client, A.Message(Some(late))));
    NextMessageAnswers(Run(events), client, id, hasSignal, late);
    var t := Run(events + [Begin(id, true, ready), Happens(client, A.Message(Some(late)))]);
    assert !SessionOwn(t.sessions[client], owner);
  }
}
