/**
 * `AmeliaClient.chat` of `chipotle.ts` as a state machine: calls register a callback, and messages,
 * timeouts and aborts arrive in any order. The machine records, for each call, its outcome and how
 * often its promise was resolved or rejected.
 */
module AmeliaClient {
  import opened Options
  import opened OrderedMaps

  /** Call ids are fresh random ids. */
  type CallId = string

  datatype Outcome =
    | Resolved(text: string)
    | TimedOut
    | Aborted
    | SendFailed
    | ConnectFailed

  /**
   * One call of `chat`. `armed`: its timer is running; `listening`: its abort listener is attached;
   * `settles`: how often its promise was resolved or rejected. A promise keeps the first outcome.
   */
  datatype Call = Call(outcome: Option<Outcome>, armed: bool, listening: bool, settles: nat) {
    function Settle(o: Outcome): Call {
      Call(if outcome.Some? then outcome else Some(o), armed, listening, settles + 1)
    }
  }

  /** All calls ever made, and the registered callbacks in the order of registration. */
  datatype State = State(calls: map<CallId, Call>, callbacks: seq<CallId>)

  const START := State(map[], [])

  /** What the socket and the caller's signal are like when `chat` gets to them. */
  datatype Condition = Connecting(fails: bool, aborted: bool, socketOpen: bool, hasSignal: bool)

  datatype Event =
    | Chat(id: CallId, c: Condition)
    | Message(text: Option<string>)
    | Timeout(id: CallId)
    | Abort(id: CallId)

  // ---------------------------------------------------------------- steps

  /**
   * `chat`: a call that cannot connect, or whose signal has fired, is rejected unregistered. Any other
   * is registered before it sends; when the send throws, the promise rejects and the callback stays.
   */
  function StartCall(c: Condition): (Call, bool) {
    if c.fails then (Call(Some(ConnectFailed), false, false, 1), false)
    else if c.aborted then (Call(Some(Aborted), false, false, 1), false)
    else
      var registered := Call(None, true, c.hasSignal, 0);
      (if c.socketOpen then registered else registered.Settle(SendFailed), true)
  }

  /** The registered callback: stop the timer, detach the listener, resolve. */
  function Deliver(call: Call, text: string): Call {
    call.(armed := false, listening := false).Settle(Resolved(text))
  }

  /** A message with text runs every registered callback and empties the map. */
  function DeliverAll(s: State, text: string): State {
    State(map id | id in s.calls :: if id in s.callbacks then Deliver(s.calls[id], text) else s.calls[id], [])
  }

  function FireTimer(s: State, id: CallId): State
    requires id in s.calls
  {
    State(s.calls[id := s.calls[id].(armed := false).Settle(TimedOut)], Without(s.callbacks, id))
  }

  function FireAbort(s: State, id: CallId): State
    requires id in s.calls
  {
    State(s.calls[id := s.calls[id].(armed := false, listening := false).Settle(Aborted)],
          Without(s.callbacks, id))
  }

  /** A timer fires only while it is armed, a listener only while it is attached, and then once. */
  function Step(s: State, e: Event): State {
    match e
    case Chat(id, c) =>
      if id in s.calls then s
      else
        var (call, registered) := StartCall(c);
        State(s.calls[id := call], if registered then s.callbacks + [id] else s.callbacks)
    case Message(text) => if text.Some? then DeliverAll(s, text.value) else s
    case Timeout(id) => if id in s.calls && s.calls[id].armed then FireTimer(s, id) else s
    case Abort(id) => if id in s.calls && s.calls[id].listening then FireAbort(s, id) else s
  }

  function Run(events: seq<Event>): State {
    if events == [] then START else Step(Run(events[..|events| - 1]), events[|events| - 1])
  }

  // ---------------------------------------------------------------- the invariant

  function One(b: bool): nat {
    if b then 1 else 0
  }

  /** How often a promise has been settled, and how often that can still happen. */
  predicate SettleCount(c: Call) {
    match c.outcome
    case None => c.settles == 0
    case Some(TimedOut) => 1 <= c.settles && c.settles + One(c.listening) <= 2 && !c.armed
    case Some(SendFailed) => 1 <= c.settles && c.settles + One(c.listening) + One(c.armed) <= 3
    case Some(_) => c.settles == 1 && !c.armed && !c.listening
  }

  /**
   * One call: its callback is registered exactly while its timer runs; unsettled, it is registered;
   * registered, it is unsettled or failed to send.
   */
  predicate CallInv(c: Call, registered: bool) {
    && registered == c.armed
    && (c.outcome.None? ==> registered)
    && (registered ==> c.outcome.None? || c.outcome == Some(SendFailed))
    && SettleCount(c)
  }

  ghost predicate Inv(s: State) {
    && Distinct(s.callbacks)
    && (forall id | id in s.callbacks :: id in s.calls)
    && (forall id | id in s.calls :: CallInv(s.calls[id], id in s.callbacks))
  }

  /** What each event does to one call keeps the invariant of that call. */
  lemma CallSteps(c: Call, registered: bool, text: string)
    requires CallInv(c, registered)
    ensures registered ==> CallInv(Deliver(c, text), false)
    ensures c.armed ==> CallInv(c.(armed := false).Settle(TimedOut), false)
    ensures c.listening ==> CallInv(c.(armed := false, listening := false).Settle(Aborted), false)
  {
  }

  lemma ChatKeeps(s: State, id: CallId, c: Condition)
    requires Inv(s) && id !in s.calls
    ensures Inv(Step(s, Chat(id, c)))
  {
    var (call, registered) := StartCall(c);
    assert CallInv(call, registered);
    var t := Step(s, Chat(id, c));
    assert id !in s.callbacks;
    assert forall other :: other in t.callbacks <==> other in s.callbacks || (registered && other == id);
  }

  lemma MessageKeeps(s: State, text: string)
    requires Inv(s)
    ensures Inv(DeliverAll(s, text))
  {
    forall id | id in s.calls ensures CallInv(DeliverAll(s, text).calls[id], false) {
      CallSteps(s.calls[id], id in s.callbacks, text);
    }
  }

  /** Replacing one call and taking its callback out. */
  lemma {:induction false} ReplaceKeeps(s: State, id: CallId, call: Call)
    requires Inv(s) && id in s.calls && CallInv(call, false)
    ensures Inv(State(s.calls[id := call], Without(s.callbacks, id)))
  {
    WithoutDistinct(s.callbacks, id);
  }

  lemma StepKeeps(s: State, e: Event)
    requires Inv(s)
    ensures Inv(Step(s, e))
  {
    match e
    case Chat(id, c) =>
      if id !in s.calls {
        ChatKeeps(s, id, c);
      }
    case Message(text) =>
      if text.Some? {
        MessageKeeps(s, text.value);
      }
    case Timeout(id) =>
      if id in s.calls && s.calls[id].armed {
        CallSteps(s.calls[id], id in s.callbacks, "");
        ReplaceKeeps(s, id, s.calls[id].(armed := false).Settle(TimedOut));
      }
    case Abort(id) =>
      if id in s.calls && s.calls[id].listening {
        CallSteps(s.calls[id], id in s.callbacks, "");
        ReplaceKeeps(s, id, s.calls[id].(armed := false, listening := false).Settle(Aborted));
      }
  }

  lemma {:induction false} RunKeeps(events: seq<Event>)
    ensures Inv(Run(events))
  {
    if events != [] {
      RunKeeps(events[..|events| - 1]);
      StepKeeps(Run(events[..|events| - 1]), events[|events| - 1]);
    }
  }

  // ---------------------------------------------------------------- over every interleaving

  /** Once settled, a call keeps its outcome whatever happens later. */
  lemma {:induction false} OutcomeIsFinal(events: seq<Event>, later: seq<Event>, id: CallId)
    requires id in Run(events).calls && Run(events).calls[id].outcome.Some?
    ensures id in Run(events + later).calls
    ensures Run(events + later).calls[id].outcome == Run(events).calls[id].outcome
  {
    if later == [] {
      assert events + later == events;
    } else {
      OutcomeIsFinal(events, later[..|later| - 1], id);
      assert (events + later)[..|events + later| - 1] == events + later[..|later| - 1];
    }
  }

  /**
   * Over every interleaving: an unsettled call still has its callback registered and its timer
   * running, so a message or its timer will settle it; a settled one is registered only if its send
   * failed; and a promise is settled once, except that a failed send may be followed by the message,
   * timeout or abort that cleans up after it, and a timeout by an abort.
   */
  lemma UnsettledIsRegistered(events: seq<Event>, id: CallId)
    requires id in Run(events).calls
    ensures var s := Run(events); var call := s.calls[id];
            && (call.outcome.None? ==> id in s.callbacks && call.armed && call.settles == 0)
            && (id in s.callbacks && call.outcome.Some? ==> call.outcome == Some(SendFailed))
            && call.settles <= 3
            && (call.settles > 1 ==> call.outcome == Some(SendFailed) || call.outcome == Some(TimedOut))
  {
    RunKeeps(events);
  }

  /**
   * A message that carries text resolves every call that was still open with that text, changes no
   * other outcome, and leaves no callback behind. It does not tell calls apart.
   */
  lemma {:induction false} MessageSettlesAll(events: seq<Event>, text: string, id: CallId)
    requires id in Run(events).calls
    ensures var s, t := Run(events), Run(events + [Message(Some(text))]);
            && t.callbacks == []
            && id in t.calls
            && t.calls[id].outcome
               == (if s.calls[id].outcome.None? then Some(Resolved(text)) else s.calls[id].outcome)
  {
    RunKeeps(events);
    assert (events + [Message(Some(text))])[..|events|] == events;
  }

  /** A call that timed out or was aborted is never handed a later message. */
  lemma {:induction false} EndedCallsGetNoMessage(events: seq<Event>, id: CallId)
    requires id in Run(events).calls
    requires Run(events).calls[id].outcome in {Some(TimedOut), Some(Aborted), Some(ConnectFailed)}
    ensures id !in Run(events).callbacks
  {
    RunKeeps(events);
  }

  // ---------------------------------------------------------------- what becomes of a call

  /** The outcome that `e` gives to an open call, if any. */
  function Settles(id: CallId, hasSignal: bool, e: Event): Option<Outcome> {
    match e
    case Message(Some(text)) => Some(Resolved(text))
    case Timeout(other) => if other == id then Some(TimedOut) else None
    case Abort(other) => if other == id && hasSignal then Some(Aborted) else None
    case _ => None
  }

  function FirstSettling(id: CallId, hasSignal: bool, later: seq<Event>): Option<Outcome> {
    if later == [] then None
    else
      var first := Settles(id, hasSignal, later[0]);
      if first.Some? then first else FirstSettling(id, hasSignal, later[1..])
  }

  /** The outcome of a call, from the conditions it met and what came after it. */
  function Fate(id: CallId, c: Condition, later: seq<Event>): Option<Outcome> {
    if c.fails then Some(ConnectFailed)
    else if c.aborted then Some(Aborted)
    else if !c.socketOpen then Some(SendFailed)
    else FirstSettling(id, c.hasSignal, later)
  }

  lemma {:induction false} FirstSettlingLast(id: CallId, hasSignal: bool, later: seq<Event>, e: Event)
    ensures FirstSettling(id, hasSignal, later + [e])
            == if FirstSettling(id, hasSignal, later).Some? then FirstSettling(id, hasSignal, later)
               else Settles(id, hasSignal, e)
  {
    if later == [] {
      assert later + [e] == [e];
      assert FirstSettling(id, hasSignal, [e][1..]) == None;
    } else {
      assert (later + [e])[1..] == later[1..] + [e];
      FirstSettlingLast(id, hasSignal, later[1..], e);
    }
  }

  /** A call as its fate leaves it: open calls are registered, armed, and listen if there is a signal. */
  ghost predicate IsAsFated(s: State, id: CallId, c: Condition, fate: Option<Outcome>) {
    && id in s.calls && s.calls[id].outcome == fate
    && (fate == None ==> id in s.callbacks && s.calls[id].armed && s.calls[id].listening == c.hasSignal)
  }

  lemma FateStep(s: State, id: CallId, c: Condition, fate: Option<Outcome>, e: Event)
    requires IsAsFated(s, id, c, fate)
    ensures IsAsFated(Step(s, e), id, c, if fate.Some? then fate else Settles(id, c.hasSignal, e))
  {
    match e
    case Timeout(other) =>
      if other != id {
        WithoutKeeps(s.callbacks, other, id);
      }
    case Abort(other) =>
      if other != id {
        WithoutKeeps(s.callbacks, other, id);
      }
    case _ =>
  }

  lemma WithoutKeeps(s: seq<CallId>, gone: CallId, id: CallId)
    requires gone != id
    ensures id in Without(s, gone) <==> id in s
  {
  }

  /**
   * The fate of a call over every interleaving: it fails to connect, is aborted before it starts, or fails
   * to send; else it has the outcome of the first message, of its own timer, or of its own abort, whichever
   * comes first, and is open until one does.
   */
  lemma {:induction false} FateOfCall(before: seq<Event>, id: CallId, c: Condition, later: seq<Event>)
    requires id !in Run(before).calls
    ensures IsAsFated(Run(before + [Chat(id, c)] + later), id, c, Fate(id, c, later))
  {
    var start := before + [Chat(id, c)];
    if later == [] {
      assert start + later == start;
      assert start[..|before|] == before;
    } else {
      var init, e := later[..|later| - 1], later[|later| - 1];
      FateOfCall(before, id, c, init);
      assert later == init + [e];
      assert (start + later)[..|start + later| - 1] == start + init;
      FirstSettlingLast(id, c.hasSignal, init, e);
      FateStep(Run(start + init), id, c, Fate(id, c, init), e);
    }
  }

  // ---------------------------------------------------------------- the client object

  /** The calls when the first `n` callbacks have run. */
  ghost predicate DeliveredTo(before: map<CallId, Call>, entries: seq<CallId>, n: nat, text: string,
                              now: map<CallId, Call>) {
    && n <= |entries| && now.Keys == before.Keys
    && forall id | id in before ::
         now[id] == if id in entries[..n] then Deliver(before[id], text) else before[id]
  }

  lemma DeliverStep(before: map<CallId, Call>, entries: seq<CallId>, n: nat, text: string, now: map<CallId, Call>)
    requires n < |entries| && Distinct(entries) && entries[n] in before
    requires DeliveredTo(before, entries, n, text, now)
    ensures DeliveredTo(before, entries, n + 1, text, now[entries[n] := Deliver(now[entries[n]], text)])
    ensures Without(entries[n..], entries[n]) == entries[n + 1..]
  {
    var id := entries[n];
    assert id !in entries[..n] && id !in entries[n + 1..];
    assert entries[..n + 1] == entries[..n] + [id];
    assert entries[n..][1..] == entries[n + 1..];
    WithoutAbsent(entries[n + 1..], id);
  }

  /** `after` is `before` with one entry taken out and the order kept. */
  ghost predicate OneOut(before: seq<CallId>, id: CallId, after: seq<CallId>) {
    exists i :: 0 <= i < |before| && before[i] == id && after == before[..i] + before[i + 1..]
  }

  lemma {:induction false} WithoutIsOneOut(s: seq<CallId>, id: CallId)
    requires Distinct(s) && id in s
    ensures OneOut(s, id, Without(s, id)) && id !in Without(s, id)
  {
    if s[0] == id {
      assert id !in s[1..];
      WithoutAbsent(s[1..], id);
      assert Without(s, id) == s[..0] + s[1..];
    } else {
      var rest := s[1..];
      assert Distinct(rest) && id in rest;
      WithoutIsOneOut(rest, id);
      var i :| 0 <= i < |rest| && rest[i] == id && Without(rest, id) == rest[..i] + rest[i + 1..];
      assert Without(s, id) == s[..i + 1] + s[i + 2..];
      assert s[i + 1] == id;
    }
  }

  /** What the first settling of a promise leaves: an outcome it already has stays. */
  function FirstOf(before: Option<Outcome>, o: Outcome): Option<Outcome> {
    if before.Some? then before else Some(o)
  }

  class Client {
    var messageCallbacks: seq<CallId>
    var calls: map<CallId, Call>

    constructor ()
      ensures Valid() && View() == START
    {
      messageCallbacks, calls := [], map[];
    }

    function View(): State
      reads this
    {
      State(calls, messageCallbacks)
    }

    ghost predicate Valid()
      reads this
    {
      Inv(View())
    }

    /**
     * The call is open afterwards exactly when it connected, its signal had not fired and the send went out.
     * Its callback is registered, last, whenever it got as far as sending, even when the send failed; no
     * other call is touched.
     */
    method OnChat(id: CallId, c: Condition)
      requires Valid() && id !in calls
      modifies this
      ensures Valid()
      ensures id in calls && (calls[id].outcome == None <==> !c.fails && !c.aborted && c.socketOpen)
      ensures calls[id].outcome == Fate(id, c, [])
      ensures id in messageCallbacks <==> !c.fails && !c.aborted
      ensures messageCallbacks == old(messageCallbacks) || messageCallbacks == old(messageCallbacks) + [id]
      ensures calls - {id} == old(calls)
      ensures View() == Step(old(View()), Chat(id, c))
    {
      ChatKeeps(View(), id, c);
      assert id !in messageCallbacks;
      if c.fails {
        calls := calls[id := Call(Some(ConnectFailed), false, false, 1)];
        return;
      }
      if c.aborted {
        calls := calls[id := Call(Some(Aborted), false, false, 1)];
        return;
      }
      messageCallbacks := messageCallbacks + [id];
      var call := Call(None, true, c.hasSignal, 0);
      if !c.socketOpen {
        call := call.Settle(SendFailed);
      }
      calls := calls[id := call];
    }

    /** The loop of `handleStompMessage`: call back, then delete. */
    method OnMessage(text: string)
      requires Valid()
      modifies this
      ensures Valid() && View() == Step(old(View()), Message(Some(text)))
    {
      MessageKeeps(View(), text);
      var entries := messageCallbacks;
      ghost var before := calls;
      for i := 0 to |entries|
        invariant messageCallbacks == entries[i..]
        invariant DeliveredTo(before, entries, i, text, calls)
      {
        var id := entries[i];
        assert id in entries;
        DeliverStep(before, entries, i, text, calls);
        calls := calls[id := Deliver(calls[id], text)];
        messageCallbacks := Without(messageCallbacks, id);
      }
      assert entries[..|entries|] == entries;
      assert calls == DeliverAll(old(View()), text).calls;
    }

    /**
     * The timer takes just its own callback out, so no later message reaches the call, and times the call
     * out unless it had failed to send. Other calls and the order of their callbacks stay.
     */
    method OnTimeout(id: CallId)
      requires Valid() && id in calls && calls[id].armed
      modifies this
      ensures Valid()
      ensures id !in messageCallbacks && OneOut(old(messageCallbacks), id, messageCallbacks)
      ensures id in calls && calls[id].outcome == FirstOf(old(calls)[id].outcome, TimedOut) && !calls[id].armed
      ensures calls - {id} == old(calls) - {id}
      ensures View() == Step(old(View()), Timeout(id))
    {
      StepKeeps(View(), Timeout(id));
      WithoutIsOneOut(messageCallbacks, id);
      messageCallbacks := Without(messageCallbacks, id);
      calls := calls[id := calls[id].(armed := false).Settle(TimedOut)];
    }

    /**
     * The abort clears the timer, takes the call's callback out if it is still there, and aborts the call
     * unless it had failed to send or timed out. Other calls and the order of their callbacks stay.
     */
    method OnAbort(id: CallId)
      requires Valid() && id in calls && calls[id].listening
      modifies this
      ensures Valid()
      ensures id !in messageCallbacks
      ensures if id in old(messageCallbacks) then OneOut(old(messageCallbacks), id, messageCallbacks)
              else messageCallbacks == old(messageCallbacks)
      ensures id in calls && calls[id].outcome == FirstOf(old(calls)[id].outcome, Aborted)
      ensures !calls[id].armed && !calls[id].listening
      ensures calls - {id} == old(calls) - {id}
      ensures View() == Step(old(View()), Abort(id))
    {
      StepKeeps(View(), Abort(id));
      if id in messageCallbacks {
        WithoutIsOneOut(messageCallbacks, id);
      } else {
        WithoutAbsent(messageCallbacks, id);
      }
      messageCallbacks := Without(messageCallbacks, id);
      calls := calls[id := calls[id].(armed := false, listening := false).Settle(Aborted)];
    }

    /** One turn of the event loop: the handler of the event runs, if it is still set up. */
    method Dispatch(e: Event)
      requires Valid()
      modifies this
      ensures Valid() && View() == Step(old(View()), e)
    {
      match e {
        case Chat(id, c) =>
          if id !in calls {
            OnChat(id, c);
          }
        case Message(text) =>
          if text.Some? {
            OnMessage(text.value);
          }
        case Timeout(id) =>
          if id in calls && calls[id].armed {
            OnTimeout(id);
          }
        case Abort(id) =>
          if id in calls && calls[id].listening {
            OnAbort(id);
          }
      }
    }
  }
}
