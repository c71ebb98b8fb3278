/**
 * The client pool of `chipotle.ts`: idle clients are kept on a stack of at most five; a request takes
 * one or makes a new one, and afterwards gives it back or closes it.
 */
module ClientPool {
  import opened OrderedMaps

  const POOL_MAX: nat := 5

  /** Clients are numbered as they are made. `busy` ones serve a request, `closed` ones are gone. */
  datatype State = State(pool: seq<nat>, busy: set<nat>, closed: set<nat>, made: nat)

  const START := State([], {}, {}, 0)

  /** A request begins, ends well, or fails. Only a busy client can be given back or closed. */
  datatype Event = Acquire | Release(client: nat) | Fail(client: nat)

  function Take(s: State): (State, nat) {
    if s.pool != [] then
      var c := s.pool[|s.pool| - 1];
      (s.(pool := s.pool[..|s.pool| - 1], busy := s.busy + {c}), c)
    else (s.(busy := s.busy + {s.made}, made := s.made + 1), s.made)
  }

  function Step(s: State, e: Event): State {
    match e
    case Acquire => Take(s).0
    case Release(c) =>
      if c !in s.busy then s
      else if |s.pool| < POOL_MAX then s.(pool := s.pool + [c], busy := s.busy - {c})
      else s.(busy := s.busy - {c}, closed := s.closed + {c})
    case Fail(c) => if c !in s.busy then s else s.(busy := s.busy - {c}, closed := s.closed + {c})
  }

  function Run(events: seq<Event>): State {
    if events == [] then START else Step(Run(events[..|events| - 1]), events[|events| - 1])
  }

  /** Every client is in exactly one place, and the pool keeps its bound. */
  ghost predicate Inv(s: State) {
    && |s.pool| <= POOL_MAX && Distinct(s.pool)
    && s.busy !! s.closed
    && (forall c | c in s.pool :: c < s.made && c !in s.busy && c !in s.closed)
    && (forall c | c in s.busy :: c < s.made)
    && (forall c | c in s.closed :: c < s.made)
    && s.made == |s.pool| + |s.busy| + |s.closed|
  }

  lemma StepKeeps(s: State, e: Event)
    requires Inv(s)
    ensures Inv(Step(s, e))
  {
    if e.Acquire? && s.pool != [] {
      var c := s.pool[|s.pool| - 1];
      assert c in s.pool && c !in s.pool[..|s.pool| - 1];
    }
  }

  /** Over every run: each client made is pooled, busy or closed, in one place only, and five at most are pooled. */
  lemma {:induction false} RunKeeps(events: seq<Event>)
    ensures Inv(Run(events))
    ensures var s := Run(events);
            |s.pool| <= POOL_MAX && s.made == |s.pool| + |s.busy| + |s.closed|
  {
    if events != [] {
      RunKeeps(events[..|events| - 1]);
      StepKeeps(Run(events[..|events| - 1]), events[|events| - 1]);
    }
  }

  /** Over every run, a request is given a client that serves no other request and is not closed. */
  lemma ClientsAreExclusive(events: seq<Event>)
    ensures var (after, c) := Take(Run(events));
            && c !in Run(events).busy && c !in Run(events).closed
            && after == Run(events + [Acquire]) && c in after.busy
            && |after.pool| <= POOL_MAX
  {
    RunKeeps(events);
    assert (events + [Acquire])[..|events|] == events;
    var s := Run(events);
    if s.pool != [] {
      assert s.pool[|s.pool| - 1] in s.pool;
    }
  }

  /**
   * A client that is given back to a pool with room is the one the next request gets; the pool is then as it was.
   * From a full pool it is closed, and the pool does not change.
   */
  lemma GivenBackIsTakenNext(events: seq<Event>, client: nat)
    requires client in Run(events).busy
    ensures var s, back := Run(events), Run(events + [Release(client)]);
            && (|s.pool| < 5 ==> client !in back.closed && Take(back) == (s, client))
            && (|s.pool| == 5 ==> back == s.(busy := s.busy - {client}, closed := s.closed + {client}))
  {
    RunKeeps(events);
    assert (events + [Release(client)])[..|events|] == events;
    var s, back := Run(events), Run(events + [Release(client)]);
    if |s.pool| < 5 {
      assert s.busy - {client} + {client} == s.busy;
    }
  }

  /** A client whose request failed is closed and never given to a request again. */
  lemma {:induction false} FailedIsGone(events: seq<Event>, client: nat, more: seq<Event>)
    requires client in Run(events).busy
    ensures var s := Run(events + [Fail(client)] + more);
            client in s.closed && client !in s.pool && client !in s.busy && Take(s).1 != client
  {
    var all := events + [Fail(client)] + more;
    RunKeeps(all);
    if more == [] {
      assert all == events + [Fail(client)] && all[..|events|] == events;
    } else {
      FailedIsGone(events, client, more[..|more| - 1]);
      assert all[..|all| - 1] == events + [Fail(client)] + more[..|more| - 1];
    }
    var s := Run(all);
    if s.pool != [] {
      assert s.pool[|s.pool| - 1] in s.pool;
    }
  }
}
