/**
  How each request ends, told from the messages and timers.
 */
module SocketOutcomes {
  import opened Options
  import opened Socket

  /** Issued and not settled. */
  predicate Pending(s: State, event: string, key: nat) {
    key < |s.issued| && s.issued[key].event == event && key !in s.settled
  }

  /** The oldest pending request of the event, among those with the echoed id if there is one. */
  ghost predicate Oldest(s: State, event: string, echoed: Option<string>, key: nat) {
    && Pending(s, event, key)
    && (echoed.Some? ==> s.issued[key].id == echoed.value)
    && forall k: nat :: Pending(s, event, k) && (echoed.Some? ==> s.issued[k].id == echoed.value) ==> key <= k
  }

  /** The event ends the pending request `key` with this outcome. */
  ghost predicate Causes(s: State, e: Event, key: nat, outcome: Outcome) {
    match outcome
    case Completed => e.Response? && Oldest(s, e.event, e.echoed, key)
    case Refused => e.Error? && if e.echoed.None? then Pending(s, e.event, key) else Oldest(s, e.event, e.echoed, key)
    case TimedOut => e == Timer(key) && key < |s.issued| && key !in s.settled
  }

  ghost predicate SettledAs(s: State, key: nat, outcome: Outcome) {
    key in s.settled && s.settled[key] == outcome
  }

  lemma {:induction false} ListedIsPending(s: State, event: string, key: nat)
    requires Inv(s)
    ensures Listed(s, event, key) <==> Pending(s, event, key)
  {
  }

  lemma {:induction false} FirstIsOldest(s: State, event: string)
    requires Inv(s) && List(s, event) != []
    ensures forall key: nat :: Oldest(s, event, None, key) <==> key == List(s, event)[0]
  {
    var first := List(s, event)[0];
    forall k: nat ensures Listed(s, event, k) <==> Pending(s, event, k) {
      ListedIsPending(s, event, k);
    }
    assert Listed(s, event, first);
    forall k: nat | Pending(s, event, k) ensures first <= k {
      assert Listed(s, event, k);
    }
  }

  lemma {:induction false} UntaggedResponse(s: State, event: string, key: nat, outcome: Outcome)
    requires Inv(s)
    ensures var e := Response(event, None);
            SettledAs(Step(s, e), key, outcome) <==> SettledAs(s, key, outcome) || Causes(s, e, key, outcome)
  {
    UntaggedSettlesOldest(s, event);
    ListedIsPending(s, event, key);
    if List(s, event) != [] {
      FirstIsOldest(s, event);
      assert Oldest(s, event, None, List(s, event)[0]);
    }
  }

  lemma {:induction false} Tagged(s: State, event: string, id: string, refused: bool, key: nat, outcome: Outcome)
    requires Inv(s)
    ensures var e := if refused then Error(event, Some(id)) else Response(event, Some(id));
            SettledAs(Step(s, e), key, outcome) <==> SettledAs(s, key, outcome) || Causes(s, e, key, outcome)
  {
    TaggedSettlesItsRequest(s, event, id, refused);
    forall k: nat ensures Listed(s, event, k) <==> Pending(s, event, k) {
      ListedIsPending(s, event, k);
    }
  }

  lemma {:induction false} UntaggedError(s: State, event: string, key: nat, outcome: Outcome)
    requires Inv(s)
    ensures var e := Error(event, None);
            SettledAs(Step(s, e), key, outcome) <==> SettledAs(s, key, outcome) || Causes(s, e, key, outcome)
  {
    ListedIsPending(s, event, key);
    if List(s, event) != [] {
      UntaggedErrorClears(s, event);
    }
  }

  lemma {:induction false} StepSettles(s: State, e: Event, key: nat, outcome: Outcome)
    requires Inv(s)
    ensures SettledAs(Step(s, e), key, outcome) <==> SettledAs(s, key, outcome) || Causes(s, e, key, outcome)
  {
    match e
    case Issue(_) =>
    case Response(event, echoed) =>
      if echoed.None? {
        UntaggedResponse(s, event, key, outcome);
      } else {
        Tagged(s, event, echoed.value, false, key, outcome);
      }
    case Error(event, echoed) =>
      if echoed.None? {
        UntaggedError(s, event, key, outcome);
      } else {
        Tagged(s, event, echoed.value, true, key, outcome);
      }
    case Timer(_) =>
  }

  ghost predicate CausedAt(events: seq<Event>, n: nat, key: nat, outcome: Outcome) {
    n < |events| && Causes(Run(events[..n]), events[n], key, outcome)
  }

  /** Some event of the run ended the request with this outcome. */
  ghost predicate Caused(events: seq<Event>, key: nat, outcome: Outcome) {
    exists n: nat :: CausedAt(events, n, key, outcome)
  }

  lemma {:induction false} SamePrefix(front: seq<Event>, e: Event, n: nat, key: nat, outcome: Outcome)
    ensures CausedAt(front + [e], n, key, outcome) <==>
            CausedAt(front, n, key, outcome) || (n == |front| && Causes(Run(front), e, key, outcome))
  {
    var events := front + [e];
    if n < |front| {
      assert events[..n] == front[..n] && events[n] == front[n];
    } else if n == |front| {
      assert events[..n] == front && events[n] == e;
    }
  }

  lemma {:induction false} CausedLast(front: seq<Event>, e: Event, key: nat, outcome: Outcome)
    ensures Caused(front + [e], key, outcome) <==> Caused(front, key, outcome) || Causes(Run(front), e, key, outcome)
  {
    forall n: nat ensures CausedAt(front + [e], n, key, outcome) <==>
                          CausedAt(front, n, key, outcome) || (n == |front| && Causes(Run(front), e, key, outcome))
    {
      SamePrefix(front, e, n, key, outcome);
    }
    if Causes(Run(front), e, key, outcome) {
      assert CausedAt(front + [e], |front|, key, outcome);
    }
  }

  /**
    For every run: a request is completed exactly if a response answered it, by its id or as
    the oldest of its event; it is refused exactly if an error did, or an error without an
    id reached its event; it timed out exactly if its timer fired while it was pending.
   */
  lemma {:induction false} SettledAsCaused(events: seq<Event>, key: nat, outcome: Outcome)
    ensures SettledAs(Run(events), key, outcome) <==> Caused(events, key, outcome)
    decreases |events|
  {
    if events != [] {
      var front, e := events[..|events| - 1], events[|events| - 1];
      RunKeeps(front);
      SettledAsCaused(front, key, outcome);
      StepSettles(Run(front), e, key, outcome);
      CausedLast(front, e, key, outcome);
      assert events == front + [e];
    }
  }
}
