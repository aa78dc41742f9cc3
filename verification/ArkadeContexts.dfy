/**
  Which sign gets which context, told from the calls alone.

  Signs enter and contexts are armed in the order of the calls, however the signs in
  between take their time; only a clear acts at once. So a register run over the calls
  predicts every signing call.
 */
module ArkadeContexts {
  import opened Options
  import opened Arkade

  /** The calls that wait for the lock. */
  predicate Queued(e: Event) {
    e.CallSign? || e.CallSet?
  }

  function Calls(events: seq<Event>): (calls: seq<Event>)
    ensures forall i :: 0 <= i < |calls| ==> Queued(calls[i])
  {
    if events == [] then []
    else
      var last := events[|events| - 1];
      Calls(events[..|events| - 1]) + (if Queued(last) then [last] else [])
  }

  function Signs(calls: seq<Event>): nat {
    if calls == [] then 0 else Signs(calls[..|calls| - 1]) + (if calls[|calls| - 1].CallSign? then 1 else 0)
  }

  function Sets(calls: seq<Event>): nat {
    if calls == [] then 0 else Sets(calls[..|calls| - 1]) + (if calls[|calls| - 1].CallSet? then 1 else 0)
  }

  /** The context the next sign would find: the last one brought, unless a consuming sign came since. */
  function Register(calls: seq<Event>): Option<nat> {
    if calls == [] then None
    else
      var front, last := calls[..|calls| - 1], calls[|calls| - 1];
      if last.CallSet? then Some(Sets(front))
      else if last == CallSign(false) then None
      else Register(front)
  }

  /** Contexts that a clear found armed. */
  function Cleared(events: seq<Event>): set<nat> {
    if events == [] then {}
    else
      var front := events[..|events| - 1];
      Cleared(front) +
      (if events[|events| - 1] == CallClear && Run(front).context.Some? then {Run(front).context.value} else {})
  }

  function Live(r: Option<nat>, cleared: set<nat>): Option<nat> {
    if r.Some? && r.value in cleared then None else r
  }

  /** Calls that had their turn. */
  function Done(s: State): nat {
    |s.passed| + |s.armed|
  }

  /** The continuation the k-th call registers. */
  function WaiterOf(calls: seq<Event>, k: nat): Waiter
    requires k < |calls| && Queued(calls[k])
  {
    if calls[k].CallSign? then SignWait(Signs(calls[..k]) + 1, calls[k].intent)
    else SetWait(Sets(calls[..k]), Signs(calls[..k]))
  }

  /** What the signing call of the k-th call is given. */
  function Given(calls: seq<Event>, k: nat, cleared: set<nat>): Passed
    requires k < |calls| && calls[k].CallSign?
  {
    var intent := calls[k].intent;
    Passed(Signs(calls[..k]) + 1, intent, if intent then None else Live(Register(calls[..k]), cleared))
  }

  predicate GivenSo(s: State, calls: seq<Event>, k: nat, cleared: set<nat>)
    requires k < |calls| && calls[k].CallSign?
  {
    Signs(calls[..k]) < |s.passed| && s.passed[Signs(calls[..k])] == Given(calls, k, cleared)
  }

  predicate AllQueued(calls: seq<Event>) {
    forall i :: 0 <= i < |calls| ==> Queued(calls[i])
  }

  /** The calls behind `Done` wait, in their order. */
  predicate Waiting(s: State, calls: seq<Event>)
    requires AllQueued(calls)
  {
    && Done(s) + |s.waiters| == |calls|
    && (forall i :: 0 <= i < |s.waiters| ==> s.waiters[i] == WaiterOf(calls, Done(s) + i))
    && s.signingLock == Signs(calls) && s.nextToken == Sets(calls)
  }

  /** The calls before `Done` had what the register says, and it says what is armed. */
  predicate Served(s: State, calls: seq<Event>, cleared: set<nat>)
    requires AllQueued(calls) && Done(s) <= |calls|
  {
    && |s.passed| == Signs(calls[..Done(s)])
    && s.context == Live(Register(calls[..Done(s)]), cleared)
    && (forall k :: 0 <= k < Done(s) && calls[k].CallSign? ==> GivenSo(s, calls, k, cleared))
    && (forall t :: t in cleared ==> t < Sets(calls[..Done(s)]))
  }

  predicate Predicted(s: State, calls: seq<Event>, cleared: set<nat>) {
    AllQueued(calls) && Waiting(s, calls) && Served(s, calls, cleared)
  }

  // ----- each step keeps to the prediction

  lemma {:induction false} OneMoreCall(calls: seq<Event>, e: Event)
    ensures forall k :: 0 <= k <= |calls| ==> (calls + [e])[..k] == calls[..k]
    ensures (calls + [e])[..|calls|] == calls
    ensures Signs(calls + [e]) == Signs(calls) + (if e.CallSign? then 1 else 0)
    ensures Sets(calls + [e]) == Sets(calls) + (if e.CallSet? then 1 else 0)
  {
    assert (calls + [e])[..|calls|] == calls;
  }

  lemma {:induction false} CallPredicted(s: State, calls: seq<Event>, cleared: set<nat>, e: Event)
    requires Predicted(s, calls, cleared) && Queued(e)
    ensures Predicted(Step(s, e), calls + [e], cleared)
  {
    var t, more := Step(s, e), calls + [e];
    OneMoreCall(calls, e);
    CallWaits(s, calls, e);
    forall k | 0 <= k < Done(t) && more[k].CallSign? ensures GivenSo(t, more, k, cleared) {
      assert GivenSo(s, calls, k, cleared);
    }
  }

  lemma {:induction false} CallWaits(s: State, calls: seq<Event>, e: Event)
    requires AllQueued(calls) && Waiting(s, calls) && Queued(e)
    ensures AllQueued(calls + [e]) && Waiting(Step(s, e), calls + [e])
  {
    var t, more := Step(s, e), calls + [e];
    OneMoreCall(calls, e);
    forall i | 0 <= i < |t.waiters| ensures t.waiters[i] == WaiterOf(more, Done(t) + i) {
      if i < |s.waiters| {
        assert s.waiters[i] == WaiterOf(calls, Done(s) + i);
      }
    }
  }

  lemma {:induction false} OneMoreDone(calls: seq<Event>, k: nat)
    requires k < |calls|
    ensures calls[..k + 1] == calls[..k] + [calls[k]]
    ensures Signs(calls[..k + 1]) == Signs(calls[..k]) + (if calls[k].CallSign? then 1 else 0)
    ensures Sets(calls[..k + 1]) == Sets(calls[..k]) + (if calls[k].CallSet? then 1 else 0)
    ensures Register(calls[..k + 1]) ==
            if calls[k].CallSet? then Some(Sets(calls[..k]))
            else if calls[k] == CallSign(false) then None else Register(calls[..k])
  {
    assert calls[..k + 1][..k] == calls[..k];
  }

  /** The oldest continuation belongs to the first call not done. */
  lemma {:induction false} NextCall(s: State, calls: seq<Event>, cleared: set<nat>)
    requires Predicted(s, calls, cleared) && s.waiters != []
    ensures Done(s) < |calls| && s.waiters[0] == WaiterOf(calls, Done(s))
  {
    assert s.waiters[0] == WaiterOf(calls, Done(s) + 0);
  }

  lemma {:induction false} OthersWait(s: State, calls: seq<Event>, t: State)
    requires AllQueued(calls) && Waiting(s, calls) && s.waiters != [] && Done(t) == Done(s) + 1
    requires t.waiters == s.waiters[1..] && t.signingLock == s.signingLock && t.nextToken == s.nextToken
    ensures Waiting(t, calls)
  {
    forall i | 0 <= i < |t.waiters| ensures t.waiters[i] == WaiterOf(calls, Done(t) + i) {
      assert t.waiters[i] == s.waiters[i + 1];
    }
  }

  lemma {:induction false} EnterPredicted(s: State, calls: seq<Event>, cleared: set<nat>)
    requires Inv(s) && Predicted(s, calls, cleared) && Enabled(s, 0) && s.waiters[0].SignWait?
    ensures Predicted(Step(s, Resume(0)), calls, cleared)
  {
    var p, t := Done(s), Step(s, Resume(0));
    SignsTurn(s);
    NextCall(s, calls, cleared);
    OneMoreDone(calls, p);
    OthersWait(s, calls, t);
    assert t.passed[..|s.passed|] == s.passed;
    forall k | 0 <= k < Done(t) && calls[k].CallSign? ensures GivenSo(t, calls, k, cleared) {
      if k < p {
        assert GivenSo(s, calls, k, cleared);
        assert t.passed[Signs(calls[..k])] == s.passed[Signs(calls[..k])];
      }
    }
  }

  lemma {:induction false} ArmPredicted(s: State, calls: seq<Event>, cleared: set<nat>)
    requires Inv(s) && Predicted(s, calls, cleared) && Enabled(s, 0) && s.waiters[0].SetWait?
    ensures Predicted(Step(s, Resume(0)), calls, cleared)
  {
    var p, t := Done(s), Step(s, Resume(0));
    FirstOut(s);
    NextCall(s, calls, cleared);
    OneMoreDone(calls, p);
    OthersWait(s, calls, t);
    forall k | 0 <= k < Done(t) && calls[k].CallSign? ensures GivenSo(t, calls, k, cleared) {
      assert GivenSo(s, calls, k, cleared);
    }
  }

  lemma {:induction false} ClearPredicted(s: State, calls: seq<Event>, cleared: set<nat>)
    requires Inv(s) && Predicted(s, calls, cleared)
    ensures Predicted(Step(s, CallClear), calls, cleared + (if s.context.Some? then {s.context.value} else {}))
  {
    var t := Step(s, CallClear);
    var now := cleared + (if s.context.Some? then {s.context.value} else {});
    RegisterBound(calls[..Done(s)]);
    forall k | 0 <= k < Done(t) && calls[k].CallSign? ensures GivenSo(t, calls, k, now) {
      assert GivenSo(s, calls, k, cleared);
      var i := Signs(calls[..k]);
      if s.passed[i].context.Some? {
        assert UsedUp(s, s.passed[i].context.value);
      }
    }
  }

  lemma {:induction false} RegisterBound(calls: seq<Event>)
    ensures Register(calls).Some? ==> Register(calls).value < Sets(calls)
  {
    if calls != [] {
      RegisterBound(calls[..|calls| - 1]);
    }
  }

  lemma {:induction false} StepPredicted(s: State, calls: seq<Event>, cleared: set<nat>, e: Event)
    requires Inv(s) && Predicted(s, calls, cleared) && !Queued(e) && e != CallClear
    ensures Predicted(Step(s, e), calls, cleared)
  {
    match e {
      case Resume(i) =>
        OldestRuns(s, i);
        if Enabled(s, i) {
          if s.waiters[0].SignWait? {
            EnterPredicted(s, calls, cleared);
          } else {
            ArmPredicted(s, calls, cleared);
          }
        }
      case Finish =>
        forall k | 0 <= k < Done(s) && calls[k].CallSign? ensures GivenSo(Step(s, e), calls, k, cleared) {
          assert GivenSo(s, calls, k, cleared);
        }
    }
  }

  /** Every interleaving keeps to what the calls predict. */
  lemma {:induction false} RunPredicted(events: seq<Event>)
    ensures Predicted(Run(events), Calls(events), Cleared(events))
    decreases |events|
  {
    if events == [] {
      NothingPredicted();
    } else {
      var front, e := events[..|events| - 1], events[|events| - 1];
      RunKeeps(front);
      RunPredicted(front);
      EventPredicted(Run(front), Calls(front), Cleared(front), e);
    }
  }

  lemma {:induction false} NothingPredicted()
    ensures Predicted(Run([]), Calls([]), Cleared([]))
  {
  }

  lemma {:induction false} EventPredicted(s: State, calls: seq<Event>, cleared: set<nat>, e: Event)
    requires Inv(s) && Predicted(s, calls, cleared)
    ensures Predicted(Step(s, e), calls + (if Queued(e) then [e] else []),
                      cleared + (if e == CallClear && s.context.Some? then {s.context.value} else {}))
  {
    assert calls + [] == calls && cleared + {} == cleared;
    if Queued(e) {
      CallPredicted(s, calls, cleared, e);
    } else if e == CallClear {
      ClearPredicted(s, calls, cleared);
    } else {
      StepPredicted(s, calls, cleared, e);
    }
  }

  // ----- who gets a context, and who passes it by

  lemma {:induction false} SignsMonotone(calls: seq<Event>, i: nat, j: nat)
    requires i <= j <= |calls|
    ensures Signs(calls[..i]) <= Signs(calls[..j])
    decreases j
  {
    if i < j {
      OneMoreDone(calls, j - 1);
      SignsMonotone(calls, i, j - 1);
    }
  }

  /** A sign that has entered is among the calls done. */
  lemma {:induction false} EnteredIsDone(s: State, calls: seq<Event>, cleared: set<nat>, k: nat)
    requires Predicted(s, calls, cleared) && k < |calls| && Signs(calls[..k]) < |s.passed|
    ensures k < Done(s)
  {
    if Done(s) <= k {
      SignsMonotone(calls, Done(s), k);
    }
  }

  /** The j-th call brought a context, and only intent proofs were called from then up to the k-th call. */
  predicate Brought(calls: seq<Event>, j: nat, k: nat, token: nat)
    requires k <= |calls|
  {
    && j < k && calls[j] == CallSet && Sets(calls[..j]) == token
    && forall i :: j < i < k ==> calls[i] == CallSign(true)
  }

  lemma {:induction false} RegisterIs(calls: seq<Event>, k: nat, token: nat)
    requires AllQueued(calls) && k <= |calls|
    ensures Register(calls[..k]) == Some(token) <==> exists j: nat :: Brought(calls, j, k, token)
    decreases k
  {
    if k > 0 {
      var last := k - 1;
      OneMoreDone(calls, last);
      RegisterIs(calls, last, token);
      forall j: nat ensures Brought(calls, j, k, token) <==> BroughtNext(calls, j, last, token) {
        BroughtOneMore(calls, j, last, token);
      }
      assert calls[last].CallSet? && Sets(calls[..last]) == token ==> BroughtNext(calls, last, last, token);
      assert calls[last] == CallSign(true) ==>
          forall j: nat :: Brought(calls, j, last, token) <==> BroughtNext(calls, j, last, token);
    }
  }

  /** The same by the last call. */
  predicate BroughtNext(calls: seq<Event>, j: nat, last: nat, token: nat)
    requires last < |calls|
  {
    if calls[last] == CallSign(true) then Brought(calls, j, last, token)
    else calls[last] == CallSet && j == last && Sets(calls[..last]) == token
  }

  lemma {:induction false} BroughtOneMore(calls: seq<Event>, j: nat, last: nat, token: nat)
    requires last < |calls|
    ensures Brought(calls, j, last + 1, token) <==> BroughtNext(calls, j, last, token)
  {
  }

  /**
    For every run: the sign of the k-th call is passed a context if and only if that context
    was brought before, only intent proofs were called in between, the sign is no intent
    proof itself, and no clear found the context armed.
   */
  lemma {:induction false} WhoGetsTheContext(events: seq<Event>, k: nat, token: nat)
    requires k < |Calls(events)| && Calls(events)[k].CallSign? && Signs(Calls(events)[..k]) < |Run(events).passed|
    ensures var calls := Calls(events);
            Run(events).passed[Signs(calls[..k])].context == Some(token) <==>
            calls[k] == CallSign(false) && token !in Cleared(events) && exists j: nat :: Brought(calls, j, k, token)
  {
    RunPredicted(events);
    EnteredIsDone(Run(events), Calls(events), Cleared(events), k);
    assert GivenSo(Run(events), Calls(events), k, Cleared(events));
    RegisterIs(Calls(events), k, token);
  }

  /**
    For every run: a sign goes past the lock and leaves a context armed if and only if it is
    an intent proof, a context was brought before with only intent proofs called in between,
    and no clear has found that context armed.
   */
  lemma {:induction false} WhoPassesTheContextBy(events: seq<Event>, i: nat, token: nat)
    requires Enabled(Run(events), i) && Run(events).waiters[i].SignWait?
    ensures var calls, k := Calls(events), Done(Run(events));
            && k < |calls| && calls[k].CallSign?
            && (Run(events + [Resume(i)]).context == Some(token) <==>
                calls[k] == CallSign(true) && token !in Cleared(events) && exists j: nat :: Brought(calls, j, k, token))
  {
    RunPredicted(events);
    RunKeeps(events);
    OldestRuns(Run(events), i);
    NextCall(Run(events), Calls(events), Cleared(events));
    OnlyConsumersTake(events, i);
    RegisterIs(Calls(events), Done(Run(events)), token);
  }
}
