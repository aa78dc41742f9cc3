/**
  The signing mutex of the Arkade identity and the single-use context it guards, as
  steps between await points.

  The k-th `sign` call waits for lock k - 1 and installs lock k, which it releases when
  it is done; lock 0 is the resolved promise the identity starts with. A call of
  `setArkadeContext` waits for the newest lock. Continuations waiting for one promise run
  in the order they were registered. Contexts are numbered by the calls that bring them.
 */
module Arkade {
  import opened Options

  datatype Waiter =
    | SignWait(number: nat, intent: bool)
    | SetWait(token: nat, lock: nat)

  /** What a call of `signPSBT` was given. */
  datatype Passed = Passed(sign: nat, intent: bool, context: Option<nat>)

  /** A context armed: signs called before its call, and signs finished when it was armed. */
  datatype Armed = Armed(token: nat, before: nat, finished: nat)

  datatype State = State(context: Option<nat>, contextPending: bool, signCount: nat, intentProofSignCount: nat,
                         signingLock: nat, released: nat, current: Option<nat>, waiters: seq<Waiter>,
                         nextToken: nat, passed: seq<Passed>, armed: seq<Armed>)

  datatype Event =
    | CallSign(intent: bool)
    | CallSet
    | CallClear
    | Resume(i: nat)
    | Finish

  const INITIAL := State(None, false, 0, 0, 0, 0, None, [], 0, [], [])

  /** The lock a continuation waits for. */
  function LockOf(w: Waiter): int {
    match w case SignWait(n, _) => n - 1 case SetWait(_, lock) => lock
  }

  /** A released lock runs its oldest continuation. */
  predicate Enabled(s: State, i: nat) {
    && i < |s.waiters| && LockOf(s.waiters[i]) <= s.released
    && forall j :: 0 <= j < i ==> LockOf(s.waiters[j]) != LockOf(s.waiters[i])
  }

  function Without(ws: seq<Waiter>, i: nat): seq<Waiter>
    requires i < |ws|
  {
    ws[..i] + ws[i + 1..]
  }

  /** `sign` from the lock to the call of `signPSBT`. */
  function Enter(s: State, number: nat, intent: bool): State {
    var t := s.(current := Some(number), signCount := s.signCount + 1);
    if intent then
      t.(intentProofSignCount := s.intentProofSignCount + 1, passed := s.passed + [Passed(number, true, None)])
    else
      t.(contextPending := false, context := None, passed := s.passed + [Passed(number, false, s.context)])
  }

  /** `setArkadeContext` behind the lock. */
  function Arm(s: State, token: nat, lock: nat): State {
    s.(context := Some(token), contextPending := true, armed := s.armed + [Armed(token, lock, s.released)])
  }

  function Step(s: State, e: Event): State {
    match e
    case CallSign(intent) =>
      s.(signingLock := s.signingLock + 1, waiters := s.waiters + [SignWait(s.signingLock + 1, intent)])
    case CallSet =>
      s.(nextToken := s.nextToken + 1, waiters := s.waiters + [SetWait(s.nextToken, s.signingLock)])
    case CallClear => s.(context := None, contextPending := false)
    case Resume(i) =>
      if !Enabled(s, i) then s
      else
        var t := s.(waiters := Without(s.waiters, i));
        (match s.waiters[i]
         case SignWait(number, intent) => Enter(t, number, intent)
         case SetWait(token, lock) => Arm(t, token, lock))
    case Finish =>
      if s.current.None? then s else s.(released := s.current.value, current := None)
  }

  function Run(events: seq<Event>): State {
    if events == [] then INITIAL else Step(Run(events[..|events| - 1]), events[|events| - 1])
  }

  // ----- what every step keeps

  /** At most one sign is past the lock: the newest to enter, and every earlier one has finished. */
  predicate LockHeld(s: State) {
    && |s.passed| <= s.signingLock
    && (forall i :: 0 <= i < |s.passed| ==> s.passed[i].sign == i + 1)
    && (match s.current
        case None => s.released == |s.passed|
        case Some(k) => k == |s.passed| >= 1 && s.released == k - 1)
  }

  /** The first lock a continuation registered later can wait for. */
  function Behind(w: Waiter): nat {
    match w case SignWait(n, _) => n case SetWait(_, lock) => lock
  }

  /** Continuations stand in the order of their locks. */
  predicate Sorted(ws: seq<Waiter>) {
    forall i, j :: 0 <= i < j < |ws| ==> Behind(ws[i]) <= LockOf(ws[j])
  }

  predicate Between(ws: seq<Waiter>, lo: int, hi: int) {
    forall i :: 0 <= i < |ws| ==> lo <= LockOf(ws[i]) && Behind(ws[i]) <= hi
  }

  /** Every sign called and not yet in is waiting. */
  ghost predicate AllWait(ws: seq<Waiter>, lo: nat, hi: nat) {
    forall n: nat :: lo < n <= hi ==> Waits(ws, n)
  }

  ghost predicate WaitersOrdered(s: State) {
    Sorted(s.waiters) && Between(s.waiters, |s.passed|, s.signingLock) && AllWait(s.waiters, |s.passed|, s.signingLock)
  }

  ghost predicate Waits(ws: seq<Waiter>, n: nat) {
    exists i :: 0 <= i < |ws| && ws[i].SignWait? && ws[i].number == n
  }

  /** Contexts pass from waiting to armed to used in the order of their calls. */
  predicate TokensOrdered(s: State) {
    && (forall i, j :: 0 <= i < j < |s.waiters| && s.waiters[i].SetWait? && s.waiters[j].SetWait? ==>
          s.waiters[i].token < s.waiters[j].token)
    && (forall i :: 0 <= i < |s.waiters| && s.waiters[i].SetWait? ==> s.waiters[i].token < s.nextToken)
    && (s.context.Some? ==> s.context.value < s.nextToken)
    && (s.context.Some? ==> forall i :: 0 <= i < |s.waiters| && s.waiters[i].SetWait? ==> s.context.value < s.waiters[i].token)
    && (forall i :: 0 <= i < |s.passed| && s.passed[i].context.Some? ==> UsedUp(s, s.passed[i].context.value))
    && (forall i, j :: 0 <= i < j < |s.passed| && s.passed[i].context.Some? && s.passed[j].context.Some? ==>
          s.passed[i].context.value < s.passed[j].context.value)
  }

  predicate UsedUp(s: State, token: nat) {
    && token < s.nextToken
    && (s.context.Some? ==> token < s.context.value)
    && forall i :: 0 <= i < |s.waiters| && s.waiters[i].SetWait? ==> token < s.waiters[i].token
  }

  function Intents(passed: seq<Passed>): nat {
    if passed == [] then 0
    else Intents(passed[..|passed| - 1]) + (if passed[|passed| - 1].intent then 1 else 0)
  }

  predicate Bookkeeping(s: State) {
    && (s.contextPending <==> s.context.Some?)
    && s.signCount == |s.passed| && s.intentProofSignCount == Intents(s.passed)
    && (forall i :: 0 <= i < |s.passed| && s.passed[i].intent ==> s.passed[i].context.None?)
    && (forall i :: 0 <= i < |s.armed| ==> s.armed[i].before <= s.armed[i].finished)
  }

  ghost predicate Inv(s: State) {
    LockHeld(s) && WaitersOrdered(s) && TokensOrdered(s) && Bookkeeping(s)
  }

  /** Only the oldest continuation can run, and it can whenever no sign is past the lock. */
  lemma {:induction false} OldestRuns(s: State, i: nat)
    requires Inv(s)
    ensures Enabled(s, i) <==> i == 0 && s.waiters != [] && LockOf(s.waiters[0]) <= s.released
    ensures s.current.None? && s.waiters != [] ==> Enabled(s, 0)
  {
    if s.waiters != [] {
      var first := s.waiters[0];
      if |s.passed| < s.signingLock {
        assert Waits(s.waiters, |s.passed| + 1);
        var k :| 0 <= k < |s.waiters| && s.waiters[k].SignWait? && s.waiters[k].number == |s.passed| + 1;
        assert k > 0 ==> Behind(first) <= LockOf(s.waiters[k]);
      }
      assert LockOf(first) == |s.passed|;
      if 0 < i < |s.waiters| {
        assert Behind(first) <= LockOf(s.waiters[i]);
      }
    }
  }

  // ----- each step keeps it

  lemma {:induction false} WaitsLonger(ws: seq<Waiter>, w: Waiter, n: nat)
    ensures Waits(ws + [w], n) <==> Waits(ws, n) || w == SignWait(n, true) || w == SignWait(n, false)
  {
    var more := ws + [w];
    if Waits(ws, n) {
      var k :| 0 <= k < |ws| && ws[k].SignWait? && ws[k].number == n;
      assert more[k].number == n;
    }
    assert more[|ws|] == w;
  }

  /** A continuation registered last waits for the newest lock. */
  lemma {:induction false} AppendWaiter(s: State, w: Waiter, t: State)
    requires WaitersOrdered(s) && LockOf(w) == s.signingLock && |s.passed| <= s.signingLock
    requires t == s.(waiters := s.waiters + [w], signingLock := Behind(w), nextToken := t.nextToken)
    ensures WaitersOrdered(t)
  {
    forall n: nat | |s.passed| < n <= t.signingLock ensures Waits(t.waiters, n) {
      WaitsLonger(s.waiters, w, n);
      assert n <= s.signingLock ==> Waits(s.waiters, n);
    }
  }

  lemma {:induction false} SameTokens(s: State, t: State)
    requires TokensOrdered(s) && s.nextToken <= t.nextToken && t.context == s.context && t.passed == s.passed
    requires t.waiters == s.waiters
             || (exists w: Waiter :: t.waiters == s.waiters + [w] && (w.SetWait? ==> s.nextToken == w.token < t.nextToken))
    ensures TokensOrdered(t)
  {
    forall i | 0 <= i < |t.passed| && t.passed[i].context.Some? ensures UsedUp(t, t.passed[i].context.value) {
      assert UsedUp(s, s.passed[i].context.value);
    }
  }

  lemma {:induction false} CallSignKeeps(s: State, intent: bool)
    requires Inv(s)
    ensures Inv(Step(s, CallSign(intent)))
  {
    var w := SignWait(s.signingLock + 1, intent);
    AppendWaiter(s, w, Step(s, CallSign(intent)));
    assert Step(s, CallSign(intent)).waiters == s.waiters + [w];
    SameTokens(s, Step(s, CallSign(intent)));
  }

  lemma {:induction false} CallSetKeeps(s: State)
    requires Inv(s)
    ensures Inv(Step(s, CallSet))
  {
    var w := SetWait(s.nextToken, s.signingLock);
    AppendWaiter(s, w, Step(s, CallSet));
    assert Step(s, CallSet).waiters == s.waiters + [w];
    SameTokens(s, Step(s, CallSet));
  }

  /** The oldest continuation, when it runs, and what stays behind it. */
  lemma {:induction false} FirstOut(s: State)
    requires Inv(s) && Enabled(s, 0)
    ensures Without(s.waiters, 0) == s.waiters[1..]
    ensures s.current.None? && s.released == |s.passed| == LockOf(s.waiters[0])
    ensures s.waiters[0].SignWait? ==> s.waiters[0].number == |s.passed| + 1
  {
    OldestRuns(s, 0);
  }

  lemma {:induction false} TailOrdered(ws: seq<Waiter>, lo: nat, hi: nat)
    requires ws != [] && Sorted(ws) && Between(ws, lo, hi) && AllWait(ws, lo, hi)
    ensures Sorted(ws[1..]) && Between(ws[1..], Behind(ws[0]), hi) && AllWait(ws[1..], Behind(ws[0]), hi)
  {
    forall n: nat | Behind(ws[0]) < n <= hi ensures Waits(ws[1..], n) {
      assert lo <= LockOf(ws[0]) <= Behind(ws[0]);
      assert Waits(ws, n);
      var k :| 0 <= k < |ws| && ws[k].SignWait? && ws[k].number == n;
      assert k > 0;
      assert ws[1..][k - 1] == ws[k];
    }
  }

  /** The oldest continuation taken out, before it does anything. */
  lemma {:induction false} PopKeeps(s: State)
    requires Inv(s) && Enabled(s, 0)
    ensures var t := s.(waiters := s.waiters[1..]); TokensOrdered(t) && Bookkeeping(t)
  {
    var t := s.(waiters := s.waiters[1..]);
    forall i | 0 <= i < |t.passed| && t.passed[i].context.Some? ensures UsedUp(t, t.passed[i].context.value) {
      assert UsedUp(s, s.passed[i].context.value);
    }
  }

  lemma {:induction false} EnterIntent(s: State, number: nat)
    requires TokensOrdered(s) && Bookkeeping(s)
    ensures TokensOrdered(Enter(s, number, true)) && Bookkeeping(Enter(s, number, true))
  {
    var t := Enter(s, number, true);
    assert t.passed[..|s.passed|] == s.passed;
    forall i | 0 <= i < |t.passed| && t.passed[i].context.Some? ensures UsedUp(t, t.passed[i].context.value) {
      assert UsedUp(s, s.passed[i].context.value);
    }
  }

  lemma {:induction false} EnterConsumer(s: State, number: nat)
    requires TokensOrdered(s) && Bookkeeping(s)
    ensures TokensOrdered(Enter(s, number, false)) && Bookkeeping(Enter(s, number, false))
  {
    var t, n := Enter(s, number, false), |s.passed|;
    assert t.passed[..n] == s.passed;
    forall i | 0 <= i < n && s.passed[i].context.Some? ensures UsedUp(s, s.passed[i].context.value) {
    }
    forall i | 0 <= i < |t.passed| && t.passed[i].context.Some? ensures UsedUp(t, t.passed[i].context.value) {
      assert i < n ==> UsedUp(s, s.passed[i].context.value);
    }
  }

  /** The sign whose turn it is enters. */
  lemma {:induction false} SignsTurn(s: State)
    requires Inv(s) && Enabled(s, 0) && s.waiters[0].SignWait?
    ensures Step(s, Resume(0)) == Enter(s.(waiters := s.waiters[1..]), |s.passed| + 1, s.waiters[0].intent)
  {
    FirstOut(s);
  }

  lemma {:induction false} EnterOrder(s: State)
    requires Inv(s) && Enabled(s, 0) && s.waiters[0].SignWait?
    ensures LockHeld(Step(s, Resume(0))) && WaitersOrdered(Step(s, Resume(0)))
  {
    assert s.released == |s.passed| && Behind(s.waiters[0]) == |s.passed| + 1 by { FirstOut(s); }
    assert Behind(s.waiters[0]) <= s.signingLock;
    TailOrdered(s.waiters, |s.passed|, s.signingLock);
    SignsTurn(s);
  }

  lemma {:induction false} EnterTokens(s: State)
    requires Inv(s) && Enabled(s, 0) && s.waiters[0].SignWait?
    ensures TokensOrdered(Step(s, Resume(0))) && Bookkeeping(Step(s, Resume(0)))
  {
    SignsTurn(s);
    PopKeeps(s);
    var t := s.(waiters := s.waiters[1..]);
    EnterIntent(t, |s.passed| + 1);
    EnterConsumer(t, |s.passed| + 1);
  }

  lemma {:induction false} ArmTokens(s: State)
    requires Inv(s) && Enabled(s, 0) && s.waiters[0].SetWait?
    ensures TokensOrdered(Step(s, Resume(0)))
  {
    FirstOut(s);
    var t := Step(s, Resume(0));
    forall i | 0 <= i < |t.passed| && t.passed[i].context.Some? ensures UsedUp(t, t.passed[i].context.value) {
      assert UsedUp(s, s.passed[i].context.value);
    }
  }

  lemma {:induction false} ArmKeeps(s: State)
    requires Inv(s) && Enabled(s, 0) && s.waiters[0].SetWait?
    ensures Inv(Step(s, Resume(0)))
  {
    FirstOut(s);
    TailOrdered(s.waiters, |s.passed|, s.signingLock);
    ArmTokens(s);
  }

  lemma {:induction false} ClearKeeps(s: State)
    requires Inv(s)
    ensures Inv(Step(s, CallClear))
  {
    var t := Step(s, CallClear);
    forall i | 0 <= i < |t.passed| && t.passed[i].context.Some? ensures UsedUp(t, t.passed[i].context.value) {
      assert UsedUp(s, s.passed[i].context.value);
    }
  }

  lemma {:induction false} StepKeeps(s: State, e: Event)
    requires Inv(s)
    ensures Inv(Step(s, e))
  {
    match e
    case CallSign(intent) => CallSignKeeps(s, intent);
    case CallSet => CallSetKeeps(s);
    case CallClear => ClearKeeps(s);
    case Resume(i) =>
      OldestRuns(s, i);
      if Enabled(s, i) {
        if s.waiters[0].SignWait? {
          EnterOrder(s);
          EnterTokens(s);
        } else {
          ArmKeeps(s);
        }
      }
    case Finish =>
      forall i | 0 <= i < |s.passed| && s.passed[i].context.Some? ensures UsedUp(Step(s, Finish), s.passed[i].context.value) {
        assert UsedUp(s, s.passed[i].context.value);
      }
  }

  /** Every interleaving keeps the invariant. */
  lemma {:induction false} RunKeeps(events: seq<Event>)
    ensures Inv(Run(events))
    decreases |events|
  {
    if events != [] {
      RunKeeps(events[..|events| - 1]);
      StepKeeps(Run(events[..|events| - 1]), events[|events| - 1]);
    }
  }

  // ----- corollaries for every interleaving

  /** Signs get past the lock one at a time, in the order they were called. */
  lemma {:induction false} OneSignAtATime(events: seq<Event>)
    ensures var s := Run(events);
            && (forall i :: Enabled(s, i) ==> s.current.None? && i == 0)
            && (forall i :: 0 <= i < |s.passed| ==> s.passed[i].sign == i + 1)
            && (forall i :: 0 <= i < |s.passed| - 1 ==> s.passed[i].sign <= s.released)
  {
    RunKeeps(events);
    var s := Run(events);
    forall i | Enabled(s, i) ensures s.current.None? && i == 0 {
      OldestRuns(s, i);
      FirstOut(s);
    }
  }

  /** Let the sign in progress end, then run the oldest continuation. */
  function Serve(s: State, n: nat): State
    decreases n
  {
    if n == 0 then Step(s, Finish) else Serve(Step(Step(s, Finish), Resume(0)), n - 1)
  }

  /** However signs end, every call waiting gets its turn and the lock ends up free. */
  lemma {:induction false} QueueDrains(s: State)
    requires Inv(s)
    ensures var t := Serve(s, |s.waiters|);
            t.waiters == [] && t.current.None? && t.signingLock == s.signingLock == t.released
    decreases |s.waiters|
  {
    var f := Step(s, Finish);
    StepKeeps(s, Finish);
    if s.waiters == [] {
      Drained(f);
    } else {
      OneServed(f);
      QueueDrains(Step(f, Resume(0)));
    }
  }

  lemma {:induction false} OneServed(s: State)
    requires Inv(s) && s.current.None? && s.waiters != []
    ensures var t := Step(s, Resume(0)); Inv(t) && t.waiters == s.waiters[1..] && t.signingLock == s.signingLock
  {
    OldestRuns(s, 0);
    FirstOut(s);
    StepKeeps(s, Resume(0));
  }

  lemma {:induction false} Drained(s: State)
    requires Inv(s) && s.waiters == [] && s.current.None?
    ensures s.released == s.signingLock
  {
    assert !Waits(s.waiters, |s.passed| + 1);
  }

  /** A context is armed only after every sign called before it was brought has finished. */
  lemma {:induction false} ArmedAfterEarlierSigns(events: seq<Event>, i: nat)
    requires var s := Run(events); i < |s.waiters| && s.waiters[i].SetWait?
    ensures var s := Run(events);
            var w := s.waiters[i];
            && |s.passed| <= w.lock <= s.signingLock
            && (Enabled(s, i) ==> s.released == w.lock && s.current.None?)
  {
    RunKeeps(events);
    var s := Run(events);
    OldestRuns(s, i);
    if Enabled(s, i) {
      FirstOut(s);
    }
  }

  /** The signs that had finished at each arming include all those called before. */
  lemma {:induction false} EveryArmingWaited(events: seq<Event>)
    ensures forall i :: 0 <= i < |Run(events).armed| ==> Run(events).armed[i].before <= Run(events).armed[i].finished
  {
    RunKeeps(events);
  }

  /** A context goes to one signing call at most, never to an intent proof, and in the order contexts were brought. */
  lemma {:induction false} ContextUsedOnce(events: seq<Event>)
    ensures var p := Run(events).passed;
            && (forall i, j :: 0 <= i < j < |p| && p[i].context.Some? && p[j].context.Some? ==> p[i].context.value < p[j].context.value)
            && (forall i :: 0 <= i < |p| && p[i].intent ==> p[i].context.None?)
    ensures var s := Run(events);
            s.context.Some? ==> forall i :: 0 <= i < |s.passed| ==> s.passed[i].context != s.context
  {
    RunKeeps(events);
    var s := Run(events);
    forall i | 0 <= i < |s.passed| && s.passed[i].context.Some? ensures s.passed[i].context != s.context {
      assert UsedUp(s, s.passed[i].context.value);
    }
  }

  /** `hasPendingContext` tells at every await point whether a context is armed. */
  lemma {:induction false} FlagTellsContext(events: seq<Event>)
    ensures Run(events).contextPending <==> Run(events).context.Some?
    ensures Run(events).signCount == |Run(events).passed|
    ensures Run(events).intentProofSignCount == Intents(Run(events).passed)
  {
    RunKeeps(events);
  }

  /** An intent proof entering leaves the context and the flag alone; a consuming sign takes both. */
  lemma {:induction false} OnlyConsumersTake(events: seq<Event>, i: nat)
    requires Enabled(Run(events), i) && Run(events).waiters[i].SignWait?
    ensures var s, t := Run(events), Run(events + [Resume(i)]);
            var intent := s.waiters[i].intent;
            && (intent ==> t.context == s.context && t.contextPending == s.contextPending)
            && (!intent ==> t.context.None? && !t.contextPending)
            && t.passed == s.passed + [Passed(|s.passed| + 1, intent, if intent then None else s.context)]
  {
    RunKeeps(events);
    var s := Run(events);
    OldestRuns(s, i);
    FirstOut(s);
    var all := events + [Resume(i)];
    assert all[..|all| - 1] == events;
  }

  /**
    Bringing a context does not make later signs wait: in the first run an intent proof
    called after it passes and is done while the context stays armed, in the second the
    context goes to the first of two signs, whichever of them it was meant for.
   */
  lemma {:induction false} LaterSignsDoNotWait()
    ensures exists events ::
              var s := Run(events); s.passed == [Passed(1, true, None)] && s.context == Some(0) && s.released == 1
    ensures exists events :: Run(events).passed == [Passed(1, false, Some(0)), Passed(2, false, None)]
  {
    PassesByArmed();
    FirstComeFirstServed();
  }

  lemma {:induction false} PassesByArmed()
    ensures exists events ::
              var s := Run(events); s.passed == [Passed(1, true, None)] && s.context == Some(0) && s.released == 1
  {
    var e2 := BringAndArm();
    var e3 := e2 + [CallSign(true)];
    RunLast(e2, CallSign(true));
    assert Run(e3).waiters == [SignWait(1, true)];
    var e4 := e3 + [Resume(0)];
    RunLast(e3, Resume(0));
    RunLast(e4, Finish);
    var s := Run(e4 + [Finish]);
    assert s.passed == [Passed(1, true, None)] && s.context == Some(0) && s.released == 1;
  }

  lemma {:induction false} FirstComeFirstServed()
    ensures exists events :: Run(events).passed == [Passed(1, false, Some(0)), Passed(2, false, None)]
  {
    var e2 := BringAndArm();
    var s2 := Run(e2);
    var e3 := e2 + [CallSign(false)];
    RunLast(e2, CallSign(false));
    var e4 := e3 + [CallSign(false)];
    RunLast(e3, CallSign(false));
    assert Run(e4).waiters == [SignWait(1, false), SignWait(2, false)];
    var e5 := e4 + [Resume(0)];
    RunLast(e4, Resume(0));
    assert Run(e5).waiters == [SignWait(2, false)];
    RunLast(e5, Finish);
    var e6 := e5 + [Finish];
    RunLast(e6, Resume(0));
    assert Run(e6 + [Resume(0)]).passed == [Passed(1, false, Some(0)), Passed(2, false, None)];
  }

  lemma {:induction false} BringAndArm() returns (events: seq<Event>)
    ensures var s := Run(events);
            s.context == Some(0) && s.waiters == [] && s.passed == [] && s.current.None? && s.released == s.signingLock == 0
  {
    RunLast([], CallSet);
    events := [] + [CallSet];
    assert Run(events).waiters == [SetWait(0, 0)];
    RunLast(events, Resume(0));
    events := events + [Resume(0)];
  }

  lemma {:induction false} RunLast(events: seq<Event>, e: Event)
    ensures Run(events + [e]) == Step(Run(events), e)
  {
    assert (events + [e])[..|events|] == events;
  }

  // ----- the identity

  /** The object; each method is one stretch of code between await points. */
  class SigbashArkadeIdentity {
    var arkadeCtx: Option<nat>
    var contextPending: bool
    var signCount: nat
    var intentProofSignCount: nat
    var signingLock: nat
    var released: nat
    var current: Option<nat>
    var waiters: seq<Waiter>
    var nextToken: nat
    ghost var passed: seq<Passed>
    ghost var armed: seq<Armed>

    ghost function Contents(): State
      reads this
    {
      State(arkadeCtx, contextPending, signCount, intentProofSignCount, signingLock, released, current, waiters,
            nextToken, passed, armed)
    }

    constructor ()
      ensures Contents() == INITIAL
    {
      arkadeCtx, contextPending, signCount, intentProofSignCount := None, false, 0, 0;
      signingLock, released, current, waiters, nextToken, passed, armed := 0, 0, None, [], 0, [], [];
    }

    /** Tells whether a context is armed. */
    function HasPendingContext(): (pending: bool)
      reads this
      ensures Inv(Contents()) ==> (pending <==> arkadeCtx.Some?)
    {
      contextPending
    }

    /** `sign` up to its await: take the newest lock, install the next. */
    method Sign(intent: bool)
      modifies this
      ensures Contents() == Step(old(Contents()), CallSign(intent))
    {
      signingLock := signingLock + 1;
      waiters := waiters + [SignWait(signingLock, intent)];
    }

    method SetArkadeContext()
      modifies this
      ensures Contents() == Step(old(Contents()), CallSet)
    {
      waiters := waiters + [SetWait(nextToken, signingLock)];
      nextToken := nextToken + 1;
    }

    method ClearArkadeContext()
      modifies this
      ensures Contents() == Step(old(Contents()), CallClear)
    {
      arkadeCtx := None;
      contextPending := false;
    }

    /** `sign` behind the lock, up to the call of `signPSBT` with the context returned. */
    method EnterSign(i: nat) returns (context: Option<nat>)
      requires Enabled(Contents(), i) && waiters[i].SignWait?
      modifies this
      ensures Contents() == Step(old(Contents()), Resume(i))
      ensures context == if old(waiters[i]).intent then None else old(arkadeCtx)
    {
      var w := waiters[i];
      waiters := waiters[..i] + waiters[i + 1..];
      current := Some(w.number);
      if !w.intent {
        contextPending := false;
      }
      signCount := signCount + 1;
      if w.intent {
        intentProofSignCount := intentProofSignCount + 1;
      }
      context := if w.intent then None else arkadeCtx;
      if !w.intent {
        arkadeCtx := None;
      }
      passed := passed + [Passed(w.number, w.intent, context)];
    }

    method ArmContext(i: nat)
      requires Enabled(Contents(), i) && waiters[i].SetWait?
      modifies this
      ensures Contents() == Step(old(Contents()), Resume(i))
    {
      var w := waiters[i];
      waiters := waiters[..i] + waiters[i + 1..];
      arkadeCtx := Some(w.token);
      contextPending := true;
      armed := armed + [Armed(w.token, w.lock, released)];
    }

    /** `signPSBT` settled or threw: the lock is released either way. */
    method FinishSign()
      modifies this
      ensures Contents() == Step(old(Contents()), Finish)
    {
      if current.Some? {
        released := current.value;
        current := None;
      }
    }
  }
}
