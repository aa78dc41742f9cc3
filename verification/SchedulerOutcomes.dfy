/**
  How each task ends, told from the events, and what single steps leave behind.
 */
module SchedulerOutcomes {
  import opened Options
  import opened Scheduler

  // ----- outcomes

  lemma {:induction false} DrainKeepsTasks(s: State, line: Line)
    ensures Drain(s, line).settled == s.settled && Drain(s, line).pending == s.pending
    ensures Drain(s, line).dropped == s.dropped
    decreases |Queue(s, line)|
  {
    if Queue(s, line) != [] {
      var i := Pick(s.workers, Queue(s, line)[0].circuit);
      if i.Some? {
        DrainKeepsTasks(Advance(s, line, i.value), line);
      }
    }
  }

  /** Dispatching settles nothing. */
  lemma {:induction false} DispatchKeepsTasks(s: State)
    ensures Dispatch(s).settled == s.settled && Dispatch(s).pending == s.pending && Dispatch(s).dropped == s.dropped
  {
    DrainKeepsTasks(s, Prove);
    DrainKeepsTasks(Drain(s, Prove), Witness);
  }

  /** The worker of a task that is out and still awaited sends a message of one type. */
  predicate Answers(s: State, e: Event, id: nat, answer: Answer) {
    e.Reply? && e.id == id && e.answer == answer && Flight(id, e.key) in s.flights
  }

  /** The event ends the pending task `id` with this outcome. */
  predicate Causes(s: State, e: Event, id: nat, outcome: Outcome) {
    && id in s.pending
    && match outcome
       case Resolved => Answers(s, e, id, ProveResult)
       case Failed => Answers(s, e, id, ProveError)
       case TimedOut => e == Timeout(id)
       case Destroyed => e == Destroy
  }

  predicate SettledAs(s: State, id: nat, outcome: Outcome) {
    Settlement(id, outcome) in s.settled
  }

  lemma {:induction false} StepSettles(s: State, e: Event, id: nat, outcome: Outcome)
    ensures SettledAs(Step(s, e), id, outcome) <==> SettledAs(s, id, outcome) || Causes(s, e, id, outcome)
  {
    match e
    case Init(_) =>
    case Submit(line, circuit) => DispatchKeepsTasks(Enqueue(s, line, circuit));
    case Timeout(_) =>
    case Reply(id', key, answer) =>
      if Flight(id', key) in s.flights && id' in s.pending {
        DispatchKeepsTasks(Answered(Landed(s, Flight(id', key)), id', answer));
      }
    case Destroy =>
      var all := SettleAll(s.pending, Destroyed);
      if id in s.pending && outcome == Destroyed {
        var i :| 0 <= i < |s.pending| && s.pending[i] == id;
        assert all[i] in all;
      }
  }

  ghost predicate CausedAt(events: seq<Event>, n: nat, id: nat, outcome: Outcome) {
    n < |events| && Causes(Run(INITIAL, events[..n]), events[n], id, outcome)
  }

  /** Some event of the run ended the task with this outcome. */
  ghost predicate Caused(events: seq<Event>, id: nat, outcome: Outcome) {
    exists n: nat :: CausedAt(events, n, id, outcome)
  }

  /**
    For every run: a task is resolved exactly if its worker's result, and failed exactly if
    its worker's error, came while it was out and pending; it timed out exactly if its timer
    fired while it was pending, and was destroyed exactly if a `destroy` found it pending.
   */
  lemma {:induction false} SettledAsCaused(events: seq<Event>, id: nat, outcome: Outcome)
    ensures SettledAs(Run(INITIAL, events), id, outcome) <==> Caused(events, id, outcome)
    decreases |events|
  {
    if events != [] {
      var front, e := events[..|events| - 1], events[|events| - 1];
      SettledAsCaused(front, id, outcome);
      StepSettles(Run(INITIAL, front), e, id, outcome);
      CausedLast(front, e, id, outcome);
      assert events == front + [e];
    }
  }

  lemma {:induction false} CausedLast(front: seq<Event>, e: Event, id: nat, outcome: Outcome)
    ensures Caused(front + [e], id, outcome) <==> Caused(front, id, outcome) || Causes(Run(INITIAL, front), e, id, outcome)
  {
    forall n: nat ensures CausedAt(front + [e], n, id, outcome) <==>
                          CausedAt(front, n, id, outcome) || (n == |front| && Causes(Run(INITIAL, front), e, id, outcome))
    {
      SamePrefix(front, e, n, id, outcome);
    }
    if Causes(Run(INITIAL, front), e, id, outcome) {
      assert CausedAt(front + [e], |front|, id, outcome);
    }
  }

  lemma {:induction false} SamePrefix(front: seq<Event>, e: Event, n: nat, id: nat, outcome: Outcome)
    ensures CausedAt(front + [e], n, id, outcome) <==>
            CausedAt(front, n, id, outcome) || (n == |front| && Causes(Run(INITIAL, front), e, id, outcome))
  {
    var events := front + [e];
    if n < |front| {
      assert events[..n] == front[..n] && events[n] == front[n];
    } else if n == |front| {
      assert events[..n] == front && events[n] == e;
    }
  }

  // ----- single steps

  /** A task that finds every worker busy waits behind its own queue. */
  lemma {:induction false} SubmittedWaits(s: State, circuit: Circuit)
    requires AllBusy(s.workers)
    ensures var t := Step(s, Submit(Prove, circuit));
            t.queue == s.queue + [Task(s.nextId, circuit)] && t.wapQueue == s.wapQueue && t.sent == s.sent && t.wapSent == s.wapSent
    ensures var t := Step(s, Submit(Witness, circuit));
            t.wapQueue == s.wapQueue + [Task(s.nextId, circuit)] && t.queue == s.queue && t.sent == s.sent && t.wapSent == s.wapSent
    ensures forall line :: var t := Step(s, Submit(line, circuit));
            t.pending == s.pending + [s.nextId] && t.nextId == s.nextId + 1 && t.workers == s.workers
  {
    forall line: Line ensures Dispatch(Enqueue(s, line, circuit)) == Enqueue(s, line, circuit) {
      var t := Enqueue(s, line, circuit);
      forall c: Circuit ensures Pick(t.workers, c).None? {
      }
      assert Drain(t, Prove) == t && Drain(t, Witness) == t;
    }
  }

  /** A timer ends its task and nothing else: the worker stays busy, and nothing is sent. */
  lemma {:induction false} TimeoutOnlySettles(s: State, id: nat)
    requires id in s.pending
    ensures var t := Step(s, Timeout(id));
            && (forall x :: x in t.pending <==> x in s.pending && x != id)
            && t.settled == s.settled + [Settlement(id, TimedOut)]
            && t == s.(pending := t.pending, settled := t.settled)
  {
  }

  /** `destroy` drops pool, pending map and first queue; the second queue and the messages still out stay. */
  lemma {:induction false} DestroyLeaves(s: State)
    ensures var t := Step(s, Destroy);
            && !t.started && t.workers == [] && t.pending == [] && t.queue == []
            && t.wapQueue == s.wapQueue && t.flights == s.flights && t.sent == s.sent && t.wapSent == s.wapSent
            && |t.settled| == |s.settled| + |s.pending|
            && (forall i :: 0 <= i < |s.pending| ==> t.settled[|s.settled| + i] == Settlement(s.pending[i], Destroyed))
  {
  }

  /** In a fresh pool of several workers the unified circuit goes to worker 0 and an output chunk to worker 1; one worker takes all. */
  lemma {:induction false} FreshPool(size: nat, key: nat)
    requires size >= 1
    ensures size == 1 ==> forall c :: Pick(Pool(size, key), c) == Some(0) && Suits(Pool(size, key)[0].role, c)
    ensures size > 1 ==>
              && Pick(Pool(size, key), UnifiedCircuit) == Some(0)
              && Pick(Pool(size, key), OutputChunk) == Some(1) && Pick(Pool(size, key), OutputChunkFinal) == Some(1)
    ensures forall i :: 1 <= i < size ==>
              var role := Pool(size, key)[i].role;
              !Suits(role, UnifiedCircuit) && Suits(role, OutputChunk) && Suits(role, OutputChunkFinal)
    ensures size > 1 ==> !Suits(Pool(size, key)[0].role, OutputChunk) && !Suits(Pool(size, key)[0].role, OutputChunkFinal)
  {
    var pool := Pool(size, key);
    assert !pool[0].busy;
    forall c: Circuit ensures Pick(pool, c).Some? {
    }
    assert size > 1 ==> !pool[1].busy;
  }

  // ----- who gets a task

  /** The worker a task goes to: the first idle one of a suiting role, or the first idle one when no idle one suits. */
  predicate Chosen(workers: seq<Worker>, circuit: Circuit, i: nat) {
    && i < |workers| && !workers[i].busy
    && if Suits(workers[i].role, circuit) then forall j :: 0 <= j < i ==> workers[j].busy || !Suits(workers[j].role, circuit)
       else (forall j :: 0 <= j < i ==> workers[j].busy)
            && forall j :: 0 <= j < |workers| ==> workers[j].busy || !Suits(workers[j].role, circuit)
  }

  lemma {:induction false} PickIsChosen(workers: seq<Worker>, circuit: Circuit, i: nat)
    ensures Pick(workers, circuit) == Some(i) <==> Chosen(workers, circuit, i)
  {
    var r := Pick(workers, circuit);
    if r.Some? && Chosen(workers, circuit, i) {
      assert r.value < i || i < r.value || r.value == i;
    }
  }

  lemma {:induction false} DrainOnce(s: State, line: Line, task: Task, i: nat)
    requires Queue(s, line) == [task] && task.id in s.pending && Chosen(s.workers, task.circuit, i)
    ensures var t := Drain(s, line);
            && t.flights == s.flights + [Flight(task.id, s.workers[i].key)] && t.workers == s.workers[i := s.workers[i].(busy := true)]
            && Sent(t, line) == Sent(s, line) + [task.id] && Queue(t, line) == []
            && Queue(t, Other(line)) == Queue(s, Other(line)) && Sent(t, Other(line)) == Sent(s, Other(line))
  {
    PickIsChosen(s.workers, task.circuit, i);
    var t := Advance(s, line, i);
    assert Queue(t, line) == [];
    assert Drain(t, line) == t;
  }

  /** With nothing waiting, a new task goes out at once, to the chosen worker. */
  lemma {:induction false} SubmittedGoes(s: State, line: Line, circuit: Circuit, i: nat)
    requires s.queue == [] && s.wapQueue == [] && Chosen(s.workers, circuit, i)
    ensures var t := Step(s, Submit(line, circuit));
            && t.flights == s.flights + [Flight(s.nextId, s.workers[i].key)] && t.workers == s.workers[i := s.workers[i].(busy := true)]
            && Sent(t, line) == Sent(s, line) + [s.nextId] && Sent(t, Other(line)) == Sent(s, Other(line))
            && t.queue == [] && t.wapQueue == []
  {
    var t, task := Enqueue(s, line, circuit), Task(s.nextId, circuit);
    assert Queue(t, line) == [task] && Queue(t, Other(line)) == [];
    if line.Prove? {
      DrainOnce(t, Prove, task, i);
      var u := Drain(t, Prove);
      assert Drain(u, Witness) == u;
    } else {
      assert Drain(t, Prove) == t;
      DrainOnce(t, Witness, task, i);
    }
  }

  /** The answer of the one worker that waited on: the front of the first queue goes to that worker. */
  lemma {:induction false} AnsweredServesFront(s: State, id: nat, answer: Answer, j: nat)
    requires j < |s.workers| && Flight(id, s.workers[j].key) in s.flights && id in s.pending && answer != ForeignType
    requires AllBusy(s.workers) && forall i :: 0 <= i < |s.workers| && i != j ==> s.workers[i].key != s.workers[j].key
    requires s.queue != [] && s.queue[0].id in s.pending && s.queue[0].id != id
    ensures var t := Step(s, Reply(id, s.workers[j].key, answer));
            && t.queue == s.queue[1..] && t.wapQueue == s.wapQueue && t.workers == s.workers
            && t.sent == s.sent + [s.queue[0].id] && t.wapSent == s.wapSent
            && t.flights == Land(s.flights, Flight(id, s.workers[j].key)) + [Flight(s.queue[0].id, s.workers[j].key)]
  {
    var key := s.workers[j].key;
    var u := Answered(Landed(s, Flight(id, key)), id, answer);
    assert forall i :: 0 <= i < |s.workers| ==> u.workers[i].busy == (i != j);
    PickIsChosen(u.workers, u.queue[0].circuit, j);
    var v := Advance(u, Prove, j);
    assert v.workers == s.workers;
    BusyDrains(v, Prove);
    BusyDrains(v, Witness);
  }

  lemma {:induction false} BusyDrains(s: State, line: Line)
    requires AllBusy(s.workers)
    ensures Drain(s, line) == s
  {
    if Queue(s, line) != [] {
      assert Pick(s.workers, Queue(s, line)[0].circuit).None?;
    }
  }
}
