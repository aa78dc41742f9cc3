/**
  The prove-worker manager: two queues, a pending map, busy flags, timeouts and late
  replies. First the steps as functions of a state and what every run keeps, then the
  manager as a class whose methods take those steps.

  A worker is anything that may answer a task it was sent, at most once, at any time or
  never. Ids, the pending map in insertion order and both queues are the manager's own;
  `flights`, `sent`, `settled` and `dropped` record what the outside sees.
 */
module Scheduler {
  import opened Options

  datatype Circuit = UnifiedCircuit | OutputChunk | OutputChunkFinal

  datatype Role = Unified | Chunks | Everything

  datatype Worker = Worker(key: nat, role: Role, busy: bool)

  datatype Task = Task(id: nat, circuit: Circuit)

  /** A task a worker was sent and has not answered: the listener attached for it. */
  datatype Flight = Flight(id: nat, key: nat)

  datatype Outcome = Resolved | Failed | TimedOut | Destroyed

  datatype Settlement = Settlement(id: nat, outcome: Outcome)

  /** Which of the two queues a task waits in. */
  datatype Line = Prove | Witness

  /** The type of a worker's message. */
  datatype Answer = ProveResult | ProveError | ForeignType

  datatype State = State(started: bool, workers: seq<Worker>, pending: seq<nat>, queue: seq<Task>, wapQueue: seq<Task>,
                         nextId: nat, nextKey: nat, flights: seq<Flight>, sent: seq<nat>, wapSent: seq<nat>,
                         settled: seq<Settlement>, dropped: set<nat>)

  datatype Event =
    | Init(size: nat)
    | Submit(line: Line, circuit: Circuit)
    | Timeout(id: nat)
    | Reply(id: nat, key: nat, answer: Answer)
    | Destroy

  const INITIAL := State(false, [], [], [], [], 1, 0, [], [], [], [], {})

  // ----- picking a worker

  predicate Suits(role: Role, circuit: Circuit) {
    role == Everything || role == (if circuit == UnifiedCircuit then Unified else Chunks)
  }

  /** Index of the first idle worker, of a suiting role when `strict`. */
  function FirstIdle(workers: seq<Worker>, circuit: Circuit, strict: bool): (r: Option<nat>)
    ensures r.Some? ==> r.value < |workers| && !workers[r.value].busy
    ensures r.Some? ==> strict ==> Suits(workers[r.value].role, circuit)
    ensures r.Some? ==> forall i :: 0 <= i < r.value ==> workers[i].busy || (strict && !Suits(workers[i].role, circuit))
    ensures r.None? ==>
              forall i :: 0 <= i < |workers| ==> workers[i].busy || (strict && !Suits(workers[i].role, circuit))
  {
    if workers == [] then None
    else if !workers[0].busy && (strict ==> Suits(workers[0].role, circuit)) then Some(0)
    else
      var rest := FirstIdle(workers[1..], circuit, strict);
      if rest.None? then None else Some(rest.value + 1)
  }

  /**
    `_pickWorkerForRole`: an idle worker if there is one, of a suiting role if an idle
    worker has one.
   */
  function Pick(workers: seq<Worker>, circuit: Circuit): (r: Option<nat>)
    ensures r.None? <==> AllBusy(workers)
    ensures r.Some? ==> r.value < |workers| && !workers[r.value].busy
    ensures r.Some? && !Suits(workers[r.value].role, circuit) ==>
              forall i :: 0 <= i < |workers| && !workers[i].busy ==> !Suits(workers[i].role, circuit)
    ensures r.Some? ==>
              forall i :: 0 <= i < r.value && !workers[i].busy ==>
                Suits(workers[r.value].role, circuit) && !Suits(workers[i].role, circuit)
  {
    var matched := FirstIdle(workers, circuit, true);
    if matched.Some? then matched else FirstIdle(workers, circuit, false)
  }

  predicate AllBusy(workers: seq<Worker>) {
    forall i :: 0 <= i < |workers| ==> workers[i].busy
  }

  // ----- the steps

  function Queue(s: State, line: Line): seq<Task> {
    if line.Prove? then s.queue else s.wapQueue
  }

  function Sent(s: State, line: Line): seq<nat> {
    if line.Prove? then s.sent else s.wapSent
  }

  function Shift(s: State, line: Line): State
    requires Queue(s, line) != []
  {
    if line.Prove? then s.(queue := s.queue[1..]) else s.(wapQueue := s.wapQueue[1..])
  }

  function Record(s: State, line: Line, id: nat): State {
    if line.Prove? then s.(sent := s.sent + [id]) else s.(wapSent := s.wapSent + [id])
  }

  /** One turn of a dispatch loop: the head goes to worker `i`, unless it timed out. */
  function Advance(s: State, line: Line, i: nat): State
    requires Queue(s, line) != [] && i < |s.workers|
  {
    var id := Queue(s, line)[0].id;
    var t := Shift(s, line);
    if id !in s.pending then t
    else
      var w := s.workers[i];
      Record(t.(workers := s.workers[i := w.(busy := true)], flights := s.flights + [Flight(id, w.key)]), line, id)
  }

  function Drain(s: State, line: Line): State
    decreases |Queue(s, line)|, s
  {
    if Queue(s, line) == [] then s
    else
      var i := Pick(s.workers, Queue(s, line)[0].circuit);
      if i.None? then s else Drain(Advance(s, line, i.value), line)
  }

  /** `_dispatch` */
  function Dispatch(s: State): State {
    Drain(Drain(s, Prove), Witness)
  }

  function Remove(xs: seq<nat>, x: nat): (r: seq<nat>)
    ensures forall y :: y in r <==> y in xs && y != x
  {
    if xs == [] then []
    else if xs[0] == x then Remove(xs[1..], x)
    else [xs[0]] + Remove(xs[1..], x)
  }

  function Land(flights: seq<Flight>, f: Flight): (r: seq<Flight>)
    ensures forall g :: g in r <==> g in flights && g != f
  {
    if flights == [] then []
    else if flights[0] == f then Land(flights[1..], f)
    else [flights[0]] + Land(flights[1..], f)
  }

  function Free(workers: seq<Worker>, key: nat): (r: seq<Worker>)
    ensures |r| == |workers|
    ensures forall i :: 0 <= i < |r| ==>
                r[i] == if workers[i].key == key then workers[i].(busy := false) else workers[i]
  {
    if workers == [] then []
    else [if workers[0].key == key then workers[0].(busy := false) else workers[0]] + Free(workers[1..], key)
  }

  /** The answered worker is free again, in whatever pool it is. */
  function Landed(s: State, f: Flight): State {
    s.(flights := Land(s.flights, f), workers := Free(s.workers, f.key))
  }

  function Settle(s: State, id: nat, outcome: Outcome): State {
    s.(pending := Remove(s.pending, id), settled := s.settled + [Settlement(id, outcome)])
  }

  function SettleAll(ids: seq<nat>, outcome: Outcome): (r: seq<Settlement>)
    ensures |r| == |ids| && forall i :: 0 <= i < |r| ==> r[i] == Settlement(ids[i], outcome)
  {
    if ids == [] then [] else [Settlement(ids[0], outcome)] + SettleAll(ids[1..], outcome)
  }

  function RoleOf(i: nat, size: nat): Role {
    if size == 1 then Everything else if i == 0 then Unified else Chunks
  }

  function Pool(size: nat, key: nat): (r: seq<Worker>)
    ensures |r| == size && forall i :: 0 <= i < size ==> r[i] == Worker(key + i, RoleOf(i, size), false)
  {
    seq(size, i requires i >= 0 => Worker(key + i, RoleOf(i, size), false))
  }

  /** A new task behind one of the queues, before dispatching. */
  function Enqueue(s: State, line: Line, circuit: Circuit): State {
    var t := s.(nextId := s.nextId + 1, pending := s.pending + [s.nextId]);
    var task := Task(s.nextId, circuit);
    if line.Prove? then t.(queue := s.queue + [task]) else t.(wapQueue := s.wapQueue + [task])
  }

  function Step(s: State, e: Event): State {
    match e
    case Init(size) =>
      if s.started then s
      else s.(started := true, workers := Pool(size, s.nextKey), nextKey := s.nextKey + size)
    case Submit(line, circuit) => Dispatch(Enqueue(s, line, circuit))
    case Timeout(id) =>
      if id in s.pending then Settle(s, id, TimedOut) else s
    case Reply(id, key, answer) =>
      if Flight(id, key) !in s.flights then s
      else
        var t := Landed(s, Flight(id, key));
        if id !in s.pending then t else Dispatch(Answered(t, id, answer))
    case Destroy =>
      s.(started := false, workers := [], pending := [], queue := [],
         settled := s.settled + SettleAll(s.pending, Destroyed))
  }

  /** An answer settles its task; a message of a foreign type only forgets it. */
  function Answered(s: State, id: nat, answer: Answer): State {
    match answer
    case ProveResult => Settle(s, id, Resolved)
    case ProveError => Settle(s, id, Failed)
    case ForeignType => s.(pending := Remove(s.pending, id), dropped := s.dropped + {id})
  }

  function Run(s: State, events: seq<Event>): State {
    if events == [] then s else Step(Run(s, events[..|events| - 1]), events[|events| - 1])
  }

  // ----- what every step keeps

  function Ids(tasks: seq<Task>): (r: seq<nat>)
    ensures |r| == |tasks| && forall i :: 0 <= i < |r| ==> r[i] == tasks[i].id
  {
    if tasks == [] then [] else [tasks[0].id] + Ids(tasks[1..])
  }

  /** Everything a queue ever gave out or still holds, timed-out tasks it skipped left out. */
  function Track(s: State, line: Line): seq<nat> {
    Sent(s, line) + Ids(Queue(s, line))
  }

  predicate Ascending(xs: seq<nat>) {
    forall i, j :: 0 <= i < j < |xs| ==> xs[i] < xs[j]
  }

  ghost predicate Issued(s: State, xs: seq<nat>) {
    forall i :: 0 <= i < |xs| ==> 1 <= xs[i] < s.nextId
  }

  /** Ids go up along each queue's history, and no id is in both. */
  ghost predicate TracksOrdered(s: State) {
    && Ascending(Track(s, Prove)) && Ascending(Track(s, Witness))
    && Issued(s, Track(s, Prove)) && Issued(s, Track(s, Witness))
    && forall x :: x in Track(s, Prove) ==> x !in Track(s, Witness)
  }

  /** Distinct workers, each flight on its own, busy exactly while one is out. */
  ghost predicate WorkersOwe(s: State) {
    && (forall i, j :: 0 <= i < j < |s.workers| ==> s.workers[i].key != s.workers[j].key)
    && (forall i :: 0 <= i < |s.workers| ==> s.workers[i].key < s.nextKey)
    && KeysApart(s.flights)
    && (forall i :: 0 <= i < |s.flights| ==> s.flights[i].key < s.nextKey)
    && (forall i :: 0 <= i < |s.workers| ==> (s.workers[i].busy <==> Owes(s.flights, s.workers[i].key)))
    && (!s.started ==> s.workers == [])
  }

  ghost predicate KeysApart(flights: seq<Flight>) {
    forall i, j :: 0 <= i < j < |flights| ==> flights[i].key != flights[j].key
  }

  ghost predicate IdsApart(flights: seq<Flight>) {
    forall i, j :: 0 <= i < j < |flights| ==> flights[i].id != flights[j].id
  }

  ghost predicate Owes(flights: seq<Flight>, key: nat) {
    exists i :: 0 <= i < |flights| && flights[i].key == key
  }

  /** Every flight was sent, once. */
  ghost predicate FlightsSent(s: State) {
    && IdsApart(s.flights)
    && (forall f :: f in s.flights ==> f.id in s.sent || f.id in s.wapSent)
  }

  ghost predicate Flying(s: State, id: nat) {
    exists f :: f in s.flights && f.id == id
  }

  /** A pending task waits in a queue or is out with a worker. */
  ghost predicate PendingPlaced(s: State) {
    && Ascending(s.pending) && Issued(s, s.pending)
    && forall id :: id in s.pending ==> id in Ids(s.queue) || id in Ids(s.wapQueue) || Flying(s, id)
  }

  ghost predicate Settled(s: State, id: nat) {
    exists i :: 0 <= i < |s.settled| && s.settled[i].id == id
  }

  /** Every issued id is pending, settled or dropped, never two of these, and settled once. */
  ghost predicate Conserved(s: State) {
    && s.nextId >= 1
    && (forall i, j :: 0 <= i < j < |s.settled| ==> s.settled[i].id != s.settled[j].id)
    && (forall id: nat :: 1 <= id < s.nextId <==> id in s.pending || Settled(s, id) || id in s.dropped)
    && (forall id :: id in s.pending ==> !Settled(s, id) && id !in s.dropped)
    && (forall id :: id in s.dropped ==> !Settled(s, id))
  }

  ghost predicate Inv(s: State) {
    TracksOrdered(s) && WorkersOwe(s) && FlightsSent(s) && PendingPlaced(s) && Conserved(s)
  }

  // ----- one turn of a dispatch loop

  /** Where a queued id stands in its queue's history. */
  lemma {:induction false} HeadIsNew(s: State, line: Line)
    requires TracksOrdered(s) && Queue(s, line) != []
    ensures var id := Queue(s, line)[0].id; id !in s.sent && id !in s.wapSent && 1 <= id < s.nextId
  {
    var id := Queue(s, line)[0].id;
    var track, n := Track(s, line), |Sent(s, line)|;
    assert track[n] == Ids(Queue(s, line))[0] == id;
    forall k | 0 <= k < n ensures Sent(s, line)[k] != id {
      assert track[k] == Sent(s, line)[k];
    }
    var other := Other(line);
    forall k | 0 <= k < |Sent(s, other)| ensures Sent(s, other)[k] != id {
      assert Track(s, other)[k] == Sent(s, other)[k];
      assert track[n] in track && Track(s, other)[k] in Track(s, other);
    }
  }

  function Other(line: Line): Line {
    if line.Prove? then Witness else Prove
  }

  lemma {:induction false} AscendingSkip(front: seq<nat>, x: nat, back: seq<nat>)
    requires Ascending(front + [x] + back)
    ensures Ascending(front + back)
    ensures forall k :: 0 <= k < |front + back| ==> (front + back)[k] in front + [x] + back
  {
    var all := front + [x] + back;
    forall k | 0 <= k < |front + back| ensures (front + back)[k] in all {
      assert (front + back)[k] == all[if k < |front| then k else k + 1];
    }
    forall i, j | 0 <= i < j < |front + back| ensures (front + back)[i] < (front + back)[j] {
      var i', j' := if i < |front| then i else i + 1, if j < |front| then j else j + 1;
      assert all[i'] == (front + back)[i] && all[j'] == (front + back)[j];
    }
  }

  /** The history keeps a live head where it was and loses a dead one. */
  lemma {:induction false} TrackAfter(s: State, line: Line, i: nat)
    requires Queue(s, line) != [] && i < |s.workers|
    ensures var sent, id, rest := Sent(s, line), Queue(s, line)[0].id, Ids(Queue(s, line)[1..]);
            && Track(s, line) == sent + [id] + rest
            && Track(Advance(s, line, i), line) == if id in s.pending then sent + [id] + rest else sent + rest
  {
    var sent, id, rest := Sent(s, line), Queue(s, line)[0].id, Ids(Queue(s, line)[1..]);
    assert sent + ([id] + rest) == sent + [id] + rest;
  }

  lemma {:induction false} AdvanceTrack(s: State, line: Line, i: nat)
    requires Queue(s, line) != [] && i < |s.workers| && Ascending(Track(s, line))
    ensures Ascending(Track(Advance(s, line, i), line))
    ensures forall k :: 0 <= k < |Track(Advance(s, line, i), line)| ==> Track(Advance(s, line, i), line)[k] in Track(s, line)
  {
    TrackAfter(s, line, i);
    AscendingSkip(Sent(s, line), Queue(s, line)[0].id, Ids(Queue(s, line)[1..]));
  }

  lemma {:induction false} AdvanceOther(s: State, line: Line, i: nat)
    requires Queue(s, line) != [] && i < |s.workers|
    ensures Track(Advance(s, line, i), Other(line)) == Track(s, Other(line))
    ensures Advance(s, line, i).nextId == s.nextId
  {
  }

  lemma {:induction false} AdvanceTracks(s: State, line: Line, i: nat)
    requires TracksOrdered(s) && Queue(s, line) != [] && i < |s.workers|
    ensures TracksOrdered(Advance(s, line, i))
  {
    AdvanceTrack(s, line, i);
    AdvanceOther(s, line, i);
    Subtracks(s, line, Advance(s, line, i));
  }

  /** A history that only lost ids stays in order beside an unchanged one. */
  lemma {:induction false} Subtracks(s: State, line: Line, t: State)
    requires TracksOrdered(s) && s.nextId <= t.nextId
    requires Ascending(Track(t, line)) && Track(t, Other(line)) == Track(s, Other(line))
    requires forall k :: 0 <= k < |Track(t, line)| ==> Track(t, line)[k] in Track(s, line)
    ensures TracksOrdered(t)
  {
  }

  lemma {:induction false} AdvanceOwes(s: State, line: Line, i: nat)
    requires WorkersOwe(s) && Queue(s, line) != [] && i < |s.workers| && !s.workers[i].busy
    ensures WorkersOwe(Advance(s, line, i))
  {
    var t := Advance(s, line, i);
    var id := Queue(s, line)[0].id;
    if id in s.pending {
      var f := Flight(id, s.workers[i].key);
      assert t.flights == s.flights + [f];
      forall j | 0 <= j < |t.workers| ensures t.workers[j].busy <==> Owes(t.flights, t.workers[j].key) {
        OwesMore(s.flights, f, t.workers[j].key);
      }
    }
  }

  lemma {:induction false} OwesMore(flights: seq<Flight>, f: Flight, key: nat)
    ensures Owes(flights + [f], key) <==> Owes(flights, key) || f.key == key
  {
    var more := flights + [f];
    if Owes(flights, key) {
      var i :| 0 <= i < |flights| && flights[i].key == key;
      assert more[i].key == key;
    }
    if f.key == key {
      assert more[|flights|].key == key;
    }
  }

  lemma {:induction false} AdvanceFlights(s: State, line: Line, i: nat)
    requires TracksOrdered(s) && FlightsSent(s) && Queue(s, line) != [] && i < |s.workers|
    ensures FlightsSent(Advance(s, line, i))
  {
    HeadIsNew(s, line);
    var t := Advance(s, line, i);
    var id := Queue(s, line)[0].id;
    if id in s.pending {
      forall j | 0 <= j < |s.flights| ensures s.flights[j].id != id {
        assert s.flights[j] in s.flights;
      }
      assert id in Sent(t, line);
    }
  }

  lemma {:induction false} AdvancePlaces(s: State, line: Line, i: nat)
    requires PendingPlaced(s) && Queue(s, line) != [] && i < |s.workers|
    ensures PendingPlaced(Advance(s, line, i))
  {
    var t := Advance(s, line, i);
    var q, head := Queue(s, line), Queue(s, line)[0].id;
    assert Ids(q) == [head] + Ids(q[1..]);
    forall id | id in t.pending ensures id in Ids(t.queue) || id in Ids(t.wapQueue) || Flying(t, id) {
      if Flying(s, id) {
        var f :| f in s.flights && f.id == id;
        assert f in t.flights;
      } else if id == head {
        assert Flight(id, s.workers[i].key) in t.flights;
      }
    }
  }

  lemma {:induction false} AdvanceConserves(s: State, line: Line, i: nat)
    requires Conserved(s) && Queue(s, line) != [] && i < |s.workers|
    ensures Conserved(Advance(s, line, i))
  {
    assert forall id :: Settled(Advance(s, line, i), id) <==> Settled(s, id);
  }

  lemma {:induction false} AdvanceKeeps(s: State, line: Line, i: nat)
    requires Inv(s) && Queue(s, line) != [] && i < |s.workers| && !s.workers[i].busy
    ensures Inv(Advance(s, line, i))
  {
    AdvanceTracks(s, line, i);
    AdvanceOwes(s, line, i);
    AdvanceFlights(s, line, i);
    AdvancePlaces(s, line, i);
    AdvanceConserves(s, line, i);
  }

  lemma {:induction false} DrainKeeps(s: State, line: Line)
    requires Inv(s)
    ensures Inv(Drain(s, line))
    decreases |Queue(s, line)|
  {
    if Queue(s, line) != [] {
      var i := Pick(s.workers, Queue(s, line)[0].circuit);
      if i.Some? {
        AdvanceKeeps(s, line, i.value);
        DrainKeeps(Advance(s, line, i.value), line);
      }
    }
  }

  lemma {:induction false} DispatchKeeps(s: State)
    requires Inv(s)
    ensures Inv(Dispatch(s))
  {
    DrainKeeps(s, Prove);
    DrainKeeps(Drain(s, Prove), Witness);
  }

  // ----- the other steps

  lemma {:induction false} IdsSnoc(tasks: seq<Task>, t: Task)
    ensures Ids(tasks + [t]) == Ids(tasks) + [t.id]
  {
  }

  lemma {:induction false} EnqueueTrack(s: State, line: Line, circuit: Circuit)
    ensures Track(Enqueue(s, line, circuit), line) == Track(s, line) + [s.nextId]
    ensures Track(Enqueue(s, line, circuit), Other(line)) == Track(s, Other(line))
  {
    IdsSnoc(Queue(s, line), Task(s.nextId, circuit));
    assert Sent(s, line) + (Ids(Queue(s, line)) + [s.nextId]) == Track(s, line) + [s.nextId];
  }

  lemma {:induction false} EnqueueTracks(s: State, line: Line, circuit: Circuit)
    requires TracksOrdered(s) && s.nextId >= 1
    ensures TracksOrdered(Enqueue(s, line, circuit))
  {
    var t := Enqueue(s, line, circuit);
    EnqueueTrack(s, line, circuit);
    NewAtEnd(s, Track(s, line));
    ApartFromNew(s, Track(s, line), Track(s, Other(line)));
    assert Issued(t, Track(s, line) + [s.nextId]) && Issued(t, Track(s, Other(line)));
  }

  /** An id not issued before is in no history. */
  lemma {:induction false} ApartFromNew(s: State, mine: seq<nat>, other: seq<nat>)
    requires Issued(s, other) && forall x :: x in mine ==> x !in other
    ensures forall x :: x in mine + [s.nextId] ==> x !in other
  {
    forall k | 0 <= k < |other| ensures other[k] != s.nextId {
    }
  }

  lemma {:induction false} NewAtEnd(s: State, xs: seq<nat>)
    requires Ascending(xs) && Issued(s, xs)
    ensures Ascending(xs + [s.nextId])
  {
  }

  lemma {:induction false} EnqueuePlaces(s: State, line: Line, circuit: Circuit)
    requires PendingPlaced(s) && s.nextId >= 1
    ensures PendingPlaced(Enqueue(s, line, circuit))
  {
    var t := Enqueue(s, line, circuit);
    IdsSnoc(Queue(s, line), Task(s.nextId, circuit));
    NewAtEnd(s, s.pending);
    forall id | id in t.pending ensures id in Ids(t.queue) || id in Ids(t.wapQueue) || Flying(t, id) {
      if id == s.nextId {
        assert Ids(Queue(t, line))[|Queue(s, line)|] == id;
      } else if Flying(s, id) {
        assert Flying(t, id);
      } else {
        InFront(Ids(Queue(s, line)), s.nextId, id);
      }
    }
  }

  lemma {:induction false} InFront(xs: seq<nat>, y: nat, x: nat)
    ensures x in xs ==> x in xs + [y]
  {
  }

  lemma {:induction false} EnqueueKeeps(s: State, line: Line, circuit: Circuit)
    requires Inv(s)
    ensures Inv(Enqueue(s, line, circuit))
  {
    var t := Enqueue(s, line, circuit);
    EnqueueTracks(s, line, circuit);
    EnqueuePlaces(s, line, circuit);
    assert forall id :: Settled(t, id) <==> Settled(s, id);
    assert forall id :: id in t.pending <==> id in s.pending || id == s.nextId;
  }

  lemma {:induction false} RemoveAscending(xs: seq<nat>, x: nat)
    requires Ascending(xs)
    ensures Ascending(Remove(xs, x))
    decreases |xs|
  {
    if xs != [] {
      RemoveAscending(xs[1..], x);
      var r := Remove(xs[1..], x);
      forall k | 0 <= k < |r| ensures xs[0] < r[k] {
        assert r[k] in xs[1..];
      }
    }
  }

  lemma {:induction false} SettledMore(s: State, id: nat, outcome: Outcome, x: nat)
    ensures Settled(Settle(s, id, outcome), x) <==> Settled(s, x) || x == id
  {
    var more := Settle(s, id, outcome).settled;
    if Settled(s, x) {
      var i :| 0 <= i < |s.settled| && s.settled[i].id == x;
      assert more[i].id == x;
    }
    assert more[|s.settled|].id == id;
  }

  /** Forgetting a pending id, settled or dropped, keeps everything. */
  lemma {:induction false} ForgetKeeps(s: State, id: nat, t: State)
    requires Inv(s) && id in s.pending
    requires t == s.(pending := Remove(s.pending, id), dropped := s.dropped + {id})
             || exists outcome :: t == Settle(s, id, outcome)
    ensures Inv(t)
  {
    RemoveAscending(s.pending, id);
    forall k | 0 <= k < |t.pending| ensures 1 <= t.pending[k] < t.nextId {
      assert t.pending[k] in s.pending;
    }
    forall x | x in t.pending ensures x in Ids(t.queue) || x in Ids(t.wapQueue) || Flying(t, x) {
      assert Flying(s, x) ==> Flying(t, x);
    }
    if t.settled == s.settled {
      assert forall x :: Settled(t, x) <==> Settled(s, x);
    } else {
      var outcome :| t == Settle(s, id, outcome);
      forall x ensures Settled(t, x) <==> Settled(s, x) || x == id {
        SettledMore(s, id, outcome, x);
      }
    }
  }

  lemma {:induction false} LandDistinct(flights: seq<Flight>, f: Flight)
    requires KeysApart(flights) && IdsApart(flights)
    ensures KeysApart(Land(flights, f)) && IdsApart(Land(flights, f))
    decreases |flights|
  {
    if flights != [] {
      LandDistinct(flights[1..], f);
      var r := Land(flights[1..], f);
      forall k | 0 <= k < |r| ensures flights[0].key != r[k].key && flights[0].id != r[k].id {
        assert r[k] in r;
        var m :| 0 <= m < |flights[1..]| && flights[1..][m] == r[k];
        assert flights[1 + m] == r[k];
      }
      if flights[0] != f {
        assert Land(flights, f) == [flights[0]] + r;
      }
    }
  }

  lemma {:induction false} LandOwes(flights: seq<Flight>, f: Flight, key: nat)
    requires KeysApart(flights) && f in flights
    ensures Owes(Land(flights, f), key) <==> Owes(flights, key) && key != f.key
  {
    var r := Land(flights, f);
    if Owes(r, key) {
      var i :| 0 <= i < |r| && r[i].key == key;
      assert r[i] in flights;
    }
    if Owes(flights, key) && key != f.key {
      var i :| 0 <= i < |flights| && flights[i].key == key;
      assert flights[i] in r;
    }
  }

  lemma {:induction false} LandWorkers(s: State, f: Flight)
    requires WorkersOwe(s) && FlightsSent(s) && f in s.flights
    ensures WorkersOwe(Landed(s, f)) && FlightsSent(Landed(s, f))
  {
    var t := Landed(s, f);
    LandDistinct(s.flights, f);
    forall i | 0 <= i < |t.workers| ensures t.workers[i].busy <==> Owes(t.flights, t.workers[i].key) {
      LandOwes(s.flights, f, t.workers[i].key);
    }
    forall i | 0 <= i < |t.flights| ensures t.flights[i].key < t.nextKey {
      assert t.flights[i] in s.flights;
    }
  }

  lemma {:induction false} LandKeeps(s: State, f: Flight)
    requires Inv(s) && f in s.flights && f.id !in s.pending
    ensures Inv(Landed(s, f))
  {
    var t := Landed(s, f);
    LandWorkers(s, f);
    forall id | id in t.pending ensures id in Ids(t.queue) || id in Ids(t.wapQueue) || Flying(t, id) {
      if Flying(s, id) {
        var g :| g in s.flights && g.id == id;
        assert g in t.flights;
      }
    }
    SameElsewhere(s, t);
  }

  /** Steps that leave ids, queues and settlements alone keep what is said about them. */
  lemma {:induction false} SameElsewhere(s: State, t: State)
    requires t.(flights := s.flights, workers := s.workers, nextKey := s.nextKey, started := s.started) == s
    ensures TracksOrdered(s) ==> TracksOrdered(t)
    ensures Conserved(s) ==> Conserved(t)
  {
    assert Track(t, Prove) == Track(s, Prove) && Track(t, Witness) == Track(s, Witness);
    assert forall id :: Settled(t, id) <==> Settled(s, id);
  }

  lemma {:induction false} AnswerCommutes(s: State, f: Flight, id: nat, answer: Answer)
    ensures Landed(Answered(s, id, answer), f) == Answered(Landed(s, f), id, answer)
  {
  }

  /** An awaited answer: settle, free the worker, dispatch. */
  lemma {:induction false} AwaitedAnswer(s: State, f: Flight, answer: Answer)
    requires f in s.flights && f.id in s.pending
    ensures Step(s, Reply(f.id, f.key, answer)) == Dispatch(Landed(Answered(s, f.id, answer), f))
  {
    AnswerCommutes(s, f, f.id, answer);
  }

  lemma {:induction false} AnsweredKeeps(s: State, f: Flight, answer: Answer)
    requires Inv(s) && f in s.flights && f.id in s.pending
    ensures Inv(Landed(Answered(s, f.id, answer), f))
  {
    ForgetKeeps(s, f.id, Answered(s, f.id, answer));
    LandKeeps(Answered(s, f.id, answer), f);
  }

  lemma {:induction false} ReplyKeeps(s: State, id: nat, key: nat, answer: Answer)
    requires Inv(s)
    ensures Inv(Step(s, Reply(id, key, answer)))
  {
    var f := Flight(id, key);
    if f in s.flights && id in s.pending {
      AnsweredKeeps(s, f, answer);
      DispatchKeeps(Landed(Answered(s, id, answer), f));
      AwaitedAnswer(s, f, answer);
    } else if f in s.flights {
      LandKeeps(s, f);
    }
  }

  lemma {:induction false} DestroyConserves(s: State)
    requires Inv(s)
    ensures Conserved(Step(s, Destroy))
  {
    var t, n := Step(s, Destroy), |s.settled|;
    forall x ensures Settled(t, x) <==> Settled(s, x) || x in s.pending {
      DestroySettles(s, x);
    }
    forall i, j | 0 <= i < j < |t.settled| ensures t.settled[i].id != t.settled[j].id {
      if i < n <= j {
        assert s.pending[j - n] in s.pending && Settled(s, s.settled[i].id);
      } else if n <= i {
        assert s.pending[i - n] < s.pending[j - n];
      }
    }
  }

  lemma {:induction false} DestroySettles(s: State, x: nat)
    ensures Settled(Step(s, Destroy), x) <==> Settled(s, x) || x in s.pending
  {
    var t, n := Step(s, Destroy), |s.settled|;
    if Settled(s, x) {
      var i :| 0 <= i < n && s.settled[i].id == x;
      assert t.settled[i].id == x;
    }
    if x in s.pending {
      var i :| 0 <= i < |s.pending| && s.pending[i] == x;
      assert t.settled[n + i].id == x;
    }
    if Settled(t, x) {
      var i :| 0 <= i < |t.settled| && t.settled[i].id == x;
      if i >= n {
        assert s.pending[i - n] == x;
      }
    }
  }

  lemma {:induction false} DestroyKeeps(s: State)
    requires Inv(s)
    ensures Inv(Step(s, Destroy))
  {
    var t := Step(s, Destroy);
    DestroyConserves(s);
    DestroyTracks(s);
  }

  lemma {:induction false} DestroyTracks(s: State)
    requires TracksOrdered(s)
    ensures TracksOrdered(Step(s, Destroy))
  {
    var t := Step(s, Destroy);
    assert Track(t, Witness) == Track(s, Witness);
    assert Track(t, Prove) == s.sent;
    assert s.sent == Track(s, Prove)[..|s.sent|];
    forall x | x in s.sent ensures x in Track(s, Prove) {
    }
  }

  lemma {:induction false} InitKeeps(s: State, size: nat)
    requires Inv(s)
    ensures Inv(Step(s, Init(size)))
  {
    var t := Step(s, Init(size));
    SameElsewhere(s, t);
    forall id | Flying(s, id) ensures Flying(t, id) {
    }
  }

  lemma {:induction false} StepKeeps(s: State, e: Event)
    requires Inv(s)
    ensures Inv(Step(s, e))
  {
    match e
    case Init(size) => InitKeeps(s, size);
    case Submit(line, circuit) =>
      EnqueueKeeps(s, line, circuit);
      DispatchKeeps(Enqueue(s, line, circuit));
    case Timeout(id) =>
      if id in s.pending {
        ForgetKeeps(s, id, Settle(s, id, TimedOut));
      }
    case Reply(id, key, answer) => ReplyKeeps(s, id, key, answer);
    case Destroy => DestroyKeeps(s);
  }

  lemma {:induction false} InitialKeeps()
    ensures Inv(INITIAL)
  {
  }

  lemma {:induction false} RunLast(s: State, events: seq<Event>)
    requires events != []
    ensures Run(s, events) == Step(Run(s, events[..|events| - 1]), events[|events| - 1])
  {
  }

  /** Every reachable state keeps the invariant, whatever happened and in whatever order. */
  lemma {:induction false} RunKeeps(events: seq<Event>)
    ensures Inv(Run(INITIAL, events))
    decreases |events|
  {
    if events == [] {
      InitialKeeps();
    } else {
      var front, last := events[..|events| - 1], events[|events| - 1];
      RunKeeps(front);
      StepKeeps(Run(INITIAL, front), last);
      RunLast(INITIAL, events);
    }
  }

  // ----- what dispatching does

  function LiveIds(tasks: seq<Task>, pending: seq<nat>): seq<nat> {
    if tasks == [] then []
    else (if tasks[0].id in pending then [tasks[0].id] else []) + LiveIds(tasks[1..], pending)
  }

  /** Dispatching settles, forgets and issues nothing, and leaves the other queue alone. */
  lemma {:induction false} DrainQuiet(s: State, line: Line)
    ensures var t := Drain(s, line);
            && Queue(t, Other(line)) == Queue(s, Other(line)) && Sent(t, Other(line)) == Sent(s, Other(line))
            && t.pending == s.pending && t.settled == s.settled && t.dropped == s.dropped && t.nextId == s.nextId
    decreases |Queue(s, line)|
  {
    if Queue(s, line) != [] {
      var i := Pick(s.workers, Queue(s, line)[0].circuit);
      if i.Some? {
        DrainQuiet(Advance(s, line, i.value), line);
      }
    }
  }

  ghost predicate TookFront(s: State, line: Line, k: nat, t: State) {
    && k <= |Queue(s, line)| && Queue(t, line) == Queue(s, line)[k..]
    && Sent(t, line) == Sent(s, line) + LiveIds(Queue(s, line)[..k], s.pending)
  }

  lemma {:induction false} TookNone(s: State, line: Line)
    ensures TookFront(s, line, 0, s)
  {
    assert Queue(s, line)[0..] == Queue(s, line) && LiveIds(Queue(s, line)[..0], s.pending) == [];
  }

  lemma {:induction false} LiveCons(q: seq<Task>, k: nat, pending: seq<nat>)
    requires k < |q|
    ensures LiveIds(q[..k + 1], pending) == (if q[0].id in pending then [q[0].id] else []) + LiveIds(q[1..][..k], pending)
  {
    assert q[..k + 1][0] == q[0] && q[..k + 1][1..] == q[1..][..k];
  }

  lemma {:induction false} FrontJoins(q: seq<Task>, k: nat, pending: seq<nat>, sent: seq<nat>, after: seq<nat>, left: seq<Task>)
    requires k < |q| && left == q[1..][k..]
    requires after == sent + (if q[0].id in pending then [q[0].id] else []) + LiveIds(q[1..][..k], pending)
    ensures left == q[k + 1..] && after == sent + LiveIds(q[..k + 1], pending)
  {
    LiveCons(q, k, pending);
  }

  lemma {:induction false} AdvanceSends(s: State, line: Line, i: nat)
    requires Queue(s, line) != [] && i < |s.workers|
    ensures var q, a := Queue(s, line), Advance(s, line, i);
            && Queue(a, line) == q[1..] && a.pending == s.pending
            && Sent(a, line) == Sent(s, line) + (if q[0].id in s.pending then [q[0].id] else [])
  {
  }

  lemma {:induction false} TookOneMore(s: State, line: Line, i: nat, k: nat, t: State)
    requires Queue(s, line) != [] && i < |s.workers| && TookFront(Advance(s, line, i), line, k, t)
    ensures TookFront(s, line, k + 1, t)
  {
    AdvanceSends(s, line, i);
    FrontJoins(Queue(s, line), k, s.pending, Sent(s, line), Sent(t, line), Queue(t, line));
  }

  /**
    Draining takes a front of the queue, sends exactly its live tasks in order, and stops
    only at the end of the queue or when every worker is busy.
   */
  lemma {:induction false} DrainTakesFront(s: State, line: Line) returns (k: nat)
    ensures TookFront(s, line, k, Drain(s, line))
    ensures Queue(Drain(s, line), line) == [] || AllBusy(Drain(s, line).workers)
    decreases |Queue(s, line)|
  {
    k := 0;
    if Queue(s, line) == [] {
      TookNone(s, line);
    } else {
      var i := Pick(s.workers, Queue(s, line)[0].circuit);
      if i.None? {
        TookNone(s, line);
      } else {
        var m := DrainTakesFront(Advance(s, line, i.value), line);
        k := m + 1;
        TookOneMore(s, line, i.value, m, Drain(s, line));
      }
    }
  }

  /** No worker is left idle while a task waits, and the second queue only gets what the first leaves. */
  lemma {:induction false} DispatchLeavesNoIdle(s: State)
    ensures var t := Dispatch(s);
            && ((t.queue == [] && t.wapQueue == []) || AllBusy(t.workers))
            && (t.wapQueue != s.wapQueue ==> t.queue == [])
            && (t.wapSent != s.wapSent ==> t.queue == [])
  {
    var t := Drain(s, Prove);
    var k := DrainTakesFront(s, Prove);
    var m := DrainTakesFront(t, Witness);
    DrainQuiet(s, Prove);
    DrainQuiet(t, Witness);
    if t.queue != [] {
      assert AllBusy(t.workers);
      assert Drain(t, Witness) == t;
    }
  }

  // ----- corollaries for every reachable state

  /** No task is sent twice, from either queue, and each queue sends in submission order. */
  lemma {:induction false} NeverSentTwice(events: seq<Event>)
    ensures var s := Run(INITIAL, events);
            && Ascending(s.sent) && Ascending(s.wapSent)
            && (forall id :: id in s.sent ==> id !in s.wapSent)
            && (forall id :: id in s.sent ==> id !in Ids(s.queue) && id !in Ids(s.wapQueue))
            && (forall id :: id in s.wapSent ==> id !in Ids(s.queue) && id !in Ids(s.wapQueue))
  {
    RunKeeps(events);
    var s := Run(INITIAL, events);
    SentApart(s, Prove);
    SentApart(s, Witness);
  }

  lemma {:induction false} SentApart(s: State, line: Line)
    requires TracksOrdered(s)
    ensures Ascending(Sent(s, line))
    ensures forall id :: id in Sent(s, line) ==>
              id !in Sent(s, Other(line)) && id !in Ids(Queue(s, line)) && id !in Ids(Queue(s, Other(line)))
  {
    var track, n := Track(s, line), |Sent(s, line)|;
    forall i, j | 0 <= i < j < n ensures Sent(s, line)[i] < Sent(s, line)[j] {
      assert track[i] < track[j];
    }
    forall id | id in Sent(s, line)
      ensures id !in Sent(s, Other(line)) && id !in Ids(Queue(s, line)) && id !in Ids(Queue(s, Other(line)))
    {
      var i :| 0 <= i < n && Sent(s, line)[i] == id;
      assert id in track;
      assert id !in Track(s, Other(line));
      forall j | 0 <= j < |Ids(Queue(s, line))| ensures Ids(Queue(s, line))[j] != id {
        assert track[i] < track[n + j];
      }
    }
  }

  /** A pending task is in exactly one place: the first queue, the second, or out with one worker. */
  lemma {:induction false} PendingInOnePlace(events: seq<Event>, id: nat)
    requires id in Run(INITIAL, events).pending
    ensures var s := Run(INITIAL, events);
            var places := (if id in Ids(s.queue) then 1 else 0) + (if id in Ids(s.wapQueue) then 1 else 0)
                          + (if Flying(s, id) then 1 else 0);
            places == 1
    ensures var s := Run(INITIAL, events);
            forall f, g :: f in s.flights && g in s.flights && f.id == id == g.id ==> f == g
  {
    RunKeeps(events);
    NeverSentTwice(events);
    var s := Run(INITIAL, events);
    forall x | x in Ids(s.queue) ensures x !in Ids(s.wapQueue) {
      assert x in Track(s, Prove);
      assert x !in Track(s, Witness);
    }
  }

  /** A pool worker is busy exactly while it owes one answer, and it never owes two. */
  lemma {:induction false} BusyOwesOne(events: seq<Event>, i: nat)
    requires i < |Run(INITIAL, events).workers|
    ensures var s := Run(INITIAL, events);
            s.workers[i].busy <==> exists f :: f in s.flights && f.key == s.workers[i].key
    ensures var s := Run(INITIAL, events);
            forall f, g :: f in s.flights && g in s.flights && f.key == g.key ==> f == g
  {
    RunKeeps(events);
    var s := Run(INITIAL, events);
    if f :| f in s.flights && f.key == s.workers[i].key {
      assert Owes(s.flights, s.workers[i].key);
    }
  }

  /** The task was still awaited when a message of a foreign type took its listener away. */
  ghost predicate Forgets(s: State, e: Event) {
    e.Reply? && e.answer.ForeignType? && Flight(e.id, e.key) in s.flights && e.id in s.pending
  }

  /** Some step of the run from the start was of that kind. */
  ghost predicate ForgetsOne(events: seq<Event>) {
    events != [] &&
    (ForgetsOne(events[..|events| - 1]) || Forgets(Run(INITIAL, events[..|events| - 1]), events[|events| - 1]))
  }

  lemma {:induction false} StepDrops(s: State, e: Event)
    ensures Step(s, e).dropped == if Forgets(s, e) then s.dropped + {e.id} else s.dropped
  {
    if e.Submit? {
      DispatchQuiet(Enqueue(s, e.line, e.circuit));
    }
    if e.Reply? {
      DispatchQuiet(Answered(Landed(s, Flight(e.id, e.key)), e.id, e.answer));
    }
  }

  /** Dispatching settles and forgets nothing. */
  lemma {:induction false} DispatchQuiet(s: State)
    ensures var t := Dispatch(s);
            t.pending == s.pending && t.settled == s.settled && t.dropped == s.dropped && t.nextId == s.nextId
  {
    DrainQuiet(s, Prove);
    DrainQuiet(Drain(s, Prove), Witness);
  }

  lemma {:induction false} DroppedIff(events: seq<Event>)
    ensures Run(INITIAL, events).dropped != {} <==> ForgetsOne(events)
    decreases |events|
  {
    if events != [] {
      var n := |events| - 1;
      DroppedIff(events[..n]);
      StepDrops(Run(INITIAL, events[..n]), events[n]);
    }
  }

  /**
    After `destroy` every task ever submitted has been settled, exactly once, if and only
    if no worker answered an awaited task with a message of a foreign type.
   */
  lemma {:induction false} DestroySettlesAll(events: seq<Event>)
    ensures var s := Run(INITIAL, events + [Destroy]);
            && (forall i, j :: 0 <= i < j < |s.settled| ==> s.settled[i].id != s.settled[j].id)
            && s.pending == []
            && ((forall id: nat :: 1 <= id < s.nextId ==> Settled(s, id)) <==> !ForgetsOne(events))
  {
    var all := events + [Destroy];
    assert all[..|all| - 1] == events;
    RunKeeps(all);
    DroppedIff(events);
    var s := Run(INITIAL, all);
    assert s.dropped == Run(INITIAL, events).dropped;
    if id: nat :| id in s.dropped {
      assert !Settled(s, id) && 1 <= id < s.nextId;
    }
  }

  // ----- work conservation

  ghost predicate LiveWaiting(s: State) {
    (exists i :: 0 <= i < |s.queue| && s.queue[i].id in s.pending)
    || (exists i :: 0 <= i < |s.wapQueue| && s.wapQueue[i].id in s.pending)
  }

  ghost predicate Conserving(s: State) {
    AllBusy(s.workers) || !LiveWaiting(s)
  }

  /** The steps that free or add a worker without dispatching. */
  ghost predicate Stalls(s: State, e: Event) {
    && LiveWaiting(s)
    && match e
       case Init(size) => !s.started && size > 0
       case Reply(id, key, _) =>
         Flight(id, key) in s.flights && id !in s.pending && exists i :: 0 <= i < |s.workers| && s.workers[i].key == key
       case _ => false
  }

  /** An answer to a task no longer awaited frees its worker and does nothing else. */
  lemma {:induction false} LateAnswerConserves(s: State, f: Flight)
    requires Conserving(s) && f in s.flights && f.id !in s.pending
    ensures Conserving(Landed(s, f)) <==>
            !(LiveWaiting(s) && exists i :: 0 <= i < |s.workers| && s.workers[i].key == f.key)
  {
    var t := Landed(s, f);
    if i :| 0 <= i < |s.workers| && s.workers[i].key == f.key {
      assert !t.workers[i].busy;
    }
  }

  lemma {:induction false} ReplyConserves(s: State, f: Flight, answer: Answer)
    requires Conserving(s)
    ensures Conserving(Step(s, Reply(f.id, f.key, answer))) <==> !Stalls(s, Reply(f.id, f.key, answer))
  {
    if f in s.flights && f.id in s.pending {
      AwaitedAnswer(s, f, answer);
      DispatchLeavesNoIdle(Landed(Answered(s, f.id, answer), f));
    } else if f in s.flights {
      LateAnswerConserves(s, f);
    }
  }

  /**
    No live task waits beside an idle worker, except after an answer to a task that had
    timed out, or a restart, met a waiting task: neither dispatches.
   */
  lemma {:induction false} WorkConservedIff(s: State, e: Event)
    requires Conserving(s)
    ensures Conserving(Step(s, e)) <==> !Stalls(s, e)
  {
    match e
    case Init(size) =>
      if !s.started && size > 0 {
        assert !Pool(size, s.nextKey)[0].busy;
      }
    case Submit(line, circuit) => DispatchLeavesNoIdle(Enqueue(s, line, circuit));
    case Timeout(id) =>
    case Reply(id, key, answer) => ReplyConserves(s, Flight(id, key), answer);
    case Destroy =>
  }

  /** A worker answers a task that timed out while another waits: the other keeps waiting. */
  lemma {:induction false} LateAnswerStalls(circuit: Circuit, answer: Answer)
    ensures var events := [Init(1), Submit(Prove, circuit), Submit(Prove, circuit), Timeout(1), Reply(1, 0, answer)];
            !Conserving(Run(INITIAL, events))
  {
    var w := Worker(0, Everything, true);
    var s1 := Step(INITIAL, Init(1));
    assert s1.workers == [w.(busy := false)];
    var s2 := Step(s1, Submit(Prove, circuit));
    OnlyTask(s1, circuit);
    var s3 := Step(s2, Submit(Prove, circuit));
    WaitsBehind(s2, circuit);
    var s4 := Step(s3, Timeout(1));
    var s5 := Step(s4, Reply(1, 0, answer));
    assert s5.queue[0].id in s5.pending && !s5.workers[0].busy;
    RunFive(Init(1), Submit(Prove, circuit), Submit(Prove, circuit), Timeout(1), Reply(1, 0, answer));
  }

  /** A message of a foreign type leaves its task unsettled for good, even by `destroy`. */
  lemma {:induction false} ForeignAnswerHangs(circuit: Circuit)
    ensures var s := Run(INITIAL, [Init(1), Submit(Prove, circuit), Reply(1, 0, ForeignType)] + [Destroy]);
            !forall id: nat :: 1 <= id < s.nextId ==> Settled(s, id)
  {
    var s1 := Step(INITIAL, Init(1));
    assert s1.workers == [Worker(0, Everything, false)];
    OnlyTask(s1, circuit);
    var s2 := Step(s1, Submit(Prove, circuit));
    var e := Reply(1, 0, ForeignType);
    assert Forgets(s2, e);
    var events := [Init(1), Submit(Prove, circuit), e];
    assert events[..2] == [Init(1), Submit(Prove, circuit)] && events[..2][..1] == [Init(1)] && events[..2][..1][..0] == [];
    RunLast(INITIAL, events[..2]);
    RunLast(INITIAL, [Init(1)]);
    assert ForgetsOne(events);
    DestroySettlesAll(events);
  }

  lemma {:induction false} OnlyTask(s: State, circuit: Circuit)
    requires s.workers == [Worker(0, Everything, false)] && s.queue == [] && s.wapQueue == [] && s.pending == []
    ensures var t := Step(s, Submit(Prove, circuit));
            && t.workers == [Worker(0, Everything, true)] && t.queue == [] && t.wapQueue == [] && t.pending == [s.nextId]
            && t.flights == s.flights + [Flight(s.nextId, 0)] && t.nextId == s.nextId + 1
            && t.settled == s.settled && t.dropped == s.dropped
  {
    var e := Enqueue(s, Prove, circuit);
    assert e.queue == [Task(s.nextId, circuit)] && e.pending == [s.nextId];
    assert Pick(e.workers, circuit) == Some(0);
    var a := Advance(e, Prove, 0);
    assert Drain(e, Prove) == Drain(a, Prove) == a;
    assert Drain(a, Witness) == a;
  }

  lemma {:induction false} WaitsBehind(s: State, circuit: Circuit)
    requires AllBusy(s.workers) && s.queue == [] && s.wapQueue == []
    ensures Step(s, Submit(Prove, circuit)) == Enqueue(s, Prove, circuit)
    ensures Enqueue(s, Prove, circuit).queue == [Task(s.nextId, circuit)]
  {
    var e := Enqueue(s, Prove, circuit);
    assert Pick(e.workers, circuit).None?;
    assert Drain(e, Prove) == e && Drain(e, Witness) == e;
  }

  lemma {:induction false} RunFive(a: Event, b: Event, c: Event, d: Event, e: Event)
    ensures Run(INITIAL, [a, b, c, d, e]) == Step(Step(Step(Step(Step(INITIAL, a), b), c), d), e)
  {
    var all := [a, b, c, d, e];
    assert all[..4] == [a, b, c, d] && all[..4][..3] == [a, b, c] && all[..4][..3][..2] == [a, b];
    assert all[..4][..3][..2][..1] == [a] && all[..4][..3][..2][..1][..0] == [];
    RunLast(INITIAL, all);
    RunLast(INITIAL, [a, b, c, d]);
    RunLast(INITIAL, [a, b, c]);
    RunLast(INITIAL, [a, b]);
    RunLast(INITIAL, [a]);
  }

  // ----- the manager

  class ProveWorkerManager {
    var started: bool
    var workers: seq<Worker>
    var pending: seq<nat>
    var queue: seq<Task>
    var wapQueue: seq<Task>
    var nextId: nat
    var nextKey: nat
    var listeners: seq<Flight>
    ghost var sent: seq<nat>
    ghost var wapSent: seq<nat>
    ghost var settled: seq<Settlement>
    ghost var dropped: set<nat>

    ghost function Contents(): State
      reads this
    {
      State(started, workers, pending, queue, wapQueue, nextId, nextKey, listeners, sent, wapSent, settled, dropped)
    }

    constructor ()
      ensures Contents() == INITIAL
    {
      started, workers, pending, queue, wapQueue := false, [], [], [], [];
      nextId, nextKey, listeners := 1, 0, [];
      sent, wapSent, settled, dropped := [], [], [], {};
    }

    /** `init`: the pool of `size` workers, with their roles. */
    method Start(size: nat)
      modifies this
      ensures Contents() == Step(old(Contents()), Init(size))
    {
      if started {
        return;
      }
      started := true;
      workers := Pool(size, nextKey);
      nextKey := nextKey + size;
    }

    method ProveAsync(circuit: Circuit) returns (id: nat)
      modifies this
      ensures Contents() == Step(old(Contents()), Submit(Prove, circuit)) && id == old(nextId)
    {
      id := nextId;
      nextId := nextId + 1;
      pending := pending + [id];
      queue := queue + [Task(id, circuit)];
      RunDispatch();
    }

    method WitnessAndProveAsync(circuit: Circuit) returns (id: nat)
      modifies this
      ensures Contents() == Step(old(Contents()), Submit(Witness, circuit)) && id == old(nextId)
    {
      id := nextId;
      nextId := nextId + 1;
      pending := pending + [id];
      wapQueue := wapQueue + [Task(id, circuit)];
      RunDispatch();
    }

    /** The timer of a task fires. */
    method OnTimeout(id: nat)
      modifies this
      ensures Contents() == Step(old(Contents()), Timeout(id))
    {
      if id in pending {
        pending := Remove(pending, id);
        settled := settled + [Settlement(id, TimedOut)];
      }
    }

    /** A worker's message reaches the listener of a task. */
    method OnMessage(id: nat, key: nat, answer: Answer)
      modifies this
      ensures Contents() == Step(old(Contents()), Reply(id, key, answer))
    {
      if Flight(id, key) !in listeners {
        return;
      }
      listeners := Land(listeners, Flight(id, key));
      workers := Free(workers, key);
      if id !in pending {
        return;
      }
      pending := Remove(pending, id);
      match answer {
        case ProveResult => settled := settled + [Settlement(id, Resolved)];
        case ProveError => settled := settled + [Settlement(id, Failed)];
        case ForeignType => dropped := dropped + {id};
      }
      RunDispatch();
    }

    method Destroy()
      modifies this
      ensures Contents() == Step(old(Contents()), Event.Destroy)
    {
      workers := [];
      ghost var before := settled;
      for i := 0 to |pending|
        invariant settled == before + SettleAll(pending[..i], Destroyed)
        invariant Contents() == old(Contents()).(workers := [], settled := settled)
      {
        SettleAllSnoc(pending, i);
        settled := settled + [Settlement(pending[i], Destroyed)];
      }
      assert pending[..|pending|] == pending;
      pending := [];
      queue := [];
      started := false;
    }

    /** `_dispatch`: the loop over each queue. */
    method RunDispatch()
      modifies this
      ensures Contents() == Dispatch(old(Contents()))
    {
      while queue != []
        invariant Drain(Contents(), Prove) == Drain(old(Contents()), Prove)
        decreases |queue|
      {
        var i := Pick(workers, queue[0].circuit);
        DrainTurn(Contents(), Prove);
        if i.None? {
          break;
        }
        SendFromQueue(i.value);
      }
      DrainTurn(Contents(), Prove);
      ghost var middle := Contents();
      while wapQueue != []
        invariant Drain(Contents(), Witness) == Drain(middle, Witness)
        decreases |wapQueue|
      {
        var i := Pick(workers, wapQueue[0].circuit);
        DrainTurn(Contents(), Witness);
        if i.None? {
          break;
        }
        SendFromWapQueue(i.value);
      }
      DrainTurn(Contents(), Witness);
    }

    method SendFromQueue(i: nat)
      requires queue != [] && i < |workers|
      modifies this
      ensures Contents() == Advance(old(Contents()), Prove, i)
      ensures |queue| < old(|queue|)
    {
      var item := queue[0];
      queue := queue[1..];
      if item.id !in pending {
        return;
      }
      var w := workers[i];
      workers := workers[i := w.(busy := true)];
      listeners := listeners + [Flight(item.id, w.key)];
      sent := sent + [item.id];
    }

    method SendFromWapQueue(i: nat)
      requires wapQueue != [] && i < |workers|
      modifies this
      ensures Contents() == Advance(old(Contents()), Witness, i)
      ensures |wapQueue| < old(|wapQueue|)
    {
      var item := wapQueue[0];
      wapQueue := wapQueue[1..];
      if item.id !in pending {
        return;
      }
      var w := workers[i];
      workers := workers[i := w.(busy := true)];
      listeners := listeners + [Flight(item.id, w.key)];
      wapSent := wapSent + [item.id];
    }
  }

  lemma {:induction false} DrainTurn(s: State, line: Line)
    ensures Drain(s, line) ==
            if Queue(s, line) == [] then s
            else
              var i := Pick(s.workers, Queue(s, line)[0].circuit);
              if i.None? then s else Drain(Advance(s, line, i.value), line)
  {
  }

  lemma {:induction false} SettleAllSnoc(ids: seq<nat>, i: nat)
    requires i < |ids|
    ensures SettleAll(ids[..i + 1], Destroyed) == SettleAll(ids[..i], Destroyed) + [Settlement(ids[i], Destroyed)]
  {
  }
}
