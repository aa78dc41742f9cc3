/**
  The request/response registry of the socket: pending lists per event, one dispatcher
  pair per event, correlation ids and timers that are never cancelled.

  A request is identified by the number of its call; its correlation id is whatever the
  runtime drew, so nothing here relies on ids being different.
 */
module Socket {
  import opened Options

  datatype Request = Request(event: string, id: string)

  datatype Outcome = Completed | Refused | TimedOut

  datatype State = State(issued: seq<Request>, pending: map<string, seq<nat>>, dispatchers: set<string>,
                         settled: map<nat, Outcome>)

  datatype Event =
    | Issue(request: Request)
    | Response(event: string, echoed: Option<string>)
    | Error(event: string, echoed: Option<string>)
    | Timer(key: nat)

  const INITIAL := State([], map[], {}, map[])

  /** Pending requests of an event, oldest first. */
  function List(s: State, event: string): seq<nat> {
    if event in s.pending then s.pending[event] else []
  }

  // ----- the steps

  function Without(list: seq<nat>, key: nat): (r: seq<nat>)
    ensures forall k :: k in r <==> k in list && k != key
  {
    if list == [] then []
    else if list[0] == key then Without(list[1..], key)
    else [list[0]] + Without(list[1..], key)
  }

  /** `removeFromPending`: the dispatcher pair goes with the last request. */
  function Removed(s: State, event: string, key: nat): State {
    if event !in s.pending then s
    else
      var list := Without(s.pending[event], key);
      if list == [] then s.(pending := s.pending - {event}, dispatchers := s.dispatchers - {event})
      else s.(pending := s.pending[event := list])
  }

  /** Settling a promise again has no effect. */
  function Settle(s: State, key: nat, outcome: Outcome): State {
    if key in s.settled then s else s.(settled := s.settled[key := outcome])
  }

  function Finish(s: State, event: string, key: nat, outcome: Outcome): State {
    Settle(Removed(s, event, key), key, outcome)
  }

  function FinishAll(s: State, event: string, keys: seq<nat>, outcome: Outcome): State
    decreases |keys|
  {
    if keys == [] then s else FinishAll(Finish(s, event, keys[0], outcome), event, keys[1..], outcome)
  }

  predicate HasId(s: State, key: nat, id: string) {
    key < |s.issued| && s.issued[key].id == id
  }

  /** The oldest request of a list with this correlation id. */
  function Find(s: State, list: seq<nat>, id: string): (r: Option<nat>)
    ensures r.Some? ==> r.value in list && HasId(s, r.value, id)
    ensures r.None? ==> forall k :: k in list ==> !HasId(s, k, id)
  {
    if list == [] then None
    else if HasId(s, list[0], id) then Some(list[0])
    else Find(s, list[1..], id)
  }

  function Step(s: State, e: Event): State {
    match e
    case Issue(request) =>
      s.(issued := s.issued + [request], dispatchers := s.dispatchers + {request.event},
         pending := s.pending[request.event := List(s, request.event) + [|s.issued|]])
    case Response(event, echoed) =>
      var list := List(s, event);
      if event !in s.dispatchers || list == [] then s
      else if echoed.None? then Finish(s, event, list[0], Completed)
      else
        var key := Find(s, list, echoed.value);
        if key.None? then s else Finish(s, event, key.value, Completed)
    case Error(event, echoed) =>
      var list := List(s, event);
      if event !in s.dispatchers || list == [] then s
      else if echoed.None? then FinishAll(s, event, list, Refused)
      else
        var key := Find(s, list, echoed.value);
        if key.None? then s else Finish(s, event, key.value, Refused)
    case Timer(key) =>
      if key >= |s.issued| then s else Finish(s, s.issued[key].event, key, TimedOut)
  }

  // ----- what every step keeps

  predicate Ascending(keys: seq<nat>) {
    forall i, j :: 0 <= i < j < |keys| ==> keys[i] < keys[j]
  }

  /**
    A dispatcher pair is installed exactly for the events with a pending request; lists
    stay in emission order; a request is listed, under its own event, exactly until it is
    settled.
   */
  ghost predicate Inv(s: State) {
    && s.pending.Keys == s.dispatchers
    && (forall event :: event in s.pending ==> s.pending[event] != [] && Ascending(s.pending[event]))
    && (forall event: string, key: nat :: Listed(s, event, key) ==> key < |s.issued| && s.issued[key].event == event)
    && (forall key: nat :: key < |s.issued| ==> (key in s.settled <==> !Listed(s, s.issued[key].event, key)))
    && (forall key: nat :: key in s.settled ==> key < |s.issued|)
  }

  predicate Listed(s: State, event: string, key: nat) {
    key in List(s, event)
  }

  function Run(events: seq<Event>): State {
    if events == [] then INITIAL else Step(Run(events[..|events| - 1]), events[|events| - 1])
  }

  lemma {:induction false} WithoutAscending(list: seq<nat>, key: nat)
    requires Ascending(list)
    ensures Ascending(Without(list, key))
    decreases |list|
  {
    if list != [] {
      WithoutAscending(list[1..], key);
      var r := Without(list[1..], key);
      forall k | 0 <= k < |r| ensures list[0] < r[k] {
        assert r[k] in r;
        assert r[k] in list[1..];
      }
    }
  }

  /** Ending a listed request takes it out of its list and settles it; nothing else changes. */
  lemma {:induction false} FinishListed(s: State, event: string, key: nat, outcome: Outcome)
    requires Inv(s) && Listed(s, event, key)
    ensures var t := Finish(s, event, key, outcome);
            && t.settled == s.settled[key := outcome] && key !in s.settled && t.issued == s.issued
            && key < |s.issued| && s.issued[key].event == event
            && List(t, event) == Without(List(s, event), key)
            && forall other :: other != event ==> List(t, other) == List(s, other)
  {
  }

  lemma {:induction false} FinishKeeps(s: State, event: string, key: nat, outcome: Outcome)
    requires Inv(s) && Listed(s, event, key)
    ensures Inv(Finish(s, event, key, outcome))
  {
    var t := Finish(s, event, key, outcome);
    FinishListed(s, event, key, outcome);
    forall other: string, k: nat ensures Listed(t, other, k) <==> Listed(s, other, k) && k != key {
      if other != event && Listed(s, other, k) {
        assert s.issued[k].event == other;
      }
    }
    forall k: nat | k < |t.issued| ensures k in t.settled <==> !Listed(t, t.issued[k].event, k) {
      assert k in s.settled <==> !Listed(s, s.issued[k].event, k);
    }
    ListedEvents(s, event, key, outcome);
  }

  /** The events left with a list are those left with a dispatcher pair. */
  lemma {:induction false} ListedEvents(s: State, event: string, key: nat, outcome: Outcome)
    requires Inv(s) && Listed(s, event, key)
    ensures var t := Finish(s, event, key, outcome);
            && t.pending.Keys == t.dispatchers
            && forall other :: other in t.pending ==> t.pending[other] != [] && Ascending(t.pending[other])
  {
    WithoutAscending(s.pending[event], key);
  }

  /** A timer of a settled request changes nothing. */
  lemma {:induction false} LateTimerIsSilent(s: State, key: nat)
    requires Inv(s) && key in s.settled
    ensures Step(s, Timer(key)) == s
  {
    var event := s.issued[key].event;
    if event in s.pending {
      WithoutAbsent(s.pending[event], key);
      assert s.pending[event := s.pending[event]] == s.pending;
    }
  }

  lemma {:induction false} WithoutAbsent(list: seq<nat>, key: nat)
    requires key !in list
    ensures Without(list, key) == list
  {
    if list != [] {
      WithoutAbsent(list[1..], key);
    }
  }

  lemma {:induction false} IssueKeeps(s: State, request: Request)
    requires Inv(s)
    ensures Inv(Step(s, Issue(request)))
  {
    var t, n := Step(s, Issue(request)), |s.issued|;
    var event, list := request.event, List(s, request.event);
    assert List(t, event) == list + [n];
    forall other: string, k: nat ensures Listed(t, other, k) <==> Listed(s, other, k) || (other == event && k == n) {
      InSnoc(list, n, k);
      assert other != event ==> List(t, other) == List(s, other);
    }
    assert n !in s.settled && !Listed(s, event, n);
    forall i | 0 <= i < |list| ensures list[i] < n {
      assert Listed(s, event, list[i]);
    }
    forall k: nat | k < |t.issued| ensures k in t.settled <==> !Listed(t, t.issued[k].event, k) {
      if k < n {
        assert t.issued[k] == s.issued[k];
        assert k in s.settled <==> !Listed(s, s.issued[k].event, k);
      }
    }
  }

  lemma {:induction false} InSnoc(list: seq<nat>, x: nat, key: nat)
    ensures key in list + [x] <==> key in list || key == x
  {
  }

  /** What ending every listed request of an event leaves. */
  ghost predicate Cleared(s: State, event: string, outcome: Outcome, t: State) {
    && t.issued == s.issued && event !in t.pending
    && (forall other :: other != event ==> List(t, other) == List(s, other))
    && (forall key: nat :: key in t.settled <==> key in s.settled || Listed(s, event, key))
    && (forall key: nat :: key in s.settled ==> t.settled[key] == s.settled[key])
    && (forall key: nat :: Listed(s, event, key) ==> t.settled[key] == outcome)
  }

  lemma {:induction false} FinishAllClears(s: State, event: string, outcome: Outcome)
    requires Inv(s)
    ensures Inv(FinishAll(s, event, List(s, event), outcome))
    ensures Cleared(s, event, outcome, FinishAll(s, event, List(s, event), outcome))
    decreases |List(s, event)|
  {
    var list := List(s, event);
    if list != [] {
      var key := list[0];
      var t := Finish(s, event, key, outcome);
      FinishListed(s, event, key, outcome);
      FinishKeeps(s, event, key, outcome);
      WithoutFirst(list);
      FinishAllClears(t, event, outcome);
    }
  }

  lemma {:induction false} WithoutFirst(list: seq<nat>)
    requires list != [] && Ascending(list)
    ensures Without(list, list[0]) == list[1..]
  {
    WithoutAbsent(list[1..], list[0]);
  }

  lemma {:induction false} StepKeeps(s: State, e: Event)
    requires Inv(s)
    ensures Inv(Step(s, e))
  {
    match e
    case Issue(request) => IssueKeeps(s, request);
    case Response(event, echoed) =>
      var list := List(s, event);
      if list != [] {
        var key := if echoed.None? then Some(list[0]) else Find(s, list, echoed.value);
        if key.Some? {
          FinishKeeps(s, event, key.value, Completed);
        }
      }
    case Error(event, echoed) =>
      var list := List(s, event);
      if list != [] {
        if echoed.None? {
          FinishAllClears(s, event, Refused);
        } else {
          var key := Find(s, list, echoed.value);
          if key.Some? {
            FinishKeeps(s, event, key.value, Refused);
          }
        }
      }
    case Timer(key) =>
      if key in s.settled {
        LateTimerIsSilent(s, key);
      } else if key < |s.issued| {
        FinishKeeps(s, s.issued[key].event, key, TimedOut);
      }
  }

  /** Every run keeps the registry in order. */
  lemma {:induction false} RunKeeps(events: seq<Event>)
    ensures Inv(Run(events))
    decreases |events|
  {
    if events != [] {
      RunKeeps(events[..|events| - 1]);
      StepKeeps(Run(events[..|events| - 1]), events[|events| - 1]);
    }
  }

  // ----- what messages and timers settle

  /** A promise once settled keeps its outcome, whatever arrives later. */
  lemma {:induction false} SettledOnce(s: State, e: Event, key: nat)
    requires Inv(s) && key in s.settled
    ensures key in Step(s, e).settled && Step(s, e).settled[key] == s.settled[key]
  {
    match e
    case Error(event, echoed) =>
      if echoed.None? {
        FinishAllClears(s, event, Refused);
      }
    case _ =>
  }

  lemma {:induction false} FindsOldest(s: State, list: seq<nat>, id: string)
    requires Ascending(list) && Find(s, list, id).Some?
    ensures forall k :: k in list && HasId(s, k, id) ==> Find(s, list, id).value <= k
    decreases |list|
  {
    if !HasId(s, list[0], id) {
      FindsOldest(s, list[1..], id);
    }
  }

  /** The message the two dispatchers handle alike: a response or an error. */
  function Message(event: string, echoed: Option<string>, refused: bool): Event {
    if refused then Error(event, echoed) else Response(event, echoed)
  }

  function OutcomeOf(refused: bool): Outcome {
    if refused then Refused else Completed
  }

  /**
    A message with an id settles the oldest pending request of its event with that id and
    nothing else; when there is none it is dropped.
   */
  lemma {:induction false} TaggedSettlesItsRequest(s: State, event: string, id: string, refused: bool)
    requires Inv(s)
    ensures var t := Step(s, Message(event, Some(id), refused));
            if !exists k :: Listed(s, event, k) && HasId(s, k, id) then t == s
            else exists key ::
                   && Listed(s, event, key) && HasId(s, key, id)
                   && (forall k :: Listed(s, event, k) && HasId(s, k, id) ==> key <= k)
                   && t.settled == s.settled[key := OutcomeOf(refused)]
                   && List(t, event) == Without(List(s, event), key)
                   && forall other :: other != event ==> List(t, other) == List(s, other)
  {
    var list := List(s, event);
    var r := Find(s, list, id);
    if r.Some? {
      FindsOldest(s, list, id);
      FinishListed(s, event, r.value, OutcomeOf(refused));
      assert Listed(s, event, r.value);
    } else {
      forall k | Listed(s, event, k) ensures !HasId(s, k, id) {
      }
    }
  }

  /** With all ids different a message settles exactly the request it answers, or nothing. */
  lemma {:induction false} TaggedIsExact(s: State, key: nat, refused: bool)
    requires Inv(s) && key < |s.issued| && key !in s.settled
    requires forall k: nat :: k < |s.issued| && k != key ==> s.issued[k].id != s.issued[key].id
    ensures var t := Step(s, Message(s.issued[key].event, Some(s.issued[key].id), refused));
            t.settled == s.settled[key := OutcomeOf(refused)]
  {
    var event, id := s.issued[key].event, s.issued[key].id;
    assert Listed(s, event, key) && HasId(s, key, id);
    TaggedSettlesItsRequest(s, event, id, refused);
  }

  /** A response without an id settles the oldest pending request of its event. */
  lemma {:induction false} UntaggedSettlesOldest(s: State, event: string)
    requires Inv(s)
    ensures var t, list := Step(s, Response(event, None)), List(s, event);
            if list == [] then t == s
            else t.settled == s.settled[list[0] := Completed] && List(t, event) == list[1..]
                 && forall other :: other != event ==> List(t, other) == List(s, other)
  {
    var list := List(s, event);
    if list != [] {
      assert Listed(s, event, list[0]);
      FinishListed(s, event, list[0], Completed);
      WithoutFirst(list);
    }
  }

  /** An error without an id settles every pending request of its event and takes the dispatchers away. */
  lemma {:induction false} UntaggedErrorClears(s: State, event: string)
    requires Inv(s) && List(s, event) != []
    ensures Cleared(s, event, Refused, Step(s, Error(event, None)))
    ensures event !in Step(s, Error(event, None)).dispatchers
  {
    FinishAllClears(s, event, Refused);
  }

  /** The timers of the first `n` requests fire. */
  function Fire(s: State, n: nat): State {
    if n == 0 then s else Step(Fire(s, n - 1), Timer(n - 1))
  }

  lemma {:induction false} TimerSettles(s: State, key: nat)
    requires Inv(s) && key < |s.issued|
    ensures key in Step(s, Timer(key)).settled && Step(s, Timer(key)).issued == s.issued
  {
  }

  ghost predicate AllSettled(s: State, n: nat) {
    forall k: nat :: k < n ==> k in s.settled
  }

  lemma {:induction false} OneMoreSettled(s: State, key: nat, t: State)
    requires Inv(s) && key < |s.issued| && AllSettled(s, key) && t == Step(s, Timer(key))
    ensures Inv(t) && AllSettled(t, key + 1) && t.issued == s.issued
  {
    TimerSettles(s, key);
    StepKeeps(s, Timer(key));
    forall k: nat | k < key ensures k in t.settled {
      SettledOnce(s, Timer(key), k);
    }
  }

  ghost predicate FiredTo(s: State, n: nat, t: State) {
    t == Fire(s, n) && Inv(t) && t.issued == s.issued && AllSettled(t, n)
  }

  lemma {:induction false} FiredNone(s: State)
    requires Inv(s)
    ensures FiredTo(s, 0, s)
  {
  }

  lemma {:induction false} FiredOneMore(s: State, n: nat, t: State) returns (u: State)
    requires FiredTo(s, n, t) && n < |s.issued|
    ensures FiredTo(s, n + 1, u)
  {
    u := Step(t, Timer(n));
    OneMoreSettled(t, n, u);
  }

  lemma {:induction false} FiredSettle(s: State, n: nat) returns (t: State)
    requires Inv(s) && n <= |s.issued|
    ensures FiredTo(s, n, t)
    decreases n
  {
    if n == 0 {
      FiredNone(s);
      t := s;
    } else {
      t := FiredSettle(s, n - 1);
      t := FiredOneMore(s, n - 1, t);
    }
  }

  lemma {:induction false} NoneListed(s: State)
    requires Inv(s) && AllSettled(s, |s.issued|)
    ensures s.pending == map[] && s.dispatchers == {}
  {
    assert forall event: string, key: nat :: !Listed(s, event, key);
    forall event ensures event !in s.pending {
      assert event in s.pending ==> Listed(s, event, s.pending[event][0]);
    }
  }

  /** Once its timers have fired the registry is empty and holds no dispatcher. */
  lemma {:induction false} TimersEmptyTheRegistry(events: seq<Event>)
    ensures var s := Run(events);
            var t := Fire(s, |s.issued|);
            && t.pending == map[] && t.dispatchers == {}
            && AllSettled(t, |s.issued|)
  {
    RunKeeps(events);
    var s := Run(events);
    var t := FiredSettle(s, |s.issued|);
    NoneListed(t);
  }

  // ----- the registry

  class SigbashSocket {
    var issued: seq<Request>
    var pending: map<string, seq<nat>>
    var dispatchers: set<string>
    ghost var settled: map<nat, Outcome>

    ghost function Contents(): State
      reads this
    {
      State(issued, pending, dispatchers, settled)
    }

    constructor ()
      ensures Contents() == INITIAL
    {
      issued, pending, dispatchers, settled := [], map[], {}, map[];
    }

    /** `request`: attach the dispatchers, register the entry, emit. */
    method Send(event: string, id: string) returns (key: nat)
      modifies this
      ensures Contents() == Step(old(Contents()), Issue(Request(event, id))) && key == |old(issued)|
    {
      key := |issued|;
      issued := issued + [Request(event, id)];
      Attach(event);
      var list := if event in pending then pending[event] else [];
      pending := pending[event := list + [key]];
    }

    method Attach(event: string)
      modifies this`dispatchers
      ensures dispatchers == old(dispatchers) + {event}
    {
      if event !in dispatchers {
        dispatchers := dispatchers + {event};
      }
    }

    method Detach(event: string)
      modifies this`dispatchers
      ensures dispatchers == old(dispatchers) - {event}
    {
      if event in dispatchers {
        dispatchers := dispatchers - {event};
      }
    }

    method RemoveFromPending(event: string, key: nat)
      modifies this`pending, this`dispatchers
      ensures Contents() == Removed(old(Contents()), event, key)
    {
      if event !in pending {
        return;
      }
      var list := Without(pending[event], key);
      if list == [] {
        pending := pending - {event};
        Detach(event);
      } else {
        pending := pending[event := list];
      }
    }

    /** `complete` and `fail` of an entry. */
    method Conclude(event: string, key: nat, outcome: Outcome)
      modifies this`pending, this`dispatchers, this`settled
      ensures Contents() == Finish(old(Contents()), event, key, outcome)
    {
      RemoveFromPending(event, key);
      if key !in settled {
        settled := settled[key := outcome];
      }
    }

    method OnResponse(event: string, echoed: Option<string>)
      modifies this
      ensures Contents() == Step(old(Contents()), Response(event, echoed))
    {
      if event !in dispatchers || event !in pending || pending[event] == [] {
        return;
      }
      var list := pending[event];
      if echoed.Some? {
        var key := FindEntry(list, echoed.value);
        if key.Some? {
          Conclude(event, key.value, Completed);
        }
        return;
      }
      Conclude(event, list[0], Completed);
    }

    method OnError(event: string, echoed: Option<string>)
      modifies this
      ensures Contents() == Step(old(Contents()), Error(event, echoed))
    {
      if event !in dispatchers || event !in pending || pending[event] == [] {
        return;
      }
      var list := pending[event];
      if echoed.Some? {
        var key := FindEntry(list, echoed.value);
        if key.Some? {
          Conclude(event, key.value, Refused);
        }
        return;
      }
      for i := 0 to |list|
        invariant FinishAll(Contents(), event, list[i..], Refused) == FinishAll(old(Contents()), event, list, Refused)
      {
        assert list[i..][1..] == list[i + 1..];
        Conclude(event, list[i], Refused);
      }
    }

    method FindEntry(list: seq<nat>, id: string) returns (key: Option<nat>)
      ensures key == Find(Contents(), list, id)
    {
      ghost var s := Contents();
      for i := 0 to |list|
        invariant Find(s, list[i..], id) == Find(s, list, id)
      {
        assert list[i..][1..] == list[i + 1..];
        if list[i] < |issued| && issued[list[i]].id == id {
          return Some(list[i]);
        }
      }
      key := None;
    }

    method OnTimer(key: nat)
      modifies this
      ensures Contents() == Step(old(Contents()), Timer(key))
    {
      if key < |issued| {
        Conclude(issued[key].event, key, TimedOut);
      }
    }
  }
}
