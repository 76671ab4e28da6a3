/** Runs of the event log in which the hand-off from replay to live events fails a subscriber. */
module OverlapRuns {
  import opened EventLog
  import opened EventLogSteps
  import opened OverlapHandoff

  function First(session: nat, payload: Payload): Event { Event(1, session, payload) }
  function Second(session: nat, payload: Payload): Event { Event(2, session, payload) }

  /** Two appends on threads 0 and 1, of which the second overtakes the first in both push and broadcast. */
  function Overtaking(k: nat, e1: Event, e2: Event): Log {
    if k == 0 then Log(1, [], 0, 10, [], map[], [])
    else if k == 1 then Log(2, [], 0, 10, [], map[0 := Taken(e1)], [])
    else if k == 2 then Log(3, [], 0, 10, [], map[0 := Taken(e1), 1 := Taken(e2)], [])
    else if k == 3 then Log(3, [e2], 2, 10, [], map[0 := Taken(e1), 1 := InFlight.Pushed(e2)], [e2])
    else if k == 4 then Log(3, [e2], 2, 10, [e2], map[0 := Taken(e1)], [e2])
    else if k == 5 then Log(3, [e2, e1], 2, 10, [e2], map[0 := InFlight.Pushed(e1)], [e2, e1])
    else Log(3, [e2, e1], 2, 10, [e2, e1], map[], [e2, e1])
  }

  function OvertakingActions(session: nat, payload: Payload): seq<Action> {
    [Take(0, session, payload), Take(1, session, payload), Push(1), Broadcast(1), Push(0), Broadcast(0)]
  }

  /** The same with only the pushes out of order. */
  function Swapped(k: nat, e1: Event, e2: Event): Log {
    if k <= 3 then Overtaking(k, e1, e2)
    else if k == 4 then Log(3, [e2, e1], 2, 10, [], map[0 := InFlight.Pushed(e1), 1 := InFlight.Pushed(e2)], [e2, e1])
    else if k == 5 then Log(3, [e2, e1], 2, 10, [e1], map[1 := InFlight.Pushed(e2)], [e2, e1])
    else Log(3, [e2, e1], 2, 10, [e1, e2], map[], [e2, e1])
  }

  function SwappedActions(session: nat, payload: Payload): seq<Action> {
    [Take(0, session, payload), Take(1, session, payload), Push(1), Push(0), Broadcast(0), Broadcast(1)]
  }

  lemma OvertakingStep(session: nat, payload: Payload, k: nat)
    requires k < 6
    ensures var e1, e2 := First(session, payload), Second(session, payload);
            Next(Overtaking(k, e1, e2), OvertakingActions(session, payload)[k], Overtaking(k + 1, e1, e2))
  {
    var e1, e2 := First(session, payload), Second(session, payload);
    var s, s' := Overtaking(k, e1, e2), Overtaking(k + 1, e1, e2);
    if k == 2 || k == 4 {
      assert s'.ring == s.ring + [s'.pushed[|s.pushed|]];
      assert Retained(s'.ring, 10) == s'.ring;
    }
  }

  lemma SwappedStep(session: nat, payload: Payload, k: nat)
    requires 3 <= k < 6
    ensures var e1, e2 := First(session, payload), Second(session, payload);
            Next(Swapped(k, e1, e2), SwappedActions(session, payload)[k], Swapped(k + 1, e1, e2))
  {
    var e1, e2 := First(session, payload), Second(session, payload);
    var s, s' := Swapped(k, e1, e2), Swapped(k + 1, e1, e2);
    if k == 3 {
      assert s'.ring == s.ring + [e1];
      assert Retained(s'.ring, 10) == s'.ring;
    }
  }

  lemma ForwardTwo(a: Event, b: Event, last: nat)
    ensures Forwarded([a, b], last) ==
            if a.number <= last then (if b.number <= last then [] else [b])
            else if b.number <= a.number then [a] else [a, b]
  {
    var queue, one, none: seq<Event> := [a, b], [b], [];
    assert queue[1..] == one && one[1..] == none;
    assert Forwarded(one, last) == if b.number <= last then none else [b];
    assert Forwarded(one, a.number) == if b.number <= a.number then none else [b];
  }

  /** Two appends one after the other on one thread, with room for one event. */
  function OneByOne(k: nat, e1: Event, e2: Event): Log {
    if k == 0 then Log(1, [], 0, 1, [], map[], [])
    else if k == 1 then Log(2, [], 0, 1, [], map[0 := Taken(e1)], [])
    else if k == 2 then Log(2, [e1], 1, 1, [], map[0 := InFlight.Pushed(e1)], [e1])
    else if k == 3 then Log(2, [e1], 1, 1, [e1], map[], [e1])
    else if k == 4 then Log(3, [e1], 1, 1, [e1], map[0 := Taken(e2)], [e1])
    else if k == 5 then Log(3, [e2], 2, 1, [e1], map[0 := InFlight.Pushed(e2)], [e1, e2])
    else Log(3, [e2], 2, 1, [e1, e2], map[], [e1, e2])
  }

  function OneByOneActions(session: nat, payload: Payload): seq<Action> {
    [Take(0, session, payload), Push(0), Broadcast(0), Take(0, session, payload), Push(0), Broadcast(0)]
  }

  lemma OneByOneStep(session: nat, payload: Payload, k: nat)
    requires k < 6
    ensures var e1, e2 := First(session, payload), Second(session, payload);
            Next(OneByOne(k, e1, e2), OneByOneActions(session, payload)[k], OneByOne(k + 1, e1, e2))
  {
    var e1, e2 := First(session, payload), Second(session, payload);
    var s, s' := OneByOne(k, e1, e2), OneByOne(k + 1, e1, e2);
    if k == 1 {
      assert s.ring + [e1] == [e1] && s.pushed + [e1] == [e1];
    } else if k == 4 {
      assert s.ring + [e2] == [e1, e2] && s.pushed + [e2] == [e1, e2];
      assert [e1, e2][1..] == [e2];
    } else if k == 2 || k == 5 {
      assert s.inFlight - {0} == map[] && s.sent + [if k == 2 then e1 else e2] == s'.sent;
    }
  }

  /** Nothing overlaps and everything is in order: a subscriber whose replay loads `min_seq` before the second append
      and copies the ring after it asks for event 1, which the log still held when it asked, is told that the replay
      is complete, and never gets it. */
  lemma StaleMinimumLosesAnEvent(session: nat, payload: Payload) returns (states: seq<Log>, acts: seq<Action>)
    ensures IsRun(states, acts) && |states| == 7 && states[6].inFlight == map[]
    ensures Increasing(states[6].pushed) && Increasing(states[6].sent)
    ensures var sub := Subscription(3, 3, 6, 6, 1);
            var e1, e2 := First(session, payload), Second(session, payload);
            && InRun(sub, states) && e1 in states[3].ring
            && ReplayOf(states[6].ring, states[3].minSeq, 1) == Complete([e2]) && Queued(sub, states) == [e2]
            && Forwarded(Queued(sub, states), LastNumber(Replayed(sub, states))) == []
            && LiveIsExact(sub, states) && !OverlapHandoff.ReplayIsFaithful(sub, states)
  {
    var e1, e2 := First(session, payload), Second(session, payload);
    states, acts := OneByOneRun(session, payload);
    var sub := Subscription(3, 3, 6, 6, 1);
    assert states[3] == OneByOne(3, e1, e2) && states[6] == OneByOne(6, e1, e2);
    InOrderLiveIsExact(states, acts, sub);
    StaleReplay(sub, states, e1, e2);
  }

  lemma OneByOneRun(session: nat, payload: Payload) returns (states: seq<Log>, acts: seq<Action>)
    ensures IsRun(states, acts) && |states| == 7
    ensures forall k: nat :: k < 7 ==> states[k] == OneByOne(k, First(session, payload), Second(session, payload))
  {
    var e1, e2 := First(session, payload), Second(session, payload);
    states := seq(7, k requires 0 <= k < 7 => OneByOne(k, e1, e2));
    acts := OneByOneActions(session, payload);
    forall k | 0 <= k < 6 ensures Next(states[k], acts[k], states[k + 1]) {
      OneByOneStep(session, payload, k);
    }
  }

  lemma StaleReplay(sub: Subscription, states: seq<Log>, e1: Event, e2: Event)
    requires sub == Subscription(3, 3, 6, 6, 1) && |states| == 7 && e1.number == 1 && e2.number == 2
    requires states[3].minSeq == 1 && states[3].sent == [e1]
    requires states[6].ring == [e2] && states[6].max == 1 && states[6].pushed == [e1, e2] && states[6].sent == [e1, e2]
    ensures ReplayOf(states[6].ring, states[3].minSeq, 1) == Complete([e2]) && Queued(sub, states) == [e2]
    ensures Forwarded(Queued(sub, states), LastNumber(Replayed(sub, states))) == []
    ensures !OverlapHandoff.ReplayIsFaithful(sub, states)
  {
    AtLeastOne(e2, 1);
    ForwardNone(e2, 2);
    assert Queued(sub, states) == [e2];
    assert Evicted(states[6].pushed, 1, 1);
  }

  lemma AtLeastOne(e: Event, from: nat)
    requires e.number >= from
    ensures AtLeast([e], from) == [e]
  {
    var one, none: seq<Event> := [e], [];
    assert one[..0] == none;
  }

  lemma ForwardNone(e: Event, last: nat)
    requires e.number <= last
    ensures Forwarded([e], last) == []
  {
    var one, none: seq<Event> := [e], [];
    assert one[1..] == none;
  }

  /** Broadcast out of order: a subscriber that has replayed nothing never gets event 1. */
  lemma OverlapCanLoseAnEvent(session: nat, payload: Payload) returns (states: seq<Log>, acts: seq<Action>)
    ensures IsRun(states, acts) && |states| == 7 && states[6].inFlight == map[]
    ensures var sub := Subscription(0, 0, 0, 6, 1);
            var e1, e2 := First(session, payload), Second(session, payload);
            && InRun(sub, states) && Replayed(sub, states) == [] && Queued(sub, states) == [e2, e1]
            && Forwarded(Queued(sub, states), 0) == [e2]
  {
    var e1, e2 := First(session, payload), Second(session, payload);
    states := seq(7, k requires 0 <= k < 7 => Overtaking(k, e1, e2));
    acts := OvertakingActions(session, payload);
    forall k | 0 <= k < 6 ensures Next(states[k], acts[k], states[k + 1]) {
      OvertakingStep(session, payload, k);
    }
    ForwardTwo(e2, e1, 0);
  }

  /** Broadcast in order but pushed out of order: a subscriber that copies the ring between the two pushes never
      gets event 1, and one that copies it after them gets event 2 twice. */
  lemma InOrderBroadcastsAreNotEnough(session: nat, payload: Payload) returns (states: seq<Log>, acts: seq<Action>)
    ensures IsRun(states, acts) && |states| == 7 && states[6].inFlight == map[] && Increasing(states[6].sent)
    ensures var e1, e2 := First(session, payload), Second(session, payload);
            var loses, repeats := Subscription(3, 3, 3, 6, 1), Subscription(4, 4, 4, 6, 1);
            && InRun(loses, states) && Replayed(loses, states) == [e2] && Queued(loses, states) == [e1, e2]
            && Forwarded(Queued(loses, states), LastNumber(Replayed(loses, states))) == []
            && InRun(repeats, states) && Replayed(repeats, states) == [e2, e1] && Queued(repeats, states) == [e1, e2]
            && Forwarded(Queued(repeats, states), LastNumber(Replayed(repeats, states))) == [e2]
  {
    var e1, e2 := First(session, payload), Second(session, payload);
    states := seq(7, k requires 0 <= k < 7 => Swapped(k, e1, e2));
    acts := SwappedActions(session, payload);
    forall k | 0 <= k < 6 ensures Next(states[k], acts[k], states[k + 1]) {
      if k < 3 { OvertakingStep(session, payload, k); } else { SwappedStep(session, payload, k); }
    }
    ForwardTwo(e1, e2, 2);
    ForwardTwo(e1, e2, 1);
  }
}
