/** The hand-off from replay to live events with overlapping appends: the replay is a snapshot of the ring, what
    is live is what has been broadcast since the subscription, and the live loop tells the two apart by number. */
module OverlapHandoff {
  import opened EventLog
  import opened EventLogSteps
  import opened Sequences

  /** The live loop of a subscriber that has seen numbers up to `last`: forward what is newer, skip the rest. */
  function Forwarded(queue: seq<Event>, last: nat): seq<Event> {
    if queue == [] then []
    else if queue[0].number <= last then Forwarded(queue[1..], last)
    else [queue[0]] + Forwarded(queue[1..], queue[0].number)
  }

  /** What it should forward: the events that are not known yet. */
  function Fresh(queue: seq<Event>, known: seq<Event>): seq<Event> {
    if queue == [] then [] else (if queue[0] in known then [] else [queue[0]]) + Fresh(queue[1..], known)
  }

  /** An earlier fresh event with at least this number. */
  ghost predicate Overtaken(queue: seq<Event>, known: seq<Event>, k: nat)
    requires k < |queue|
  {
    exists m :: 0 <= m < k && queue[m] !in known && queue[k].number <= queue[m].number
  }

  /** Numbers tell the known events: an event is known exactly if its number is at most `last` or at most that of
      an earlier fresh event. */
  ghost predicate InStep(queue: seq<Event>, known: seq<Event>, last: nat) {
    forall k :: 0 <= k < |queue| ==> (queue[k] in known <==> queue[k].number <= last || Overtaken(queue, known, k))
  }

  lemma {:induction false} ForwardedIsNewer(queue: seq<Event>, last: nat)
    ensures forall e :: e in Forwarded(queue, last) ==> e.number > last
    decreases |queue|
  {
    if queue != [] {
      ForwardedIsNewer(queue[1..], if queue[0].number <= last then last else queue[0].number);
    }
  }

  lemma {:induction false} FreshIsUnknown(queue: seq<Event>, known: seq<Event>)
    ensures forall e :: e in Fresh(queue, known) ==> e !in known
    decreases |queue|
  {
    if queue != [] {
      FreshIsUnknown(queue[1..], known);
    }
  }

  /** Dropping the first event, given that it is treated rightly. */
  lemma InStepNext(queue: seq<Event>, known: seq<Event>, last: nat)
    requires queue != [] && (queue[0] in known <==> queue[0].number <= last)
    ensures InStep(queue, known, last) <==>
            InStep(queue[1..], known, if queue[0] in known then last else queue[0].number)
  {
    var rest, next := queue[1..], if queue[0] in known then last else queue[0].number;
    forall k | 0 <= k < |rest|
      ensures queue[k + 1].number <= last || Overtaken(queue, known, k + 1) <==>
              rest[k].number <= next || Overtaken(rest, known, k)
    {
      OvertakenNext(queue, known, k);
    }
    assert !Overtaken(queue, known, 0);
    assert forall k :: 0 < k < |queue| ==> queue[k] == rest[k - 1];
  }

  lemma OvertakenNext(queue: seq<Event>, known: seq<Event>, k: nat)
    requires k + 1 < |queue|
    ensures Overtaken(queue, known, k + 1) <==>
            Overtaken(queue[1..], known, k) || (queue[0] !in known && queue[k + 1].number <= queue[0].number)
  {
    var rest := queue[1..];
    if Overtaken(queue, known, k + 1) {
      var m :| 0 <= m < k + 1 && queue[m] !in known && queue[k + 1].number <= queue[m].number;
      assert m > 0 ==> rest[m - 1] == queue[m];
    }
    if Overtaken(rest, known, k) {
      var m :| 0 <= m < k && rest[m] !in known && rest[k].number <= rest[m].number;
      assert queue[m + 1] == rest[m];
    }
  }

  /** The live loop forwards exactly the fresh events, each of them and nothing twice, if and only if the numbers
      are in step with what is known. */
  lemma {:induction false} ForwardsFreshIff(queue: seq<Event>, known: seq<Event>, last: nat)
    ensures Forwarded(queue, last) == Fresh(queue, known) <==> InStep(queue, known, last)
    decreases |queue|
  {
    if queue != [] {
      var head, rest := queue[0], queue[1..];
      if head in known <==> head.number <= last {
        var next := if head in known then last else head.number;
        ForwardsFreshIff(rest, known, next);
        InStepNext(queue, known, last);
        SameAfter(head, Forwarded(rest, next), Fresh(rest, known));
      } else {
        ForwardedIsNewer(queue, last);
        FreshIsUnknown(queue, known);
        assert head in Forwarded(queue, last) <==> head.number > last;
        assert head in Fresh(queue, known) <==> head !in known;
        assert !Overtaken(queue, known, 0);
      }
    }
  }

  // ------------------------------------------------------------------ over runs

  ghost predicate Increasing(events: seq<Event>) {
    forall i, j :: 0 <= i < j < |events| ==> events[i].number < events[j].number
  }

  /** A subscription in a run: it opens its channel at step `open`, loads `min_seq` at step `min`, copies the ring at
      step `copy`, and has been sent what was broadcast between steps `open` and `now`. */
  datatype Subscription = Subscription(open: nat, min: nat, copy: nat, now: nat, from: nat)

  ghost predicate InRun(sub: Subscription, states: seq<Log>) {
    sub.open <= sub.min <= sub.copy <= sub.now < |states|
  }

  function Replayed(sub: Subscription, states: seq<Log>): seq<Event>
    requires sub.min < |states| && sub.copy < |states|
  {
    ReplayOf(states[sub.copy].ring, states[sub.min].minSeq, sub.from).events
  }

  /** The channel's contents since the subscription; nothing has been overwritten. */
  function Queued(sub: Subscription, states: seq<Log>): seq<Event>
    requires sub.open < |states| && sub.now < |states|
  {
    var all := states[sub.now].sent;
    if |states[sub.open].sent| <= |all| then all[|states[sub.open].sent|..] else []
  }

  lemma {:induction false} LogsGrow(states: seq<Log>, acts: seq<Action>, i: nat, j: nat)
    requires IsRun(states, acts) && i <= j < |states|
    ensures states[i].pushed <= states[j].pushed && states[i].sent <= states[j].sent
    decreases j
  {
    if i < j {
      LogsGrow(states, acts, i, j - 1);
      assert Next(states[j - 1], acts[j - 1], states[j]);
    }
  }

  /** The exact condition, in any run, for any subscription: the client gets the replay and then precisely what the
      replay did not hold. */
  lemma HandoffIsExactIff(states: seq<Log>, acts: seq<Action>, sub: Subscription)
    requires IsRun(states, acts) && InRun(sub, states)
    ensures states[sub.now].sent == states[sub.open].sent + Queued(sub, states)
    ensures var replay, queue := Replayed(sub, states), Queued(sub, states);
            Forwarded(queue, LastNumber(replay)) == Fresh(queue, replay) <==> InStep(queue, replay, LastNumber(replay))
  {
    LogsGrow(states, acts, sub.open, sub.now);
    ForwardsFreshIff(Queued(sub, states), Replayed(sub, states), LastNumber(Replayed(sub, states)));
  }

  /** Filtering an increasing list by number keeps its last event, or nothing. */
  lemma LastOfAtLeast(events: seq<Event>, from: nat)
    requires Increasing(events) && AtLeast(events, from) != []
    ensures LastNumber(AtLeast(events, from)) == LastNumber(events)
  {
    if events != [] && events[|events| - 1].number < from {
      NothingOld(events, from);
    }
  }

  lemma {:induction false} AllForwarded(queue: seq<Event>, last: nat)
    requires Increasing(queue) && forall e :: e in queue ==> e.number > last
    ensures Forwarded(queue, last) == queue
    decreases |queue|
  {
    if queue != [] {
      AllForwarded(queue[1..], queue[0].number);
      assert queue == [queue[0]] + queue[1..];
    }
  }

  /** The live part: after a replay that is not empty the client gets exactly the events pushed after the copy, and
      after an empty one all that was broadcast. */
  ghost predicate LiveIsExact(sub: Subscription, states: seq<Log>)
    requires InRun(sub, states)
  {
    var replay, queue := Replayed(sub, states), Queued(sub, states);
    Forwarded(queue, LastNumber(replay)) == if replay == [] then queue else Fresh(queue, states[sub.copy].pushed)
  }

  /** For that part order is enough, overlap or not. */
  lemma InOrderLiveIsExact(states: seq<Log>, acts: seq<Action>, sub: Subscription)
    requires IsRun(states, acts) && InRun(sub, states)
    requires Increasing(states[sub.now].pushed) && Increasing(states[sub.now].sent)
    ensures LiveIsExact(sub, states)
  {
    var replay, queue := Replayed(sub, states), Queued(sub, states);
    var known, all := states[sub.copy].pushed, states[sub.now].pushed;
    LogsGrow(states, acts, sub.open, sub.now);
    LogsGrow(states, acts, sub.copy, sub.now);
    RunInv(states, acts, sub.now);
    RunInv(states, acts, sub.copy);
    forall e | e in queue ensures e in all {
      assert e in states[sub.now].sent;
    }
    if replay == [] {
      NumbersArePositive(states[sub.now], queue);
      AllForwarded(queue, 0);
    } else {
      ReplayEndsWithPushed(states[sub.copy], states[sub.min].minSeq, sub.from);
      KnownByNumber(queue, known, all);
      ForwardsFreshIff(queue, known, LastNumber(replay));
    }
  }

  lemma NumbersArePositive(s: Log, queue: seq<Event>)
    requires NumbersInv(s) && forall e :: e in queue ==> e in s.pushed
    ensures forall e :: e in queue ==> e.number > 0
  {
  }

  lemma ReplayEndsWithPushed(s: Log, min: nat, from: nat)
    requires RingInv(s) && Increasing(s.pushed) && ReplayOf(s.ring, min, from).events != []
    ensures s.pushed != [] && LastNumber(ReplayOf(s.ring, min, from).events) == LastNumber(s.pushed)
  {
    if !ReplayOf(s.ring, min, from).Partial? {
      LastOfAtLeast(s.ring, from);
    }
  }

  /** In an increasing log the pushed events are those up to the last number. */
  lemma KnownByNumber(queue: seq<Event>, known: seq<Event>, all: seq<Event>)
    requires Increasing(queue) && Increasing(all) && known != [] && known <= all
    requires forall e :: e in queue ==> e in all
    ensures InStep(queue, known, LastNumber(known))
  {
    forall k | 0 <= k < |queue| ensures queue[k] in known <==> queue[k].number <= LastNumber(known) {
      assert queue[k] in all;
      var p :| 0 <= p < |all| && all[p] == queue[k];
      assert all[|known| - 1] == known[|known| - 1];
      if p < |known| {
        assert known[p] == queue[k];
      }
    }
  }

  /** The replay part: all that was pushed from the requested number on, or a gap notice with the first number left
      and all that is left. From 0, all that is left. */
  ghost predicate ReplayIsFaithful(sub: Subscription, states: seq<Log>)
    requires InRun(sub, states)
  {
    var s := states[sub.copy];
    var replay := ReplayOf(s.ring, states[sub.min].minSeq, sub.from);
    if sub.from == 0 then replay == Complete(Retained(s.pushed, s.max)) else Faithful(replay, s.pushed, s.max, sub.from)
  }

  /** Both parts: neither a gap without notice nor a duplicate. */
  ghost predicate Served(sub: Subscription, states: seq<Log>)
    requires InRun(sub, states)
  {
    ReplayIsFaithful(sub, states) && LiveIsExact(sub, states)
  }

  // ------------------------------------------------------------------ the replay part

  /** Increasing positive numbers that leave none out are 1, 2, 3, ... */
  lemma {:induction false} NumberAt(events: seq<Event>, i: nat)
    requires Increasing(events) && i < |events| && forall e :: e in events ==> e.number >= 1
    requires forall n: nat :: 1 <= n <= events[i].number ==> HasNumber(events, n)
    ensures events[i].number == i + 1
  {
    if i > 0 {
      NumberAt(events, i - 1);
      assert forall k :: 0 <= k < i ==> events[k].number <= events[i - 1].number;
    }
    assert events[i] in events;
    assert HasNumber(events, i + 1);
    var k :| 0 <= k < |events| && events[k].number == i + 1;
    assert k >= i;
  }

  /** When all appends have finished and their events were pushed in number order, the log is numbered, and so it was
      all along. */
  lemma FinishedIsNumbered(states: seq<Log>, acts: seq<Action>, c: nat)
    requires IsRun(states, acts) && c < |states|
    requires states[|states| - 1].inFlight == map[] && Increasing(states[|states| - 1].pushed)
    ensures Numbered(states[c].pushed)
  {
    var end := states[|states| - 1];
    RunInv(states, acts, |states| - 1);
    LogsGrow(states, acts, c, |states| - 1);
    forall i | 0 <= i < |end.pushed| ensures end.pushed[i].number == i + 1 {
      NumberAt(end.pushed, i);
    }
  }

  lemma MinIsOldest(s: Log)
    requires RingInv(s)
    ensures s.minSeq == OldestNumber(s.pushed, s.max)
  {
  }

  lemma OldestAdvances(before: seq<Event>, after: seq<Event>, max: nat)
    requires Numbered(after) && before <= after && max >= 1
    ensures OldestNumber(before, max) <= OldestNumber(after, max)
    ensures |before| == |after| ==> OldestNumber(before, max) == OldestNumber(after, max)
  {
    assert forall i :: 0 <= i < |before| ==> before[i] == after[i];
  }

  /** The number that `replay_from` loads before it takes the lock is at most the one in force at the copy. */
  lemma MinLoaded(states: seq<Log>, acts: seq<Action>, sub: Subscription)
    requires IsRun(states, acts) && InRun(sub, states) && states[sub.copy].max >= 1 && Numbered(states[sub.copy].pushed)
    ensures var p, max := states[sub.copy].pushed, states[sub.copy].max;
            && states[sub.copy].ring == Retained(p, max)
            && states[sub.min].minSeq <= OldestNumber(p, max)
            && (sub.min == sub.copy ==> states[sub.min].minSeq == OldestNumber(p, max))
  {
    RunInv(states, acts, sub.min);
    RunInv(states, acts, sub.copy);
    LogsGrow(states, acts, sub.min, sub.copy);
    MaxStays(states, acts, sub.min, sub.copy);
    MinIsOldest(states[sub.min]);
    OldestAdvances(states[sub.min].pushed, states[sub.copy].pushed, states[sub.copy].max);
  }

  /** Nothing requested had been evicted when the ring was copied, or the loaded `min_seq` was still the one in force
      and is above the requested number. */
  ghost predicate InTime(sub: Subscription, states: seq<Log>)
    requires InRun(sub, states)
  {
    var p, max, min := states[sub.copy].pushed, states[sub.copy].max, states[sub.min].minSeq;
    sub.from == 0 || !Evicted(p, max, sub.from) || (sub.from < min && min == OldestNumber(p, max))
  }

  /** The exact condition for one subscriber when everything is in order: the replay, and with it the whole hand-off,
      fails exactly if the ring has moved on between the load of `min_seq` and the copy, past something requested. */
  lemma ServedIffInTime(states: seq<Log>, acts: seq<Action>, sub: Subscription)
    requires IsRun(states, acts) && InRun(sub, states) && sub.now == |states| - 1
    requires states[sub.now].inFlight == map[] && states[sub.now].max >= 1
    requires Increasing(states[sub.now].pushed) && Increasing(states[sub.now].sent)
    ensures Served(sub, states) <==> InTime(sub, states)
  {
    InOrderLiveIsExact(states, acts, sub);
    FinishedIsNumbered(states, acts, sub.copy);
    MaxStays(states, acts, sub.copy, sub.now);
    MinLoaded(states, acts, sub);
    var p, max, min := states[sub.copy].pushed, states[sub.copy].max, states[sub.min].minSeq;
    if sub.from == 0 {
      ReplayFromZero(p, max, min);
    } else {
      StaleReplayIsFaithful(p, max, min, sub.from);
    }
  }

  // ------------------------------------------------------------------ every subscriber of a run

  /** Every subscription that lasts to the end of the run and for which no push falls between the load of `min_seq` and
      the copy of the ring. */
  ghost predicate ServesUndisturbedReplays(states: seq<Log>) {
    forall sub :: InRun(sub, states) && sub.now == |states| - 1 && sub.min == sub.copy ==> Served(sub, states)
  }

  /** And every subscription whatever. */
  ghost predicate ServesEverySubscriber(states: seq<Log>) {
    forall sub :: InRun(sub, states) && sub.now == |states| - 1 ==> Served(sub, states)
  }

  lemma {:induction false} ForwardsAllOnlyInOrder(queue: seq<Event>, last: nat)
    requires Forwarded(queue, last) == queue
    ensures Increasing(queue)
    decreases |queue|
  {
    if queue != [] {
      var head, rest := queue[0], queue[1..];
      ForwardedIsNewer(queue, last);
      assert head in queue;
      assert Forwarded(queue, last)[1..] == Forwarded(rest, head.number);
      ForwardsAllOnlyInOrder(rest, head.number);
      ForwardedIsNewer(rest, head.number);
      assert forall k :: 0 < k < |queue| ==> queue[k] == rest[k - 1] && queue[k] in rest;
    }
  }

  lemma {:induction false} StepwiseIncreasing(events: seq<Event>)
    requires forall i :: 0 <= i < |events| - 1 ==> events[i].number < events[i + 1].number
    ensures Increasing(events)
    decreases |events|
  {
    if |events| >= 2 {
      var init := events[..|events| - 1];
      StepwiseIncreasing(init);
      var last := |events| - 1;
      forall i | 0 <= i < last ensures events[i].number < events[last].number {
        assert init[i].number <= init[last - 1].number;
      }
      assert forall i :: 0 <= i < last ==> events[i] == init[i];
    }
  }

  /** The log passes through every length. */
  lemma {:induction false} PushedHadLength(states: seq<Log>, acts: seq<Action>, i: nat, n: nat) returns (c: nat)
    requires IsRun(states, acts) && i < |states| && n <= |states[i].pushed|
    ensures c <= i && |states[c].pushed| == n
  {
    if n == |states[i].pushed| {
      c := i;
    } else {
      assert i > 0;
      assert Next(states[i - 1], acts[i - 1], states[i]);
      c := PushedHadLength(states, acts, i - 1, n);
    }
  }

  ghost predicate SentOrInFlight(s: Log) {
    forall e :: e in s.pushed ==> e in s.sent || exists t :: t in s.inFlight && s.inFlight[t] == InFlight.Pushed(e)
  }

  lemma SentNext(s: Log, a: Action, s': Log)
    requires SentOrInFlight(s) && Next(s, a, s')
    ensures SentOrInFlight(s')
  {
    forall e | e in s'.pushed
      ensures e in s'.sent || exists t :: t in s'.inFlight && s'.inFlight[t] == InFlight.Pushed(e)
    {
      if a.Push? && s.inFlight[a.t].event == e {
        assert s'.inFlight[a.t] == InFlight.Pushed(e);
      } else if e !in s.sent {
        assert e in s.pushed;
        var t :| t in s.inFlight && s.inFlight[t] == InFlight.Pushed(e);
        if a.Broadcast? && a.t == t {
          assert s'.sent[|s.sent|] == e;
        } else {
          assert s'.inFlight[t] == InFlight.Pushed(e);
        }
      }
    }
  }

  lemma {:induction false} PushedIsSent(states: seq<Log>, acts: seq<Action>, i: nat)
    requires IsRun(states, acts) && i < |states|
    ensures SentOrInFlight(states[i])
  {
    if i > 0 {
      PushedIsSent(states, acts, i - 1);
      SentNext(states[i - 1], acts[i - 1], states[i]);
    }
  }

  lemma {:induction false} AtLeastZero(events: seq<Event>)
    ensures AtLeast(events, 0) == events
  {
    if events != [] {
      AtLeastZero(events[..|events| - 1]);
    }
  }

  lemma RingEndsWithPushed(s: Log)
    requires RingInv(s) && s.max >= 1 && s.pushed != []
    ensures s.ring != [] && s.ring[|s.ring| - 1] == s.pushed[|s.pushed| - 1]
  {
  }

  /** A replay from 0 is the ring, which ends with the last push. */
  lemma WholeRing(s: Log, min: nat)
    requires RingInv(s) && s.max >= 1 && s.pushed != []
    ensures ReplayOf(s.ring, min, 0).events != []
    ensures LastNumber(ReplayOf(s.ring, min, 0).events) == s.pushed[|s.pushed| - 1].number
  {
    RingEndsWithPushed(s);
    AtLeastZero(s.ring);
  }

  lemma SentLater(s: Log, sent: seq<Event>, e: Event)
    requires BroadcastInv(s) && s.sent <= sent && e in sent && e !in s.pushed
    ensures e in sent[|s.sent|..]
  {
    forall i | 0 <= i < |s.sent| ensures s.sent[i] != e {}
    assert sent == s.sent + sent[|s.sent|..];
  }

  /** A state of the log, and an event that is pushed after it. */
  lemma NotYetThere(s: Log, end: Log, a: nat)
    requires EventLogSteps.Inv(s) && s.max >= 1 && NumbersInv(end) && SentOrInFlight(end) && end.inFlight == map[]
    requires s.pushed <= end.pushed && s.sent <= end.sent && |s.pushed| == a + 1 < |end.pushed|
    ensures ReplayOf(s.ring, s.minSeq, 0).events != []
    ensures LastNumber(ReplayOf(s.ring, s.minSeq, 0).events) == end.pushed[a].number
    ensures end.pushed[a + 1] !in s.pushed && end.pushed[a + 1] in end.sent[|s.sent|..]
  {
    WholeRing(s, s.minSeq);
    var missed := end.pushed[a + 1];
    forall i | 0 <= i <= a ensures s.pushed[i] != missed {
      assert s.pushed[i] == end.pushed[i];
    }
    assert missed in end.pushed;
    SentLater(s, end.sent, missed);
  }

  lemma MissesFresh(queue: seq<Event>, known: seq<Event>, last: nat, missed: Event)
    requires missed in queue && missed !in known && missed.number <= last
    ensures Forwarded(queue, last) != Fresh(queue, known)
  {
    FreshHas(queue, known, missed);
    ForwardedIsNewer(queue, last);
  }

  /** Two neighbours pushed out of order: whoever copies the ring between the two pushes misses the second. */
  lemma SwappedPushesFail(states: seq<Log>, acts: seq<Action>, a: nat) returns (sub: Subscription)
    requires IsRun(states, acts)
    requires var end := states[|states| - 1];
             && end.inFlight == map[] && end.max >= 1
             && a + 1 < |end.pushed| && end.pushed[a].number >= end.pushed[a + 1].number
    ensures InRun(sub, states) && sub.now == |states| - 1 && sub.min == sub.copy && !LiveIsExact(sub, states)
  {
    var now := |states| - 1;
    var end := states[now];
    var c := PushedHadLength(states, acts, now, a + 1);
    sub := Subscription(c, c, c, now, 0);
    LogsGrow(states, acts, c, now);
    MaxStays(states, acts, c, now);
    RunInv(states, acts, c);
    RunInv(states, acts, now);
    PushedIsSent(states, acts, now);
    NotYetThere(states[c], end, a);
    MissesFresh(Queued(sub, states), states[c].pushed, end.pushed[a].number, end.pushed[a + 1]);
  }

  lemma {:induction false} MaxStays(states: seq<Log>, acts: seq<Action>, i: nat, j: nat)
    requires IsRun(states, acts) && i <= j < |states|
    ensures states[i].max == states[j].max
    decreases j
  {
    if i < j {
      MaxStays(states, acts, i, j - 1);
      assert Next(states[j - 1], acts[j - 1], states[j]);
    }
  }

  lemma {:induction false} FreshHas(queue: seq<Event>, known: seq<Event>, e: Event)
    requires e in queue && e !in known
    ensures e in Fresh(queue, known)
    decreases |queue|
  {
    if queue[0] != e {
      FreshHas(queue[1..], known, e);
    }
  }

  /** The subscriber of the first hour has everything from the channel. */
  lemma SentInOrder(states: seq<Log>, acts: seq<Action>)
    requires IsRun(states, acts) && ServesUndisturbedReplays(states)
    ensures Increasing(states[|states| - 1].sent)
  {
    var sub := Subscription(0, 0, 0, |states| - 1, 0);
    assert InRun(sub, states) && Replayed(sub, states) == [];
    assert Queued(sub, states) == states[|states| - 1].sent;
    assert Served(sub, states);
    ForwardsAllOnlyInOrder(states[|states| - 1].sent, 0);
  }

  lemma ServingNeedsOrder(states: seq<Log>, acts: seq<Action>)
    requires IsRun(states, acts) && ServesUndisturbedReplays(states)
    requires states[|states| - 1].inFlight == map[] && states[|states| - 1].max >= 1
    ensures Increasing(states[|states| - 1].pushed) && Increasing(states[|states| - 1].sent)
  {
    var end := states[|states| - 1];
    SentInOrder(states, acts);
    forall a: nat | a + 1 < |end.pushed| ensures end.pushed[a].number < end.pushed[a + 1].number {
      if end.pushed[a].number >= end.pushed[a + 1].number {
        var sub := SwappedPushesFail(states, acts, a);
      }
    }
    StepwiseIncreasing(end.pushed);
  }

  /** When overlapping appends do no harm: in a run in which every append has finished, the hand-off serves every
      subscriber whose replay is not disturbed, whenever it comes and whatever it asks for, if and only if the events
      were both pushed and broadcast in number order. */
  lemma UndisturbedAreServedIffInOrder(states: seq<Log>, acts: seq<Action>)
    requires IsRun(states, acts)
    requires states[|states| - 1].inFlight == map[] && states[|states| - 1].max >= 1
    ensures ServesUndisturbedReplays(states) <==>
            Increasing(states[|states| - 1].pushed) && Increasing(states[|states| - 1].sent)
  {
    var end := states[|states| - 1];
    if Increasing(end.pushed) && Increasing(end.sent) {
      forall sub | InRun(sub, states) && sub.now == |states| - 1 && sub.min == sub.copy ensures Served(sub, states) {
        FinishedIsNumbered(states, acts, sub.copy);
        MaxStays(states, acts, sub.copy, sub.now);
        MinLoaded(states, acts, sub);
        ServedIffInTime(states, acts, sub);
      }
    }
    if ServesUndisturbedReplays(states) {
      ServingNeedsOrder(states, acts);
    }
  }

  /** Whoever asks from 1, loads `min_seq` just before the first eviction and copies the ring just after it, is told
      that the replay is complete and never gets event 1. */
  lemma FirstEvictionFails(states: seq<Log>, acts: seq<Action>) returns (sub: Subscription)
    requires IsRun(states, acts)
    requires var end := states[|states| - 1];
             end.inFlight == map[] && Increasing(end.pushed) && Increasing(end.sent) && 1 <= end.max < |end.pushed|
    ensures InRun(sub, states) && sub.now == |states| - 1 && !Served(sub, states)
  {
    var now := |states| - 1;
    var max := states[now].max;
    var copy := PushedHadLength(states, acts, now, max + 1);
    var min := PushedHadLength(states, acts, copy, max);
    sub := Subscription(min, min, copy, now, 1);
    ServedIffInTime(states, acts, sub);
    MaxStays(states, acts, min, now);
    MaxStays(states, acts, copy, now);
    FinishedIsNumbered(states, acts, min);
    RunInv(states, acts, min);
    MinIsOldest(states[min]);
  }

  /** With no room at all, a replay from 1 is empty and claims to be complete. */
  lemma NoRoomFails(states: seq<Log>, acts: seq<Action>) returns (sub: Subscription)
    requires IsRun(states, acts) && states[|states| - 1].max == 0 && states[|states| - 1].pushed != []
    ensures InRun(sub, states) && sub.now == |states| - 1 && !Served(sub, states)
  {
    var now := |states| - 1;
    sub := Subscription(now, now, now, now, 1);
    RunInv(states, acts, now);
    assert states[now].ring == [] && states[now].minSeq == 0;
    assert Evicted(states[now].pushed, 0, 1);
  }

  /** What every subscriber can rely on: in a run in which every append has finished, all are served, however their
      steps fall among the pushes, if and only if the events were pushed and broadcast in number order and none was
      ever evicted. */
  lemma AllAreServedIffNothingEvicted(states: seq<Log>, acts: seq<Action>)
    requires IsRun(states, acts) && states[|states| - 1].inFlight == map[]
    ensures var end := states[|states| - 1];
            ServesEverySubscriber(states) <==> Increasing(end.pushed) && Increasing(end.sent) && |end.pushed| <= end.max
  {
    var end := states[|states| - 1];
    if end.max == 0 {
      AllWithoutRoom(states, acts);
    } else {
      if Increasing(end.pushed) && Increasing(end.sent) && |end.pushed| <= end.max {
        forall sub | InRun(sub, states) && sub.now == |states| - 1 ensures Served(sub, states) {
          LogsGrow(states, acts, sub.copy, sub.now);
          MaxStays(states, acts, sub.copy, sub.now);
          ServedIffInTime(states, acts, sub);
        }
      }
      if ServesEverySubscriber(states) {
        ServingNeedsOrder(states, acts);
        if |end.pushed| > end.max {
          var sub := FirstEvictionFails(states, acts);
        }
      }
    }
  }

  lemma SentNeedsPushed(s: Log)
    requires BroadcastInv(s)
    ensures s.sent == [] || s.pushed != []
  {
    if s.sent != [] {
      assert s.sent[0] in s.pushed;
    }
  }

  lemma AllWithoutRoom(states: seq<Log>, acts: seq<Action>)
    requires IsRun(states, acts) && states[|states| - 1].max == 0
    ensures ServesEverySubscriber(states) <==> states[|states| - 1].pushed == []
    ensures states[|states| - 1].pushed == [] ==> states[|states| - 1].sent == []
  {
    var now := |states| - 1;
    RunInv(states, acts, now);
    SentNeedsPushed(states[now]);
    if states[now].pushed == [] {
      forall sub | InRun(sub, states) && sub.now == now ensures Served(sub, states) {
        NothingPushed(states, acts, sub);
      }
    } else {
      var sub := NoRoomFails(states, acts);
    }
  }

  lemma NothingPushed(states: seq<Log>, acts: seq<Action>, sub: Subscription)
    requires IsRun(states, acts) && InRun(sub, states)
    requires states[sub.now].pushed == [] && states[sub.now].sent == []
    ensures Served(sub, states)
  {
    LogsGrow(states, acts, sub.open, sub.now);
    LogsGrow(states, acts, sub.min, sub.now);
    LogsGrow(states, acts, sub.copy, sub.now);
    RunInv(states, acts, sub.min);
    RunInv(states, acts, sub.copy);
    var s := states[sub.copy];
    assert s.pushed == [] && s.ring == [] && states[sub.min].ring == [] && states[sub.min].minSeq == 0;
    assert Queued(sub, states) == [];
  }
}
