/** The bounded event log with every append and every replay taken as one step, against the unbounded
    history it forgets. */
module EventLog {

  datatype Payload =
    | MessageChunk(text: string)
    | TurnComplete
    | StateChange(process: string, turn: string)
    | OtherPayload(kind: string)

  datatype Event = Event(number: nat, session: nat, payload: Payload)

  datatype Replay = Complete(events: seq<Event>) | Partial(events: seq<Event>, oldest: nat)

  /** Events carry the sequence numbers 1, 2, 3, ... */
  ghost predicate Numbered(history: seq<Event>) {
    forall i :: 0 <= i < |history| ==> history[i].number == i + 1
  }

  ghost predicate HasNumber(events: seq<Event>, n: int) {
    exists i :: 0 <= i < |events| && events[i].number == n
  }

  function LastNumber(events: seq<Event>): nat {
    if events == [] then 0 else events[|events| - 1].number
  }

  /** The ring: the last `min(n, max)` events. */
  function Retained(history: seq<Event>, max: nat): seq<Event> {
    history[if |history| > max then |history| - max else 0..]
  }

  function OldestNumber(history: seq<Event>, max: nat): nat {
    if Retained(history, max) == [] then 0 else Retained(history, max)[0].number
  }

  function AtLeast(events: seq<Event>, from: nat): seq<Event> {
    if events == [] then []
    else AtLeast(events[..|events| - 1], from) + if events[|events| - 1].number >= from then [events[|events| - 1]] else []
  }

  /** `replay_from`, given the ring and the value of `min_seq` it loaded. */
  function ReplayOf(ring: seq<Event>, min: nat, from: nat): Replay {
    if from > 0 && from < min && min > 0 then Partial(ring, min) else Complete(AtLeast(ring, from))
  }

  class EventLog {
    var events: seq<Event>
    var minSeq: nat
    var nextSeq: nat
    const maxEntries: nat
    var sent: seq<Event>          // what has been handed to the broadcast channel
    ghost var history: seq<Event>

    ghost predicate Valid()
      reads this
    {
      && Numbered(history)
      && nextSeq == |history| + 1
      && events == Retained(history, maxEntries)
      && minSeq == OldestNumber(history, maxEntries)
      && sent == history
    }

    constructor (maxEntries: nat)
      ensures Valid() && history == [] && this.maxEntries == maxEntries
    {
      events, minSeq, nextSeq, sent, history := [], 0, 1, [], [];
      this.maxEntries := maxEntries;
    }

    method Append(session: nat, payload: Payload) returns (number: nat)
      requires Valid()
      modifies this
      ensures Valid()
      ensures number == old(nextSeq)
      ensures history == old(history) + [Event(number, session, payload)]
    {
      number := nextSeq;
      nextSeq := nextSeq + 1;
      var event := Event(number, session, payload);
      ghost var full := Retained(history, maxEntries) + [event];
      events := events + [event];
      ghost var evicted: nat := 0;
      while |events| > maxEntries
        modifies `events
        invariant evicted <= |full| && events == full[evicted..]
        invariant evicted > 0 ==> |events| >= maxEntries
      {
        events := events[1..];
        evicted := evicted + 1;
      }
      EvictionStops(full, evicted, maxEntries);
      if |events| > 0 {
        minSeq := events[0].number;
      }
      Appended(history, event, maxEntries, events, minSeq);
      sent := sent + [event];
      history := history + [event];
    }

    method ReplayFrom(from: nat) returns (replay: Replay)
      requires Valid()
      ensures replay == ReplayOf(Retained(history, maxEntries), OldestNumber(history, maxEntries), from)
    {
      var min := minSeq;
      if from > 0 && from < min && min > 0 {
        return Partial(events, min);
      }
      var matching: seq<Event> := [];
      for i := 0 to |events|
        invariant matching == AtLeast(events[..i], from)
      {
        assert events[..i + 1][..i] == events[..i];
        if events[i].number >= from {
          matching := matching + [events[i]];
        }
      }
      assert events[..|events|] == events;
      replay := Complete(matching);
    }
  }

  lemma EvictionStops(full: seq<Event>, evicted: nat, max: nat)
    requires evicted <= |full| && |full| - evicted <= max && (evicted > 0 ==> |full| - evicted >= max)
    ensures full[evicted..] == Retained(full, max)
  {
  }

  lemma RetainedGrows(history: seq<Event>, event: Event, max: nat)
    ensures Retained(history + [event], max) == Retained(Retained(history, max) + [event], max)
  {
  }

  /** What an append makes of the ring and of `min_seq`, in terms of the history. */
  lemma Appended(history: seq<Event>, event: Event, max: nat, ring: seq<Event>, min: nat)
    requires Numbered(history) && event.number == |history| + 1
    requires ring == Retained(Retained(history, max) + [event], max)
    requires min == if |ring| > 0 then ring[0].number else OldestNumber(history, max)
    ensures Numbered(history + [event])
    ensures ring == Retained(history + [event], max) && min == OldestNumber(history + [event], max)
  {
    RetainedGrows(history, event, max);
  }

  /** Filtering a run of consecutive numbers cuts it. */
  lemma {:induction false} AtLeastIsSuffix(events: seq<Event>, first: nat, from: nat)
    requires forall i :: 0 <= i < |events| ==> events[i].number == first + i
    ensures AtLeast(events, from) == events[if from <= first then 0 else if from - first <= |events| then from - first else |events|..]
  {
    if events != [] {
      AtLeastIsSuffix(events[..|events| - 1], first, from);
    }
  }

  lemma {:induction false} NothingOld(events: seq<Event>, from: nat)
    requires forall i :: 0 <= i < |events| ==> events[i].number < from
    ensures AtLeast(events, from) == []
  {
    if events != [] {
      NothingOld(events[..|events| - 1], from);
    }
  }

  /** Some event numbered `from` or later has been appended and is no longer in the ring. */
  predicate Evicted(history: seq<Event>, max: nat, from: nat) {
    |history| > max && from <= |history| - max
  }

  /** What a subscriber may expect: all it asked for, or, if some of that is gone, everything that is left
      together with the number it starts at. */
  ghost predicate Faithful(replay: Replay, history: seq<Event>, max: nat, from: nat)
    requires from >= 1
  {
    if Evicted(history, max, from) then replay == Partial(history[|history| - max..], |history| - max + 1)
    else replay == Complete(history[if from <= |history| + 1 then from - 1 else |history|..])
  }

  /** A replay is faithful exactly when the log can hold an event at all or nothing was requested that exists.
      With `max_entries` 0 the ring is always empty, `min_seq` stays 0, and every replay claims to be complete. */
  lemma ReplayIsFaithful(history: seq<Event>, max: nat, from: nat)
    requires Numbered(history) && from >= 1
    ensures Faithful(ReplayOf(Retained(history, max), OldestNumber(history, max), from), history, max, from)
            <==> max >= 1 || from > |history|
  {
    if max == 0 {
      assert Retained(history, max) == [];
      assert |history[|history| - max..]| == 0;
    } else {
      ReplayWithRoom(history, max, from);
    }
  }

  lemma ReplayWithRoom(history: seq<Event>, max: nat, from: nat)
    requires Numbered(history) && from >= 1 && max >= 1
    ensures Faithful(ReplayOf(Retained(history, max), OldestNumber(history, max), from), history, max, from)
  {
    var ring := Retained(history, max);
    var cut := |history| - |ring|;
    assert ring == history[cut..];
    if !Evicted(history, max, from) {
      AtLeastIsSuffix(ring, cut + 1, from);
      if from <= |history| {
        assert ring[from - 1 - cut..] == history[from - 1..];
      }
    }
  }

  /** A replay whose `min_seq` was loaded before the ring was copied, and may be out of date, keeps the promise
      exactly if nothing it should bring has been evicted, or the loaded number is current and shows the gap. */
  lemma StaleReplayIsFaithful(history: seq<Event>, max: nat, min: nat, from: nat)
    requires Numbered(history) && from >= 1 && max >= 1 && min <= OldestNumber(history, max)
    ensures Faithful(ReplayOf(Retained(history, max), min, from), history, max, from)
            <==> !Evicted(history, max, from) || (from < min && min == OldestNumber(history, max))
  {
    var oldest := OldestNumber(history, max);
    if !Evicted(history, max, from) {
      ReplayWithRoom(history, max, from);
      assert !(from < oldest && oldest > 0);
    } else {
      assert oldest == |history| - max + 1 > from;
    }
  }

  /** Asking from 0 is asking for whatever is left. */
  lemma ReplayFromZero(history: seq<Event>, max: nat, min: nat)
    requires Numbered(history)
    ensures ReplayOf(Retained(history, max), min, 0) == Complete(Retained(history, max))
  {
    AtLeastIsSuffix(Retained(history, max), |history| - |Retained(history, max)| + 1, 0);
  }
}
