/** The event log at its real granularity: an append takes its number, pushes under the lock, and broadcasts
    after the lock, so overlapping appends may be pushed and broadcast out of number order. */
module EventLogSteps {
  import opened EventLog

  /** An append in progress on some thread. */
  datatype InFlight = Taken(event: Event) | Pushed(event: Event)

  datatype Log = Log(
    nextSeq: nat,
    ring: seq<Event>,
    minSeq: nat,
    max: nat,
    sent: seq<Event>,
    inFlight: map<nat, InFlight>,
    pushed: seq<Event>)             // history: every event pushed, in push order

  datatype Action =
    | Take(t: nat, session: nat, payload: Payload)
    | Push(t: nat)
    | Broadcast(t: nat)

  ghost predicate Init(s: Log) {
    s == Log(1, [], 0, s.max, [], map[], [])
  }

  ghost predicate Next(s: Log, a: Action, s': Log) {
    match a
    case Take(t, session, payload) =>
      && t !in s.inFlight
      && s' == s.(nextSeq := s.nextSeq + 1, inFlight := s.inFlight[t := Taken(Event(s.nextSeq, session, payload))])
    case Push(t) =>
      && t in s.inFlight && s.inFlight[t].Taken?
      && var e := s.inFlight[t].event;
         var ring := Retained(s.ring + [e], s.max);
         s' == s.(ring := ring,
                  minSeq := if ring == [] then s.minSeq else ring[0].number,
                  inFlight := s.inFlight[t := InFlight.Pushed(e)],
                  pushed := s.pushed + [e])
    case Broadcast(t) =>
      && t in s.inFlight && s.inFlight[t].Pushed?
      && s' == s.(sent := s.sent + [s.inFlight[t].event], inFlight := s.inFlight - {t})
  }

  ghost predicate IsRun(states: seq<Log>, acts: seq<Action>) {
    && |states| == |acts| + 1 && Init(states[0])
    && forall i :: 0 <= i < |acts| ==> Next(states[i], acts[i], states[i + 1])
  }

  /** The events that have left the ring. */
  function EvictedFrom(s: Log): seq<Event>
    requires |s.ring| <= |s.pushed|
  {
    s.pushed[..|s.pushed| - |s.ring|]
  }

  ghost predicate Distinct(events: seq<Event>) {
    forall i, j :: 0 <= i < j < |events| ==> events[i].number != events[j].number
  }

  ghost predicate InFlightNumber(s: Log, n: nat) {
    exists t :: t in s.inFlight && s.inFlight[t].Taken? && s.inFlight[t].event.number == n
  }

  /** The ring is the end of what was pushed, cut to its bound. */
  ghost predicate RingInv(s: Log) {
    && s.ring == Retained(s.pushed, s.max)
    && (s.ring != [] ==> s.minSeq == s.ring[0].number)
    && (s.ring == [] ==> s.minSeq == 0)
  }

  ghost predicate NumbersInv(s: Log) {
    && s.nextSeq >= 1
    && Distinct(s.pushed)
    && (forall i :: 0 <= i < |s.pushed| ==> 1 <= s.pushed[i].number < s.nextSeq)
    && (forall t :: t in s.inFlight ==> 1 <= s.inFlight[t].event.number < s.nextSeq)
    && (forall t, i :: t in s.inFlight && s.inFlight[t].Taken? && 0 <= i < |s.pushed| ==>
          s.inFlight[t].event.number != s.pushed[i].number)
    && (forall t, u :: t in s.inFlight && u in s.inFlight && t != u ==>
          s.inFlight[t].event.number != s.inFlight[u].event.number)
  }

  ghost predicate BroadcastInv(s: Log) {
    && Distinct(s.sent)
    && (forall i :: 0 <= i < |s.sent| ==> s.sent[i] in s.pushed)
    && (forall t :: t in s.inFlight && s.inFlight[t].Pushed? ==> s.inFlight[t].event in s.pushed)
    && (forall t, i :: t in s.inFlight && 0 <= i < |s.sent| ==> s.inFlight[t].event.number != s.sent[i].number)
  }

  lemma RingNext(s: Log, a: Action, s': Log)
    requires RingInv(s) && Next(s, a, s')
    ensures RingInv(s')
  {
    if a.Push? {
      var e := s.inFlight[a.t].event;
      assert Retained(s.ring + [e], s.max) == Retained(s.pushed + [e], s.max);
    }
  }

  /** Every number handed out is accounted for. */
  ghost predicate Covered(s: Log) {
    forall n: nat :: 1 <= n < s.nextSeq ==> HasNumber(s.pushed, n) || InFlightNumber(s, n)
  }

  lemma NumbersPush(s: Log, t: nat, s': Log)
    requires NumbersInv(s) && Next(s, Push(t), s')
    ensures NumbersInv(s')
  {
    var e := s.inFlight[t].event;
    assert forall u :: u in s'.inFlight ==> u in s.inFlight && s'.inFlight[u].event == s.inFlight[u].event;
    assert forall i :: 0 <= i < |s'.pushed| ==> s'.pushed[i] == if i < |s.pushed| then s.pushed[i] else e;
  }

  lemma NumbersNext(s: Log, a: Action, s': Log)
    requires NumbersInv(s) && Next(s, a, s')
    ensures NumbersInv(s')
  {
    if a.Push? {
      NumbersPush(s, a.t, s');
    } else {
      assert s'.pushed == s.pushed;
    }
  }

  lemma CoveredNext(s: Log, a: Action, s': Log)
    requires Covered(s) && Next(s, a, s')
    ensures Covered(s')
  {
    forall n: nat | 1 <= n < s'.nextSeq ensures HasNumber(s'.pushed, n) || InFlightNumber(s', n) {
      if a.Take? && n == s.nextSeq {
        assert s'.inFlight[a.t].event.number == n;
      } else if HasNumber(s.pushed, n) {
        var i :| 0 <= i < |s.pushed| && s.pushed[i].number == n;
        assert s'.pushed[i].number == n;
      } else {
        var t :| t in s.inFlight && s.inFlight[t].Taken? && s.inFlight[t].event.number == n;
        if a.Push? && a.t == t {
          assert s'.pushed[|s.pushed|].number == n;
        } else {
          assert s'.inFlight[t].event.number == n;
        }
      }
    }
  }

  lemma BroadcastNext(s: Log, a: Action, s': Log)
    requires NumbersInv(s) && BroadcastInv(s) && Next(s, a, s')
    ensures BroadcastInv(s')
  {
    if a.Push? {
      assert s'.pushed[|s.pushed|] == s.inFlight[a.t].event;
    }
    if a.Take? {
      forall i | 0 <= i < |s.sent| ensures s.sent[i].number < s.nextSeq {
        assert s.sent[i] in s.pushed;
      }
    }
  }

  ghost predicate Inv(s: Log) {
    RingInv(s) && NumbersInv(s) && Covered(s) && BroadcastInv(s)
  }

  lemma {:induction false} RunInv(states: seq<Log>, acts: seq<Action>, i: nat)
    requires IsRun(states, acts) && i < |states|
    ensures Inv(states[i])
  {
    if i > 0 {
      RunInv(states, acts, i - 1);
      RingNext(states[i - 1], acts[i - 1], states[i]);
      NumbersNext(states[i - 1], acts[i - 1], states[i]);
      CoveredNext(states[i - 1], acts[i - 1], states[i]);
      BroadcastNext(states[i - 1], acts[i - 1], states[i]);
    }
  }

  /** Sequence numbers are conserved under every interleaving: each number handed out so far is in exactly one
      of three places, the ring, the evicted events, or an append that has not pushed yet. The ring respects
      its bound, and only pushed events are ever broadcast, each at most once. */
  lemma NumbersAreConserved(states: seq<Log>, acts: seq<Action>, i: nat)
    requires IsRun(states, acts) && i < |states|
    ensures |states[i].ring| <= states[i].max && |states[i].ring| <= |states[i].pushed|
    ensures EvictedFrom(states[i]) + states[i].ring == states[i].pushed
    ensures Distinct(states[i].pushed)
    ensures forall n: nat :: 1 <= n < states[i].nextSeq <==>
              || HasNumber(states[i].ring, n) || HasNumber(EvictedFrom(states[i]), n) || InFlightNumber(states[i], n)
    ensures forall n: nat :: InFlightNumber(states[i], n) ==> !HasNumber(states[i].pushed, n)
    ensures Distinct(states[i].sent) && forall e :: e in states[i].sent ==> e in states[i].pushed
  {
    RunInv(states, acts, i);
    var s := states[i];
    var cut := |s.pushed| - |s.ring|;
    assert s.ring == s.pushed[cut..];
    forall n: nat
      ensures HasNumber(s.pushed, n) <==> HasNumber(s.ring, n) || HasNumber(EvictedFrom(s), n)
    {
      NumbersOfParts(s.pushed, cut, n);
    }
    NumbersInRange(s);
  }

  lemma NumbersOfParts(events: seq<Event>, cut: nat, n: int)
    requires cut <= |events|
    ensures HasNumber(events, n) <==> HasNumber(events[cut..], n) || HasNumber(events[..cut], n)
  {
    if k :| 0 <= k < |events| && events[k].number == n {
      if k < cut { assert events[..cut][k].number == n; } else { assert events[cut..][k - cut].number == n; }
    }
    if k :| 0 <= k < |events[cut..]| && events[cut..][k].number == n { assert events[cut + k].number == n; }
    if k :| 0 <= k < |events[..cut]| && events[..cut][k].number == n { assert events[k].number == n; }
  }

  lemma NumbersInRange(s: Log)
    requires NumbersInv(s)
    ensures forall n: nat :: HasNumber(s.pushed, n) || InFlightNumber(s, n) ==> 1 <= n < s.nextSeq
    ensures forall n: nat :: InFlightNumber(s, n) ==> !HasNumber(s.pushed, n)
  {
  }

  // ------------------------------------------------------------------ appends that do not overlap

  /** The log that an unbounded history leaves when nothing is under way. */
  ghost predicate Quiet(s: Log, history: seq<Event>) {
    && Numbered(history)
    && s == Log(|history| + 1, Retained(history, s.max), OldestNumber(history, s.max), s.max, history, map[], history)
  }

  /** An append whose three steps nothing interrupts is the append of the serialised log. */
  lemma AppendAlone(s: Log, t: nat, session: nat, payload: Payload, history: seq<Event>) returns (taken: Log, pushed: Log, s': Log)
    requires Quiet(s, history)
    ensures Next(s, Take(t, session, payload), taken) && Next(taken, Push(t), pushed) && Next(pushed, Broadcast(t), s')
    ensures Quiet(s', history + [Event(|history| + 1, session, payload)])
  {
    var e := Event(|history| + 1, session, payload);
    taken := s.(nextSeq := s.nextSeq + 1, inFlight := map[t := Taken(e)]);
    var ring := Retained(s.ring + [e], s.max);
    pushed := taken.(ring := ring, minSeq := if ring == [] then s.minSeq else ring[0].number,
                     inFlight := map[t := InFlight.Pushed(e)], pushed := s.pushed + [e]);
    s' := pushed.(sent := s.sent + [e], inFlight := map[]);
    RetainedGrows(history, e, s.max);
    assert pushed.inFlight - {t} == map[];
  }
}
