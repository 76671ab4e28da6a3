/** Asking the user for permission, as interleaved atomic steps: a request is published, entered into the table,
    and waits for an answer, a cancellation or the timeout; answers and cancellations come at any time. */
module Permissions {
  import opened Wrappers

  /** `request_user_permission`, after it has published the request. */
  datatype Request =
    | Published                        // not in the table yet
    | Waiting
    | Deciding(granted: bool)          // no longer listening, about to leave the table
    | Reporting(granted: bool)
    | Done(granted: bool)

  datatype Event = Asked(id: nat) | Told(id: nat, granted: bool)

  datatype State = State(
    requests: map<nat, Request>,
    pending: set<nat>,                 // the ids in the table
    answers: map<nat, bool>,           // what has been sent into the one-shot channels
    log: seq<Event>)

  datatype Action =
    | Publish(id: nat)
    | Insert(id: nat)
    | Respond(id: nat, granted: bool)  // the user, about any id
    | CancelAll
    | Receive(id: nat)
    | TimeOut(id: nat)
    | Leave(id: nat)
    | Report(id: nat)

  ghost predicate Init(s: State) {
    s == State(map[], {}, map[], [])
  }

  predicate At(s: State, id: nat, r: Request) {
    id in s.requests && s.requests[id] == r
  }

  function To(s: State, id: nat, r: Request): State {
    s.(requests := s.requests[id := r])
  }

  /** The pending requests whose channel still has its receiver: `timeout` drops it when the time is over. */
  function Open(s: State): set<nat> {
    set id | id in s.pending && At(s, id, Waiting)
  }

  /** The channels after every open one has been sent a denial. */
  function DenyAll(open: set<nat>, answers: map<nat, bool>): map<nat, bool> {
    map id | id in answers.Keys + open :: if id in open then false else answers[id]
  }

  ghost predicate Next(s: State, a: Action, s': State) {
    match a
    case Publish(id) => id !in s.requests && s' == To(s, id, Published).(log := s.log + [Asked(id)])
    case Insert(id) => At(s, id, Published) && s' == To(s, id, Waiting).(pending := s.pending + {id})
    case Respond(id, granted) =>
      s' == s.(pending := s.pending - {id},
               answers := if id in Open(s) then s.answers[id := granted] else s.answers)
    case CancelAll => s' == s.(pending := {}, answers := DenyAll(Open(s), s.answers))
    case Receive(id) => At(s, id, Waiting) && id in s.answers && s' == To(s, id, Deciding(s.answers[id]))
    case TimeOut(id) => At(s, id, Waiting) && id !in s.answers && s' == To(s, id, Deciding(false))
    case Leave(id) =>
      && id in s.requests && s.requests[id].Deciding?
      && s' == To(s, id, Reporting(s.requests[id].granted)).(pending := s.pending - {id})
    case Report(id) =>
      && id in s.requests && s.requests[id].Reporting?
      && var granted := s.requests[id].granted;
         s' == To(s, id, Done(granted)).(log := s.log + [Told(id, granted)])
  }

  ghost predicate IsRun(states: seq<State>, acts: seq<Action>) {
    && |states| == |acts| + 1 && Init(states[0])
    && forall i :: 0 <= i < |acts| ==> Next(states[i], acts[i], states[i + 1])
  }

  /** The events about one request, in order. */
  function About(log: seq<Event>, id: nat): seq<Event> {
    if log == [] then []
    else About(log[..|log| - 1], id) + if log[|log| - 1].id == id then [log[|log| - 1]] else []
  }

  /** What one request, its entry in the table and its answer have to do with each other. */
  ghost predicate RowInv(s: State, id: nat) {
    && (id in s.pending ==> id !in s.answers && id in s.requests && (s.requests[id].Waiting? || s.requests[id].Deciding?))
    && (id in s.answers ==> id in s.requests && !s.requests[id].Published?)
    && (At(s, id, Waiting) ==> id in s.pending || id in s.answers)
    && (At(s, id, Deciding(true)) || At(s, id, Reporting(true)) || At(s, id, Done(true)) ==>
          id in s.answers && s.answers[id])
  }

  ghost predicate TableInv(s: State) {
    forall id: nat :: RowInv(s, id)
  }

  /** The published events about a request are exactly its question and, once it is done, its answer. */
  ghost predicate LogInv(s: State) {
    forall id: nat :: About(s.log, id) ==
      if id !in s.requests then []
      else [Asked(id)] + if s.requests[id].Done? then [Told(id, s.requests[id].granted)] else []
  }

  lemma RowNext(s: State, a: Action, s': State, id: nat)
    requires RowInv(s, id) && Next(s, a, s')
    ensures RowInv(s', id)
  {
  }

  lemma TableNext(s: State, a: Action, s': State)
    requires TableInv(s) && Next(s, a, s')
    ensures TableInv(s')
  {
    forall id: nat ensures RowInv(s', id) {
      assert RowInv(s, id);
      RowNext(s, a, s', id);
    }
  }

  lemma LogNext(s: State, a: Action, s': State)
    requires LogInv(s) && Next(s, a, s')
    ensures LogInv(s')
  {
    if s'.log != s.log {
      assert s'.log[..|s.log|] == s.log;
    }
  }

  lemma {:induction false} RunInv(states: seq<State>, acts: seq<Action>, i: nat)
    requires IsRun(states, acts) && i < |states|
    ensures TableInv(states[i]) && LogInv(states[i])
  {
    if i > 0 {
      RunInv(states, acts, i - 1);
      var s, a, s' := states[i - 1], acts[i - 1], states[i];
      assert Next(s, a, s');
      TableNext(s, a, s');
      LogNext(s, a, s');
    }
  }

  /** A finished request has been asked once and answered once, in that order, with what it returned, and is out
      of the table. */
  lemma AskedOnceAnsweredOnce(states: seq<State>, acts: seq<Action>, i: nat, id: nat, granted: bool)
    requires IsRun(states, acts) && i < |states| && At(states[i], id, Done(granted))
    ensures About(states[i].log, id) == [Asked(id), Told(id, granted)]
    ensures id !in states[i].pending
  {
    RunInv(states, acts, i);
    assert RowInv(states[i], id);
  }

  /** A request that has been answered and will return that answer. */
  ghost predicate Settled(s: State, id: nat, granted: bool) {
    && id in s.answers && s.answers[id] == granted && id in s.requests
    && s.requests[id] in {Waiting, Deciding(granted), Reporting(granted), Done(granted)}
  }

  lemma SettledNext(s: State, a: Action, s': State, id: nat, granted: bool)
    requires RowInv(s, id) && Next(s, a, s') && Settled(s, id, granted)
    ensures Settled(s', id, granted)
  {
  }

  /** After an answer has reached a waiting request, that answer is what the request returns. */
  lemma {:induction false} AnswerSticks(states: seq<State>, acts: seq<Action>, i: nat, j: nat, id: nat, granted: bool)
    requires IsRun(states, acts) && i <= j < |states| && Settled(states[i], id, granted)
    ensures Settled(states[j], id, granted)
    decreases j
  {
    if i < j {
      AnswerSticks(states, acts, i, j - 1, id, granted);
      var s, a, s' := states[j - 1], acts[j - 1], states[j];
      assert Next(s, a, s');
      assert RowInv(s, id) by {
        RunInv(states, acts, j - 1);
      }
      SettledNext(s, a, s', id, granted);
    }
  }

  // ------------------------------------------------------------------ which answers count

  /** The user answers `id` at step `i` while it waits in the table. */
  ghost predicate AnsweredInTime(states: seq<State>, acts: seq<Action>, i: nat, id: nat, granted: bool)
    requires |states| == |acts| + 1 && i < |acts|
  {
    acts[i] == Respond(id, granted) && id in Open(states[i])
  }

  /** A request on its way to come out granted. */
  predicate Granting(s: State, id: nat) {
    || (At(s, id, Waiting) && id in s.answers && s.answers[id])
    || At(s, id, Deciding(true)) || At(s, id, Reporting(true)) || At(s, id, Done(true))
  }

  /** Where a granting request got its grant from. */
  lemma GrantingNext(s: State, a: Action, s': State, id: nat)
    requires RowInv(s, id) && Next(s, a, s') && Granting(s', id) && !Granting(s, id)
    ensures a == Respond(id, true) && id in Open(s)
  {
  }

  lemma {:induction false} GrantsComeFromTheUser(states: seq<State>, acts: seq<Action>, j: nat, id: nat) returns (i: nat)
    requires IsRun(states, acts) && j < |states| && Granting(states[j], id)
    ensures i < j && AnsweredInTime(states, acts, i, id, true)
  {
    assert j > 0;
    var s, a, s' := states[j - 1], acts[j - 1], states[j];
    assert Next(s, a, s');
    if Granting(s, id) {
      i := GrantsComeFromTheUser(states, acts, j - 1, id);
    } else {
      RunInv(states, acts, j - 1);
      assert RowInv(s, id);
      GrantingNext(s, a, s', id);
      i := j - 1;
    }
  }

  lemma InTimeSettles(states: seq<State>, acts: seq<Action>, i: nat, j: nat, id: nat, granted: bool)
    requires IsRun(states, acts) && i < |acts| && i < j < |states| && AnsweredInTime(states, acts, i, id, granted)
    ensures Settled(states[j], id, granted)
  {
    assert Next(states[i], acts[i], states[i + 1]);
    AnswerSticks(states, acts, i + 1, j, id, granted);
  }

  /** When permission is granted: exactly if the user granted it at a moment when the request was waiting in the
      table. Timeouts and cancellations deny, and so does a grant that comes before the request is in the table,
      after its time is over, or after a denial. */
  lemma GrantedIffInTime(states: seq<State>, acts: seq<Action>, j: nat, id: nat, granted: bool)
    requires IsRun(states, acts) && j < |states| && At(states[j], id, Done(granted))
    ensures granted <==> exists i :: 0 <= i < j && AnsweredInTime(states, acts, i, id, true)
  {
    if granted {
      var i := GrantsComeFromTheUser(states, acts, j, id);
    }
    if i: nat :| i < j && AnsweredInTime(states, acts, i, id, true) {
      InTimeSettles(states, acts, i, j, id, true);
    }
  }

  /** Seen from one answer: it decides the outcome exactly if it is in time. With `i` the only step at which the
      user answers, a request that was granted there comes out granted if and only if it was waiting in the table. */
  lemma AnswerCountsIffInTime(states: seq<State>, acts: seq<Action>, i: nat, j: nat, id: nat, given: bool, granted: bool)
    requires IsRun(states, acts) && i < j < |states| && At(states[j], id, Done(granted))
    requires acts[i] == Respond(id, given)
    requires forall k :: 0 <= k < j && k != i ==> !(acts[k].Respond? && acts[k].id == id)
    ensures granted <==> given && id in states[i].pending && At(states[i], id, Waiting)
  {
    GrantedIffInTime(states, acts, j, id, granted);
    assert AnsweredInTime(states, acts, i, id, true) <==> given && id in Open(states[i]);
    forall k | 0 <= k < j && AnsweredInTime(states, acts, k, id, true) ensures k == i {}
  }

  /** A denial in time, and a cancellation while the request waits, are final too. */
  lemma DeniedForGood(states: seq<State>, acts: seq<Action>, i: nat, j: nat, id: nat, granted: bool)
    requires IsRun(states, acts) && i < |acts| && i < j < |states| && At(states[j], id, Done(granted))
    requires AnsweredInTime(states, acts, i, id, false) || (acts[i] == CancelAll && id in Open(states[i]))
    ensures !granted
  {
    assert Next(states[i], acts[i], states[i + 1]);
    AnswerSticks(states, acts, i + 1, j, id, false);
  }

  // ------------------------------------------------------------------ progress

  ghost predicate Steps(states: seq<State>, acts: seq<Action>) {
    && |states| == |acts| + 1
    && forall i :: 0 <= i < |acts| ==> Next(states[i], acts[i], states[i + 1])
  }

  lemma Prepend(s: State, a: Action, states: seq<State>, acts: seq<Action>)
    requires Steps(states, acts) && Next(s, a, states[0])
    ensures Steps([s] + states, [a] + acts) && ([s] + states)[|[a] + acts|] == states[|acts|]
  {
  }

  function PhasesLeft(r: Request): nat {
    match r
    case Published => 4
    case Waiting => 3
    case Deciding(_) => 2
    case Reporting(_) => 1
    case Done(_) => 0
  }

  lemma RequestSteps(s: State, id: nat) returns (a: Action, s': State)
    requires id in s.requests && !s.requests[id].Done?
    ensures Next(s, a, s') && id in s'.requests && PhasesLeft(s'.requests[id]) < PhasesLeft(s.requests[id])
    ensures At(s, id, Waiting) && id in s.answers ==> At(s', id, Deciding(s.answers[id]))
    ensures s.requests[id].Deciding? ==> At(s', id, Reporting(s.requests[id].granted))
    ensures s.requests[id].Reporting? ==> At(s', id, Done(s.requests[id].granted))
  {
    match s.requests[id]
    case Published => a, s' := Insert(id), To(s, id, Waiting).(pending := s.pending + {id});
    case Waiting =>
      if id in s.answers {
        a, s' := Receive(id), To(s, id, Deciding(s.answers[id]));
      } else {
        a, s' := TimeOut(id), To(s, id, Deciding(false));
      }
    case Deciding(granted) => a, s' := Leave(id), To(s, id, Reporting(granted)).(pending := s.pending - {id});
    case Reporting(granted) => a, s' := Report(id), To(s, id, Done(granted)).(log := s.log + [Told(id, granted)]);
  }

  /** How the request comes out if nothing happens to it from outside. */
  function Outcome(s: State, id: nat): bool
    requires id in s.requests
  {
    match s.requests[id]
    case Published => id in s.answers && s.answers[id]
    case Waiting => id in s.answers && s.answers[id]
    case Deciding(granted) => granted
    case Reporting(granted) => granted
    case Done(granted) => granted
  }

  /** No request hangs: from every state it can go on by itself to its end, with the answer it has or else a denial. */
  lemma {:induction false} RequestCanFinish(s: State, id: nat) returns (states: seq<State>, acts: seq<Action>)
    requires TableInv(s) && id in s.requests
    ensures Steps(states, acts) && states[0] == s && At(states[|acts|], id, Done(Outcome(s, id)))
    decreases PhasesLeft(s.requests[id])
  {
    if s.requests[id].Done? {
      states, acts := [s], [];
    } else {
      var a, s1 := RequestSteps(s, id);
      TableNext(s, a, s1);
      assert RowInv(s, id) && RowInv(s1, id);
      var later, rest := RequestCanFinish(s1, id);
      Prepend(s, a, later, rest);
      states, acts := [s] + later, [a] + rest;
    }
  }

  /** A user who answers a waiting request in time is heard. */
  lemma AnswerAlone(s: State, id: nat, granted: bool) returns (states: seq<State>, acts: seq<Action>)
    requires TableInv(s) && id in Open(s)
    ensures Steps(states, acts) && states[0] == s && acts != [] && acts[0] == Respond(id, granted)
    ensures At(states[|acts|], id, Done(granted))
  {
    var s1 := s.(pending := s.pending - {id}, answers := s.answers[id := granted]);
    assert Next(s, Respond(id, granted), s1);
    TableNext(s, Respond(id, granted), s1);
    var later, rest := RequestCanFinish(s1, id);
    Prepend(s, Respond(id, granted), later, rest);
    states, acts := [s] + later, [Respond(id, granted)] + rest;
  }

  // ------------------------------------------------------------------ grants that are lost

  /** A request that the user grants between its publication and its entry into the table. */
  function EarlyGrant(k: nat): State {
    if k == 0 then State(map[], {}, map[], [])
    else if k <= 2 then State(map[0 := Published], {}, map[], [Asked(0)])
    else if k == 3 then State(map[0 := Waiting], {0}, map[], [Asked(0)])
    else if k == 4 then State(map[0 := Deciding(false)], {0}, map[], [Asked(0)])
    else if k == 5 then State(map[0 := Reporting(false)], {}, map[], [Asked(0)])
    else State(map[0 := Done(false)], {}, map[], [Asked(0), Told(0, false)])
  }

  /** One that is granted between the timeout and its removal from the table. */
  function LateGrant(k: nat): State {
    if k == 0 then State(map[], {}, map[], [])
    else if k == 1 then State(map[0 := Published], {}, map[], [Asked(0)])
    else if k == 2 then State(map[0 := Waiting], {0}, map[], [Asked(0)])
    else if k == 3 then State(map[0 := Deciding(false)], {0}, map[], [Asked(0)])
    else if k == 4 then State(map[0 := Deciding(false)], {}, map[], [Asked(0)])
    else if k == 5 then State(map[0 := Reporting(false)], {}, map[], [Asked(0)])
    else State(map[0 := Done(false)], {}, map[], [Asked(0), Told(0, false)])
  }

  const EARLY_GRANT: seq<Action> := [Publish(0), Respond(0, true), Insert(0), TimeOut(0), Leave(0), Report(0)]
  const LATE_GRANT: seq<Action> := [Publish(0), Insert(0), TimeOut(0), Respond(0, true), Leave(0), Report(0)]

  lemma EarlyGrantStep(k: nat)
    requires k < 6
    ensures Next(EarlyGrant(k), EARLY_GRANT[k], EarlyGrant(k + 1))
  {
    var log := EarlyGrant(k).log;
    assert k == 5 ==> log + [Told(0, false)] == [Asked(0), Told(0, false)];
  }

  lemma LateGrantStep(k: nat)
    requires k < 6
    ensures Next(LateGrant(k), LATE_GRANT[k], LateGrant(k + 1))
  {
    var log := LateGrant(k).log;
    assert k == 5 ==> log + [Told(0, false)] == [Asked(0), Told(0, false)];
  }

  /** So a grant given before the timeout can still end as a denial. */
  lemma EarlyGrantIsLost() returns (states: seq<State>, acts: seq<Action>)
    ensures IsRun(states, acts)
    ensures |acts| == 6 && acts[1] == Respond(0, true) && acts[3] == TimeOut(0)
    ensures At(states[6], 0, Done(false))
  {
    states := seq(7, k requires 0 <= k < 7 => EarlyGrant(k));
    acts := EARLY_GRANT;
    forall k | 0 <= k < 6 ensures Next(states[k], acts[k], states[k + 1]) {
      EarlyGrantStep(k);
    }
  }

  /** And so can one given while the request is still in the table. */
  lemma LateGrantIsLost() returns (states: seq<State>, acts: seq<Action>)
    ensures IsRun(states, acts)
    ensures |acts| == 6 && acts[3] == Respond(0, true) && 0 in states[3].pending
    ensures At(states[6], 0, Done(false))
  {
    states := seq(7, k requires 0 <= k < 7 => LateGrant(k));
    acts := LATE_GRANT;
    forall k | 0 <= k < 6 ensures Next(states[k], acts[k], states[k + 1]) {
      LateGrantStep(k);
    }
  }
}
