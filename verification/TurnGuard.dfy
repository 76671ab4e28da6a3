/** Overlapping asks on one session, as interleaved atomic steps: each tries the turn guard once; whoever gets it
    runs through start, prompt and end, and gives it back. */
module TurnGuard {
  import opened Wrappers
  import S = Session

  /** One `ask` call. The later phases hold the guard. */
  datatype Call =
    | Arrived
    | Entered
    | Starting                      // Starting is set, the client is being spawned
    | Ready                         // the agent runs
    | Prompting                     // Prompting is set, the prompt is outstanding
    | Leaving(result: S.AskResult)
    | Returned(result: S.AskResult)

  datatype State = State(
    session: S.Session,
    calls: map<nat, Call>,
    worlds: map<nat, S.World>,
    holder: Option<nat>,            // history: who holds the guard
    served: seq<nat>)               // history: the calls that have given it back, in that order

  datatype Action =
    | Arrive(c: nat, world: S.World)
    | TryLock(c: nat)
    | Begin(c: nat)
    | Start(c: nat)
    | SendPrompt(c: nat)
    | End(c: nat)
    | Leave(c: nat)

  ghost predicate Init(s: State) {
    s == State(S.Fresh(), map[], map[], None, [])
  }

  predicate At(s: State, c: nat, call: Call) {
    c in s.calls && c in s.worlds && s.calls[c] == call
  }

  function To(s: State, c: nat, call: Call): State {
    s.(calls := s.calls[c := call])
  }

  /** The guard is a fact about the lock, not about the states of the session. */
  function Locked(s: S.Session, locked: bool): S.Session {
    s.(guarded := locked)
  }

  /** From a step of `ensure_running` to the next phase. */
  function Started(outcome: (S.Session, Option<S.AskError>)): (S.Session, Call) {
    (Locked(outcome.0, true), if outcome.1.Some? then Leaving(S.Err(outcome.1.value)) else Ready)
  }

  ghost predicate Next(s: State, a: Action, s': State) {
    match a
    case Arrive(c, w) => c !in s.calls && s' == To(s, c, Arrived).(worlds := s.worlds[c := w])
    case TryLock(c) =>
      && At(s, c, Arrived)
      && s' == if s.session.guarded then To(s, c, Returned(S.Err(S.Busy)))
               else To(s, c, Entered).(session := Locked(s.session, true), holder := Some(c))
    case Begin(c) =>
      && At(s, c, Entered)
      && var t := s.session;
         s' == if !t.turn.CanPrompt() then To(s, c, Leaving(S.Err(S.Busy)))
               else if t.process == S.Running then To(s, c, Ready)
               else if !t.process.CanStart() then To(s, c, Leaving(S.Err(S.CannotStart)))
               else To(s, c, Starting).(session := S.SetStates(t, S.Starting, S.Idle))
    case Start(c) =>
      && At(s, c, Starting)
      && var (t, call) := Started(S.StartClient(s.session, s.worlds[c]));
         s' == To(s, c, call).(session := t)
    case SendPrompt(c) =>
      At(s, c, Ready) && s' == To(s, c, Prompting).(session := S.SetStates(s.session, S.Running, S.Prompting))
    case End(c) =>
      && At(s, c, Prompting)
      && var (t, r) := S.EndTurn(s.session, s.worlds[c]);
         s' == To(s, c, Leaving(r)).(session := t)
    case Leave(c) =>
      && c in s.calls && s.calls[c].Leaving?
      && s' == To(s, c, Returned(s.calls[c].result))
               .(session := Locked(s.session, false), holder := None, served := s.served + [c])
  }

  ghost predicate IsRun(states: seq<State>, acts: seq<Action>) {
    && |states| == |acts| + 1 && Init(states[0])
    && forall i :: 0 <= i < |acts| ==> Next(states[i], acts[i], states[i + 1])
  }

  // ------------------------------------------------------------------ the serial session

  /** The session after these asks, one after the other. */
  function Serial(served: seq<nat>, worlds: map<nat, S.World>): S.Session
    requires forall c :: c in served ==> c in worlds
  {
    if served == [] then S.Fresh()
    else S.AskOf(Serial(served[..|served| - 1], worlds), worlds[served[|served| - 1]]).0
  }

  lemma SerialAppend(served: seq<nat>, c: nat, worlds: map<nat, S.World>)
    requires c in worlds && forall d :: d in served ==> d in worlds
    ensures Serial(served + [c], worlds) == S.AskOf(Serial(served, worlds), worlds[c]).0
  {
    assert (served + [c])[..|served|] == served;
  }

  lemma {:induction false} SerialIgnores(served: seq<nat>, worlds: map<nat, S.World>, c: nat, w: S.World)
    requires c !in worlds && forall d :: d in served ==> d in worlds
    ensures Serial(served, worlds[c := w]) == Serial(served, worlds)
  {
    if served != [] {
      SerialIgnores(served[..|served| - 1], worlds, c, w);
    }
  }

  lemma {:induction false} SerialAtRest(served: seq<nat>, worlds: map<nat, S.World>)
    requires forall d :: d in served ==> d in worlds
    ensures S.AtRest(Serial(served, worlds)) && S.Recorded(Serial(served, worlds))
  {
    if served != [] {
      var init, last := served[..|served| - 1], worlds[served[|served| - 1]];
      SerialAtRest(init, worlds);
      S.ApplyRecords(Serial(init, worlds), S.Ask(last));
    }
  }

  // ------------------------------------------------------------------ the invariant

  /** Where a call that holds the guard has got to, starting from the session `base` it found. */
  predicate OnItsWay(base: S.Session, session: S.Session, call: Call, w: S.World) {
    var t := Locked(session, false);
    match call
    case Entered => t == base
    case Starting => t == S.SetStates(base, S.Starting, S.Idle) && base.turn == S.Idle && base.process.CanStart()
    case Ready => base.turn == S.Idle && S.EnsureRunning(base, w) == (t, None)
    case Prompting =>
      && base.turn == S.Idle && S.EnsureRunning(base, w).1 == None
      && t == S.SetStates(S.EnsureRunning(base, w).0, S.Running, S.Prompting)
    case Leaving(r) => S.AskOf(base, w) == (t, r)
    case _ => false
  }

  predicate Holds(call: Call) {
    !call.Arrived? && !call.Returned?
  }

  /** The guard is held by exactly the call in its phases. */
  ghost predicate CallsInv(s: State) {
    && s.worlds.Keys == s.calls.Keys
    && (forall c :: c in s.served ==> c in s.calls && s.calls[c].Returned?)
    && (forall c :: c in s.calls ==> (Holds(s.calls[c]) <==> s.holder == Some(c)))
    && (s.session.guarded <==> s.holder.Some?)
    && (s.holder.Some? ==> s.holder.value in s.calls)
  }

  ghost predicate SessionInv(s: State)
    requires CallsInv(s)
  {
    var base := Serial(s.served, s.worlds);
    match s.holder
    case None => s.session == base
    case Some(c) => OnItsWay(base, s.session, s.calls[c], s.worlds[c])
  }

  lemma PhaseKeepsCalls(s: State, a: Action, s': State)
    requires CallsInv(s) && Next(s, a, s') && !a.Arrive? && !a.TryLock? && !a.Leave?
    ensures CallsInv(s') && s'.holder == s.holder == Some(a.c)
  {
    assert Holds(s.calls[a.c]);
  }

  lemma CallsNext(s: State, a: Action, s': State)
    requires CallsInv(s) && Next(s, a, s')
    ensures CallsInv(s')
  {
    if !(a.Arrive? || a.TryLock? || a.Leave?) {
      PhaseKeepsCalls(s, a, s');
    }
  }

  /** The phases of one ask are the pieces of `AskOf`. */
  lemma PhaseNext(base: S.Session, s: State, a: Action, s': State)
    requires CallsInv(s) && Next(s, a, s') && !a.Arrive? && !a.TryLock? && !a.Leave?
    requires S.AtRest(base) && OnItsWay(base, s.session, s.calls[a.c], s.worlds[a.c])
    ensures OnItsWay(base, s'.session, s'.calls[a.c], s.worlds[a.c])
  {
    match a
    case Begin(_) =>
    case Start(_) => StartPhase(base, s.session, s.worlds[a.c]);
    case SendPrompt(_) =>
    case End(_) => EndPhase(base, s.session, s.worlds[a.c]);
  }

  lemma StartPhase(base: S.Session, session: S.Session, w: S.World)
    requires S.AtRest(base) && OnItsWay(base, session, Starting, w)
    ensures var (t, call) := Started(S.StartClient(session, w)); OnItsWay(base, t, call, w)
  {
    assert S.EnsureRunning(base, w) == S.StartClient(Locked(session, false), w);
    assert Locked(S.StartClient(session, w).0, false) == S.StartClient(Locked(session, false), w).0;
  }

  lemma EndPhase(base: S.Session, session: S.Session, w: S.World)
    requires S.AtRest(base) && OnItsWay(base, session, Prompting, w)
    ensures var (t, r) := S.EndTurn(session, w); OnItsWay(base, t, Leaving(r), w)
  {
    assert S.AskOf(base, w) == S.EndTurn(Locked(session, false), w);
    assert Locked(S.EndTurn(session, w).0, false) == S.EndTurn(Locked(session, false), w).0;
  }

  lemma SessionArrive(s: State, c: nat, w: S.World, s': State)
    requires CallsInv(s) && SessionInv(s) && Next(s, Arrive(c, w), s') && CallsInv(s')
    ensures SessionInv(s')
  {
    SerialIgnores(s.served, s.worlds, c, w);
    assert s'.holder.Some? ==> s'.worlds[s'.holder.value] == s.worlds[s'.holder.value];
  }

  lemma SessionLock(s: State, c: nat, s': State)
    requires CallsInv(s) && SessionInv(s) && Next(s, TryLock(c), s') && CallsInv(s')
    ensures SessionInv(s')
  {
    assert s.holder != Some(c);
  }

  lemma SessionLeave(s: State, c: nat, s': State)
    requires CallsInv(s) && SessionInv(s) && Next(s, Leave(c), s') && CallsInv(s')
    ensures SessionInv(s')
  {
    assert s.holder == Some(c);
    SerialAppend(s.served, c, s.worlds);
  }

  lemma SessionPhase(s: State, a: Action, s': State)
    requires CallsInv(s) && SessionInv(s) && Next(s, a, s') && CallsInv(s')
    requires !a.Arrive? && !a.TryLock? && !a.Leave?
    ensures SessionInv(s')
  {
    assert s.holder == Some(a.c) && s'.holder == s.holder && s'.served == s.served && s'.worlds == s.worlds;
    SerialAtRest(s.served, s.worlds);
    PhaseNext(Serial(s.served, s.worlds), s, a, s');
  }

  lemma SessionNext(s: State, a: Action, s': State)
    requires CallsInv(s) && SessionInv(s) && Next(s, a, s') && CallsInv(s')
    ensures SessionInv(s')
  {
    match a
    case Arrive(c, w) => SessionArrive(s, c, w, s');
    case TryLock(c) => SessionLock(s, c, s');
    case Leave(c) => SessionLeave(s, c, s');
    case _ => SessionPhase(s, a, s');
  }

  lemma {:induction false} RunInv(states: seq<State>, acts: seq<Action>, i: nat)
    requires IsRun(states, acts) && i < |states|
    ensures CallsInv(states[i]) && SessionInv(states[i])
  {
    if i > 0 {
      RunInv(states, acts, i - 1);
      var s, a, s' := states[i - 1], acts[i - 1], states[i];
      assert Next(s, a, s');
      CallsNext(s, a, s');
      SessionNext(s, a, s');
    }
  }

  // ------------------------------------------------------------------ theorems

  /** Overlapping asks serialise: whenever the guard is free, the session is as if the asks that got it had been made
      one after the other, and nobody else had asked at all. */
  lemma OverlappingAsksSerialise(states: seq<State>, acts: seq<Action>, i: nat)
    requires IsRun(states, acts) && i < |states| && !states[i].session.guarded
    ensures forall c :: c in states[i].served ==> c in states[i].worlds
    ensures states[i].session == Serial(states[i].served, states[i].worlds)
  {
    RunInv(states, acts, i);
  }

  /** What an ask that got the guard returns is what it would return in its place of that series, and that is never
      "busy". */
  lemma ServedAskIsSerial(states: seq<State>, acts: seq<Action>, i: nat, c: nat)
    requires IsRun(states, acts) && i < |acts| && acts[i] == Leave(c)
    ensures forall d :: d in states[i].served ==> d in states[i].worlds
    ensures c in states[i].worlds && c in states[i + 1].calls
    ensures states[i + 1].calls[c] == Returned(S.AskOf(Serial(states[i].served, states[i].worlds), states[i].worlds[c]).1)
    ensures states[i + 1].calls[c] != Returned(S.Err(S.Busy))
  {
    RunInv(states, acts, i);
    var s, s' := states[i], states[i + 1];
    assert Next(s, acts[i], s');
    SerialAtRest(s.served, s.worlds);
    NeverBusy(Serial(s.served, s.worlds), s.worlds[c]);
  }

  lemma NeverBusy(base: S.Session, w: S.World)
    requires S.AtRest(base) && S.Recorded(base)
    ensures S.AskOf(base, w).1 != S.Err(S.Busy)
  {
    S.EnsureRunningRecords(base, w);
    if S.EnsureRunning(base, w).1 == None {
      S.PromptTurnRecords(S.EnsureRunning(base, w).0, w);
    }
  }

  /** An ask comes back "busy" exactly if it arrives while another one holds the guard, whatever phase that one is in,
      and then it has changed nothing. */
  lemma BusyIffAnotherHolds(states: seq<State>, acts: seq<Action>, i: nat, c: nat)
    requires IsRun(states, acts) && i < |acts| && acts[i] == TryLock(c)
    ensures c in states[i + 1].calls
    ensures states[i + 1].calls[c] == Returned(S.Err(S.Busy)) <==>
              exists d :: d in states[i].calls && d != c && Holds(states[i].calls[d])
    ensures states[i + 1].calls[c] == Returned(S.Err(S.Busy)) ==> states[i + 1].session == states[i].session
  {
    RunInv(states, acts, i);
    assert Next(states[i], acts[i], states[i + 1]);
    var s := states[i];
    if s.session.guarded {
      assert Holds(s.calls[s.holder.value]);
    }
  }

  /** There is never more than one ask between taking the guard and giving it back. */
  lemma OneAskAtATime(states: seq<State>, acts: seq<Action>, i: nat, c: nat, d: nat)
    requires IsRun(states, acts) && i < |states|
    requires c in states[i].calls && Holds(states[i].calls[c]) && d in states[i].calls && Holds(states[i].calls[d])
    ensures c == d
  {
    RunInv(states, acts, i);
  }

  // ------------------------------------------------------------------ progress

  ghost predicate Steps(states: seq<State>, acts: seq<Action>) {
    && |states| == |acts| + 1
    && forall i :: 0 <= i < |acts| ==> Next(states[i], acts[i], states[i + 1])
  }

  lemma Prepend(s: State, a: Action, states: seq<State>, acts: seq<Action>)
    requires Steps(states, acts) && Next(s, a, states[0])
    ensures Steps([s] + states, [a] + acts) && ([s] + states)[|[a] + acts|] == states[|acts|]
  {
  }

  function PhasesLeft(call: Call): nat {
    match call
    case Entered => 5
    case Starting => 4
    case Ready => 3
    case Prompting => 2
    case Leaving(_) => 1
    case _ => 0
  }

  /** The next step of a call that holds the guard. */
  function NextStep(c: nat, call: Call): Action {
    match call
    case Entered => Begin(c)
    case Starting => Start(c)
    case Ready => SendPrompt(c)
    case Prompting => End(c)
    case _ => Leave(c)
  }

  lemma CanStep(s: State, c: nat) returns (s': State)
    requires CallsInv(s) && s.holder == Some(c)
    ensures Next(s, NextStep(c, s.calls[c]), s')
    ensures PhasesLeft(s'.calls[c]) < PhasesLeft(s.calls[c])
    ensures s'.worlds == s.worlds
    ensures if s.calls[c].Leaving? then s'.holder == None && s'.served == s.served + [c] && s'.calls[c].Returned?
            else s'.holder == Some(c) && s'.served == s.served
  {
    var t, w := s.session, s.worlds[c];
    match s.calls[c]
    case Entered =>
      s' := if !t.turn.CanPrompt() then To(s, c, Leaving(S.Err(S.Busy)))
            else if t.process == S.Running then To(s, c, Ready)
            else if !t.process.CanStart() then To(s, c, Leaving(S.Err(S.CannotStart)))
            else To(s, c, Starting).(session := S.SetStates(t, S.Starting, S.Idle));
    case Starting =>
      var (t', call) := Started(S.StartClient(t, w));
      s' := To(s, c, call).(session := t');
    case Ready => s' := To(s, c, Prompting).(session := S.SetStates(t, S.Running, S.Prompting));
    case Prompting =>
      var (t', r) := S.EndTurn(t, w);
      s' := To(s, c, Leaving(r)).(session := t');
    case Leaving(r) =>
      s' := To(s, c, Returned(r)).(session := Locked(t, false), holder := None, served := s.served + [c]);
  }

  /** Nobody keeps the guard for ever: from every reachable state in which a call holds it, that call can go on by
      itself until it gives the guard back, and it then returns what `ask` returns in its place of the series. */
  lemma {:induction false} HolderCanFinish(s: State, c: nat) returns (states: seq<State>, acts: seq<Action>)
    requires CallsInv(s) && SessionInv(s) && s.holder == Some(c)
    ensures Steps(states, acts) && states[0] == s
    ensures var s', base := states[|acts|], Serial(s.served, s.worlds);
            && s'.holder == None && c in s'.calls
            && s'.calls[c] == Returned(S.AskOf(base, s.worlds[c]).1) && s'.session == S.AskOf(base, s.worlds[c]).0
    decreases PhasesLeft(s.calls[c])
  {
    var a := NextStep(c, s.calls[c]);
    var s1 := CanStep(s, c);
    CallsNext(s, a, s1);
    SessionNext(s, a, s1);
    if s.calls[c].Leaving? {
      states, acts := [s, s1], [a];
      SerialAppend(s.served, c, s.worlds);
    } else {
      var later, rest := HolderCanFinish(s1, c);
      Prepend(s, a, later, rest);
      states, acts := [s] + later, [a] + rest;
    }
  }

  /** An ask that nothing overlaps does what `AskOf` says. */
  lemma AskAlone(s: State, c: nat, w: S.World) returns (states: seq<State>, acts: seq<Action>)
    requires CallsInv(s) && SessionInv(s) && s.holder == None && c !in s.calls
    ensures Steps(states, acts) && states[0] == s
    ensures var s' := states[|acts|];
            c in s'.calls && s'.calls[c] == Returned(S.AskOf(s.session, w).1) && s'.session == S.AskOf(s.session, w).0
  {
    var s1 := To(s, c, Arrived).(worlds := s.worlds[c := w]);
    var s2 := To(s1, c, Entered).(session := Locked(s.session, true), holder := Some(c));
    assert Next(s, Arrive(c, w), s1) && Next(s1, TryLock(c), s2);
    CallsNext(s, Arrive(c, w), s1);
    SessionNext(s, Arrive(c, w), s1);
    CallsNext(s1, TryLock(c), s2);
    SessionNext(s1, TryLock(c), s2);
    SerialIgnores(s.served, s.worlds, c, w);
    var later, rest := HolderCanFinish(s2, c);
    Prepend(s1, TryLock(c), later, rest);
    Prepend(s, Arrive(c, w), [s1] + later, [TryLock(c)] + rest);
    states, acts := [s] + ([s1] + later), [Arrive(c, w)] + ([TryLock(c)] + rest);
  }
}
