/** A terminal always comes to its end: from every reachable state the drain tasks can finish, the exit can be
    published, and a caller waiting for it can be answered. */
module TerminalProgress {
  import opened Utf8
  import opened Wrappers
  import opened Terminal
  import opened TerminalLifecycle

  ghost predicate Steps(states: seq<State>, acts: seq<Action>, lossy: seq<byte> -> seq<byte>) {
    && |states| == |acts| + 1
    && forall i :: 0 <= i < |acts| ==> Next(states[i], acts[i], states[i + 1], lossy)
  }

  lemma Prepend(s: State, a: Action, states: seq<State>, acts: seq<Action>, lossy: seq<byte> -> seq<byte>)
    requires Steps(states, acts, lossy) && Next(s, a, states[0], lossy)
    ensures Steps([s] + states, [a] + acts, lossy) && ([s] + states)[|[a] + acts|] == states[|acts|]
  {
  }

  /** No output call holds the buffer; one that does can reply at once. */
  predicate Unlocked(s: State) {
    forall r :: r in s.outputs ==> s.outputs[r] != Holding
  }

  function DrainLeft(d: Drain): nat {
    match d.phase
    case Running => |d.queue| + 3
    case Finishing => |d.queue| + 1
    case Done => 0
  }

  function DrainsLeft(drains: seq<Drain>): nat {
    if drains == [] then 0 else DrainLeft(drains[0]) + DrainsLeft(drains[1..])
  }

  lemma {:induction false} DrainsLeftUpdate(drains: seq<Drain>, i: nat, d: Drain)
    requires i < |drains|
    ensures DrainsLeft(drains[i := d]) == DrainsLeft(drains) - DrainLeft(drains[i]) + DrainLeft(d)
    decreases i
  {
    if i == 0 {
      assert drains[0 := d][1..] == drains[1..];
    } else {
      assert drains[i := d][1..] == drains[1..][i - 1 := d];
      DrainsLeftUpdate(drains[1..], i - 1, d);
    }
  }

  function SupervisorLeft(s: State): nat {
    match s.supervisor
    case Waiting => |s.drains| + 3
    case Joining(_, joined) => if joined <= |s.drains| then |s.drains| - joined + 2 else 0
    case Notifying => 1
    case Over => 0
  }

  function WaiterLeft(w: Waiter): nat {
    match w
    case Asleep(_) => 2
    case Registered(_) => 1
    case Answered(_) => 0
  }

  /** A step of a drain task that has not finished. */
  lemma DrainSteps(s: State, i: nat, lossy: seq<byte> -> seq<byte>) returns (a: Action, s': State)
    requires Unlocked(s) && i < |s.drains| && s.drains[i].phase != Done
    ensures Next(s, a, s', lossy) && DrainsLeft(s'.drains) < DrainsLeft(s.drains)
    ensures |s'.drains| == |s.drains| && s'.supervisor == s.supervisor && s'.waiters == s.waiters && s'.outputs == s.outputs
    ensures !a.ChildExit?
  {
    var d := s.drains[i];
    var d': Drain;
    if d.queue != [] {
      var grown := s.output + d.queue[0];
      d' := d.(queue := d.queue[1..]);
      a := AppendChunk(i);
      s' := s.(drains := s.drains[i := d'], output := BoundedTail(grown, s.limit),
               truncated := s.truncated || Exceeds(grown, s.limit), log := s.log + [(i, d.queue[0])]);
    } else if d.phase == Running {
      d' := Drain(d.got + [Data([])], d.leftover, if d.leftover == [] then [] else [lossy(d.leftover)], Finishing);
      a, s' := ReadEnd(i, false), s.(drains := s.drains[i := d']);
    } else {
      d' := d.(phase := Done);
      a, s' := FinishDrain(i), s.(drains := s.drains[i := d']);
    }
    DrainsLeftUpdate(s.drains, i, d');
  }

  /** A step of the supervisor once the drain tasks have finished; the child exits with `code` if it has not. */
  lemma SupervisorSteps(s: State, code: int, lossy: seq<byte> -> seq<byte>) returns (a: Action, s': State)
    requires ControlInv(s) && (forall i :: 0 <= i < |s.drains| ==> s.drains[i].phase == Done) && s.supervisor != Over
    ensures Next(s, a, s', lossy) && s'.drains == s.drains && s'.outputs == s.outputs && SupervisorLeft(s') < SupervisorLeft(s)
    ensures s'.waiters.Keys == s.waiters.Keys
    ensures Known(s) == None ==> a == ChildExit(code)
  {
    match s.supervisor
    case Waiting => a, s' := ChildExit(code), s.(supervisor := Joining(code, 0));
    case Joining(status, joined) =>
      if joined < |s.drains| {
        a, s' := Join, s.(supervisor := Joining(status, joined + 1));
      } else {
        a, s' := Publish, s.(supervisor := Notifying, exitStatus := Some(status));
      }
    case Notifying => a, s' := Notify, s.(supervisor := Over, waiters := map w | w in s.waiters :: Wake(s.waiters[w]));
  }

  lemma WaiterSteps(s: State, w: nat, lossy: seq<byte> -> seq<byte>) returns (a: Action, s': State)
    requires ControlInv(s) && s.supervisor == Over && w in s.waiters && !s.waiters[w].Answered?
    ensures Next(s, a, s', lossy) && s' == s.(waiters := s'.waiters) && w in s'.waiters
    ensures WaiterLeft(s'.waiters[w]) < WaiterLeft(s.waiters[w])
  {
    if s.waiters[w].Asleep? {
      a, s' := WaitWake(w), s.(waiters := s.waiters[w := Registered(false)]);
    } else {
      a, s' := WaitCheck(w), s.(waiters := s.waiters[w := Answered(s.exitStatus.value)]);
    }
  }

  lemma AnyUnfinished(drains: seq<Drain>) returns (i: nat)
    requires exists k :: 0 <= k < |drains| && drains[k].phase != Done
    ensures i < |drains| && drains[i].phase != Done
  {
    i :| 0 <= i < |drains| && drains[i].phase != Done;
  }

  /** The status a waiter will be told: the child's, or the one it is about to exit with. */
  function Expected(s: State, code: int): int {
    if Known(s).Some? then Known(s).value else code
  }

  predicate Closer(s': State, s: State, w: nat)
    requires w in s.waiters && w in s'.waiters
  {
    || DrainsLeft(s'.drains) < DrainsLeft(s.drains)
    || (DrainsLeft(s'.drains) == DrainsLeft(s.drains) && SupervisorLeft(s') < SupervisorLeft(s))
    || (DrainsLeft(s'.drains) == DrainsLeft(s.drains) && SupervisorLeft(s') == SupervisorLeft(s)
        && WaiterLeft(s'.waiters[w]) < WaiterLeft(s.waiters[w]))
  }

  lemma CloserStep(s: State, w: nat, code: int, lossy: seq<byte> -> seq<byte>) returns (a: Action, s': State)
    requires Inv(s, lossy) && Unlocked(s) && w in s.waiters && !s.waiters[w].Answered?
    ensures Next(s, a, s', lossy) && Unlocked(s') && w in s'.waiters && Closer(s', s, w)
    ensures Known(s) == None && a.ChildExit? ==> a.code == code
  {
    if exists k :: 0 <= k < |s.drains| && s.drains[k].phase != Done {
      var i := AnyUnfinished(s.drains);
      a, s' := DrainSteps(s, i, lossy);
    } else if s.supervisor != Over {
      a, s' := SupervisorSteps(s, code, lossy);
    } else {
      a, s' := WaiterSteps(s, w, lossy);
    }
  }

  lemma StepKeepsExpected(s: State, a: Action, s': State, w: nat, code: int, lossy: seq<byte> -> seq<byte>)
    requires ReturnsText(lossy) && Inv(s, lossy) && Next(s, a, s', lossy)
    requires a.ChildExit? ==> a.code == code
    ensures Inv(s', lossy) && Expected(s', code) == Expected(s, code)
    ensures w in s'.waiters && s'.waiters[w].Answered? ==> s'.waiters[w] == Answered(Expected(s', code))
  {
    InvNext(s, a, s', lossy);
    KnownNext(s, a, s', lossy);
    KnownWhenPublished(s');
  }

  /** Every caller waiting for the exit can be answered, from every reachable state: the tasks can come to their end,
      and what it is told is the status of the child's exit, be that past or still to come. */
  lemma {:induction false} WaiterCanBeAnswered(s: State, w: nat, code: int, lossy: seq<byte> -> seq<byte>)
    returns (states: seq<State>, acts: seq<Action>)
    requires ReturnsText(lossy) && Inv(s, lossy) && Unlocked(s) && w in s.waiters && !s.waiters[w].Answered?
    ensures Steps(states, acts, lossy) && states[0] == s
    ensures w in states[|acts|].waiters && states[|acts|].waiters[w] == Answered(Expected(s, code))
    decreases DrainsLeft(s.drains), SupervisorLeft(s), WaiterLeft(s.waiters[w])
  {
    var a, s1 := CloserStep(s, w, code, lossy);
    StepKeepsExpected(s, a, s1, w, code, lossy);
    if s1.waiters[w].Answered? {
      states, acts := [s, s1], [a];
    } else {
      var later, rest := WaiterCanBeAnswered(s1, w, code, lossy);
      Prepend(s, a, later, rest, lossy);
      states, acts := [s] + later, [a] + rest;
    }
  }
}
