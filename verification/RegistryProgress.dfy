/** No call on the registry hangs: from every reachable state each can come to its end. */
module RegistryProgress {
  import opened SessionRegistry
  import opened Wrappers

  lemma Prepend(s: State, a: Action, states: seq<State>, acts: seq<Action>)
    requires Steps(states, acts) && Next(s, a, states[0])
    ensures Steps([s] + states, [a] + acts) && ([s] + states)[|[a] + acts|] == states[|acts|]
  {
  }

  predicate Finished(task: Task) {
    task.Got? || task.Unknown? || task.Removed? || task.Cleared?
  }

  function PhasesLeft(task: Task): nat {
    match task
    case Looking(_) => 4
    case Configuring(_) => 3
    case Locking(_) => 2
    case Creating(_, _) => 1
    case Removing(_) => 2
    case Unlisting(_) => 1
    case Draining => 2
    case Clearing(_) => 1
    case _ => 0
  }

  /** The task's own next step; it may need the key lock. */
  lemma TaskSteps(s: State, t: nat) returns (a: Action, s': State)
    requires t in s.tasks && !Finished(s.tasks[t]) && (s.keyLock == None || s.tasks[t].Creating? || s.tasks[t].Clearing?)
    ensures Next(s, a, s') && t in s'.tasks && PhasesLeft(s'.tasks[t]) < PhasesLeft(s.tasks[t])
    ensures forall u :: u in s.tasks && u != t ==> u in s'.tasks && s'.tasks[u] == s.tasks[u]
    ensures s.tasks[t].Creating? || s.tasks[t].Clearing? ==> s'.keyLock == None
  {
    match s.tasks[t]
    case Looking(key) => a, s' := Look(t), To(s, t, if key in s.byKey then Got(key, s.byKey[key]) else Configuring(key));
    case Configuring(key) => a, s' := Configure(t), To(s, t, if key in s.configured then Locking(key) else Unknown);
    case Locking(key) =>
      a := LockAndLook(t);
      s' := if key in s.byKey then To(s, t, Got(key, s.byKey[key]))
            else To(s, t, Creating(key, s.nextId)).(keyLock := Some(t), nextId := s.nextId + 1);
    case Creating(key, id) =>
      a, s' := Create(t), To(s, t, Got(key, id)).(byKey := s.byKey[key := id], byId := s.byId[id := key], keyLock := None);
    case Removing(key) =>
      a := RemoveKey(t);
      s' := if key in s.byKey
            then To(s, t, Unlisting(s.byKey[key])).(byKey := s.byKey - {key}, gone := s.gone + {s.byKey[key]})
            else To(s, t, Removed(None));
    case Unlisting(id) => a, s' := Unlist(t), To(s, t, Removed(Some(id))).(byId := s.byId - {id});
    case Draining =>
      a := Drain(t);
      s' := To(s, t, Clearing(s.byKey.Values)).(byKey := map[], keyLock := Some(t), gone := s.gone + s.byKey.Values);
    case Clearing(ids) => a, s' := Clear(t), To(s, t, Cleared(ids)).(byId := map[], keyLock := None);
  }

  /** Whoever waits for the key lock waits for a call that can give it back. */
  lemma {:induction false} CallCanFinish(s: State, t: nat) returns (states: seq<State>, acts: seq<Action>)
    requires LockInv(s) && t in s.tasks
    ensures Steps(states, acts) && states[0] == s && t in states[|acts|].tasks && Finished(states[|acts|].tasks[t])
    decreases PhasesLeft(s.tasks[t]), if s.keyLock == None then 0 else 1
  {
    if Finished(s.tasks[t]) {
      states, acts := [s], [];
    } else {
      var holder := if s.keyLock == None || s.tasks[t].Creating? || s.tasks[t].Clearing? then t else s.keyLock.value;
      var a, s1 := TaskSteps(s, holder);
      LockNext(s, a, s1);
      var later, rest := CallCanFinish(s1, t);
      Prepend(s, a, later, rest);
      states, acts := [s] + later, [a] + rest;
    }
  }
}
