/** The session registry as interleaved atomic steps: lookups, double-checked creation under the key lock, and
    removal in two separate critical sections. Each task runs one call of `get_or_create`, `remove_session` or
    `shutdown_all`. Session ids are fresh. */
module SessionRegistry {
  import opened Wrappers

  datatype Task =
    | Looking(key: nat)                  // get_or_create: first look, under the read lock
    | Configuring(key: nat)              // not found; look up the agent's configuration
    | Locking(key: nat)                  // wait for the key lock, then look again
    | Creating(key: nat, id: nat)        // has the key lock and a new session, waits for the id lock
    | Got(key: nat, id: nat)
    | Unknown                            // no such agent
    | Removing(key: nat)                 // remove_session: about to remove by key
    | Unlisting(id: nat)                 // removed by key, about to remove by id
    | Removed(removed: Option<nat>)
    | Draining                           // shutdown_all: about to lock and drain
    | Clearing(ids: set<nat>)            // holds the key lock, about to clear the ids
    | Cleared(ids: set<nat>)

  datatype State = State(
    byKey: map<nat, nat>,
    byId: map<nat, nat>,                 // session id to the session's own key
    keyLock: Option<nat>,                // the task holding the write lock on the keys across a step
    configured: set<nat>,                // keys whose agent is configured
    nextId: nat,
    tasks: map<nat, Task>,
    gone: set<nat>)                      // history: sessions that have been removed by key

  datatype Action =
    | CallGet(t: nat, key: nat)
    | CallRemove(t: nat, key: nat)
    | CallShutdown(t: nat)
    | Look(t: nat)
    | Configure(t: nat)
    | LockAndLook(t: nat)
    | Create(t: nat)
    | RemoveKey(t: nat)
    | Unlist(t: nat)
    | Drain(t: nat)
    | Clear(t: nat)

  ghost predicate Init(s: State) {
    s.byKey == map[] && s.byId == map[] && s.keyLock == None && s.tasks == map[] && s.gone == {}
  }

  function To(s: State, t: nat, task: Task): State {
    s.(tasks := s.tasks[t := task])
  }

  ghost predicate Next(s: State, a: Action, s': State) {
    match a
    case CallGet(t, key) => t !in s.tasks && s' == To(s, t, Looking(key))
    case CallRemove(t, key) => t !in s.tasks && s' == To(s, t, Removing(key))
    case CallShutdown(t) => t !in s.tasks && s' == To(s, t, Draining)
    case Look(t) =>
      && t in s.tasks && s.tasks[t].Looking? && s.keyLock == None
      && var key := s.tasks[t].key;
         s' == To(s, t, if key in s.byKey then Got(key, s.byKey[key]) else Configuring(key))
    case Configure(t) =>
      && t in s.tasks && s.tasks[t].Configuring?
      && var key := s.tasks[t].key;
         s' == To(s, t, if key in s.configured then Locking(key) else Unknown)
    case LockAndLook(t) =>
      && t in s.tasks && s.tasks[t].Locking? && s.keyLock == None
      && var key := s.tasks[t].key;
         if key in s.byKey then s' == To(s, t, Got(key, s.byKey[key]))
         else s' == To(s, t, Creating(key, s.nextId)).(keyLock := Some(t), nextId := s.nextId + 1)
    case Create(t) =>
      && t in s.tasks && s.tasks[t].Creating?
      && var Creating(key, id) := s.tasks[t];
         s' == To(s, t, Got(key, id)).(byKey := s.byKey[key := id], byId := s.byId[id := key], keyLock := None)
    case RemoveKey(t) =>
      && t in s.tasks && s.tasks[t].Removing? && s.keyLock == None
      && var key := s.tasks[t].key;
         if key in s.byKey
         then s' == To(s, t, Unlisting(s.byKey[key])).(byKey := s.byKey - {key}, gone := s.gone + {s.byKey[key]})
         else s' == To(s, t, Removed(None))
    case Unlist(t) =>
      && t in s.tasks && s.tasks[t].Unlisting?
      && s' == To(s, t, Removed(Some(s.tasks[t].id))).(byId := s.byId - {s.tasks[t].id})
    case Drain(t) =>
      && t in s.tasks && s.tasks[t].Draining? && s.keyLock == None
      && s' == To(s, t, Clearing(s.byKey.Values)).(byKey := map[], keyLock := Some(t), gone := s.gone + s.byKey.Values)
    case Clear(t) =>
      && t in s.tasks && s.tasks[t].Clearing?
      && s' == To(s, t, Cleared(s.tasks[t].ids)).(byId := map[], keyLock := None)
  }

  ghost predicate IsRun(states: seq<State>, acts: seq<Action>) {
    && |states| == |acts| + 1 && Init(states[0])
    && forall i :: 0 <= i < |acts| ==> Next(states[i], acts[i], states[i + 1])
  }

  // ------------------------------------------------------------------ the invariant

  predicate MidRemoval(s: State, id: nat) {
    exists t :: t in s.tasks && s.tasks[t] == Unlisting(id)
  }

  /** The key lock is held by exactly the tasks that say so. */
  ghost predicate LockInv(s: State) {
    && (s.keyLock.Some? ==> s.keyLock.value in s.tasks
                            && (s.tasks[s.keyLock.value].Creating? || s.tasks[s.keyLock.value].Clearing?))
    && (forall t :: t in s.tasks && (s.tasks[t].Creating? || s.tasks[t].Clearing?) ==> s.keyLock == Some(t))
    && (forall t :: t in s.tasks && s.tasks[t].Creating? ==> s.tasks[t].key !in s.byKey)
    && (forall t :: t in s.tasks && s.tasks[t].Clearing? ==> s.byKey == map[])
  }

  predicate Sweeping(s: State) {
    s.keyLock.Some? && s.keyLock.value in s.tasks && s.tasks[s.keyLock.value].Clearing?
  }

  /** Ids are fresh, and a keyed session is listed under its id with its own key. */
  ghost predicate KeyedInv(s: State) {
    && (forall key :: key in s.byKey ==> s.byKey[key] in s.byId && s.byId[s.byKey[key]] == key && s.byKey[key] !in s.gone)
    && (forall id :: id in s.byId || id in s.gone ==> id < s.nextId)
    && (forall t :: t in s.tasks && s.tasks[t].Creating? ==>
          s.tasks[t].id < s.nextId && s.tasks[t].id !in s.byId && s.tasks[t].id !in s.gone)
    && (forall t :: t in s.tasks && s.tasks[t].Unlisting? ==> s.tasks[t].id in s.gone)
  }

  predicate Keyed(s: State, id: nat) {
    id in s.byId && s.byId[id] in s.byKey && s.byKey[s.byId[id]] == id
  }

  /** A listed id is keyed, or its session has been removed by key and its removal or a sweep is under way. */
  ghost predicate ListedInv(s: State) {
    forall id :: id in s.byId ==> Keyed(s, id) || MidRemoval(s, id) || Sweeping(s)
  }

  /** Whoever was given a session has the one registered for its key, unless that one was removed since. */
  ghost predicate ResultInv(s: State) {
    forall t :: t in s.tasks && s.tasks[t].Got? ==>
      || s.tasks[t].id in s.gone
      || (s.tasks[t].key in s.byKey && s.byKey[s.tasks[t].key] == s.tasks[t].id)
  }

  ghost predicate Inv(s: State) {
    LockInv(s) && KeyedInv(s) && ListedInv(s) && ResultInv(s)
  }

  lemma LockNext(s: State, a: Action, s': State)
    requires LockInv(s) && Next(s, a, s')
    ensures LockInv(s')
  {
  }

  lemma KeyedNext(s: State, a: Action, s': State)
    requires LockInv(s) && KeyedInv(s) && Next(s, a, s')
    ensures KeyedInv(s')
  {
  }

  lemma MidRemovalNext(s: State, a: Action, s': State, id: nat)
    requires Next(s, a, s') && MidRemoval(s, id)
    ensures MidRemoval(s', id) || id !in s'.byId
  {
    var t :| t in s.tasks && s.tasks[t] == Unlisting(id);
    if !(a.Unlist? && a.t == t) {
      assert s'.tasks[t] == Unlisting(id);
    }
  }

  lemma ListedNext(s: State, a: Action, s': State)
    requires LockInv(s) && KeyedInv(s) && ListedInv(s) && Next(s, a, s')
    ensures ListedInv(s')
  {
    forall id | id in s'.byId ensures Keyed(s', id) || MidRemoval(s', id) || Sweeping(s') {
      if id in s.byId && MidRemoval(s, id) {
        MidRemovalNext(s, a, s', id);
      } else if id in s.byId && Keyed(s, id) {
        if a.RemoveKey? && s.tasks[a.t].key == s.byId[id] {
          assert s'.tasks[a.t] == Unlisting(id);
        }
      }
    }
  }

  lemma ResultNext(s: State, a: Action, s': State)
    requires LockInv(s) && ResultInv(s) && Next(s, a, s')
    ensures ResultInv(s')
  {
  }

  lemma {:induction false} RunInv(states: seq<State>, acts: seq<Action>, i: nat)
    requires IsRun(states, acts) && i < |states|
    ensures Inv(states[i])
  {
    if i > 0 {
      RunInv(states, acts, i - 1);
      var s, a, s' := states[i - 1], acts[i - 1], states[i];
      assert Next(s, a, s');
      LockNext(s, a, s');
      KeyedNext(s, a, s');
      ListedNext(s, a, s');
      ResultNext(s, a, s');
    }
  }

  // ------------------------------------------------------------------ theorems

  /** The two indexes agree in every reachable state: keyed sessions are reachable by id and know their key, no
      session is registered under two keys, and with the key lock free the only ids without a key belong to
      sessions in the middle of their removal. */
  lemma IndexesAgree(states: seq<State>, acts: seq<Action>, i: nat)
    requires IsRun(states, acts) && i < |states|
    ensures forall key :: key in states[i].byKey ==>
              states[i].byKey[key] in states[i].byId && states[i].byId[states[i].byKey[key]] == key
    ensures forall k, l :: k in states[i].byKey && l in states[i].byKey && states[i].byKey[k] == states[i].byKey[l] ==> k == l
    ensures states[i].keyLock == None ==> forall id :: id in states[i].byId ==>
              || (states[i].byId[id] in states[i].byKey && states[i].byKey[states[i].byId[id]] == id)
              || MidRemoval(states[i], id)
  {
    RunInv(states, acts, i);
  }

  /** At quiescence they are inverse to each other. */
  lemma IndexesAreABijection(states: seq<State>, acts: seq<Action>, i: nat)
    requires IsRun(states, acts) && i < |states|
    requires states[i].keyLock == None && forall t :: t in states[i].tasks ==> !states[i].tasks[t].Unlisting?
    ensures forall key, id :: (key in states[i].byKey && states[i].byKey[key] == id)
                         <==> (id in states[i].byId && states[i].byId[id] == key)
  {
    RunInv(states, acts, i);
  }

  /** Single flight: all callers that were given a session for a key that has not been removed since were given
      the same one, and it is the registered one. */
  lemma CreationIsSingleFlight(states: seq<State>, acts: seq<Action>, i: nat, t: nat, u: nat)
    requires IsRun(states, acts) && i < |states| && t in states[i].tasks && u in states[i].tasks
    requires states[i].tasks[t].Got? && states[i].tasks[u].Got? && states[i].tasks[t].key == states[i].tasks[u].key
    requires states[i].tasks[t].id !in states[i].gone && states[i].tasks[u].id !in states[i].gone
    ensures states[i].tasks[t].id == states[i].tasks[u].id
    ensures states[i].tasks[t].key in states[i].byKey && states[i].byKey[states[i].tasks[t].key] == states[i].tasks[t].id
  {
    RunInv(states, acts, i);
  }

  lemma {:induction false} GoneForGood(states: seq<State>, acts: seq<Action>, i: nat, j: nat)
    requires IsRun(states, acts) && i <= j < |states|
    ensures states[i].gone <= states[j].gone
    decreases j
  {
    if i < j {
      GoneForGood(states, acts, i, j - 1);
      assert Next(states[j - 1], acts[j - 1], states[j]);
    }
  }

  /** A removed session never comes back under any key. */
  lemma RemovedSessionsStayRemoved(states: seq<State>, acts: seq<Action>, i: nat, j: nat, id: nat)
    requires IsRun(states, acts) && i <= j < |states| && id in states[i].gone
    ensures forall key :: key in states[j].byKey ==> states[j].byKey[key] != id
  {
    RunInv(states, acts, j);
    GoneForGood(states, acts, i, j);
  }

  // ------------------------------------------------------------------ calls that nothing interrupts

  ghost predicate Steps(states: seq<State>, acts: seq<Action>) {
    && |states| == |acts| + 1
    && forall i :: 0 <= i < |acts| ==> Next(states[i], acts[i], states[i + 1])
  }

  function Indexes(s: State): (map<nat, nat>, map<nat, nat>) {
    (s.byKey, s.byId)
  }

  lemma GetAlone(s: State, t: nat, key: nat) returns (states: seq<State>, acts: seq<Action>)
    requires t !in s.tasks && s.keyLock == None
    ensures Steps(states, acts) && states[0] == s
    ensures var s' := states[|acts|];
            && t in s'.tasks && s'.keyLock == None
            && if key in s.byKey then s'.tasks[t] == Got(key, s.byKey[key]) && Indexes(s') == Indexes(s)
               else if key !in s.configured then s'.tasks[t] == Unknown && Indexes(s') == Indexes(s)
               else s'.tasks[t] == Got(key, s.nextId) && Indexes(s') == (s.byKey[key := s.nextId], s.byId[s.nextId := key])
  {
    var called := To(s, t, Looking(key));
    if key in s.byKey {
      states, acts := [s, called, To(called, t, Got(key, s.byKey[key]))], [CallGet(t, key), Look(t)];
    } else if key !in s.configured {
      states := [s, called, To(called, t, Configuring(key)), To(called, t, Unknown)];
      acts := [CallGet(t, key), Look(t), Configure(t)];
    } else {
      states, acts := CreateAlone(s, t, key);
    }
  }

  lemma CreateAlone(s: State, t: nat, key: nat) returns (states: seq<State>, acts: seq<Action>)
    requires t !in s.tasks && s.keyLock == None && key !in s.byKey && key in s.configured
    ensures Steps(states, acts) && states[0] == s
    ensures var s' := states[|acts|];
            && t in s'.tasks && s'.keyLock == None && s'.tasks[t] == Got(key, s.nextId)
            && Indexes(s') == (s.byKey[key := s.nextId], s.byId[s.nextId := key])
  {
    var s1 := To(s, t, Looking(key));
    var s2 := To(s1, t, Configuring(key));
    var s3 := To(s2, t, Locking(key));
    var s4 := To(s3, t, Creating(key, s.nextId)).(keyLock := Some(t), nextId := s.nextId + 1);
    var s5 := To(s4, t, Got(key, s.nextId)).(byKey := s.byKey[key := s.nextId], byId := s.byId[s.nextId := key], keyLock := None);
    assert Next(s, CallGet(t, key), s1);
    assert Next(s1, Look(t), s2);
    assert Next(s2, Configure(t), s3);
    assert Next(s3, LockAndLook(t), s4);
    assert Next(s4, Create(t), s5);
    states := [s, s1, s2, s3, s4, s5];
    acts := [CallGet(t, key), Look(t), Configure(t), LockAndLook(t), Create(t)];
  }

  lemma RemoveAlone(s: State, t: nat, key: nat) returns (states: seq<State>, acts: seq<Action>)
    requires t !in s.tasks && s.keyLock == None
    ensures Steps(states, acts) && states[0] == s
    ensures var s' := states[|acts|];
            && t in s'.tasks && s'.keyLock == None
            && s'.tasks[t] == Removed(if key in s.byKey then Some(s.byKey[key]) else None)
            && Indexes(s') == (s.byKey - {key}, if key in s.byKey then s.byId - {s.byKey[key]} else s.byId)
  {
    var called := To(s, t, Removing(key));
    if key in s.byKey {
      var id := s.byKey[key];
      var unlisting := To(called, t, Unlisting(id)).(byKey := s.byKey - {key}, gone := s.gone + {id});
      states := [s, called, unlisting, To(unlisting, t, Removed(Some(id))).(byId := s.byId - {id})];
      acts := [CallRemove(t, key), RemoveKey(t), Unlist(t)];
    } else {
      assert s.byKey - {key} == s.byKey;
      states, acts := [s, called, To(called, t, Removed(None))], [CallRemove(t, key), RemoveKey(t)];
    }
  }

  lemma ShutdownAlone(s: State, t: nat) returns (states: seq<State>, acts: seq<Action>)
    requires t !in s.tasks && s.keyLock == None
    ensures Steps(states, acts) && states[0] == s
    ensures var s' := states[|acts|];
            && t in s'.tasks && s'.keyLock == None
            && s'.tasks[t] == Cleared(s.byKey.Values) && Indexes(s') == (map[], map[])
  {
    var called, ids := To(s, t, Draining), s.byKey.Values;
    var drained := To(called, t, Clearing(ids)).(byKey := map[], keyLock := Some(t), gone := s.gone + ids);
    states := [s, called, drained, To(drained, t, Cleared(ids)).(byId := map[], keyLock := None)];
    acts := [CallShutdown(t), Drain(t), Clear(t)];
  }
}
