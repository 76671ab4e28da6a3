/** The session registry as the mutable object it is: two maps to shared session objects, updated together. Each
    call is taken on its own here; `SessionRegistry` has their interleavings. */
module SessionManager {
  import opened SessionRegistry
  import opened Wrappers

  class AcpSession {
    const id: nat
    const key: nat

    constructor (id: nat, key: nat)
      ensures this.id == id && this.key == key
    {
      this.id, this.key := id, key;
    }
  }

  class SessionManager {
    var sessions: map<nat, AcpSession>
    var sessionsById: map<nat, AcpSession>
    const configured: set<nat>

    /** The two maps hold the same sessions, each under its own key and its own id. */
    ghost predicate Valid()
      reads this
    {
      && (forall key :: key in sessions ==>
            && sessions[key].key == key
            && sessions[key].id in sessionsById && sessionsById[sessions[key].id] == sessions[key])
      && (forall id :: id in sessionsById ==>
            && sessionsById[id].id == id
            && sessionsById[id].key in sessions && sessions[sessionsById[id].key] == sessionsById[id])
    }

    constructor (configured: set<nat>)
      ensures Valid() && sessions == map[] && sessionsById == map[] && this.configured == configured
    {
      sessions, sessionsById := map[], map[];
      this.configured := configured;
    }

    /** The two indexes as the step machine has them. */
    function Indexes(): (map<nat, nat>, map<nat, nat>)
      reads this
    {
      (map key | key in sessions :: sessions[key].id, map id | id in sessionsById :: sessionsById[id].key)
    }

    method GetOrCreate(key: nat, freshId: nat) returns (r: Option<AcpSession>)
      requires Valid() && freshId !in sessionsById
      modifies this
      ensures Valid()
      ensures key in old(sessions) ==> r == Some(old(sessions)[key])
      ensures key !in old(sessions) ==> (r.Some? <==> key in configured)
      ensures key in old(sessions) || r == None ==> sessions == old(sessions) && sessionsById == old(sessionsById)
      ensures key !in old(sessions) && r.Some? ==>
                && fresh(r.value) && r.value.key == key && r.value.id == freshId
                && sessions == old(sessions)[key := r.value] && sessionsById == old(sessionsById)[freshId := r.value]
                && Indexes() == (old(Indexes()).0[key := freshId], old(Indexes()).1[freshId := key])
    {
      if key in sessions {
        return Some(sessions[key]);
      }
      if key !in configured {
        return None;
      }
      var session := new AcpSession(freshId, key);
      sessions := sessions[key := session];
      sessionsById := sessionsById[freshId := session];
      r := Some(session);
      assert Indexes().0 == old(Indexes()).0[key := freshId];
      assert Indexes().1 == old(Indexes()).1[freshId := key];
    }

    method RemoveSession(key: nat) returns (r: Option<AcpSession>)
      requires Valid()
      modifies this
      ensures Valid()
      ensures r == if key in old(sessions) then Some(old(sessions)[key]) else None
      ensures sessions == old(sessions) - {key}
      ensures sessionsById == if r.Some? then old(sessionsById) - {r.value.id} else old(sessionsById)
      ensures Indexes() == (old(Indexes()).0 - {key},
                            if r.Some? then old(Indexes()).1 - {r.value.id} else old(Indexes()).1)
    {
      r := None;
      if key in sessions {
        r := Some(sessions[key]);
        sessions := sessions - {key};
        sessionsById := sessionsById - {r.value.id};
      }
      assert Indexes().0 == old(Indexes()).0 - {key};
      assert Indexes().1 == if r.Some? then old(Indexes()).1 - {r.value.id} else old(Indexes()).1;
    }

    method DrainAll() returns (drained: set<AcpSession>)
      requires Valid()
      modifies this
      ensures Valid() && sessions == map[] && sessionsById == map[]
      ensures drained == old(sessions).Values == old(sessionsById).Values
    {
      drained := sessions.Values;
      forall s | s in drained ensures s in sessionsById.Values {
        var key :| key in sessions && sessions[key] == s;
        assert sessionsById[s.id] == s;
      }
      forall s | s in sessionsById.Values ensures s in drained {
        var id :| id in sessionsById && sessionsById[id] == s;
        assert sessions[s.key] == s;
      }
      sessions, sessionsById := map[], map[];
    }
  }
}
