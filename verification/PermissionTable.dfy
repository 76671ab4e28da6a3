/** The table of permission requests as the mutable object it is: a map from ids to the sending halves of
    one-shot channels, emptied by answers, by cancellation and by the requests that leave. */
module PermissionTable {
  import Permissions
  import opened Wrappers

  /** A one-shot channel: what was sent into it, and whether its receiver has been dropped. */
  class Oneshot {
    var value: Option<bool>
    var closed: bool

    constructor ()
      ensures value == None && !closed
    {
      value, closed := None, false;
    }

    /** `Sender::send`: fails if nobody can receive any more. */
    method Send(granted: bool)
      modifies this`value
      ensures value == if closed then old(value) else Some(granted)
    {
      if !closed {
        value := Some(granted);
      }
    }

    /** The end of the `timeout` around the receiver: what has arrived, else a denial. The receiver is dropped. */
    method Finish() returns (granted: bool)
      modifies this`closed
      ensures closed && granted == (value == Some(true))
    {
      closed := true;
      granted := if value.Some? then value.value else false;
    }
  }

  class CallbackHandler {
    var pendingPermissions: map<nat, Oneshot>
    ghost var channels: map<nat, Oneshot>  // every channel ever put into the table

    ghost predicate Valid()
      reads this, channels.Values
    {
      && (forall id :: id in pendingPermissions ==>
            id in channels && channels[id] == pendingPermissions[id] && pendingPermissions[id].value == None)
      && (forall j, k :: j in channels && k in channels && j != k ==> channels[j] != channels[k])
    }

    /** What has been sent, by request. */
    ghost function Answers(): map<nat, bool>
      reads this, channels.Values
    {
      map id | id in channels && channels[id].value.Some? :: channels[id].value.value
    }

    /** The pending requests that can still be answered. */
    ghost function Open(): set<nat>
      requires Valid()
      reads this, channels.Values
    {
      set id | id in pendingPermissions && !pendingPermissions[id].closed
    }

    constructor ()
      ensures Valid() && pendingPermissions == map[] && channels == map[]
    {
      pendingPermissions, channels := map[], map[];
    }

    /** `request_user_permission` enters the table under a fresh id. */
    method Enter(id: nat) returns (rx: Oneshot)
      requires Valid() && id !in channels
      modifies this
      ensures Valid() && fresh(rx) && !rx.closed && Answers() == old(Answers()) && Open() == old(Open()) + {id}
      ensures channels == old(channels)[id := rx] && pendingPermissions == old(pendingPermissions)[id := rx]
    {
      rx := new Oneshot();
      pendingPermissions := pendingPermissions[id := rx];
      channels := channels[id := rx];
    }

    /** And leaves it with an answer or after the timeout. */
    method Leave(id: nat)
      requires Valid()
      modifies this`pendingPermissions
      ensures Valid() && Answers() == old(Answers()) && pendingPermissions == old(pendingPermissions) - {id}
    {
      pendingPermissions := pendingPermissions - {id};
    }

    method RespondPermission(id: nat, granted: bool)
      requires Valid()
      modifies this`pendingPermissions, pendingPermissions.Values`value
      ensures Valid() && pendingPermissions == old(pendingPermissions) - {id}
      ensures Answers() == if id in old(Open()) then old(Answers())[id := granted] else old(Answers())
    {
      if id in pendingPermissions {
        var tx := pendingPermissions[id];
        pendingPermissions := pendingPermissions - {id};
        tx.Send(granted);
        assert forall k :: k in channels && k != id ==> channels[k] != tx;
      }
    }

    method CancelAllPending()
      requires Valid()
      modifies this`pendingPermissions, pendingPermissions.Values`value
      ensures Valid() && pendingPermissions == map[]
      ensures Answers() == Permissions.DenyAll(old(Open()), old(Answers()))
    {
      ghost var open := Open();
      var draining := pendingPermissions;
      pendingPermissions := map[];
      forall id | id in draining && !draining[id].closed {
        draining[id].value := Some(false);
      }
      forall id | id in channels
        ensures channels[id].value == if id in open then Some(false) else old(channels[id].value)
      {
        assert forall k :: k in draining && k != id ==> channels[id] != draining[k];
      }
      DeniedAnswers(open, old(Answers()));
    }

    /** The channels' contents, read off as answers. */
    lemma DeniedAnswers(open: set<nat>, before: map<nat, bool>)
      requires open <= channels.Keys && before.Keys <= channels.Keys
      requires forall id :: id in channels ==>
                 channels[id].value == if id in open then Some(false) else if id in before then Some(before[id]) else None
      ensures Answers() == Permissions.DenyAll(open, before)
    {
      var denied := Permissions.DenyAll(open, before);
      assert forall id :: id in denied <==> id in Answers();
    }
  }
}
