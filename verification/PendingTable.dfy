/** The shared table of pending requests as the mutable object it is: a map from ids to the sending halves of
    one-shot channels, swept by the reader's dispatch and by `fail_pending_requests`. */
module PendingTable {
  import opened Protocol
  import opened RequestTable
  import opened Wrappers

  /** A one-shot channel: what was sent into it, and whether its receiver has been dropped. */
  class Oneshot {
    var value: Option<Reply>
    var closed: bool

    constructor ()
      ensures value == None && !closed
    {
      value, closed := None, false;
    }
  }

  class Table {
    var pending: map<int, Oneshot>
    ghost var channels: map<int, Oneshot>  // every channel ever put into the table

    ghost predicate Valid()
      reads this, channels.Values
    {
      && (forall id :: id in pending ==> id in channels && channels[id] == pending[id] && pending[id].value == None)
      && (forall j, k :: j in channels && k in channels && j != k ==> channels[j] != channels[k])
    }

    /** The completed channels. */
    ghost function Replies(): map<int, Reply>
      reads this, channels.Values
    {
      map id | id in channels && channels[id].value.Some? :: channels[id].value.value
    }

    ghost function Open(): set<int>
      requires Valid()
      reads this, channels.Values
    {
      set id | id in pending && !pending[id].closed
    }

    constructor ()
      ensures Valid() && pending == map[] && channels == map[]
    {
      pending, channels := map[], map[];
    }

    method Insert(id: int) returns (rx: Oneshot)
      requires Valid() && id !in channels
      modifies this
      ensures Valid() && fresh(rx) && !rx.closed
      ensures channels == old(channels)[id := rx] && pending == old(pending)[id := rx] && Replies() == old(Replies())
    {
      rx := new Oneshot();
      pending := pending[id := rx];
      channels := channels[id := rx];
    }

    /** `fail_pending_requests`: drain the table and fail every channel in it. */
    method FailPending()
      requires Valid()
      modifies this`pending, pending.Values`value
      ensures Valid() && pending == map[]
      ensures Replies() == FailAll(old(pending).Keys, old(Replies()))
    {
      var draining := pending;
      pending := map[];
      forall id | id in draining {
        draining[id].value := Some(Failed);
      }
      forall id | id in channels
        ensures channels[id].value == if id in draining then Some(Failed) else old(channels[id].value)
      {
        assert forall k :: k in draining && k != id ==> channels[id] != draining[k];
      }
      ghost var failed := FailAll(draining.Keys, old(Replies()));
      assert forall id :: id in failed <==> id in draining || id in old(Replies());
      assert forall id :: id in Replies() <==> id in draining || id in old(Replies());
      assert forall id :: id in failed ==> Replies()[id] == failed[id];
    }

    /** The reader's dispatch: `retain` the channels that still have a receiver, then remove and complete. */
    method Dispatch(id: int, at: nat)
      requires Valid()
      modifies this`pending, pending.Values`value
      ensures Valid() && pending.Keys == old(Open()) - {id}
      ensures Replies() == if id in old(Open()) then old(Replies())[id := FromLine(at)] else old(Replies())
    {
      pending := map k | k in pending && !pending[k].closed :: pending[k];
      if id in pending {
        var tx := pending[id];
        pending := pending - {id};
        tx.value := Some(FromLine(at));
        assert forall k :: k in channels && k != id ==> channels[k] != tx;
      }
    }
  }
}
