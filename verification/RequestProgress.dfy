/** No call waits for ever: from every reachable state of the request table each outstanding call can come back. */
module RequestProgress {
  import opened Protocol
  import opened RequestTable
  import opened RequestDelivery
  import opened Wrappers

  lemma Prepend(s: State, a: Action, states: seq<State>, acts: seq<Action>)
    requires Steps(states, acts) && Next(s, a, states[0])
    ensures Steps([s] + states, [a] + acts) && ([s] + states)[|[a] + acts|] == states[|acts|]
  {
  }

  predicate Outstanding(c: Call) {
    !c.Finished? && c != Cancelled
  }

  function PhasesLeft(c: Call): nat {
    match c
    case Inserting => 5
    case Rechecking => 4
    case Sending => 3
    case Awaiting => 2
    case Withdrawing => 1
    case WithdrawingUnsent => 1
    case _ => 0
  }

  /** How far the connection is from having drained the table. */
  function TeardownLeft(s: State): nat {
    if s.reader == Reading then 3
    else if s.reader == Ended then 2
    else if s.reader == Flagged then 1
    else
      match s.shutdown
      case NotCalled => 0
      case Aborting => if s.writer == WriterGone then 2 else 3
      case Joined => 1
      case ShutDown => 0
  }

  /** The caller's own next step, if it does not have to wait. */
  lemma CallerSteps(s: State, id: int) returns (a: Action, s': State)
    requires Inv(s) && id in s.calls && Outstanding(s.calls[id]) && (s.calls[id] == Awaiting ==> id in s.replies)
    ensures Next(s, a, s') && id in s'.calls && PhasesLeft(s'.calls[id]) < PhasesLeft(s.calls[id]) && s'.calls[id] != Cancelled
  {
    match s.calls[id]
    case Inserting =>
      a, s' := Insert(id), To(s, id, Rechecking).(pending := s.pending + {id}, insertedAt := s.insertedAt[id := |s.lines|]);
    case Rechecking => a, s' := Recheck(id), To(s, id, if s.connected then Sending else Withdrawing);
    case Sending => a, s' := Send(id), To(s, id, if s.writer == WriterGone then WithdrawingUnsent else Awaiting);
    case Withdrawing =>
      a, s' := Withdraw(id), To(s, id, Finished(Closed)).(pending := s.pending - {id},
                                replies := if id in s.pending then s.replies[id := Failed] else s.replies);
    case WithdrawingUnsent => a, s' := WithdrawUnsent(id), To(s, id, Finished(WriterClosed)).(pending := s.pending - {id});
    case Awaiting => a, s' := Receive(id), To(s, id, Finished(Answered(s.replies[id])));
  }

  /** While it waits, the connection's teardown can go on. */
  lemma TeardownSteps(s: State, id: int) returns (a: Action, s': State)
    requires Inv(s) && At(s, id, Awaiting) && id !in s.replies
    ensures Next(s, a, s') && At(s', id, Awaiting) && (id in s'.replies || TeardownLeft(s') < TeardownLeft(s))
  {
    if s.reader == Reading {
      a, s' := ReaderEnds, s.(reader := Ended);
    } else if s.reader == Ended {
      a, s' := ReaderClears, s.(reader := Flagged, connected := false);
    } else if s.reader == Flagged {
      a, s' := ReaderDrains, Drain(s).(reader := ReaderGone);
    } else {
      assert id in s.pending && !s.drained;
      if s.shutdown == Joined {
        a, s' := ShutdownDrains, Drain(s).(shutdown := ShutDown);
      } else if s.writer != WriterGone {
        a, s' := AbortWriter, s.(writer := WriterGone);
      } else {
        a, s' := JoinTasks, s.(shutdown := Joined);
      }
    }
  }

  /** Every outstanding call can come back, in whatever state the connection is: either the caller can move by itself,
      or the connection can be torn down and then its channel is completed. */
  lemma {:induction false} CallCanFinish(s: State, id: int) returns (states: seq<State>, acts: seq<Action>)
    requires Inv(s) && id in s.calls && Outstanding(s.calls[id])
    ensures Steps(states, acts) && states[0] == s
    ensures id in states[|acts|].calls && states[|acts|].calls[id].Finished?
    decreases PhasesLeft(s.calls[id]), if id in s.replies then 0 else 1, TeardownLeft(s)
  {
    var a, s1;
    if s.calls[id] == Awaiting && id !in s.replies {
      a, s1 := TeardownSteps(s, id);
    } else {
      a, s1 := CallerSteps(s, id);
    }
    InvNext(s, a, s1);
    if s1.calls[id].Finished? {
      states, acts := [s, s1], [a];
    } else {
      var later, rest := CallCanFinish(s1, id);
      Prepend(s, a, later, rest);
      states, acts := [s] + later, [a] + rest;
    }
  }
}
