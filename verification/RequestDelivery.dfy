/** What the request table is for: the agent's response reaches the caller that asked. */
module RequestDelivery {
  import opened Protocol
  import opened RequestTable
  import opened Wrappers

  /** A response line always arrives: it is the next line read, and if its id is in the table and the call has not been
      cancelled, then the call is completed with this very line and leaves the table, and with it only entries whose
      callers are gone. No other message counts as a line. */
  lemma ResponseCompletesItsCall(states: seq<State>, acts: seq<Action>, i: nat, id: int)
    requires IsRun(states, acts) && i < |acts| && acts[i].ReadLine?
    requires acts[i].message.verb == None && acts[i].message.id == Some(Number(id))
    ensures states[i + 1].lines == states[i].lines + [id]
    ensures id in states[i].pending && !At(states[i], id, Cancelled) ==>
              && id !in states[i + 1].pending
              && id in states[i + 1].replies && states[i + 1].replies[id] == FromLine(|states[i].lines|)
    ensures forall k :: k in states[i].pending && k != id ==> (k in states[i + 1].pending <==> !At(states[i], k, Cancelled))
    ensures states[i + 1].calls == states[i].calls
  {
    assert Next(states[i], acts[i], states[i + 1]);
    assert Classify(acts[i].message).Response?;
  }

  lemma LinesAreResponses(states: seq<State>, acts: seq<Action>, i: nat)
    requires IsRun(states, acts) && i < |acts|
    ensures states[i + 1].lines != states[i].lines <==>
              && acts[i].ReadLine? && acts[i].message.verb == None
              && acts[i].message.id.Some? && acts[i].message.id.value.Number?
  {
    assert Next(states[i], acts[i], states[i + 1]);
  }

  /** How far a call is that has been sent or is about to be. */
  predicate Committed(c: Call) {
    c in {Sending, WithdrawingUnsent, Awaiting}
  }

  /** A call that has passed both checks, and whose channel holds `reply`: it comes back with that reply, unless the
      writer turned out to be gone or its future is dropped. */
  predicate WillReturn(c: Call, reply: Reply) {
    Committed(c) || c == Cancelled || c == Finished(WriterClosed) || c == Finished(Answered(reply))
  }

  /** The steps that move one call. */
  predicate Concerns(a: Action, id: int) {
    && (a.Insert? || a.Recheck? || a.Withdraw? || a.Send? || a.WithdrawUnsent? || a.Receive? || a.ChannelDropped? || a.Cancel?)
    && a.id == id
  }

  /** The calls a step leaves, given the one it is about. */
  lemma CallsAfter(s: State, a: Action, s': State)
    requires Next(s, a, s')
    ensures if a.Allocate? then s'.calls == s.calls[s.nextId := if a.serialises then Inserting else Finished(Unserialisable)]
            else exists id: int :: if Concerns(a, id) then id in s'.calls && s'.calls == s.calls[id := s'.calls[id]] else s'.calls == s.calls
  {
    if a.Insert? || a.Recheck? || a.Withdraw? || a.Send? || a.WithdrawUnsent? || a.Receive? || a.ChannelDropped? || a.Cancel? {
      assert Concerns(a, a.id);
    } else if !a.Allocate? {
      assert !Concerns(a, 0) && s'.calls == s.calls;
    }
  }

  lemma OthersStay(s: State, a: Action, s': State, id: int)
    requires Table(s) && Next(s, a, s') && id in s.calls && !Concerns(a, id)
    ensures At(s', id, s.calls[id])
  {
    CallsAfter(s, a, s');
  }

  lemma ReturnNext(s: State, a: Action, s': State, id: int, reply: Reply)
    requires Table(s) && Next(s, a, s') && id in s.calls && id in s.replies && s.replies[id] == reply
    requires WillReturn(s.calls[id], reply)
    ensures id in s'.calls && WillReturn(s'.calls[id], reply)
  {
    if !Concerns(a, id) {
      OthersStay(s, a, s', id);
    }
  }

  lemma {:induction false} ReplyReturns(states: seq<State>, acts: seq<Action>, i: nat, j: nat, id: int, reply: Reply)
    requires IsRun(states, acts) && i <= j < |states| && id in states[i].calls && WillReturn(states[i].calls[id], reply)
    requires id in states[i].replies && states[i].replies[id] == reply
    ensures id in states[j].calls && WillReturn(states[j].calls[id], reply)
    decreases j
  {
    if i < j {
      ReplyReturns(states, acts, i, j - 1, id, reply);
      RunInv(states, acts, j - 1);
      CompletedAtMostOnce(states, acts, i, j - 1);
      var s, a, s' := states[j - 1], acts[j - 1], states[j];
      assert Next(s, a, s');
      ReturnNext(s, a, s', id, reply);
    }
  }

  /** End to end: a caller that awaits its reply when the response line is read returns exactly this response and no
      other, whatever else happens, unless its future is dropped; from that line on it never waits in vain. */
  lemma ResponseReachesItsCaller(states: seq<State>, acts: seq<Action>, i: nat, j: nat, id: int)
    requires IsRun(states, acts) && i < |acts| && i < j < |states| && acts[i].ReadLine?
    requires acts[i].message.verb == None && acts[i].message.id == Some(Number(id))
    requires At(states[i], id, Awaiting) && id in states[i].pending
    ensures id in states[j].calls && id in states[j].replies && states[j].replies[id] == FromLine(|states[i].lines|)
    ensures states[j].calls[id] in {Awaiting, Cancelled, Finished(Answered(FromLine(|states[i].lines|)))}
  {
    ResponseCompletesItsCall(states, acts, i, id);
    var reply := FromLine(|states[i].lines|);
    ReplyReturns(states, acts, i + 1, j, id, reply);
    CompletedAtMostOnce(states, acts, i + 1, j);
    StaysPastSending(states, acts, i + 1, j, id);
  }

  predicate PastSending(c: Call) {
    c in {Awaiting, Cancelled} || (c.Finished? && c.outcome != WriterClosed)
  }

  lemma PastSendingNext(s: State, a: Action, s': State, id: int)
    requires Table(s) && Next(s, a, s') && id in s.calls && PastSending(s.calls[id])
    ensures id in s'.calls && PastSending(s'.calls[id])
  {
    if !Concerns(a, id) {
      OthersStay(s, a, s', id);
    }
  }

  lemma {:induction false} StaysPastSending(states: seq<State>, acts: seq<Action>, i: nat, j: nat, id: int)
    requires IsRun(states, acts) && i <= j < |states| && At(states[i], id, Awaiting)
    ensures id in states[j].calls && PastSending(states[j].calls[id])
    decreases j
  {
    if i < j {
      StaysPastSending(states, acts, i, j - 1, id);
      RunInv(states, acts, j - 1);
      var s, a, s' := states[j - 1], acts[j - 1], states[j];
      assert Next(s, a, s');
      PastSendingNext(s, a, s', id);
    }
  }

  /** What a call sees of the connection: it is turned away at the first look exactly if the flag is cleared, it
      withdraws after the second exactly if it is cleared by then, and it fails to send exactly if the writer is
      gone. */
  lemma ChecksDecide(states: seq<State>, acts: seq<Action>, i: nat)
    requires IsRun(states, acts) && i < |acts|
    ensures acts[i].FirstCheck? ==>
              && (states[i + 1].refused == states[i].refused + 1 <==> !states[i].connected)
              && (states[i + 1].admitted == states[i].admitted + 1 <==> states[i].connected)
    ensures acts[i].Recheck? ==>
              && (At(states[i + 1], acts[i].id, Withdrawing) <==> !states[i].connected)
              && (At(states[i + 1], acts[i].id, Sending) <==> states[i].connected)
    ensures acts[i].Send? ==>
              && (At(states[i + 1], acts[i].id, WithdrawingUnsent) <==> states[i].writer == WriterGone)
              && (At(states[i + 1], acts[i].id, Awaiting) <==> states[i].writer != WriterGone)
  {
    assert Next(states[i], acts[i], states[i + 1]);
  }

  // ------------------------------------------------------------------ calls that nothing interrupts

  ghost predicate Steps(states: seq<State>, acts: seq<Action>) {
    && |states| == |acts| + 1
    && forall i :: 0 <= i < |acts| ==> Next(states[i], acts[i], states[i + 1])
  }

  lemma StepsJoin(s1: seq<State>, a1: seq<Action>, s2: seq<State>, a2: seq<Action>)
    requires Steps(s1, a1) && Steps(s2, a2) && s1[|a1|] == s2[0]
    ensures Steps(s1 + s2[1..], a1 + a2) && (s1 + s2[1..])[0] == s1[0] && (s1 + s2[1..])[|a1 + a2|] == s2[|a2|]
  {
    var states, acts := s1 + s2[1..], a1 + a2;
    forall i | 0 <= i < |acts| ensures Next(states[i], acts[i], states[i + 1]) {
      if i >= |a1| {
        assert Next(s2[i - |a1|], a2[i - |a1|], s2[i - |a1| + 1]);
      }
    }
  }

  /** A call that has been sent. */
  function SentCall(s: State): State {
    s.(calls := s.calls[s.nextId := Awaiting], nextId := s.nextId + 1,
       pending := s.pending + {s.nextId}, insertedAt := s.insertedAt[s.nextId := |s.lines|])
  }

  /** A call that has been inserted. */
  function InsertedCall(s: State): State {
    SentCall(s).(calls := s.calls[s.nextId := Rechecking])
  }

  lemma InsertAlone(s: State) returns (states: seq<State>, acts: seq<Action>)
    requires s.connected
    ensures Steps(states, acts) && states[0] == s && states[|acts|] == InsertedCall(s)
  {
    var id := s.nextId;
    var s1 := s.(admitted := s.admitted + 1);
    var s2 := To(s, id, Inserting).(nextId := id + 1);
    var s3 := InsertedCall(s);
    assert s2.calls[id := Rechecking] == s3.calls;
    assert Next(s, FirstCheck, s1);
    assert Next(s1, Allocate(true), s2);
    assert Next(s2, Insert(id), s3);
    states, acts := [s, s1, s2, s3], [FirstCheck, Allocate(true), Insert(id)];
  }

  lemma SendAlone(s: State) returns (states: seq<State>, acts: seq<Action>)
    requires s.connected && s.writer == Serving
    ensures Steps(states, acts) && states[0] == s && states[|acts|] == SentCall(s)
  {
    var id := s.nextId;
    var before, a1 := InsertAlone(s);
    var s3 := InsertedCall(s);
    var s4 := To(s3, id, Sending);
    var s5 := SentCall(s);
    assert s4.calls[id := Awaiting] == s5.calls;
    assert Next(s3, Recheck(id), s4);
    assert Next(s4, Send(id), s5);
    var after, a2 := [s3, s4, s5], [Recheck(id), Send(id)];
    StepsJoin(before, a1, after, a2);
    states, acts := before + after[1..], a1 + a2;
  }

  lemma AnswerAlone(s: State, id: int, response: IncomingMessage) returns (states: seq<State>, acts: seq<Action>)
    requires s.reader == Reading && At(s, id, Awaiting) && id in s.pending
    requires response.verb == None && response.id == Some(Number(id))
    ensures Steps(states, acts) && states[0] == s
    ensures At(states[|acts|], id, Finished(Answered(FromLine(|s.lines|))))
    ensures id !in states[|acts|].pending && states[|acts|].lines == s.lines + [id]
  {
    var s1 := Dispatch(s, id);
    var s2 := To(s1, id, Finished(Answered(FromLine(|s.lines|))));
    assert Next(s, ReadLine(response), s1);
    assert Next(s1, Receive(id), s2);
    states, acts := [s, s1, s2], [ReadLine(response), Receive(id)];
  }

  /** On a live connection a call that nothing interrupts gets the agent's response to its own id. */
  lemma CallAlone(s: State, response: IncomingMessage) returns (states: seq<State>, acts: seq<Action>)
    requires s.connected && s.writer == Serving && s.reader == Reading
    requires response.verb == None && response.id == Some(Number(s.nextId))
    ensures Steps(states, acts) && states[0] == s
    ensures At(states[|acts|], s.nextId, Finished(Answered(FromLine(|s.lines|))))
    ensures s.nextId !in states[|acts|].pending && states[|acts|].lines == s.lines + [s.nextId]
  {
    var s1, a1 := SendAlone(s);
    var s2, a2 := AnswerAlone(SentCall(s), s.nextId, response);
    StepsJoin(s1, a1, s2, a2);
    states, acts := s1 + s2[1..], a1 + a2;
  }

  /** When the agent's output ends, the caller gets the failure. */
  lemma CallOnDyingConnection(s: State, id: int) returns (states: seq<State>, acts: seq<Action>)
    requires Inv(s) && s.reader == Reading && At(s, id, Awaiting) && id in s.pending
    ensures Steps(states, acts) && states[0] == s
    ensures At(states[|acts|], id, Finished(Answered(Failed))) && !states[|acts|].connected && states[|acts|].pending == {}
  {
    var s1 := s.(reader := Ended);
    var s2 := s1.(reader := Flagged, connected := false);
    var s3 := Drain(s2).(reader := ReaderGone);
    var s4 := To(s3, id, Finished(Answered(Failed)));
    assert Next(s, ReaderEnds, s1);
    assert Next(s1, ReaderClears, s2);
    assert Next(s2, ReaderDrains, s3);
    assert Next(s3, Receive(id), s4);
    states := [s, s1, s2, s3, s4];
    acts := [ReaderEnds, ReaderClears, ReaderDrains, Receive(id)];
  }
}
