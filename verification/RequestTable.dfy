/** The ACP client's request table as interleaved atomic steps: callers of `send_request` check, insert and
    check again, while the reader, the writer, the wait task, `terminate` and `shutdown` clear the
    `connected` flag, and the reader or `shutdown` drains the table after clearing it. */
module RequestTable {
  import opened Protocol
  import opened Wrappers

  /** What a request's one-shot channel was completed with: the line read at some position, or the error
      that `fail_pending_requests` and a withdrawing caller send. */
  datatype Reply = FromLine(at: nat) | Failed

  datatype Outcome = Closed | WriterClosed | Unserialisable | Dropped | Answered(reply: Reply)

  /** The program counter of one `send_request` call, from the moment it has taken its id. */
  datatype Call =
    | Inserting
    | Rechecking           // inserted, about to look at `connected` again
    | Withdrawing          // saw it false
    | Sending              // saw it true
    | WithdrawingUnsent    // the writer's receiver was gone
    | Awaiting
    | Finished(outcome: Outcome)
    | Cancelled            // the future was dropped, and with it the receiving end of the channel

  datatype Writer = Serving | Stopping | Closing | WriterGone
  datatype Reader = Reading | Ended | Flagged | ReaderGone
  datatype Shutdown = NotCalled | Aborting | Joined | ShutDown

  datatype State = State(
    connected: bool,
    admitted: nat,                   // calls that passed the first check and have not taken an id yet
    refused: nat,                    // calls that failed it: "connection closed"
    nextId: int,
    calls: map<int, Call>,           // every call that took an id, by its id
    pending: set<int>,
    replies: map<int, Reply>,        // the completed one-shot channels
    writer: Writer,
    reader: Reader,
    shutdown: Shutdown,
    lines: seq<int>,                 // history: the ids of the response lines read so far
    insertedAt: map<int, nat>,       // history: how many lines had been read when the call was inserted
    drained: bool)                   // history: some drain has completed

  datatype Action =
    | FirstCheck
    | Allocate(serialises: bool)
    | Insert(id: int)
    | Recheck(id: int)
    | Withdraw(id: int)
    | Send(id: int)
    | WithdrawUnsent(id: int)
    | Receive(id: int)
    | ChannelDropped(id: int)
    | Cancel(id: int)
    | ReadLine(message: IncomingMessage)
    | ReaderEnds
    | ReaderClears
    | ReaderDrains
    | WriterStops
    | WriterClears
    | WriterLeaves
    | ChildObservedDead
    | Terminate
    | ShutdownClears
    | AbortWriter
    | AbortReader
    | JoinTasks
    | ShutdownDrains

  ghost predicate Init(s: State) {
    s == State(true, 0, 0, 1, map[], {}, map[], Serving, Reading, NotCalled, [], map[], false)
  }

  predicate At(s: State, id: int, pc: Call) {
    id in s.calls && s.calls[id] == pc
  }

  function To(s: State, id: int, pc: Call): State {
    s.(calls := s.calls[id := pc])
  }

  /** The channels after every pending one has been failed. */
  function FailAll(pending: set<int>, replies: map<int, Reply>): map<int, Reply> {
    map id | id in replies.Keys + pending :: if id in pending then Failed else replies[id]
  }

  /** `fail_pending_requests` */
  function Drain(s: State): State {
    s.(pending := {}, drained := true, replies := FailAll(s.pending, s.replies))
  }

  /** The reader's dispatch of a response line: forget the calls whose receiver is gone, then remove and
      complete. */
  function Dispatch(s: State, id: int): State {
    var open := set k | k in s.pending && !At(s, k, Cancelled);
    s.(lines := s.lines + [id],
       pending := open - {id},
       replies := if id in open then s.replies[id := FromLine(|s.lines|)] else s.replies)
  }

  /** What the reader does to the table with a parsed line: only responses with a numeric id touch it. */
  function OnMessage(s: State, m: IncomingMessage): State {
    match Classify(m)
    case Response(Number(n), _, _) => Dispatch(s, n)
    case _ => s
  }

  ghost predicate Next(s: State, a: Action, s': State) {
    match a
    case FirstCheck =>
      s' == if s.connected then s.(admitted := s.admitted + 1) else s.(refused := s.refused + 1)
    case Allocate(serialises) =>
      && s.admitted > 0
      && s' == To(s, s.nextId, if serialises then Inserting else Finished(Unserialisable))
               .(admitted := s.admitted - 1, nextId := s.nextId + 1)
    case Insert(id) =>
      && At(s, id, Inserting)
      && s' == To(s, id, Rechecking).(pending := s.pending + {id}, insertedAt := s.insertedAt[id := |s.lines|])
    case Recheck(id) =>
      && At(s, id, Rechecking)
      && s' == To(s, id, if s.connected then Sending else Withdrawing)
    case Withdraw(id) =>
      && At(s, id, Withdrawing)
      && s' == To(s, id, Finished(Closed))
               .(pending := s.pending - {id},
                 replies := if id in s.pending then s.replies[id := Failed] else s.replies)
    case Send(id) =>
      && At(s, id, Sending)
      && s' == To(s, id, if s.writer == WriterGone then WithdrawingUnsent else Awaiting)
    case WithdrawUnsent(id) =>
      && At(s, id, WithdrawingUnsent)
      && s' == To(s, id, Finished(WriterClosed)).(pending := s.pending - {id})
    case Receive(id) =>
      && At(s, id, Awaiting) && id in s.replies
      && s' == To(s, id, Finished(Answered(s.replies[id])))
    case ChannelDropped(id) =>
      && At(s, id, Awaiting) && id !in s.replies && id !in s.pending
      && s' == To(s, id, Finished(Dropped))
    case Cancel(id) =>
      && id in s.calls && !s.calls[id].Finished?
      && s' == To(s, id, Cancelled)
    case ReadLine(message) => s.reader == Reading && s' == OnMessage(s, message)
    case ReaderEnds => s.reader == Reading && s' == s.(reader := Ended)
    case ReaderClears => s.reader == Ended && s' == s.(reader := Flagged, connected := false)
    case ReaderDrains => s.reader == Flagged && s' == Drain(s).(reader := ReaderGone)
    case WriterStops => s.writer == Serving && s' == s.(writer := Stopping)
    case WriterClears => s.writer == Stopping && s' == s.(writer := Closing, connected := false)
    case WriterLeaves => s.writer == Closing && s' == s.(writer := WriterGone)
    case ChildObservedDead => s' == s.(connected := false)
    case Terminate => s' == s.(connected := false)
    case ShutdownClears => s.shutdown == NotCalled && s' == s.(shutdown := Aborting, connected := false)
    case AbortWriter => s.shutdown == Aborting && s' == s.(writer := WriterGone)
    case AbortReader => s.shutdown == Aborting && s' == s.(reader := ReaderGone)
    case JoinTasks =>
      && s.shutdown == Aborting && s.writer == WriterGone && s.reader == ReaderGone
      && s' == s.(shutdown := Joined)
    case ShutdownDrains => s.shutdown == Joined && s' == Drain(s).(shutdown := ShutDown)
  }

  ghost predicate IsRun(states: seq<State>, acts: seq<Action>) {
    && |states| == |acts| + 1 && Init(states[0])
    && forall i :: 0 <= i < |acts| ==> Next(states[i], acts[i], states[i + 1])
  }

  // ------------------------------------------------------------------ the invariant

  /** The call has a channel and has not come back yet. */
  predicate InProgress(c: Call) {
    c in {Rechecking, Withdrawing, Sending, WithdrawingUnsent, Awaiting}
  }

  /** An id in the table belongs to a call that is still going on or was cancelled, and a call that is still
      going on has its id in the table or its channel completed. */
  ghost predicate Table(s: State) {
    && s.nextId >= 1 && (forall id :: id in s.calls <==> 1 <= id < s.nextId)
    && (forall id :: id in s.pending ==>
          id in s.calls && id in s.insertedAt && id !in s.replies && (InProgress(s.calls[id]) || s.calls[id] == Cancelled))
    && (forall id :: id in s.replies ==> id in s.insertedAt)
    && (forall id :: id in s.insertedAt ==> id in s.calls && s.calls[id] != Inserting && s.insertedAt[id] <= |s.lines|)
    && (forall id :: id in s.calls && InProgress(s.calls[id]) ==> id in s.pending || id in s.replies)
  }

  /** The line at `at` is the first with this id since the call was inserted. */
  ghost predicate FirstLineFor(s: State, id: int, at: nat) {
    && id in s.insertedAt && s.insertedAt[id] <= at < |s.lines| && s.lines[at] == id
    && forall m :: s.insertedAt[id] <= m < at ==> s.lines[m] != id
  }

  ghost predicate NoLineFor(s: State, id: int) {
    id in s.insertedAt && forall m :: s.insertedAt[id] <= m < |s.lines| ==> s.lines[m] != id
  }

  ghost predicate Provenance(s: State) {
    && (forall id :: id in s.pending && !At(s, id, Cancelled) ==> NoLineFor(s, id))
    && (forall id :: id in s.replies && s.replies[id].FromLine? ==> FirstLineFor(s, id, s.replies[id].at))
    && (forall id :: id in s.calls && s.calls[id].Finished? && s.calls[id].outcome.Answered? ==>
          id in s.replies && s.replies[id] == s.calls[id].outcome.reply)
  }

  predicate TransportFailure(o: Outcome) {
    o == Closed || o == WriterClosed || o == Dropped || o == Answered(Failed)
  }

  /** Every trace of a transport failure comes after the flag was cleared, and a drained table refills only
      with requests that are about to see the cleared flag. */
  ghost predicate FlagFirst(s: State) {
    && (s.writer in {Closing, WriterGone} || s.reader == Flagged || s.shutdown != NotCalled ==> !s.connected)
    && (s.drained || s.refused > 0 ==> !s.connected)
    && (s.reader == ReaderGone && s.shutdown == NotCalled ==> s.drained)
    && (s.shutdown == ShutDown ==> s.drained)
    && (forall id :: id in s.replies && s.replies[id] == Failed ==> !s.connected)
    && (forall id :: id in s.calls && s.calls[id] in {Withdrawing, WithdrawingUnsent} ==> !s.connected)
    && (forall id :: id in s.calls && s.calls[id].Finished? ==>
          s.calls[id].outcome != Dropped && (TransportFailure(s.calls[id].outcome) ==> !s.connected))
    && (s.drained ==> forall id :: id in s.pending && id in s.calls ==> s.calls[id] in {Rechecking, Withdrawing, Cancelled})
  }

  ghost predicate Inv(s: State) {
    Table(s) && Provenance(s) && FlagFirst(s)
  }

  lemma AllocateKeepsTable(s: State, a: Action, s': State)
    requires Table(s) && Next(s, a, s') && a.Allocate?
    ensures Table(s')
  {
  }

  lemma AllocateKeepsRest(s: State, a: Action, s': State)
    requires Table(s) && Provenance(s) && FlagFirst(s) && Next(s, a, s') && a.Allocate?
    ensures Provenance(s') && FlagFirst(s')
  {
  }

  lemma InsertKeepsTable(s: State, id: int, s': State)
    requires Table(s) && Next(s, Insert(id), s')
    ensures Table(s') && id !in s.insertedAt && id !in s.replies && id !in s.pending
  {
    assert id !in s.insertedAt;
  }

  lemma InsertKeepsInv(s: State, id: int, s': State)
    requires Inv(s) && Next(s, Insert(id), s')
    ensures Inv(s')
  {
    InsertKeepsTable(s, id, s');
  }

  /** Steps that only move one call's program counter. */
  predicate Moves(a: Action) {
    a.Recheck? || a.Send? || a.Receive? || a.ChannelDropped? || a.Cancel?
  }

  /** Where such a step may go. */
  ghost predicate LegalMove(s: State, id: int, pc: Call) {
    && id in s.calls && pc !in {Inserting, Rechecking, Finished(Closed), Finished(WriterClosed), Finished(Dropped)}
    && (InProgress(pc) ==> InProgress(s.calls[id]))
    && (s.drained && id in s.pending ==> pc in {Withdrawing, Cancelled})
    && (pc in {Withdrawing, WithdrawingUnsent} ==> !s.connected)
    && (pc == Sending ==> s.connected)
    && (pc.Finished? && pc.outcome.Answered? ==> id in s.replies && s.replies[id] == pc.outcome.reply)
    && (pc.Finished? ==> id !in s.pending)
  }

  lemma MoveIsLegal(s: State, a: Action, s': State)
    requires Table(s) && FlagFirst(s) && Next(s, a, s') && Moves(a)
    ensures a.id in s'.calls && LegalMove(s, a.id, s'.calls[a.id]) && s' == To(s, a.id, s'.calls[a.id])
  {
  }

  lemma MoveKeepsTable(s: State, id: int, pc: Call)
    requires Table(s) && LegalMove(s, id, pc)
    ensures Table(To(s, id, pc))
  {
  }

  lemma MoveKeepsProvenance(s: State, id: int, pc: Call)
    requires Table(s) && Provenance(s) && LegalMove(s, id, pc)
    ensures Provenance(To(s, id, pc))
  {
  }

  lemma MoveKeepsInv(s: State, id: int, pc: Call)
    requires Inv(s) && LegalMove(s, id, pc)
    ensures Inv(To(s, id, pc))
  {
    MoveKeepsTable(s, id, pc);
    MoveKeepsProvenance(s, id, pc);
  }

  lemma WithdrawKeepsTable(s: State, a: Action, s': State)
    requires Table(s) && Next(s, a, s') && (a.Withdraw? || a.WithdrawUnsent?)
    ensures Table(s')
  {
  }

  lemma WithdrawKeepsProvenance(s: State, a: Action, s': State)
    requires Table(s) && Provenance(s) && Next(s, a, s') && (a.Withdraw? || a.WithdrawUnsent?)
    ensures Provenance(s')
  {
  }

  lemma WithdrawKeepsFlag(s: State, a: Action, s': State)
    requires Table(s) && FlagFirst(s) && Next(s, a, s') && (a.Withdraw? || a.WithdrawUnsent?)
    ensures FlagFirst(s')
  {
  }

  lemma DispatchKeepsInv(s: State, id: int)
    requires Inv(s)
    ensures Inv(Dispatch(s, id))
  {
    var s' := Dispatch(s, id);
    forall k | k in s.insertedAt && NoLineFor(s, k)
      ensures if k == id then FirstLineFor(s', id, |s.lines|) else NoLineFor(s', k)
    {
    }
    forall k, at: nat | FirstLineFor(s, k, at) ensures FirstLineFor(s', k, at) {}
  }

  lemma DrainKeepsInv(s: State)
    requires Inv(s) && !s.connected
    ensures Inv(Drain(s))
  {
  }

  /** The steps of the tasks and of `shutdown` that leave the calls and the table alone. */
  predicate Background(s: State, s': State) {
    && s'.calls == s.calls && s'.pending == s.pending && s'.replies == s.replies && s'.nextId == s.nextId
    && s'.lines == s.lines && s'.insertedAt == s.insertedAt && s'.drained == s.drained
    && (s'.refused > s.refused ==> !s.connected)
    && (s'.connected ==> s.connected)
    && (s'.writer in {Closing, WriterGone} || s'.reader == Flagged || s'.shutdown != NotCalled ==> !s'.connected)
    && (s'.reader == ReaderGone && s'.shutdown == NotCalled ==> s'.drained)
    && (s'.shutdown == ShutDown ==> s'.drained)
  }

  lemma BackgroundKeepsInv(s: State, s': State)
    requires Inv(s) && Background(s, s')
    ensures Inv(s')
  {
  }

  lemma TasksStayInBackground(s: State, a: Action, s': State)
    requires FlagFirst(s) && Next(s, a, s') && !Moves(a)
    requires !a.Allocate? && !a.Insert? && !a.Withdraw? && !a.WithdrawUnsent? && !a.ReadLine?
    ensures Background(if a.ReaderDrains? || a.ShutdownDrains? then Drain(s) else s, s')
    ensures a.ReaderDrains? || a.ShutdownDrains? ==> !s.connected
  {
  }

  lemma InvNext(s: State, a: Action, s': State)
    requires Inv(s) && Next(s, a, s')
    ensures Inv(s')
  {
    if a.Allocate? {
      AllocateKeepsTable(s, a, s');
      AllocateKeepsRest(s, a, s');
    } else if a.Insert? {
      InsertKeepsInv(s, a.id, s');
    } else if Moves(a) {
      MoveIsLegal(s, a, s');
      MoveKeepsInv(s, a.id, s'.calls[a.id]);
    } else if a.Withdraw? || a.WithdrawUnsent? {
      WithdrawKeepsTable(s, a, s');
      WithdrawKeepsProvenance(s, a, s');
      WithdrawKeepsFlag(s, a, s');
    } else if a.ReadLine? {
      if s' != s {
        DispatchKeepsInv(s, a.message.id.value.number);
      }
    } else {
      TasksStayInBackground(s, a, s');
      if a.ReaderDrains? || a.ShutdownDrains? {
        DrainKeepsInv(s);
        BackgroundKeepsInv(Drain(s), s');
      } else {
        BackgroundKeepsInv(s, s');
      }
    }
  }

  lemma {:induction false} RunInv(states: seq<State>, acts: seq<Action>, i: nat)
    requires IsRun(states, acts) && i < |states|
    ensures Inv(states[i])
  {
    if i > 0 {
      RunInv(states, acts, i - 1);
      InvNext(states[i - 1], acts[i - 1], states[i]);
    }
  }

  // ------------------------------------------------------------------ theorems

  /** No request is stranded: once the table has been drained, every caller awaiting a reply already has
      one, and an id still in the table belongs to a caller that is still to see, or has just seen, the
      cleared flag (or to a dropped future). */
  lemma NoRequestIsStranded(states: seq<State>, acts: seq<Action>, i: nat)
    requires IsRun(states, acts) && i < |states| && states[i].drained
    ensures !states[i].connected
    ensures forall id :: At(states[i], id, Awaiting) ==> id in states[i].replies
    ensures forall id :: id in states[i].pending ==>
              id in states[i].calls && states[i].calls[id] in {Rechecking, Withdrawing, Cancelled}
  {
    RunInv(states, acts, i);
  }

  /** Both ways the reader can end lead to a drain: when it is gone, the table has been drained or `shutdown`
      is on its way to drain it. */
  lemma ReaderGoneMeansDrained(states: seq<State>, acts: seq<Action>, i: nat)
    requires IsRun(states, acts) && i < |states| && states[i].reader == ReaderGone
    ensures states[i].drained || states[i].shutdown != NotCalled
  {
    RunInv(states, acts, i);
  }

  /** "Response channel dropped" is unreachable while the client is held. */
  lemma ChannelIsNeverDropped(states: seq<State>, acts: seq<Action>, i: nat)
    requires IsRun(states, acts) && i < |acts|
    ensures !acts[i].ChannelDropped?
  {
    RunInv(states, acts, i);
    assert Next(states[i], acts[i], states[i + 1]);
  }

  /** A completed channel keeps its reply for good, and a cleared flag stays cleared. */
  lemma {:induction false} CompletedAtMostOnce(states: seq<State>, acts: seq<Action>, i: nat, j: nat)
    requires IsRun(states, acts) && i <= j < |states|
    ensures forall id :: id in states[i].replies ==> id in states[j].replies && states[j].replies[id] == states[i].replies[id]
    ensures states[j].connected ==> states[i].connected
    decreases j
  {
    if i < j {
      CompletedAtMostOnce(states, acts, i, j - 1);
      RunInv(states, acts, j - 1);
      assert Next(states[j - 1], acts[j - 1], states[j]);
    }
  }

  /** A call that comes back with an answer from the agent got the first line carrying its own id that was
      read after it entered the table; no other call ever gets that line. */
  lemma AnswerIsOwnFirstLine(states: seq<State>, acts: seq<Action>, i: nat, id: int, at: nat)
    requires IsRun(states, acts) && i < |states| && At(states[i], id, Finished(Answered(FromLine(at))))
    ensures FirstLineFor(states[i], id, at)
    ensures forall other :: At(states[i], other, Finished(Answered(FromLine(at)))) ==> other == id
  {
    RunInv(states, acts, i);
    forall other | At(states[i], other, Finished(Answered(FromLine(at)))) ensures FirstLineFor(states[i], other, at) {
      assert states[i].replies[other] == FromLine(at);
    }
  }

  /** The two directions of the connection number their requests independently. A request from the agent that
      happens to carry the id of an outstanding call, or any line that is no response, leaves every call alone. */
  lemma OnlyResponsesComplete(states: seq<State>, acts: seq<Action>, i: nat)
    requires IsRun(states, acts) && i < |acts| && acts[i].ReadLine?
    ensures acts[i].message.verb.Some? || acts[i].message.id == None ==> states[i + 1] == states[i]
    ensures forall id :: id in states[i + 1].replies && id !in states[i].replies ==>
              acts[i].message.id == Some(Number(id)) && acts[i].message.verb == None
  {
    assert Next(states[i], acts[i], states[i + 1]);
  }

  /** An id is never handed out twice: a new call finds it unused, so a late line for a finished or cancelled
      call cannot reach another. */
  lemma IdsAreNeverReused(states: seq<State>, acts: seq<Action>, i: nat)
    requires IsRun(states, acts) && i < |acts| && acts[i].Allocate?
    ensures states[i].nextId !in states[i].calls && states[i].nextId !in states[i].insertedAt
    ensures states[i].nextId !in states[i].pending && states[i].nextId !in states[i].replies
    ensures states[i + 1].calls.Keys == states[i].calls.Keys + {states[i].nextId}
  {
    RunInv(states, acts, i);
    assert Next(states[i], acts[i], states[i + 1]);
  }

  /** A failure that the transport caused is reported only after `connected` has become false, and it stays
      false: whoever inspects the flag afterwards sees it. */
  lemma TransportFailureIsVisible(states: seq<State>, acts: seq<Action>, i: nat, j: nat)
    requires IsRun(states, acts) && i <= j < |states|
    requires states[i].refused > 0
             || exists id :: id in states[i].calls && states[i].calls[id].Finished? && TransportFailure(states[i].calls[id].outcome)
    ensures !states[j].connected
  {
    RunInv(states, acts, i);
    CompletedAtMostOnce(states, acts, i, j);
  }
}
