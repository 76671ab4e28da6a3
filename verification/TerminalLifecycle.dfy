/** The life of one terminal as interleaved atomic steps: the drain tasks, the supervisor that joins them
    and publishes the exit status, callers waiting for the exit, and callers reading the output. */
module TerminalLifecycle {
  import opened Utf8
  import opened Terminal
  import opened Wrappers

  datatype Phase = Running | Finishing | Done

  /** A drain task: what it has read, what it carries over, and the chunks it still has to append. */
  datatype Drain = Drain(got: seq<Read>, leftover: seq<byte>, queue: seq<seq<byte>>, phase: Phase)

  /** `Joining(_, n)`: the first `n` drain tasks have been joined. */
  datatype Supervisor =
    | Waiting
    | Joining(status: int, joined: nat)
    | Notifying
    | Over

  /** A `wait_for_exit` call. `woken` says that its current `Notified` future has been completed. */
  datatype Waiter =
    | Registered(woken: bool)
    | Asleep(woken: bool)
    | Answered(status: int)

  /** A `terminal/output` call: it holds the buffer's read lock until it has also read the exit status. */
  datatype OutputCall =
    | Holding
    | Replied(output: seq<byte>, truncated: bool, status: Option<int>)

  datatype State = State(
    drains: seq<Drain>,
    output: seq<byte>,
    truncated: bool,
    limit: Option<nat>,
    supervisor: Supervisor,
    exitStatus: Option<int>,
    waiters: map<nat, Waiter>,
    outputs: map<nat, OutputCall>,
    log: seq<(nat, seq<byte>)>)  // history: every append, with the task that made it

  datatype Action =
    | ReadSome(i: nat, bytes: seq<byte>)
    | ReadEnd(i: nat, failed: bool)
    | AppendChunk(i: nat)
    | FinishDrain(i: nat)
    | ChildExit(code: int)
    | Join
    | Publish
    | Notify
    | WaitStart(w: nat)
    | WaitCheck(w: nat)
    | WaitWake(w: nat)
    | OutputStart(r: nat)
    | OutputReply(r: nat)

  ghost predicate Init(s: State) {
    && (forall d :: d in s.drains ==> d == Drain([], [], [], Running))
    && s.output == [] && !s.truncated && s.log == []
    && s.supervisor == Waiting && s.exitStatus == None
    && s.waiters == map[] && s.outputs == map[]
  }

  ghost predicate Next(s: State, a: Action, s': State, lossy: seq<byte> -> seq<byte>) {
    match a
    case ReadSome(i, bytes) =>
      && i < |s.drains| && s.drains[i].phase == Running && s.drains[i].queue == [] && bytes != []
      && var d := s.drains[i];
         var data := d.leftover + bytes;
         s' == s.(drains := s.drains[i := Drain(d.got + [Data(bytes)], Carried(data), Emitted(data, lossy), Running)])
    case ReadEnd(i, failed) =>
      && i < |s.drains| && s.drains[i].phase == Running && s.drains[i].queue == []
      && var d := s.drains[i];
         var flush := if d.leftover == [] then [] else [lossy(d.leftover)];
         s' == s.(drains := s.drains[i := Drain(d.got + [if failed then Failed else Data([])], d.leftover, flush, Finishing)])
    case AppendChunk(i) =>
      && i < |s.drains| && s.drains[i].queue != []
      && (forall r :: r in s.outputs ==> s.outputs[r] != Holding)
      && var d := s.drains[i];
         var grown := s.output + d.queue[0];
         s' == s.(drains := s.drains[i := d.(queue := d.queue[1..])],
                  output := BoundedTail(grown, s.limit),
                  truncated := s.truncated || Exceeds(grown, s.limit),
                  log := s.log + [(i, d.queue[0])])
    case FinishDrain(i) =>
      && i < |s.drains| && s.drains[i].phase == Finishing && s.drains[i].queue == []
      && s' == s.(drains := s.drains[i := s.drains[i].(phase := Done)])
    case ChildExit(code) =>
      && s.supervisor == Waiting
      && s' == s.(supervisor := Joining(code, 0))
    case Join =>
      && s.supervisor.Joining? && s.supervisor.joined < |s.drains| && s.drains[s.supervisor.joined].phase == Done
      && s' == s.(supervisor := Joining(s.supervisor.status, s.supervisor.joined + 1))
    case Publish =>
      && s.supervisor.Joining? && s.supervisor.joined == |s.drains|
      && s' == s.(supervisor := Notifying, exitStatus := Some(s.supervisor.status))
    case Notify =>
      && s.supervisor == Notifying
      && s' == s.(supervisor := Over, waiters := map w | w in s.waiters :: Wake(s.waiters[w]))
    case WaitStart(w) =>
      && w !in s.waiters
      && s' == s.(waiters := s.waiters[w := Registered(false)])
    case WaitCheck(w) =>
      && w in s.waiters && s.waiters[w].Registered?
      && s' == s.(waiters := s.waiters[w := if s.exitStatus.Some? then Answered(s.exitStatus.value)
                                            else Asleep(s.waiters[w].woken)])
    case WaitWake(w) =>
      && w in s.waiters && s.waiters[w] == Asleep(true)
      && s' == s.(waiters := s.waiters[w := Registered(false)])
    case OutputStart(r) =>
      && r !in s.outputs
      && s' == s.(outputs := s.outputs[r := Holding])
    case OutputReply(r) =>
      && r in s.outputs && s.outputs[r] == Holding
      && s' == s.(outputs := s.outputs[r := Replied(s.output, s.truncated, s.exitStatus)])
  }

  function Wake(w: Waiter): Waiter {
    match w
    case Registered(_) => Registered(true)
    case Asleep(_) => Asleep(true)
    case Answered(st) => w
  }

  ghost predicate IsRun(states: seq<State>, acts: seq<Action>, lossy: seq<byte> -> seq<byte>) {
    && |states| == |acts| + 1 && Init(states[0])
    && forall i :: 0 <= i < |acts| ==> Next(states[i], acts[i], states[i + 1], lossy)
  }

  // ------------------------------------------------------------------ the invariant

  /** The chunks of one task, or of all of them, in the order they were appended. */
  function ChunksOf(log: seq<(nat, seq<byte>)>, i: nat): seq<seq<byte>> {
    if log == [] then []
    else ChunksOf(log[..|log| - 1], i) + if log[|log| - 1].0 == i then [log[|log| - 1].1] else []
  }

  function AllChunks(log: seq<(nat, seq<byte>)>): seq<seq<byte>> {
    seq(|log|, k requires 0 <= k < |log| => log[k].1)
  }

  ghost predicate DrainInv(d: Drain, appended: seq<seq<byte>>, lossy: seq<byte> -> seq<byte>) {
    && (forall c :: c in d.queue ==> WellFormed(c))
    && (d.phase == Running ==>
          && !Stopped(d.got)
          && d.leftover == Process(d.got, lossy).leftover
          && appended + d.queue == Process(d.got, lossy).chunks)
    && (d.phase != Running ==> appended + d.queue == Drained(d.got, lossy))
    && (d.phase == Done ==> d.queue == [])
  }

  ghost predicate BufferInv(s: State) {
    && (forall c :: c in AllChunks(s.log) ==> WellFormed(c))
    && (forall k :: 0 <= k < |s.log| ==> s.log[k].0 < |s.drains|)
    && s.output == BoundedTail(Concat(AllChunks(s.log)), s.limit)
    && s.truncated == Exceeds(Concat(AllChunks(s.log)), s.limit)
  }

  ghost predicate ControlInv(s: State) {
    && (s.exitStatus.Some? <==> s.supervisor in {Notifying, Over})
    && (s.supervisor.Joining? ==> s.supervisor.joined <= |s.drains|
                                  && forall i :: 0 <= i < s.supervisor.joined ==> s.drains[i].phase == Done)
    && (s.exitStatus.Some? ==> forall i :: 0 <= i < |s.drains| ==> s.drains[i].phase == Done)
    && (forall w :: w in s.waiters ==>
          match s.waiters[w]
          case Answered(st) => s.exitStatus == Some(st)
          case Asleep(woken) => woken || s.supervisor != Over
          case Registered(_) => true)
    && (forall r :: r in s.outputs && s.outputs[r].Replied? && s.outputs[r].status.Some? ==>
          s.outputs[r] == Replied(s.output, s.truncated, s.exitStatus))
  }

  ghost predicate DrainsInv(s: State, lossy: seq<byte> -> seq<byte>) {
    forall i :: 0 <= i < |s.drains| ==> DrainInv(s.drains[i], ChunksOf(s.log, i), lossy)
  }

  ghost predicate Inv(s: State, lossy: seq<byte> -> seq<byte>) {
    BufferInv(s) && ControlInv(s) && DrainsInv(s, lossy)
  }

  lemma DrainStep(d: Drain, appended: seq<seq<byte>>, last: Read, lossy: seq<byte> -> seq<byte>)
    requires ReturnsText(lossy) && d.phase == Running && d.queue == [] && DrainInv(d, appended, lossy)
    ensures !Ends(last) ==>
              var data := d.leftover + last.bytes;
              DrainInv(Drain(d.got + [last], Carried(data), Emitted(data, lossy), Running), appended, lossy)
    ensures Ends(last) ==>
              var flush := if d.leftover == [] then [] else [lossy(d.leftover)];
              DrainInv(Drain(d.got + [last], d.leftover, flush, Finishing), appended, lossy)
  {
    ProcessAppend(d.got, last, lossy);
    assert appended + [] == appended;
    if !Ends(last) {
      EmittedIsText(d.leftover + last.bytes, lossy);
    }
  }

  lemma BufferNext(s: State, a: Action, s': State, lossy: seq<byte> -> seq<byte>)
    requires BufferInv(s) && Next(s, a, s', lossy)
    requires a.AppendChunk? ==> WellFormed(s.drains[a.i].queue[0])
    ensures BufferInv(s')
  {
    if a.AppendChunk? {
      var chunk, all := s.drains[a.i].queue[0], AllChunks(s.log);
      assert AllChunks(s'.log) == all + [chunk];
      ConcatAppend(all, chunk);
      ConcatWellFormed(all);
      TailAbsorbs(Concat(all), chunk, s.limit);
    }
  }

  /** A finished task has nothing left to append. */
  ghost predicate QueuesInv(s: State) {
    forall i :: 0 <= i < |s.drains| && s.drains[i].phase == Done ==> s.drains[i].queue == []
  }

  lemma QueuesEmpty(s: State, lossy: seq<byte> -> seq<byte>)
    requires DrainsInv(s, lossy)
    ensures QueuesInv(s)
  {
    assert forall i :: 0 <= i < |s.drains| ==> DrainInv(s.drains[i], ChunksOf(s.log, i), lossy);
  }

  lemma ControlNext(s: State, a: Action, s': State, lossy: seq<byte> -> seq<byte>)
    requires ControlInv(s) && QueuesInv(s) && Next(s, a, s', lossy)
    ensures ControlInv(s')
  {
  }

  lemma ChunkMoves(d: Drain, appended: seq<seq<byte>>, lossy: seq<byte> -> seq<byte>)
    requires d.queue != [] && DrainInv(d, appended, lossy)
    ensures DrainInv(d.(queue := d.queue[1..]), appended + [d.queue[0]], lossy)
  {
    assert appended + [d.queue[0]] + d.queue[1..] == appended + d.queue;
  }

  lemma ChunksOfNext(log: seq<(nat, seq<byte>)>, entry: (nat, seq<byte>), j: nat)
    ensures ChunksOf(log + [entry], j) == if entry.0 == j then ChunksOf(log, j) + [entry.1] else ChunksOf(log, j)
  {
    assert (log + [entry])[..|log|] == log;
  }

  lemma AppendNext(s: State, i: nat, s': State, lossy: seq<byte> -> seq<byte>)
    requires DrainsInv(s, lossy) && Next(s, AppendChunk(i), s', lossy)
    ensures DrainsInv(s', lossy)
  {
    var d := s.drains[i];
    forall j: nat | j < |s'.drains| ensures DrainInv(s'.drains[j], ChunksOf(s'.log, j), lossy) {
      ChunksOfNext(s.log, (i, d.queue[0]), j);
      if j == i {
        ChunkMoves(d, ChunksOf(s.log, i), lossy);
        assert s'.drains[j] == d.(queue := d.queue[1..]);
      } else {
        assert s'.drains[j] == s.drains[j];
      }
    }
  }

  lemma DrainsNext(s: State, a: Action, s': State, lossy: seq<byte> -> seq<byte>)
    requires ReturnsText(lossy) && DrainsInv(s, lossy) && Next(s, a, s', lossy)
    ensures DrainsInv(s', lossy)
  {
    match a
    case ReadSome(i, bytes) => DrainStep(s.drains[i], ChunksOf(s.log, i), Data(bytes), lossy);
    case ReadEnd(i, failed) => DrainStep(s.drains[i], ChunksOf(s.log, i), if failed then Failed else Data([]), lossy);
    case AppendChunk(i) => AppendNext(s, i, s', lossy);
    case _ => assert s'.log == s.log;
  }

  lemma InvNext(s: State, a: Action, s': State, lossy: seq<byte> -> seq<byte>)
    requires ReturnsText(lossy) && Inv(s, lossy) && Next(s, a, s', lossy)
    ensures Inv(s', lossy)
  {
    DrainsNext(s, a, s', lossy);
    BufferNext(s, a, s', lossy);
    QueuesEmpty(s, lossy);
    ControlNext(s, a, s', lossy);
  }

  lemma InitInv(s: State, lossy: seq<byte> -> seq<byte>)
    requires Init(s)
    ensures Inv(s, lossy)
  {
    InitBuffer(s);
    InitDrains(s, lossy);
  }

  lemma InitBuffer(s: State)
    requires Init(s)
    ensures BufferInv(s)
  {
    var chunks := AllChunks(s.log);
    assert chunks == [];
    NothingConcatenated(chunks);
    NothingToTrim(Concat(chunks), s.limit);
  }

  lemma NothingConcatenated(chunks: seq<seq<byte>>)
    requires chunks == []
    ensures Concat(chunks) == []
  {
  }

  lemma NothingToTrim(nothing: seq<byte>, limit: Option<nat>)
    requires nothing == []
    ensures BoundedTail(nothing, limit) == nothing && !Exceeds(nothing, limit)
  {
  }

  lemma InitDrains(s: State, lossy: seq<byte> -> seq<byte>)
    requires Init(s)
    ensures DrainsInv(s, lossy)
  {
    forall i | 0 <= i < |s.drains| ensures DrainInv(s.drains[i], ChunksOf(s.log, i), lossy) {
      assert s.drains[i] in s.drains;
      DrainInvStart(s.drains[i], ChunksOf(s.log, i), lossy);
    }
  }

  lemma DrainInvStart(d: Drain, appended: seq<seq<byte>>, lossy: seq<byte> -> seq<byte>)
    requires d == Drain([], [], [], Running) && appended == []
    ensures DrainInv(d, appended, lossy)
  {
    var none: seq<seq<byte>> := [];
    assert none + none == none;
  }

  lemma {:induction false} RunInv(states: seq<State>, acts: seq<Action>, lossy: seq<byte> -> seq<byte>, i: nat)
    requires ReturnsText(lossy) && IsRun(states, acts, lossy) && i < |states|
    ensures Inv(states[i], lossy)
  {
    if i == 0 {
      InitInv(states[0], lossy);
    } else {
      RunInv(states, acts, lossy, i - 1);
      InvNext(states[i - 1], acts[i - 1], states[i], lossy);
    }
  }

  // ------------------------------------------------------------------ theorems

  /** Some caller has been told an exit status. */
  ghost predicate Reported(s: State) {
    || (exists w :: w in s.waiters && s.waiters[w].Answered?)
    || (exists r :: r in s.outputs && s.outputs[r].Replied? && s.outputs[r].status.Some?)
  }

  lemma FrozenNext(s: State, a: Action, s': State, lossy: seq<byte> -> seq<byte>)
    requires ControlInv(s) && QueuesInv(s) && Next(s, a, s', lossy) && s.exitStatus.Some?
    ensures s'.exitStatus == s.exitStatus && s'.drains == s.drains && s'.log == s.log
    ensures s'.output == s.output && s'.truncated == s.truncated
  {
  }

  lemma {:induction false} FrozenFrom(states: seq<State>, acts: seq<Action>, lossy: seq<byte> -> seq<byte>, i: nat, j: nat)
    requires ReturnsText(lossy) && IsRun(states, acts, lossy) && i <= j < |states|
    requires states[i].exitStatus.Some?
    ensures states[j].exitStatus == states[i].exitStatus
    ensures states[j].drains == states[i].drains && states[j].log == states[i].log
    ensures states[j].output == states[i].output && states[j].truncated == states[i].truncated
    decreases j
  {
    if i < j {
      FrozenFrom(states, acts, lossy, i, j - 1);
      var s, a, s' := states[j - 1], acts[j - 1], states[j];
      assert Next(s, a, s', lossy);
      assert ControlInv(s) && QueuesInv(s) by {
        RunInv(states, acts, lossy, j - 1);
        QueuesEmpty(s, lossy);
      }
      FrozenNext(s, a, s', lossy);
    }
  }

  /** What the supervisor knows of the child's exit. */
  function Known(s: State): Option<int> {
    match s.supervisor
    case Waiting => None
    case Joining(status, _) => Some(status)
    case _ => s.exitStatus
  }

  /** The exits of the child so far. */
  function Exits(acts: seq<Action>): seq<int> {
    if acts == [] then []
    else Exits(acts[..|acts| - 1]) + if acts[|acts| - 1].ChildExit? then [acts[|acts| - 1].code] else []
  }

  lemma ExitsAppend(acts: seq<Action>, a: Action)
    ensures Exits(acts + [a]) == if a.ChildExit? then Exits(acts) + [a.code] else Exits(acts)
  {
    assert (acts + [a])[..|acts|] == acts;
  }

  lemma KnownWhenPublished(s: State)
    requires ControlInv(s)
    ensures s.exitStatus.Some? ==> Known(s) == s.exitStatus
  {
  }

  lemma KnownNext(s: State, a: Action, s': State, lossy: seq<byte> -> seq<byte>)
    requires ControlInv(s) && Next(s, a, s', lossy)
    ensures if a.ChildExit? then Known(s) == None && Known(s') == Some(a.code) else Known(s') == Known(s)
  {
  }

  lemma KnownStep(states: seq<State>, acts: seq<Action>, lossy: seq<byte> -> seq<byte>, i: nat)
    requires ReturnsText(lossy) && IsRun(states, acts, lossy) && 0 < i < |states|
    ensures if acts[i - 1].ChildExit? then Known(states[i - 1]) == None && Known(states[i]) == Some(acts[i - 1].code)
            else Known(states[i]) == Known(states[i - 1])
  {
    var s, a, s' := states[i - 1], acts[i - 1], states[i];
    assert Next(s, a, s', lossy);
    RunInv(states, acts, lossy, i - 1);
    KnownNext(s, a, s', lossy);
  }

  /** The exits so far are at most one, the one the supervisor knows of. */
  lemma {:induction false} ExitsAreKnown(states: seq<State>, acts: seq<Action>, lossy: seq<byte> -> seq<byte>, i: nat)
    requires ReturnsText(lossy) && IsRun(states, acts, lossy) && i < |states|
    ensures Exits(acts[..i]) == if Known(states[i]) == None then [] else [Known(states[i]).value]
  {
    if i > 0 {
      ExitsAreKnown(states, acts, lossy, i - 1);
      KnownStep(states, acts, lossy, i);
      ExitsAppend(acts[..i - 1], acts[i - 1]);
      assert acts[..i] == acts[..i - 1] + [acts[i - 1]];
    }
  }

  /** The child exits at most once, and what the supervisor publishes is that exit's code. */
  lemma StatusIsTheChilds(states: seq<State>, acts: seq<Action>, lossy: seq<byte> -> seq<byte>, i: nat)
    requires ReturnsText(lossy) && IsRun(states, acts, lossy) && i < |states|
    ensures |Exits(acts[..i])| <= 1
    ensures states[i].exitStatus.Some? ==> Exits(acts[..i]) == [states[i].exitStatus.value]
  {
    ExitsAreKnown(states, acts, lossy, i);
    RunInv(states, acts, lossy, i);
    KnownWhenPublished(states[i]);
  }

  /** A call answers with what is there: a waiter that checks after the publication answers with the status, before it
      goes to sleep; an output call replies with the bounded tail of all that has been appended, whether that was too
      much, and the status if there is one. */
  lemma CallsAnswerTruly(states: seq<State>, acts: seq<Action>, lossy: seq<byte> -> seq<byte>, i: nat)
    requires ReturnsText(lossy) && IsRun(states, acts, lossy) && i < |acts|
    ensures var s, s' := states[i], states[i + 1];
            && (acts[i].WaitCheck? ==>
                 && (s.exitStatus.Some? ==> s'.waiters[acts[i].w] == Answered(s.exitStatus.value))
                 && (s.exitStatus == None ==> s'.waiters[acts[i].w].Asleep?))
            && (acts[i].OutputReply? ==>
                 var all := Concat(AllChunks(s.log));
                 s'.outputs[acts[i].r] == Replied(BoundedTail(all, s.limit), Exceeds(all, s.limit), s.exitStatus))
  {
    RunInv(states, acts, lossy, i);
    assert Next(states[i], acts[i], states[i + 1], lossy);
  }

  /** A reported exit is final and true. Once any call has reported a status, the child has exited exactly once, with
      that status; and at every later moment of the run all drain tasks have finished, status, output and `truncated`
      are what they were, every report agrees, and the output is the bounded tail of a shuffle of the complete decoded
      streams. */
  lemma ReportedExitIsFinal(states: seq<State>, acts: seq<Action>, lossy: seq<byte> -> seq<byte>, i: nat, j: nat)
    requires ReturnsText(lossy) && IsRun(states, acts, lossy) && i <= j < |states| && Reported(states[i])
    ensures states[j].exitStatus.Some? && states[j].exitStatus == states[i].exitStatus
    ensures Exits(acts[..j]) == [states[i].exitStatus.value]
    ensures states[j].output == states[i].output && states[j].truncated == states[i].truncated
    ensures forall w :: w in states[j].waiters && states[j].waiters[w].Answered? ==>
              Some(states[j].waiters[w].status) == states[i].exitStatus
    ensures forall r :: r in states[j].outputs && states[j].outputs[r].Replied? && states[j].outputs[r].status.Some? ==>
              states[j].outputs[r] == Replied(states[i].output, states[i].truncated, states[i].exitStatus)
    ensures forall k :: 0 <= k < |states[j].drains| ==>
              && states[j].drains[k].phase == Done
              && ChunksOf(states[j].log, k) == Drained(states[j].drains[k].got, lossy)
    ensures forall k :: 0 <= k < |states[j].log| ==> states[j].log[k].0 < |states[j].drains|
    ensures states[j].output == BoundedTail(Concat(AllChunks(states[j].log)), states[j].limit)
  {
    RunInv(states, acts, lossy, i);
    RunInv(states, acts, lossy, j);
    FrozenFrom(states, acts, lossy, i, j);
    StatusIsTheChilds(states, acts, lossy, j);
    forall k | 0 <= k < |states[j].drains|
      ensures ChunksOf(states[j].log, k) == Drained(states[j].drains[k].got, lossy)
    {
      assert ChunksOf(states[j].log, k) + [] == ChunksOf(states[j].log, k);
    }
  }

  /** In the final output each well-formed stream is there byte for byte. */
  lemma FinalStreamsAreCopied(states: seq<State>, acts: seq<Action>, lossy: seq<byte> -> seq<byte>, i: nat, k: nat)
    requires ReturnsText(lossy) && IsRun(states, acts, lossy) && i < |states| && Reported(states[i])
    requires k < |states[i].drains| && WellFormed(Received(states[i].drains[k].got))
    ensures Concat(ChunksOf(states[i].log, k)) == Received(states[i].drains[k].got)
  {
    ReportedExitIsFinal(states, acts, lossy, i, i);
    WellFormedStreamIsCopied(states[i].drains[k].got, lossy);
  }

  /** The two-step wait loses no wake-up: once the notification has been sent, every sleeping waiter has
      been woken, and a waiter about to check will find the status. */
  lemma NoLostExitWakeup(states: seq<State>, acts: seq<Action>, lossy: seq<byte> -> seq<byte>, i: nat, w: nat)
    requires ReturnsText(lossy) && IsRun(states, acts, lossy) && i < |states|
    requires w in states[i].waiters && states[i].supervisor == Over
    ensures match states[i].waiters[w]
            case Asleep(woken) => woken
            case Registered(_) => states[i].exitStatus.Some?
            case Answered(st) => states[i].exitStatus == Some(st)
  {
    RunInv(states, acts, lossy, i);
  }
}
