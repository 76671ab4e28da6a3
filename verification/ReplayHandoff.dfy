/** One WebSocket connection moving from replay to the live broadcast, with each append and each replay taken
    as one step. The action task serves a single Subscribe: it replays, stores how far it got, raises
    `replay_started` and notifies; the send task waits for that and then forwards what is newer. */
module ReplayHandoff {
  import opened EventLog
  import opened Sequences

  datatype Message = Gap(oldest: nat, requested: nat) | Forward(event: Event)

  datatype SendTask =
    | Registering
    | Checking(woken: bool)         // holds a `Notified` future, about to look at `replay_started`
    | Asleep(woken: bool)
    | Live
    | Holding(event: Event)         // has stored its number, about to send it

  datatype ActionTask =
    | Waiting
    | Replaying(messages: seq<Message>, last: nat)   // still to send; then store `last`
    | Starting
    | Notifying
    | Subscribed

  datatype State = State(
    history: seq<Event>,
    max: nat,
    capacity: nat,                  // of the broadcast channel
    queue: seq<Event>,              // broadcast but not yet received by this connection
    lagged: bool,                   // the next receive reports a lag
    sendTask: SendTask,
    action: ActionTask,
    replaySeq: nat,
    started: bool,
    socket: seq<Message>,           // what the client has been sent
    openedAt: nat,                    // history: length of the log when the connection subscribed to it
    requested: nat,                 // history: `from_seq`
    replayed: nat,                  // history: length of the log at the replay,
    replay: Replay,                 // history: and what it returned
    live: seq<Event>,               // history: what the send task has let through
    lost: set<nat>)                 // history: numbers overwritten in the channel

  datatype Action =
    | Append(session: nat, payload: Payload)
    | Subscribe(from: nat)
    | SendReplayed
    | Store
    | Start
    | Notify
    | Register
    | Check
    | Wake
    | ReceiveLag
    | Receive
    | SendLive

  ghost predicate Init(s: State) {
    && Numbered(s.history) && s.max >= 1 && s.capacity >= 1
    && s.queue == [] && !s.lagged && s.sendTask == Registering && s.action == Waiting
    && s.replaySeq == 0 && !s.started && s.socket == []
    && s.openedAt == |s.history| && s.requested == 0 && s.replayed == 0 && s.replay == Complete([])
    && s.live == [] && s.lost == {}
  }

  function ReplayMessages(r: Replay, from: nat): seq<Message> {
    (if r.Partial? then [Gap(r.oldest, from)] else []) + Forwards(r.events)
  }

  function Forwards(events: seq<Event>): seq<Message> {
    seq(|events|, i requires 0 <= i < |events| => Forward(events[i]))
  }

  ghost predicate Next(s: State, a: Action, s': State) {
    match a
    case Append(session, payload) =>
      var e := Event(|s.history| + 1, session, payload);
      if |s.queue| < s.capacity then s' == s.(history := s.history + [e], queue := s.queue + [e])
      else
        && s.queue != []
        && s' == s.(history := s.history + [e], queue := s.queue[1..] + [e], lagged := true,
                    lost := s.lost + {s.queue[0].number})
    case Subscribe(from) =>
      && s.action == Waiting
      && var r := ReplayOf(Retained(s.history, s.max), OldestNumber(s.history, s.max), from);
         s' == s.(action := Replaying(ReplayMessages(r, from), LastNumber(r.events)),
                  requested := from, replayed := |s.history|, replay := r)
    case SendReplayed =>
      && s.action.Replaying? && s.action.messages != []
      && s' == s.(socket := s.socket + [s.action.messages[0]],
                  action := Replaying(s.action.messages[1..], s.action.last))
    case Store =>
      && s.action.Replaying? && s.action.messages == []
      && s' == s.(replaySeq := s.action.last, action := Starting)
    case Start => s.action == Starting && s' == s.(started := true, action := Notifying)
    case Notify =>
      && s.action == Notifying
      && s' == s.(action := Subscribed,
                  sendTask := match s.sendTask
                              case Checking(_) => Checking(true)
                              case Asleep(_) => Asleep(true)
                              case _ => s.sendTask)
    case Register => s.sendTask == Registering && s' == s.(sendTask := Checking(false))
    case Check =>
      && s.sendTask.Checking?
      && s' == s.(sendTask := if s.started then Live else Asleep(s.sendTask.woken))
    case Wake => s.sendTask == Asleep(true) && s' == s.(sendTask := Registering)
    case ReceiveLag => s.sendTask == Live && s.lagged && s' == s.(lagged := false)
    case Receive =>
      && s.sendTask == Live && !s.lagged && s.queue != []
      && var e := s.queue[0];
         if e.number <= s.replaySeq then s' == s.(queue := s.queue[1..])
         else s' == s.(queue := s.queue[1..], replaySeq := e.number, sendTask := Holding(e), live := s.live + [e])
    case SendLive =>
      && s.sendTask.Holding?
      && s' == s.(socket := s.socket + [Forward(s.sendTask.event)], sendTask := Live)
  }

  ghost predicate IsRun(states: seq<State>, acts: seq<Action>) {
    && |states| == |acts| + 1 && Init(states[0])
    && forall i :: 0 <= i < |acts| ==> Next(states[i], acts[i], states[i + 1])
  }

  // ------------------------------------------------------------------ the invariant

  /** The last number that has left the channel towards this connection, received or overwritten. */
  function Cursor(s: State): int {
    |s.history| - |s.queue|
  }

  ghost predicate ChannelInv(s: State) {
    && Numbered(s.history) && s.max >= 1 && s.capacity >= 1
    && s.openedAt <= Cursor(s)
    && s.queue == s.history[Cursor(s)..]
  }

  /** The tasks' program counters agree with the flag, and the notification leaves no sleeper behind. */
  ghost predicate TasksInv(s: State) {
    && (s.started <==> s.action in {Notifying, Subscribed})
    && (s.sendTask.Live? || s.sendTask.Holding? ==> s.started)
    && (s.sendTask.Asleep? && s.action == Subscribed ==> s.sendTask.woken)
    && (!s.started ==> s.live == [])
    && (s.action == Waiting ==> s.replaySeq == 0 && s.socket == [])
  }

  /** The client sees the replay first, completely, and then what the send task lets through. */
  ghost predicate SocketInv(s: State) {
    match s.action
    case Waiting => true
    case Replaying(messages, last) =>
      && s.socket + messages == ReplayMessages(s.replay, s.requested) && last == LastNumber(s.replay.events)
      && s.replaySeq == 0
    case _ =>
      s.socket + (if s.sendTask.Holding? then [Forward(s.sendTask.event)] else [])
      == ReplayMessages(s.replay, s.requested) + Forwards(s.live)
  }

  /** What the replay was. */
  ghost predicate ReplayInv(s: State) {
    && s.replayed <= |s.history|
    && (s.action != Waiting ==>
          s.replay == ReplayOf(Retained(s.history[..s.replayed], s.max), OldestNumber(s.history[..s.replayed], s.max), s.requested))
  }

  /** A replay is the end of the log as it stood, from some number on, or nothing because nothing that existed
      had been asked for. */
  ghost predicate EndOfLog(events: seq<Event>, history: seq<Event>, from: nat) {
    && |events| <= |history| && events == history[|history| - |events|..]
    && (events == [] ==> |history| == 0 || from > |history|)
  }

  lemma ReplayShape(history: seq<Event>, max: nat, from: nat)
    requires Numbered(history) && max >= 1
    ensures EndOfLog(ReplayOf(Retained(history, max), OldestNumber(history, max), from).events, history, from)
  {
    var ring := Retained(history, max);
    var cut := |history| - |ring|;
    assert ring == history[cut..];
    AtLeastIsSuffix(ring, cut + 1, from);
    SuffixOfSuffix(history, cut, if from <= cut + 1 then 0 else if from - cut - 1 <= |ring| then from - cut - 1 else |ring|);
  }

  /** The first number owed to the client, minus one. */
  function Base(s: State): int {
    if s.replay.events == [] then s.openedAt else s.replay.events[0].number - 1
  }

  /** The last number the replay or the live loop has let through. */
  function Reached(s: State): nat {
    if s.action.Replaying? then s.action.last else s.replaySeq
  }

  /** How far the client's numbers must be complete. */
  function Frontier(s: State): int {
    if Cursor(s) > Reached(s) then Cursor(s) else Reached(s)
  }

  /** The overwritten numbers that may be missing: those newer than the replay, or never requested. */
  function Excused(lost: set<nat>, replayed: nat, requested: nat): set<nat> {
    set n | n in lost && (n > replayed || n < requested)
  }

  /** `events` are logged events in strictly increasing order, all numbered above `base` and up to `upTo`, and
      of these numbers only excused ones are missing. */
  ghost predicate GapFree(events: seq<Event>, history: seq<Event>, base: int, upTo: int, excused: set<nat>) {
    && 0 <= base <= upTo <= |history|
    && (forall i :: 0 <= i < |events| ==>
          base < events[i].number <= upTo && events[i] == history[events[i].number - 1])
    && (forall i, j :: 0 <= i < j < |events| ==> events[i].number < events[j].number)
    && (forall n :: base < n <= upTo ==> HasNumber(events, n) || n in excused)
  }

  ghost predicate DeliveryInv(s: State) {
    && (s.action == Waiting ==> forall n :: s.openedAt < n <= Cursor(s) ==> n in s.lost)
    && (s.action != Waiting ==>
          && GapFree(s.replay.events + s.live, s.history, Base(s), Frontier(s), Excused(s.lost, s.replayed, s.requested))
          && (s.replay.events == [] ==> s.replayed == 0 || s.requested > s.replayed)
          && (s.replay.events != [] ==> Reached(s) >= s.replayed))
  }

  ghost predicate Inv(s: State) {
    ChannelInv(s) && TasksInv(s) && SocketInv(s) && ReplayInv(s) && DeliveryInv(s)
  }

  lemma QueueShifts(history: seq<Event>, queue: seq<Event>, e: Event, grown: seq<Event>, longer: seq<Event>)
    requires Numbered(history) && |queue| <= |history| && queue == history[|history| - |queue|..]
    requires grown == history + [e] && e.number == |grown|
    requires longer == queue + [e] || (queue != [] && longer == queue[1..] + [e])
    ensures Numbered(grown) && |longer| <= |grown| && longer == grown[|grown| - |longer|..]
  {
  }

  lemma ChannelAppend(s: State, a: Action, s': State)
    requires ChannelInv(s) && a.Append? && Next(s, a, s')
    ensures ChannelInv(s')
  {
    QueueShifts(s.history, s.queue, Event(|s.history| + 1, a.session, a.payload), s'.history, s'.queue);
  }

  lemma ChannelReceive(s: State, s': State)
    requires ChannelInv(s) && Next(s, Receive, s')
    ensures ChannelInv(s')
  {
    SuffixOfSuffix(s.history, Cursor(s), 1);
  }

  lemma ChannelNext(s: State, a: Action, s': State)
    requires ChannelInv(s) && Next(s, a, s')
    ensures ChannelInv(s')
  {
    match a
    case Append(_, _) => ChannelAppend(s, a, s');
    case Receive => ChannelReceive(s, s');
    case _ => assert s'.history == s.history && s'.queue == s.queue;
  }

  lemma TasksNext(s: State, a: Action, s': State)
    requires TasksInv(s) && Next(s, a, s')
    ensures TasksInv(s')
  {
  }

  lemma SocketReceive(s: State, s': State)
    requires TasksInv(s) && SocketInv(s) && Next(s, Receive, s')
    ensures SocketInv(s')
  {
    var plan := ReplayMessages(s.replay, s.requested);
    assert s.socket + [] == s.socket;
    if s'.sendTask.Holding? {
      assert Forwards(s'.live) == Forwards(s.live) + [Forward(s.queue[0])];
      assert s'.socket + [Forward(s.queue[0])] == plan + Forwards(s'.live);
    }
  }

  lemma SocketReplay(s: State, a: Action, s': State)
    requires TasksInv(s) && SocketInv(s) && Next(s, a, s') && (a.SendReplayed? || a.Store?)
    ensures SocketInv(s')
  {
    var plan := ReplayMessages(s.replay, s.requested);
    if a.SendReplayed? {
      assert s.action.messages == [s.action.messages[0]] + s.action.messages[1..];
    } else {
      assert s.socket + [] == s.socket && Forwards(s.live) == [] && plan + [] == plan;
    }
  }

  lemma SocketNext(s: State, a: Action, s': State)
    requires TasksInv(s) && SocketInv(s) && Next(s, a, s')
    ensures SocketInv(s')
  {
    match a
    case Receive => SocketReceive(s, s');
    case SendReplayed => SocketReplay(s, a, s');
    case Store => SocketReplay(s, a, s');
    case _ =>
  }

  lemma ReplayNext(s: State, a: Action, s': State)
    requires ReplayInv(s) && Next(s, a, s')
    ensures ReplayInv(s')
  {
    match a
    case Subscribe(from) => assert s.history[..|s.history|] == s.history;
    case Append(_, _) => assert s'.history[..s.replayed] == s.history[..s.replayed];
    case _ =>
  }

  lemma GapFreeGrows(events: seq<Event>, h: seq<Event>, h': seq<Event>, base: int, upTo: int, ex: set<nat>, ex': set<nat>)
    requires GapFree(events, h, base, upTo, ex) && h <= h' && ex <= ex'
    ensures GapFree(events, h', base, upTo, ex')
    ensures upTo + 1 in ex' && upTo < |h'| ==> GapFree(events, h', base, upTo + 1, ex')
  {
  }

  lemma GapFreeDelivers(events: seq<Event>, h: seq<Event>, base: int, upTo: int, ex: set<nat>)
    requires GapFree(events, h, base, upTo, ex) && Numbered(h) && base <= upTo < |h|
    ensures GapFree(events + [h[upTo]], h, base, upTo + 1, ex)
  {
    var more := events + [h[upTo]];
    assert more[|events|].number == upTo + 1;
    forall n | base < n <= upTo + 1 ensures HasNumber(more, n) || n in ex {
      if n <= upTo && HasNumber(events, n) {
        var i :| 0 <= i < |events| && events[i].number == n;
        assert more[i].number == n;
      }
    }
  }

  lemma GapFreeReplay(events: seq<Event>, h: seq<Event>, ex: set<nat>)
    requires Numbered(h) && 0 < |events| <= |h| && events == h[|h| - |events|..]
    ensures GapFree(events, h, events[0].number - 1, |h|, ex)
  {
    assert forall i :: 0 <= i < |events| ==> events[i] == h[|h| - |events| + i];
    forall n | events[0].number - 1 < n <= |h| ensures HasNumber(events, n) {
      assert events[n - events[0].number].number == n;
    }
  }

  /** The connection right after a Subscribe has taken its replay. */
  ghost predicate JustReplayed(s: State) {
    && ChannelInv(s) && EndOfLog(s.replay.events, s.history, s.requested)
    && s.action.Replaying? && s.action.last == LastNumber(s.replay.events)
    && s.replayed == |s.history| && s.live == []
    && forall n :: s.openedAt < n <= Cursor(s) ==> n in s.lost
  }

  lemma SubscribeReplays(s: State, from: nat, s': State)
    requires ChannelInv(s) && TasksInv(s) && DeliveryInv(s) && Next(s, Subscribe(from), s')
    ensures JustReplayed(s')
  {
    ReplayShape(s.history, s.max, from);
  }

  lemma DeliverySubscribe(s: State)
    requires JustReplayed(s)
    ensures DeliveryInv(s)
  {
    assert s.replay.events + s.live == s.replay.events;
    if s.replay.events == [] {
      DeliveryNothingReplayed(s);
    } else {
      DeliverySomethingReplayed(s);
    }
  }

  lemma DeliverySomethingReplayed(s: State)
    requires JustReplayed(s) && s.replay.events != []
    ensures GapFree(s.replay.events, s.history, Base(s), |s.history|, Excused(s.lost, s.replayed, s.requested))
    ensures Frontier(s) == Reached(s) == |s.history|
  {
    var events, h := s.replay.events, s.history;
    GapFreeReplay(events, h, Excused(s.lost, s.replayed, s.requested));
    assert events[|events| - 1] == h[|h| - 1];
  }

  lemma DeliveryNothingReplayed(s: State)
    requires JustReplayed(s) && s.replay.events == []
    ensures GapFree(s.replay.events, s.history, s.openedAt, Cursor(s), Excused(s.lost, s.replayed, s.requested))
    ensures Base(s) == s.openedAt && Frontier(s) == Cursor(s)
  {
  }

  /** What an append does to the connection. */
  ghost predicate Grows(s: State, s': State) {
    && s.history <= s'.history && s.lost <= s'.lost && s'.live == s.live && s'.replay == s.replay
    && s'.replayed == s.replayed && s'.requested == s.requested && s'.openedAt == s.openedAt
    && s'.action == s.action && s'.replaySeq == s.replaySeq
    && (Cursor(s') == Cursor(s) || (Cursor(s') == Cursor(s) + 1 <= |s'.history| && Cursor(s') in s'.lost))
  }

  lemma AppendGrows(s: State, a: Action, s': State)
    requires ChannelInv(s) && a.Append? && Next(s, a, s')
    ensures Grows(s, s')
  {
    assert s'.history[..|s.history|] == s.history;
  }

  lemma DeliveryGrows(s: State, s': State)
    requires DeliveryInv(s) && Grows(s, s')
    ensures DeliveryInv(s')
  {
    if s.action != Waiting {
      GapFreeGrows(s.replay.events + s.live, s.history, s'.history, Base(s), Frontier(s),
                   Excused(s.lost, s.replayed, s.requested), Excused(s'.lost, s'.replayed, s'.requested));
    }
  }

  /** The received event is the next one of the log; it is skipped if the replay or the live loop has been past it. */
  lemma ReceivedIsNext(s: State, s': State)
    requires ChannelInv(s) && TasksInv(s) && s.action != Waiting && Next(s, Receive, s')
    ensures var e := s.queue[0];
            && e == s.history[Cursor(s)] && e.number == Cursor(s) + 1 && Cursor(s') == Cursor(s) + 1
            && Reached(s) == s.replaySeq && Reached(s') == s'.replaySeq
            && (if e.number <= s.replaySeq then Frontier(s') == Frontier(s) && s'.live == s.live
                else Frontier(s) == Cursor(s) && Frontier(s') == Cursor(s) + 1 && s'.live == s.live + [e])
  {
  }

  lemma DeliveryDelivers(s: State, s': State)
    requires ChannelInv(s) && TasksInv(s) && DeliveryInv(s) && Next(s, Receive, s') && s.action != Waiting
    requires s.queue[0].number > s.replaySeq
    ensures GapFree(s'.replay.events + s'.live, s'.history, Base(s'), Frontier(s'), Excused(s'.lost, s'.replayed, s'.requested))
  {
    ReceivedIsNext(s, s');
    GapFreeDelivers(s.replay.events + s.live, s.history, Base(s), Frontier(s), Excused(s.lost, s.replayed, s.requested));
    Regroup(s.replay.events, s.live, [s.queue[0]]);
  }

  lemma DeliveryReceive(s: State, s': State)
    requires ChannelInv(s) && TasksInv(s) && DeliveryInv(s) && Next(s, Receive, s')
    ensures DeliveryInv(s')
  {
    assert s.started && s.action != Waiting;
    ReceivedIsNext(s, s');
    if s.queue[0].number > s.replaySeq {
      DeliveryDelivers(s, s');
    }
  }

  lemma DeliveryNext(s: State, a: Action, s': State)
    requires ChannelInv(s) && TasksInv(s) && DeliveryInv(s) && Next(s, a, s')
    ensures DeliveryInv(s')
  {
    match a
    case Subscribe(from) =>
      SubscribeReplays(s, from, s');
      DeliverySubscribe(s');
    case Append(_, _) =>
      AppendGrows(s, a, s');
      DeliveryGrows(s, s');
    case Receive => DeliveryReceive(s, s');
    case _ =>
      QuietSteps(s, a, s');
      DeliveryFrame(s, s');
  }

  ghost predicate SameDelivery(s: State, s': State) {
    && s'.history == s.history && s'.queue == s.queue && s'.lost == s.lost && s'.live == s.live && s'.replay == s.replay
    && s'.replayed == s.replayed && s'.requested == s.requested && s'.openedAt == s.openedAt
    && (s'.action == Waiting <==> s.action == Waiting)
    && (s.action != Waiting ==> Reached(s') == Reached(s))
  }

  lemma DeliveryFrame(s: State, s': State)
    requires DeliveryInv(s) && SameDelivery(s, s')
    ensures DeliveryInv(s')
  {
  }

  lemma QuietSteps(s: State, a: Action, s': State)
    requires TasksInv(s) && Next(s, a, s') && !a.Subscribe? && !a.Append? && !a.Receive?
    ensures SameDelivery(s, s')
  {
  }

  lemma {:induction false} RunInv(states: seq<State>, acts: seq<Action>, i: nat)
    requires IsRun(states, acts) && i < |states|
    ensures Inv(states[i])
  {
    if i > 0 {
      RunInv(states, acts, i - 1);
      var s, a, s' := states[i - 1], acts[i - 1], states[i];
      assert Next(s, a, s');
      ChannelNext(s, a, s');
      TasksNext(s, a, s');
      SocketNext(s, a, s');
      ReplayNext(s, a, s');
      DeliveryNext(s, a, s');
    }
  }

  // ------------------------------------------------------------------ theorems

  /** What the client has been sent, or is just being sent. */
  function Sent(s: State): seq<Message> {
    s.socket + if s.sendTask.Holding? then [Forward(s.sendTask.event)] else []
  }

  /** `messages` are a gap notice if the replay was partial, and then these very events one by one. */
  ghost predicate Carries(messages: seq<Message>, replay: Replay, requested: nat, events: seq<Event>) {
    var g := if replay.Partial? then 1 else 0;
    && |messages| == g + |events|
    && (replay.Partial? ==> messages[0] == Gap(replay.oldest, requested))
    && forall k :: 0 <= k < |events| ==> messages[g + k] == Forward(events[k])
  }

  /** Exactly-once hand-off. At any moment after the replay the client has been sent, message by message, a gap
      notice if the replay was partial, every event of the replay, and then every event the send task has let
      through; over both together the numbers strictly increase, every event is the logged one, and of all numbers
      from the first one owed up to where the send task has got none is missing, unless the channel overwrote it and
      it is newer than the replay or was never requested. */
  lemma HandoffIsExactlyOnce(states: seq<State>, acts: seq<Action>, i: nat)
    requires IsRun(states, acts) && i < |states| && states[i].action in {Starting, Notifying, Subscribed}
    ensures var s := states[i];
            && Carries(Sent(s), s.replay, s.requested, s.replay.events + s.live)
            && GapFree(s.replay.events + s.live, s.history, Base(s), Frontier(s), Excused(s.lost, s.replayed, s.requested))
            && Frontier(s) >= |s.history| - |s.queue|
  {
    RunInv(states, acts, i);
    var s := states[i];
    PlanCarries(Sent(s), s.replay, s.requested, s.live);
  }

  lemma PlanCarries(messages: seq<Message>, replay: Replay, requested: nat, live: seq<Event>)
    requires messages == ReplayMessages(replay, requested) + Forwards(live)
    ensures Carries(messages, replay, requested, replay.events + live)
  {
  }

  /** While the replay is being sent, what has been sent is the beginning of that. */
  lemma ReplayIsSentInOrder(states: seq<State>, acts: seq<Action>, i: nat)
    requires IsRun(states, acts) && i < |states| && states[i].action.Replaying?
    ensures var s := states[i];
            && Carries(s.socket + s.action.messages, s.replay, s.requested, s.replay.events)
            && s.action.last == LastNumber(s.replay.events)
  {
    RunInv(states, acts, i);
  }

  /** In particular, with no lag the numbers are contiguous. */
  lemma ContiguousWithoutLag(states: seq<State>, acts: seq<Action>, i: nat, k: nat)
    requires IsRun(states, acts) && i < |states| && states[i].action in {Starting, Notifying, Subscribed}
    requires states[i].lost == {} && k + 1 < |states[i].replay.events + states[i].live|
    ensures var sent := states[i].replay.events + states[i].live; sent[k + 1].number == sent[k].number + 1
  {
    RunInv(states, acts, i);
    var s := states[i];
    var sent := s.replay.events + s.live;
    var n := sent[k].number + 1;
    assert sent[k].number < sent[k + 1].number <= Frontier(s);
    forall i | 0 <= i <= k ensures sent[i].number <= sent[k].number {}
    assert HasNumber(sent, n);
  }

  /** The replay part is what the log promises: everything from the requested number, or a gap notice and all
      that is left. */
  lemma ReplayPartIsFaithful(states: seq<State>, acts: seq<Action>, i: nat)
    requires IsRun(states, acts) && i < |states| && states[i].action != Waiting && states[i].requested >= 1
    ensures states[i].replayed <= |states[i].history|
    ensures Faithful(states[i].replay, states[i].history[..states[i].replayed], states[i].max, states[i].requested)
  {
    RunInv(states, acts, i);
    var s := states[i];
    assert Numbered(s.history[..s.replayed]);
    ReplayIsFaithful(s.history[..s.replayed], s.max, s.requested);
  }

  lemma ChannelStep(s: State, a: Action, s': State)
    requires |s.queue| <= s.capacity && Next(s, a, s')
    ensures |s'.queue| <= s'.capacity == s.capacity
    ensures s'.lost != s.lost ==> a.Append? && |s.queue| == s.capacity
    ensures a.Append? && |s.queue| < s.capacity ==> s'.lost == s.lost && s'.lagged == s.lagged && |s'.queue| == |s.queue| + 1
  {
  }

  /** The channel never holds more than its capacity. */
  lemma {:induction false} ChannelIsBounded(states: seq<State>, acts: seq<Action>, i: nat)
    requires IsRun(states, acts) && i < |states|
    ensures |states[i].queue| <= states[i].capacity == states[0].capacity
  {
    if i > 0 {
      ChannelIsBounded(states, acts, i - 1);
      var s, a, s' := states[i - 1], acts[i - 1], states[i];
      assert Next(s, a, s');
      ChannelStep(s, a, s');
    }
  }

  /** And it loses an event only when it is full and another is broadcast. */
  lemma LosesOnlyWhenFull(states: seq<State>, acts: seq<Action>, i: nat)
    requires IsRun(states, acts) && i < |acts| && states[i + 1].lost != states[i].lost
    ensures acts[i].Append? && |states[i].queue| == states[0].capacity
  {
    ChannelIsBounded(states, acts, i);
    var s, a, s' := states[i], acts[i], states[i + 1];
    assert Next(s, a, s');
    ChannelStep(s, a, s');
  }

  /** The start of the live loop loses no wake-up: after the notification the send task is not asleep unwoken. */
  lemma NoLostReplayWakeup(states: seq<State>, acts: seq<Action>, i: nat)
    requires IsRun(states, acts) && i < |states| && states[i].action == Subscribed
    ensures states[i].sendTask != Asleep(false) && states[i].started
  {
    RunInv(states, acts, i);
  }
}
