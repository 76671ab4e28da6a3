/** A subscriber always catches up: from every reachable state of the hand-off the connection can go on by itself until
    the client has been sent all that is due. */
module HandoffProgress {
  import opened EventLog
  import opened ReplayHandoff

  ghost predicate Steps(states: seq<State>, acts: seq<Action>) {
    && |states| == |acts| + 1
    && forall i :: 0 <= i < |acts| ==> Next(states[i], acts[i], states[i + 1])
  }

  lemma Prepend(s: State, a: Action, states: seq<State>, acts: seq<Action>)
    requires Steps(states, acts) && Next(s, a, states[0])
    ensures Steps([s] + states, [a] + acts) && ([s] + states)[|[a] + acts|] == states[|acts|]
  {
  }

  function ActionLeft(action: ActionTask): nat {
    match action
    case Waiting => 0
    case Replaying(messages, _) => |messages| + 3
    case Starting => 2
    case Notifying => 1
    case Subscribed => 0
  }

  function SendLeft(task: SendTask): nat {
    match task
    case Asleep(_) => 3
    case Registering => 2
    case Checking(_) => 1
    case Live => 0
    case Holding(_) => 1
  }

  function WorkLeft(s: State): nat {
    ActionLeft(s.action) + SendLeft(s.sendTask) + 2 * |s.queue| + if s.lagged then 1 else 0
  }

  /** Both tasks are where they stay, and nothing is left to receive or to send. */
  predicate CaughtUp(s: State) {
    s.action == Subscribed && s.sendTask == Live && s.queue == [] && !s.lagged
  }

  predicate SameReplay(s: State, s': State) {
    && s'.history == s.history && s'.max == s.max && s'.replay == s.replay && s'.replayed == s.replayed
    && s'.requested == s.requested && s'.openedAt == s.openedAt
  }

  /** A step of the action task, after the Subscribe. */
  lemma ActionSteps(s: State) returns (a: Action, s': State)
    requires Inv(s) && s.action != Waiting && s.action != Subscribed
    ensures Next(s, a, s') && SameReplay(s, s') && s'.action != Waiting && WorkLeft(s') < WorkLeft(s)
  {
    match s.action
    case Replaying(messages, last) =>
      if messages != [] {
        a, s' := SendReplayed, s.(socket := s.socket + [messages[0]], action := Replaying(messages[1..], last));
      } else {
        a, s' := Store, s.(replaySeq := last, action := Starting);
      }
    case Starting => a, s' := Start, s.(started := true, action := Notifying);
    case Notifying =>
      a, s' := Notify, s.(action := Subscribed,
                          sendTask := match s.sendTask
                                      case Checking(_) => Checking(true)
                                      case Asleep(_) => Asleep(true)
                                      case _ => s.sendTask);
  }

  /** A step of the send task, once the other is done. */
  lemma SendSteps(s: State) returns (a: Action, s': State)
    requires Inv(s) && s.action == Subscribed && !CaughtUp(s)
    ensures Next(s, a, s') && SameReplay(s, s') && s'.action == Subscribed && WorkLeft(s') < WorkLeft(s)
  {
    match s.sendTask
    case Asleep(woken) => a, s' := Wake, s.(sendTask := Registering);
    case Registering => a, s' := Register, s.(sendTask := Checking(false));
    case Checking(woken) => a, s' := Check, s.(sendTask := Live);
    case Holding(e) => a, s' := SendLive, s.(socket := s.socket + [Forward(e)], sendTask := Live);
    case Live =>
      if s.lagged {
        a, s' := ReceiveLag, s.(lagged := false);
      } else {
        var e := s.queue[0];
        a := Receive;
        s' := if e.number <= s.replaySeq then s.(queue := s.queue[1..])
              else s.(queue := s.queue[1..], replaySeq := e.number, sendTask := Holding(e), live := s.live + [e]);
      }
  }

  lemma InvNext(s: State, a: Action, s': State)
    requires Inv(s) && Next(s, a, s')
    ensures Inv(s')
  {
    ChannelNext(s, a, s');
    TasksNext(s, a, s');
    SocketNext(s, a, s');
    ReplayNext(s, a, s');
    DeliveryNext(s, a, s');
  }

  lemma {:induction false} CanCatchUp(s: State) returns (states: seq<State>, acts: seq<Action>)
    requires Inv(s) && s.action != Waiting
    ensures Steps(states, acts) && states[0] == s
    ensures Inv(states[|acts|]) && CaughtUp(states[|acts|]) && SameReplay(s, states[|acts|])
    decreases WorkLeft(s)
  {
    if CaughtUp(s) {
      states, acts := [s], [];
    } else {
      var a, s1;
      if s.action == Subscribed {
        a, s1 := SendSteps(s);
      } else {
        a, s1 := ActionSteps(s);
      }
      InvNext(s, a, s1);
      var later, rest := CanCatchUp(s1);
      Prepend(s, a, later, rest);
      states, acts := [s] + later, [a] + rest;
    }
  }

  /** Whenever the log pauses, a subscriber can be brought up to date, from whatever point of the hand-off: it has then
      been sent, message by message, the replay and the live events, and of everything logged from the first number
      owed to it nothing is missing but what the channel overwrote. */
  lemma SubscriberCatchesUp(s: State) returns (states: seq<State>, acts: seq<Action>)
    requires Inv(s) && s.action != Waiting
    ensures Steps(states, acts) && states[0] == s
    ensures var s' := states[|acts|];
            && CaughtUp(s') && SameReplay(s, s') && Frontier(s') == |s.history|
            && Carries(s'.socket, s'.replay, s'.requested, s'.replay.events + s'.live)
            && GapFree(s'.replay.events + s'.live, s.history, Base(s'), |s.history|, Excused(s'.lost, s'.replayed, s'.requested))
  {
    states, acts := CanCatchUp(s);
    var s' := states[|acts|];
    assert s'.socket + [] == s'.socket;
    PlanCarries(s'.socket, s'.replay, s'.requested, s'.live);
  }

  /** And every Subscribe is served: from any number, at any moment, there is a way on to that. */
  lemma SubscribeIsServed(s: State, from: nat) returns (states: seq<State>, acts: seq<Action>)
    requires Inv(s) && s.action == Waiting
    ensures Steps(states, acts) && states[0] == s && acts != [] && acts[0] == Subscribe(from)
    ensures var s' := states[|acts|];
            && CaughtUp(s') && s'.history == s.history && s'.requested == from
            && s'.replay == ReplayOf(Retained(s.history, s.max), OldestNumber(s.history, s.max), from)
            && Carries(s'.socket, s'.replay, from, s'.replay.events + s'.live)
            && GapFree(s'.replay.events + s'.live, s.history, Base(s'), |s.history|, Excused(s'.lost, s'.replayed, from))
  {
    var r := ReplayOf(Retained(s.history, s.max), OldestNumber(s.history, s.max), from);
    var s1 := s.(action := Replaying(ReplayMessages(r, from), LastNumber(r.events)),
                 requested := from, replayed := |s.history|, replay := r);
    assert Next(s, Subscribe(from), s1);
    InvNext(s, Subscribe(from), s1);
    var later, rest := SubscriberCatchesUp(s1);
    Prepend(s, Subscribe(from), later, rest);
    states, acts := [s] + later, [Subscribe(from)] + rest;
  }
}
