/** The life of one agent session: a process state and a turn state, one `ask` at a time, a new client after
    every death. An `ask` is taken from its start to its completion, with `shutdown` only between asks. */
module Session {
  import RT = RequestTable
  import opened Wrappers

  datatype ProcessState = Stopped | Starting | Running | Dead {
    predicate CanStart() {
      Stopped? || Dead?
    }
  }

  datatype TurnState = Idle | Prompting | Cancelling {
    predicate CanPrompt() {
      Idle?
    }
  }

  datatype Event = StateChange(process: ProcessState, turn: TurnState) | TurnComplete(reason: string)

  /** How the prompt came out: an answer, an error from the agent or an answer that does not parse, a failure
      of the transport, or the timeout. */
  datatype Prompt =
    | Succeeded(reason: string)
    | AgentError
    | Transport(outcome: RT.Outcome)
    | TimedOut

  /** What the outside world does during one `ask`. `connected` is what the client's flag says if it is
      inspected after a failed prompt. */
  datatype World = World(
    spawns: bool,
    pid: Option<nat>,
    initializes: bool,
    newSession: Option<string>,
    prompt: Prompt,
    connected: bool)

  datatype AskError = Busy | CannotStart | SpawnFailed | InitializeFailed | NewSessionFailed
                    | NoClient | NoAcpSession | PromptFailed | RequestTimedOut

  datatype AskResult = Ok | Err(error: AskError)

  /** The fields of a session. Clients are numbered in the order they are spawned. */
  datatype Session = Session(
    process: ProcessState,
    turn: TurnState,
    client: Option<nat>,
    acpSession: Option<string>,
    rootPid: Option<nat>,
    guarded: bool,
    nextClient: nat,
    events: seq<Event>)

  function SetStates(s: Session, process: ProcessState, turn: TurnState): Session {
    s.(process := process, turn := turn, events := s.events + [StateChange(process, turn)])
  }

  function MarkDead(s: Session): Session {
    SetStates(s.(client := None, acpSession := None, rootPid := None), Dead, Idle)
  }

  function EnsureRunning(s: Session, w: World): (Session, Option<AskError>) {
    if s.process == Running then (s, None)
    else if !s.process.CanStart() then (s, Some(CannotStart))
    else StartClient(SetStates(s, Starting, Idle), w)
  }

  /** What follows the change to Starting. */
  function StartClient(starting: Session, w: World): (Session, Option<AskError>) {
    if !w.spawns then (SetStates(starting, Dead, Idle), Some(SpawnFailed))
    else
      var client := starting.nextClient;
      var spawned := starting.(nextClient := client + 1);
      if !w.initializes then (SetStates(spawned.(rootPid := None), Dead, Idle), Some(InitializeFailed))
      else if w.newSession == None then (SetStates(spawned.(rootPid := None), Dead, Idle), Some(NewSessionFailed))
      else (SetStates(spawned.(rootPid := w.pid, acpSession := w.newSession, client := Some(client)), Running, Idle), None)
  }

  /** The turn itself, with the guard held and the agent running. */
  function PromptTurn(s: Session, w: World): (Session, AskResult) {
    EndTurn(SetStates(s, Running, Prompting), w)
  }

  /** What follows the change to Prompting. */
  function EndTurn(prompting: Session, w: World): (Session, AskResult) {
    if prompting.client == None then (prompting, Err(NoClient))
    else if prompting.acpSession == None then (prompting, Err(NoAcpSession))
    else
      match w.prompt
      case Succeeded(reason) =>
        var idle := SetStates(prompting, Running, Idle);
        (idle.(events := idle.events + [TurnComplete(reason)]), Ok)
      case TimedOut => (MarkDead(prompting), Err(RequestTimedOut))
      case _ => (if w.connected then SetStates(prompting, Running, Idle) else MarkDead(prompting), Err(PromptFailed))
  }

  function AskOf(s: Session, w: World): (Session, AskResult) {
    if s.guarded || !s.turn.CanPrompt() then (s, Err(Busy))
    else
      var (running, failure) := EnsureRunning(s, w);
      if failure.Some? then (running, Err(failure.value)) else PromptTurn(running, w)
  }

  function ShutdownOf(s: Session): Session {
    SetStates(s.(client := None, acpSession := None, rootPid := None), Dead, Idle)
  }

  class AcpSession {
    var processState: ProcessState
    var turnState: TurnState
    var client: Option<nat>
    var acpSessionId: Option<string>
    var childRootPid: Option<nat>
    var turnGuard: bool
    var nextClient: nat
    var log: seq<Event>

    function View(): Session
      reads this
    {
      Session(processState, turnState, client, acpSessionId, childRootPid, turnGuard, nextClient, log)
    }

    constructor ()
      ensures View() == Fresh()
    {
      processState, turnState, client, acpSessionId, childRootPid := Stopped, Idle, None, None, None;
      turnGuard, nextClient, log := false, 0, [];
    }

    method SetBothStates(process: ProcessState, turn: TurnState)
      modifies this
      ensures View() == SetStates(old(View()), process, turn)
    {
      processState := process;
      turnState := turn;
      log := log + [StateChange(process, turn)];
    }

    method Die()
      modifies this
      ensures View() == MarkDead(old(View()))
    {
      client := None;
      acpSessionId := None;
      childRootPid := None;
      SetBothStates(Dead, Idle);
    }

    method Ensure(w: World) returns (failure: Option<AskError>)
      modifies this
      ensures (View(), failure) == EnsureRunning(old(View()), w)
    {
      if processState == Running {
        return None;
      }
      if !processState.CanStart() {
        return Some(CannotStart);
      }
      SetBothStates(Starting, Idle);
      if !w.spawns {
        SetBothStates(Dead, Idle);
        return Some(SpawnFailed);
      }
      var spawned := nextClient;
      nextClient := nextClient + 1;
      childRootPid := w.pid;
      if !w.initializes {
        childRootPid := None;
        SetBothStates(Dead, Idle);
        return Some(InitializeFailed);
      }
      if w.newSession == None {
        childRootPid := None;
        SetBothStates(Dead, Idle);
        return Some(NewSessionFailed);
      }
      acpSessionId := w.newSession;
      client := Some(spawned);
      SetBothStates(Running, Idle);
      failure := None;
    }

    method Ask(w: World) returns (r: AskResult)
      modifies this
      ensures (View(), r) == AskOf(old(View()), w)
    {
      if turnGuard {
        return Err(Busy);
      }
      turnGuard := true;
      r := AskGuarded(w);
      turnGuard := false;
    }

    /** The rest of `ask`, between taking the turn guard and giving it back. */
    method AskGuarded(w: World) returns (r: AskResult)
      requires turnGuard
      modifies this
      ensures turnGuard
      ensures (View().(guarded := false), r) == AskOf(old(View()).(guarded := false), w)
    {
      if !turnState.CanPrompt() {
        return Err(Busy);
      }
      var failure := Ensure(w);
      if failure.Some? {
        return Err(failure.value);
      }
      SetBothStates(Running, Prompting);
      if client == None {
        return Err(NoClient);
      }
      if acpSessionId == None {
        return Err(NoAcpSession);
      }
      match w.prompt
      case Succeeded(reason) =>
        SetBothStates(Running, Idle);
        log := log + [TurnComplete(reason)];
        return Ok;
      case TimedOut =>
        Die();
        return Err(RequestTimedOut);
      case _ =>
        if w.connected {
          SetBothStates(Running, Idle);
        } else {
          Die();
        }
        return Err(PromptFailed);
    }

    method Shutdown()
      modifies this
      ensures View() == ShutdownOf(old(View()))
    {
      client := None;
      childRootPid := None;
      acpSessionId := None;
      SetBothStates(Dead, Idle);
    }
  }

  // ------------------------------------------------------------------ runs

  datatype Operation = Ask(world: World) | Shutdown

  function Fresh(): Session {
    Session(Stopped, Idle, None, None, None, false, 0, [])
  }

  function Apply(s: Session, op: Operation): (Session, AskResult) {
    match op
    case Ask(w) => AskOf(s, w)
    case Shutdown => (ShutdownOf(s), Err(Busy))
  }

  ghost predicate IsRun(states: seq<Session>, ops: seq<Operation>, results: seq<AskResult>) {
    && |states| == |ops| + 1 && |results| == |ops| && states[0] == Fresh()
    && forall i :: 0 <= i < |ops| ==> (states[i + 1], results[i]) == Apply(states[i], ops[i])
  }

  /** The legal moves of the two-component machine. */
  predicate Edge(p: ProcessState, t: TurnState, p': ProcessState, t': TurnState) {
    match (p, t, p', t')
    case (Stopped, Idle, Starting, Idle) => true
    case (Dead, Idle, Starting, Idle) => true
    case (Starting, Idle, Running, Idle) => true
    case (Running, Idle, Running, Prompting) => true
    case (Running, Prompting, Running, Idle) => true
    case (Running, Prompting, Dead, Idle) => true
    case (_, Idle, Dead, Idle) => true
    case _ => false
  }

  /** Where a list of events leaves the machine, and whether it got there by legal moves. */
  function Destination(events: seq<Event>): (ProcessState, TurnState) {
    if events == [] then (Stopped, Idle)
    else
      match events[|events| - 1]
      case StateChange(p, t) => (p, t)
      case TurnComplete(_) => Destination(events[..|events| - 1])
  }

  predicate LegalPath(events: seq<Event>) {
    events == [] ||
    (var init, last := events[..|events| - 1], events[|events| - 1];
     LegalPath(init) &&
     if last.StateChange? then Edge(Destination(init).0, Destination(init).1, last.process, last.turn) else TurnEnded(init))
  }

  /** The last two events are the beginning and the regular end of a turn. */
  predicate TurnEnded(events: seq<Event>) {
    |events| >= 2 && events[|events| - 2] == StateChange(Running, Prompting) && events[|events| - 1] == StateChange(Running, Idle)
  }

  function TurnsCompleted(events: seq<Event>): nat {
    if events == [] then 0
    else TurnsCompleted(events[..|events| - 1]) + if events[|events| - 1].TurnComplete? then 1 else 0
  }

  function Successes(results: seq<AskResult>): nat {
    if results == [] then 0
    else Successes(results[..|results| - 1]) + if results[|results| - 1] == Ok then 1 else 0
  }

  /** Between operations nothing is in progress, and client and ACP session are there exactly while running. */
  predicate AtRest(s: Session) {
    && s.turn == Idle && !s.guarded && s.process != Starting
    && (s.process == Running <==> s.client.Some?) && (s.process == Running <==> s.acpSession.Some?)
    && (s.process != Running ==> s.rootPid == None)
    && (s.client.Some? ==> s.client.value < s.nextClient)
  }

  /** The recorded events are a legal path to the current state. */
  predicate Recorded(s: Session) {
    LegalPath(s.events) && Destination(s.events) == (s.process, s.turn)
  }

  lemma SetStatesRecords(s: Session, p: ProcessState, t: TurnState)
    requires Recorded(s) && Edge(s.process, s.turn, p, t)
    ensures Recorded(SetStates(s, p, t)) && TurnsCompleted(SetStates(s, p, t).events) == TurnsCompleted(s.events)
  {
    assert SetStates(s, p, t).events[..|s.events|] == s.events;
  }

  lemma EnsureRunningRecords(s: Session, w: World)
    requires AtRest(s) && Recorded(s)
    ensures var (s', failure) := EnsureRunning(s, w);
            && AtRest(s') && Recorded(s') && TurnsCompleted(s'.events) == TurnsCompleted(s.events)
            && (failure == None ==> s'.process == Running)
            && (failure.Some? ==> s'.process == Dead)
            && s'.nextClient >= s.nextClient
            && (s.process != Running && s'.client.Some? ==> s'.client.value == s.nextClient)
            && (s.process == Running ==> s' == s)
  {
    if s.process != Running {
      SetStatesRecords(s, Starting, Idle);
      var starting := SetStates(s, Starting, Idle);
      if !w.spawns {
        SetStatesRecords(starting, Dead, Idle);
      } else {
        var spawned := starting.(nextClient := s.nextClient + 1);
        if w.initializes && w.newSession != None {
          SetStatesRecords(spawned.(rootPid := w.pid, acpSession := w.newSession, client := Some(s.nextClient)), Running, Idle);
        } else {
          SetStatesRecords(spawned.(rootPid := None), Dead, Idle);
        }
      }
    }
  }

  lemma CompletionRecords(s: Session, reason: string)
    requires Recorded(s) && TurnEnded(s.events)
    ensures var s' := s.(events := s.events + [TurnComplete(reason)]);
            Recorded(s') && TurnsCompleted(s'.events) == TurnsCompleted(s.events) + 1
  {
    assert (s.events + [TurnComplete(reason)])[..|s.events|] == s.events;
  }

  /** The three ways a turn on a running session can end. */
  lemma TurnEndings(s: Session, reason: string)
    requires Recorded(s) && s.process == Running && s.turn == Idle
    ensures var prompting := SetStates(s, Running, Prompting);
            var idle, dead := SetStates(prompting, Running, Idle), MarkDead(prompting);
            var complete := idle.(events := idle.events + [TurnComplete(reason)]);
            && Recorded(idle) && Recorded(dead) && Recorded(complete)
            && TurnsCompleted(idle.events) == TurnsCompleted(dead.events) == TurnsCompleted(s.events)
            && TurnsCompleted(complete.events) == TurnsCompleted(s.events) + 1
  {
    SetStatesRecords(s, Running, Prompting);
    var prompting := SetStates(s, Running, Prompting);
    SetStatesRecords(prompting, Running, Idle);
    SetStatesRecords(prompting.(client := None, acpSession := None, rootPid := None), Dead, Idle);
    EndsTurn(s);
    CompletionRecords(SetStates(prompting, Running, Idle), reason);
  }

  lemma EndsTurn(s: Session)
    ensures TurnEnded(SetStates(SetStates(s, Running, Prompting), Running, Idle).events)
  {
  }

  lemma PromptTurnRecords(s: Session, w: World)
    requires AtRest(s) && Recorded(s) && s.process == Running
    ensures var (s', r) := PromptTurn(s, w);
            && AtRest(s') && Recorded(s') && s'.nextClient == s.nextClient
            && TurnsCompleted(s'.events) == TurnsCompleted(s.events) + (if r == Ok then 1 else 0)
            && r in {Ok, Err(PromptFailed), Err(RequestTimedOut)}
  {
    TurnEndings(s, if w.prompt.Succeeded? then w.prompt.reason else "");
  }

  lemma ApplyRecords(s: Session, op: Operation)
    requires AtRest(s) && Recorded(s)
    ensures var (s', r) := Apply(s, op);
            && AtRest(s') && Recorded(s') && s'.nextClient >= s.nextClient
            && TurnsCompleted(s'.events) == TurnsCompleted(s.events) + (if r == Ok then 1 else 0)
  {
    match op
    case Ask(w) =>
      EnsureRunningRecords(s, w);
      var (running, failure) := EnsureRunning(s, w);
      if failure == None {
        PromptTurnRecords(running, w);
      }
    case Shutdown =>
      SetStatesRecords(s.(client := None, acpSession := None, rootPid := None), Dead, Idle);
  }

  /** Over every run: between operations the turn is idle and free, `Running` holds exactly when both client
      and ACP session are there, the recorded state changes are a legal path ending in the current state, and
      there is one TurnComplete for every successful ask. */
  lemma {:induction false} RunStaysLegal(states: seq<Session>, ops: seq<Operation>, results: seq<AskResult>, i: nat)
    requires IsRun(states, ops, results) && i < |states|
    ensures AtRest(states[i])
    ensures LegalPath(states[i].events) && Destination(states[i].events) == (states[i].process, states[i].turn)
    ensures TurnsCompleted(states[i].events) == Successes(results[..i])
  {
    if i > 0 {
      RunStaysLegal(states, ops, results, i - 1);
      ApplyRecords(states[i - 1], ops[i - 1]);
      assert (states[i], results[i - 1]) == Apply(states[i - 1], ops[i - 1]);
      assert results[..i][..i - 1] == results[..i - 1];
    }
  }

  /** An ask by itself never meets a busy turn, a state it cannot start from, or a missing client. */
  lemma AskFailsOnlyForAReason(states: seq<Session>, ops: seq<Operation>, results: seq<AskResult>, i: nat)
    requires IsRun(states, ops, results) && i < |ops| && ops[i].Ask?
    ensures results[i] in {Ok, Err(SpawnFailed), Err(InitializeFailed), Err(NewSessionFailed), Err(PromptFailed), Err(RequestTimedOut)}
  {
    RunStaysLegal(states, ops, results, i);
    var s, w := states[i], ops[i].world;
    assert (states[i + 1], results[i]) == AskOf(s, w);
    EnsureRunningRecords(s, w);
    if EnsureRunning(s, w).1 == None {
      PromptTurnRecords(EnsureRunning(s, w).0, w);
    }
  }

  // ------------------------------------------------------------------ what an ask comes to

  /** The agent runs when the prompt is due: it did already, or all three steps of its start succeed. */
  predicate Starts(s: Session, w: World) {
    s.process == Running || (w.spawns && w.initializes && w.newSession.Some?)
  }

  /** The state changes of a start. */
  function StartEvents(s: Session, w: World): seq<Event> {
    if s.process == Running then []
    else [StateChange(Starting, Idle), if Starts(s, w) then StateChange(Running, Idle) else StateChange(Dead, Idle)]
  }

  /** Those of a turn. */
  function TurnEvents(w: World): seq<Event> {
    [StateChange(Running, Prompting)] +
    match w.prompt
    case Succeeded(reason) => [StateChange(Running, Idle), TurnComplete(reason)]
    case TimedOut => [StateChange(Dead, Idle)]
    case _ => [if w.connected then StateChange(Running, Idle) else StateChange(Dead, Idle)]
  }

  /** The client is lost: the start failed, the prompt timed out, or it failed and the flag was found cleared. */
  predicate LosesClient(s: Session, w: World) {
    || !Starts(s, w) || w.prompt.TimedOut?
    || ((w.prompt.AgentError? || w.prompt.Transport?) && !w.connected)
  }

  /** When each result comes back: for every result, exactly one situation. */
  predicate ResultFits(s: Session, w: World, r: AskResult) {
    && (r == Ok <==> Starts(s, w) && w.prompt.Succeeded?)
    && (r == Err(RequestTimedOut) <==> Starts(s, w) && w.prompt.TimedOut?)
    && (r == Err(PromptFailed) <==> Starts(s, w) && (w.prompt.AgentError? || w.prompt.Transport?))
    && (r == Err(SpawnFailed) <==> s.process != Running && !w.spawns)
    && (r == Err(InitializeFailed) <==> s.process != Running && w.spawns && !w.initializes)
    && (r == Err(NewSessionFailed) <==> s.process != Running && w.spawns && w.initializes && w.newSession == None)
  }

  /** What the ask leaves behind. */
  predicate Leaves(s: Session, w: World, s': Session) {
    && s'.events == s.events + StartEvents(s, w) + (if Starts(s, w) then TurnEvents(w) else [])
    && s'.turn == Idle && !s'.guarded
    && s'.nextClient == s.nextClient + (if s.process != Running && w.spawns then 1 else 0)
    && if LosesClient(s, w)
       then s'.process == Dead && s'.client == None && s'.acpSession == None && s'.rootPid == None
       else
         && s'.process == Running
         && if s.process == Running then (s'.client, s'.acpSession, s'.rootPid) == (s.client, s.acpSession, s.rootPid)
            else (s'.client, s'.acpSession, s'.rootPid) == (Some(s.nextClient), w.newSession, w.pid)
  }

  lemma StartOutcome(s: Session, w: World)
    requires AtRest(s)
    ensures var (s', failure) := EnsureRunning(s, w);
            && (failure == None <==> Starts(s, w))
            && (failure == Some(SpawnFailed) <==> s.process != Running && !w.spawns)
            && (failure == Some(InitializeFailed) <==> s.process != Running && w.spawns && !w.initializes)
            && (failure == Some(NewSessionFailed) <==> s.process != Running && w.spawns && w.initializes && w.newSession == None)
            && (failure.Some? ==> !Prompted(Err(failure.value)))
            && s'.events == s.events + StartEvents(s, w)
  {
  }

  lemma TurnOutcome(s: Session, w: World)
    requires s.client.Some? && s.acpSession.Some?
    ensures var (s', r) := PromptTurn(s, w);
            && (r == Ok <==> w.prompt.Succeeded?) && (r == Err(RequestTimedOut) <==> w.prompt.TimedOut?)
            && (r == Err(PromptFailed) <==> w.prompt.AgentError? || w.prompt.Transport?) && Prompted(r)
            && s'.events == s.events + TurnEvents(w)
  {
  }

  /** What an ask comes to, in every run: its result, the events it records and the state it leaves are determined
      by the state it finds and by what the agent does. In particular it succeeds exactly if the agent runs or can be
      started and the prompt succeeds. */
  lemma AskOutcome(states: seq<Session>, ops: seq<Operation>, results: seq<AskResult>, i: nat)
    requires IsRun(states, ops, results) && i < |ops| && ops[i].Ask?
    ensures ResultFits(states[i], ops[i].world, results[i])
    ensures Leaves(states[i], ops[i].world, states[i + 1])
  {
    RunStaysLegal(states, ops, results, i);
    assert (states[i + 1], results[i]) == AskOf(states[i], ops[i].world);
    StartOutcome(states[i], ops[i].world);
    var running := EnsureRunning(states[i], ops[i].world).0;
    if Starts(states[i], ops[i].world) {
      TurnOutcome(running, ops[i].world);
    } else {
      assert running.events + [] == running.events;
    }
  }

  /** A shutdown leaves nothing of the client, whatever there was. */
  lemma ShutdownOutcome(states: seq<Session>, ops: seq<Operation>, results: seq<AskResult>, i: nat)
    requires IsRun(states, ops, results) && i < |ops| && ops[i].Shutdown?
    ensures var s, s' := states[i], states[i + 1];
            && s'.process == Dead && s'.turn == Idle && s'.client == None && s'.acpSession == None && s'.rootPid == None
            && s'.events == s.events + [StateChange(Dead, Idle)] && s'.nextClient == s.nextClient
  {
    assert (states[i + 1], results[i]) == Apply(states[i], ops[i]);
  }

  // ------------------------------------------------------------------ death and restart

  /** The client an ask prompts, if it gets as far. */
  function ClientUsed(s: Session): nat {
    if s.process == Running && s.client.Some? then s.client.value else s.nextClient
  }

  predicate Prompted(r: AskResult) {
    r == Ok || r == Err(PromptFailed) || r == Err(RequestTimedOut)
  }

  /** The prompt failed in a way that ends the client: a timeout, or an error with the flag found cleared. */
  predicate Fatal(w: World, r: AskResult) {
    r == Err(RequestTimedOut) || (r == Err(PromptFailed) && !w.connected)
  }

  lemma EnsureRunningClient(s: Session, w: World)
    requires AtRest(s)
    ensures var (s', failure) := EnsureRunning(s, w);
            && (failure == None ==>
                 && s'.process == Running && s'.client == Some(ClientUsed(s)) && s'.acpSession.Some?
                 && s'.nextClient > ClientUsed(s))
            && (failure.Some? ==> s'.process == Dead && s'.nextClient >= ClientUsed(s) && !Prompted(Err(failure.value)))
  {
  }

  lemma PromptTurnClient(s: Session, w: World)
    requires s.client.Some? && s.acpSession.Some?
    ensures var (s', r) := PromptTurn(s, w);
            && s'.nextClient == s.nextClient && Prompted(r)
            && (if Fatal(w, r) then s'.process == Dead && s'.client == None else s'.process == Running && s'.client == s.client)
  {
  }

  lemma AskAndClients(s: Session, w: World)
    requires AtRest(s)
    ensures var (s', r) := AskOf(s, w);
            && (Prompted(r) && Fatal(w, r) ==> s'.process == Dead && s'.client == None && s'.nextClient > ClientUsed(s))
            && (Prompted(r) && !Fatal(w, r) ==> s'.process == Running && s'.client == Some(ClientUsed(s)))
            && ClientUsed(s') >= ClientUsed(s)
  {
    EnsureRunningClient(s, w);
    var (running, failure) := EnsureRunning(s, w);
    if failure == None {
      PromptTurnClient(running, w);
    }
  }

  lemma {:induction false} ClientsOnlyAdvance(states: seq<Session>, ops: seq<Operation>, results: seq<AskResult>, i: nat, j: nat)
    requires IsRun(states, ops, results) && i <= j < |states|
    ensures ClientUsed(states[i]) <= ClientUsed(states[j])
    decreases j
  {
    if i < j {
      ClientsOnlyAdvance(states, ops, results, i, j - 1);
      RunStaysLegal(states, ops, results, j - 1);
      assert (states[j], results[j - 1]) == Apply(states[j - 1], ops[j - 1]);
      if ops[j - 1].Ask? {
        AskAndClients(states[j - 1], ops[j - 1].world);
      }
    }
  }

  /** A client that failed fatally is never prompted again: the session goes Dead without a client, the next
      ask has to spawn, and every later ask that gets to prompt uses a younger client. So a dead client costs
      at most one failed ask. */
  lemma DeadClientCostsOneAsk(states: seq<Session>, ops: seq<Operation>, results: seq<AskResult>, i: nat, j: nat)
    requires IsRun(states, ops, results) && i < j < |ops| && ops[i].Ask? && ops[j].Ask?
    requires Prompted(results[i]) && Fatal(ops[i].world, results[i])
    ensures states[i + 1].process == Dead && states[i + 1].client == None
    ensures ClientUsed(states[j]) > ClientUsed(states[i])
  {
    RunStaysLegal(states, ops, results, i);
    assert (states[i + 1], results[i]) == Apply(states[i], ops[i]);
    AskAndClients(states[i], ops[i].world);
    ClientsOnlyAdvance(states, ops, results, i + 1, j);
  }

  /** The request table's promise carried up to the session: if the prompt failed because of the transport and
      `ask` inspects the flag at that moment or later, the session ends up Dead and without a client, whatever
      else happened to the client in between. */
  lemma TransportFailureEndsTheClient(
    table: seq<RT.State>, steps: seq<RT.Action>, i: nat, j: nat, id: int, s: Session, w: World)
    requires RT.IsRun(table, steps) && i <= j < |table|
    requires w.prompt.Transport? && RT.TransportFailure(w.prompt.outcome)
    requires RT.At(table[i], id, RT.Finished(w.prompt.outcome)) || (w.prompt.outcome == RT.Closed && table[i].refused > 0)
    requires w.connected == table[j].connected
    requires AtRest(s) && Recorded(s) && EnsureRunning(s, w).1 == None
    ensures AskOf(s, w).1 == Err(PromptFailed)
    ensures AskOf(s, w).0.process == Dead && AskOf(s, w).0.client == None && AskOf(s, w).0.turn == Idle
  {
    RT.TransportFailureIsVisible(table, steps, i, j);
    EnsureRunningRecords(s, w);
  }
}
