/** What a successful `ask` returns. The reader of the session's client logs the agent's message chunks while the
    prompt is outstanding; `ask` notes the next sequence number before it sends the prompt and afterwards collects
    its session's chunks from the log. The session may have further readers: those of clients that died in earlier
    asks and have not been stopped yet, which log under the same session. All appends, including those of other
    sessions, interleave at their real granularity. */
module AskTurn {
  import opened EventLog
  import opened EventLogSteps
  import opened Sequences

  /** A line from the agent, as the reader understands it. A chunk with no text is logged as nothing, and so
      stands for every line that is. */
  datatype Line = Chunk(text: string) | Response | Note(payload: Payload)

  datatype Ask =
    | Idle
    | Prompting(startSeq: nat)
    | Collecting(startSeq: nat, min: nat)
    | Returned(text: string)

  const READER: nat := 0

  datatype State = State(
    me: nat,                         // the reader of this client; an event's `session` names the reader that logged it
    stale: set<nat>,                 // the session's other readers
    log: Log,
    ask: Ask,
    lines: seq<Line>,                // history: what the reader has read
    turnStart: nat,                  // history: how many lines had been read when the turn began,
    pushedAtStart: nat)              // history: and how many events had been pushed

  datatype Action =
    | ReadLine(line: Line)           // read a line and, if it becomes an event, take its number
    | BeginTurn
    | Answered                       // the response has arrived; load `min_seq`
    | Collect
    | Step(log: EventLogSteps.Action)

  predicate IsChunk(e: Event, who: set<nat>) {
    e.session in who && e.payload.MessageChunk?
  }

  /** The texts of these readers' message chunks, in order. */
  function Texts(events: seq<Event>, who: set<nat>): seq<string> {
    if events == [] then []
    else
      var e := events[|events| - 1];
      Texts(events[..|events| - 1], who) + if IsChunk(e, who) then [e.payload.text] else []
  }

  function Join(texts: seq<string>): string {
    if texts == [] then "" else Join(texts[..|texts| - 1]) + texts[|texts| - 1]
  }

  /** The non-empty chunks among some lines; empty ones are not logged. */
  function Chunks(lines: seq<Line>): seq<string> {
    if lines == [] then []
    else
      var l := lines[|lines| - 1];
      Chunks(lines[..|lines| - 1]) + if l.Chunk? && l.text != "" then [l.text] else []
  }

  ghost predicate Init(s: State) {
    && s.me !in s.stale && EventLogSteps.Init(s.log) && s.ask == Idle && s.lines == [] && s.turnStart == 0 && s.pushedAtStart == 0
  }

  /** Only the client's own reader, on its own thread, appends its message chunks. No reader appends an empty one. */
  ghost predicate OtherAppend(s: State, a: EventLogSteps.Action) {
    a.Take? ==>
      && a.t != READER && !(a.session == s.me && a.payload.MessageChunk?)
      && (a.payload.MessageChunk? ==> a.payload.text != "")
  }

  /** What the replay of `collect_message_text` brings. */
  function Collected(s: State): seq<Event>
    requires s.ask.Collecting?
  {
    ReplayOf(s.log.ring, s.ask.min, s.ask.startSeq).events
  }

  ghost predicate Next(s: State, a: Action, s': State) {
    match a
    case ReadLine(line) =>
      && READER !in s.log.inFlight
      && (line.Note? ==> !line.payload.MessageChunk?)
      && s'.lines == s.lines + [line]
      && s' == s.(lines := s'.lines, log := s'.log)
      && if line.Response? || line == Chunk("") then s'.log == s.log
         else EventLogSteps.Next(s.log, Take(READER, s.me, if line.Chunk? then MessageChunk(line.text) else line.payload), s'.log)
    case BeginTurn =>
      && !s.ask.Prompting? && !s.ask.Collecting?
      && READER !in s.log.inFlight  // no chunk in flight
      && s' == s.(ask := Prompting(s.log.nextSeq), turnStart := |s.lines|, pushedAtStart := |s.log.pushed|)
    case Answered =>
      && s.ask.Prompting? && s.turnStart <= |s.lines| && Response in s.lines[s.turnStart..]
      && s' == s.(ask := Collecting(s.ask.startSeq, s.log.minSeq))
    case Collect =>
      && s.ask.Collecting?
      && s' == s.(ask := Returned(Join(Texts(Collected(s), s.stale + {s.me}))))
    case Step(step) =>
      && OtherAppend(s, step)
      && s' == s.(log := s'.log)
      && EventLogSteps.Next(s.log, step, s'.log)
  }

  ghost predicate IsRun(states: seq<State>, acts: seq<Action>) {
    && |states| == |acts| + 1 && Init(states[0])
    && forall i :: 0 <= i < |acts| ==> Next(states[i], acts[i], states[i + 1])
  }

  // ------------------------------------------------------------------ the invariant

  /** The chunk the reader has read but not pushed yet, if any. */
  function Unpushed(s: State): seq<string> {
    if READER in s.log.inFlight && s.log.inFlight[READER].Taken? && s.log.inFlight[READER].event.payload.MessageChunk?
    then [s.log.inFlight[READER].event.payload.text] else []
  }

  ghost predicate InTurn(s: State) {
    s.ask.Prompting? || s.ask.Collecting?
  }

  /** All the chunks read in this turn have been pushed, in order, except the one in the reader's hands. */
  ghost predicate ChunksLogged(s: State) {
    && s.turnStart <= |s.lines| && s.pushedAtStart <= |s.log.pushed|
    && Texts(s.log.pushed[s.pushedAtStart..], {s.me}) + Unpushed(s) == Chunks(s.lines[s.turnStart..])
    && InHand(s)
  }

  /** What is in the hands of the appenders. */
  ghost predicate InHand(s: State)
    requires s.turnStart <= |s.lines|
  {
    && (forall t :: t in s.log.inFlight && t != READER && s.log.inFlight[t].Taken? ==> !IsChunk(s.log.inFlight[t].event, {s.me}))
    && (READER in s.log.inFlight ==> s.log.inFlight[READER].event.session == s.me)
    && (s.ask.Collecting? ==> Response in s.lines[s.turnStart..])
    && (Unpushed(s) != [] ==>
          && s.turnStart < |s.lines| && s.lines[|s.lines| - 1] == Chunk(Unpushed(s)[0]) && Unpushed(s)[0] != "")
  }

  /** Numbers tell the turn's chunks from earlier ones, and a `min_seq` above the start means that everything
      pushed before the turn has been evicted. */
  ghost predicate TurnNumbers(s: State) {
    InTurn(s) ==>
      && s.ask.startSeq >= 1 && s.ask.startSeq <= s.log.nextSeq
      && s.pushedAtStart <= |s.log.pushed|
      && (forall i :: 0 <= i < s.pushedAtStart ==> s.log.pushed[i].number < s.ask.startSeq)
      && (forall i :: s.pushedAtStart <= i < |s.log.pushed| && IsChunk(s.log.pushed[i], {s.me}) ==>
            s.log.pushed[i].number >= s.ask.startSeq)
      && (READER in s.log.inFlight && s.log.inFlight[READER].Taken? ==>
            s.log.inFlight[READER].event.number >= s.ask.startSeq)
      && (s.ask.Collecting? && s.ask.min > s.ask.startSeq ==> s.pushedAtStart + |s.log.ring| <= |s.log.pushed|)
  }

  ghost predicate Inv(s: State) {
    EventLogSteps.Inv(s.log) && ChunksLogged(s) && TurnNumbers(s)
  }

  lemma TextsAppend(events: seq<Event>, e: Event, who: set<nat>)
    ensures Texts(events + [e], who) == Texts(events, who) + if IsChunk(e, who) then [e.payload.text] else []
  {
    assert (events + [e])[..|events|] == events;
  }

  lemma LogNext(s: Log, a: EventLogSteps.Action, s': Log)
    requires EventLogSteps.Inv(s) && EventLogSteps.Next(s, a, s')
    ensures EventLogSteps.Inv(s')
  {
    RingNext(s, a, s');
    NumbersNext(s, a, s');
    CoveredNext(s, a, s');
    BroadcastNext(s, a, s');
  }

  lemma LogStep(s: State, a: EventLogSteps.Action, s': State)
    requires Inv(s) && OtherAppend(s, a) && s' == s.(log := s'.log) && EventLogSteps.Next(s.log, a, s'.log)
    ensures Inv(s')
  {
    LogNext(s.log, a, s'.log);
    LogStepChunks(s, a, s');
    LogStepNumbers(s, a, s');
  }

  lemma PushedTexts(since: seq<Event>, e: Event, who: set<nat>, unpushed: seq<string>, later: seq<string>)
    requires if IsChunk(e, who) then unpushed == [e.payload.text] && later == [] else later == unpushed
    ensures Texts(since + [e], who) + later == Texts(since, who) + unpushed
  {
    TextsAppend(since, e, who);
    if IsChunk(e, who) {
      assert Texts(since + [e], who) + later == Texts(since + [e], who);
    } else {
      assert Texts(since, who) + [] == Texts(since, who);
    }
  }

  lemma LogPushChunks(s: State, t: nat, s': State)
    requires ChunksLogged(s) && s' == s.(log := s'.log) && EventLogSteps.Next(s.log, Push(t), s'.log)
    ensures ChunksLogged(s')
  {
    var e, who := s.log.inFlight[t].event, {s.me};
    var since := s.log.pushed[s.pushedAtStart..];
    assert s'.log.pushed[s.pushedAtStart..] == since + [e];
    PushedInHand(s, t, s');
    PushedTexts(since, e, who, Unpushed(s), Unpushed(s'));
  }

  lemma PushedInHand(s: State, t: nat, s': State)
    requires s.turnStart <= |s.lines| && InHand(s)
    requires s' == s.(log := s'.log) && EventLogSteps.Next(s.log, Push(t), s'.log)
    ensures InHand(s')
    ensures var e := s.log.inFlight[t].event;
            if IsChunk(e, {s.me}) then Unpushed(s) == [e.payload.text] && Unpushed(s') == [] else Unpushed(s') == Unpushed(s)
  {
  }

  lemma LogStepChunks(s: State, a: EventLogSteps.Action, s': State)
    requires ChunksLogged(s) && OtherAppend(s, a) && s' == s.(log := s'.log) && EventLogSteps.Next(s.log, a, s'.log)
    ensures ChunksLogged(s')
  {
    if a.Push? {
      LogPushChunks(s, a.t, s');
    } else {
      assert s'.log.pushed == s.log.pushed && Unpushed(s') == Unpushed(s);
    }
  }

  lemma LogStepNumbers(s: State, a: EventLogSteps.Action, s': State)
    requires ChunksLogged(s) && TurnNumbers(s) && OtherAppend(s, a)
    requires s' == s.(log := s'.log) && EventLogSteps.Next(s.log, a, s'.log)
    ensures TurnNumbers(s')
  {
    if a.Push? {
      LogPushNumbers(s, a.t, s');
    }
  }

  lemma LogPushNumbers(s: State, t: nat, s': State)
    requires ChunksLogged(s) && TurnNumbers(s)
    requires s' == s.(log := s'.log) && EventLogSteps.Next(s.log, Push(t), s'.log)
    ensures TurnNumbers(s')
  {
    if InTurn(s) {
      var e, n := s.log.inFlight[t].event, |s.log.pushed|;
      assert |s'.log.ring| <= |s.log.ring| + 1;
      assert s'.log.pushed == s.log.pushed + [e];
      assert IsChunk(e, {s.me}) ==> t == READER && e.number >= s.ask.startSeq;
    }
  }

  lemma LineStep(s: State, line: Line, s': State)
    requires Inv(s) && Next(s, ReadLine(line), s')
    ensures Inv(s')
  {
    if !(line.Response? || line == Chunk("")) {
      LogNext(s.log, Take(READER, s.me, if line.Chunk? then MessageChunk(line.text) else line.payload), s'.log);
    }
    LineStepChunks(s, line, s');
    LineStepNumbers(s, line, s');
  }

  lemma ChunksAppend(lines: seq<Line>, line: Line)
    ensures Chunks(lines + [line]) == Chunks(lines) + if line.Chunk? && line.text != "" then [line.text] else []
  {
    assert (lines + [line])[..|lines|] == lines;
  }

  lemma LineInHand(s: State, line: Line, s': State)
    requires s.turnStart <= |s.lines| && InHand(s) && Next(s, ReadLine(line), s')
    ensures InHand(s') && s'.log.pushed == s.log.pushed
    ensures Unpushed(s) == [] && Unpushed(s') == if line.Chunk? && line.text != "" then [line.text] else []
  {
    var since := s.lines[s.turnStart..];
    assert s'.lines[s.turnStart..] == since + [line];
    if Response in since {
      assert Response in since + [line];
    }
  }

  lemma LineStepChunks(s: State, line: Line, s': State)
    requires ChunksLogged(s) && Next(s, ReadLine(line), s')
    ensures ChunksLogged(s')
  {
    var since := s.lines[s.turnStart..];
    LineInHand(s, line, s');
    ChunksAppend(since, line);
    assert s'.lines[s.turnStart..] == since + [line];
    assert Chunks(since) + [] == Chunks(since);
  }

  lemma LineStepNumbers(s: State, line: Line, s': State)
    requires TurnNumbers(s) && Next(s, ReadLine(line), s')
    ensures TurnNumbers(s')
  {
  }

  lemma TurnStep(s: State, a: Action, s': State)
    requires Inv(s) && Next(s, a, s') && (a.BeginTurn? || a.Answered? || a.Collect?)
    ensures Inv(s')
  {
    if a.BeginTurn? {
      assert s.log.pushed[|s.log.pushed|..] == [] && s.lines[|s.lines|..] == [];
    }
    if s.log.ring != [] {
      assert s.log.ring[0] == s.log.pushed[|s.log.pushed| - |s.log.ring|];
    }
  }

  lemma InvNext(s: State, a: Action, s': State)
    requires Inv(s) && Next(s, a, s')
    ensures Inv(s')
  {
    match a
    case ReadLine(line) => LineStep(s, line, s');
    case Step(step) => LogStep(s, step, s');
    case _ => TurnStep(s, a, s');
  }

  lemma InitInv(s: State)
    requires Init(s)
    ensures Inv(s)
  {
    assert RingInv(s.log) && NumbersInv(s.log) && Covered(s.log) && BroadcastInv(s.log);
    assert s.log.pushed[0..] == s.log.pushed && s.lines[0..] == s.lines;
  }

  lemma {:induction false} RunInv(states: seq<State>, acts: seq<Action>, i: nat)
    requires IsRun(states, acts) && i < |states|
    ensures Inv(states[i])
  {
    if i == 0 {
      InitInv(states[0]);
    } else {
      RunInv(states, acts, i - 1);
      var s, a, s' := states[i - 1], acts[i - 1], states[i];
      assert Next(s, a, s');
      InvNext(s, a, s');
    }
  }

  // ------------------------------------------------------------------ the theorem

  lemma {:induction false} TextsOfSuffix(events: seq<Event>, who: set<nat>, k: nat)
    requires k <= |events|
    ensures Texts(events, who) == Texts(events[..k], who) + Texts(events[k..], who)
    decreases |events|
  {
    if k == |events| {
      assert events[..k] == events && events[k..] == [];
    } else {
      var init, e := events[..|events| - 1], events[|events| - 1];
      TextsOfSuffix(init, who, k);
      assert init[..k] == events[..k];
      assert events[k..] == init[k..] + [e];
      TextsAppend(init[k..], e, who);
      Regroup(Texts(events[..k], who), Texts(init[k..], who), if IsChunk(e, who) then [e.payload.text] else []);
    }
  }

  /** Dropping events that are no chunks of this session does not change the texts. */
  lemma {:induction false} TextsOfFiltered(events: seq<Event>, who: set<nat>, from: nat)
    requires forall i :: 0 <= i < |events| && IsChunk(events[i], who) ==> events[i].number >= from
    ensures Texts(AtLeast(events, from), who) == Texts(events, who)
  {
    if events != [] {
      var init, e := events[..|events| - 1], events[|events| - 1];
      TextsOfFiltered(init, who, from);
      if e.number >= from {
        TextsAppend(AtLeast(init, from), e, who);
      } else {
        assert AtLeast(events, from) == AtLeast(init, from);
      }
    }
  }

  lemma {:induction false} AtLeastOfSuffix(events: seq<Event>, from: nat, k: nat)
    requires k <= |events|
    ensures AtLeast(events, from) == AtLeast(events[..k], from) + AtLeast(events[k..], from)
    decreases |events|
  {
    if k == |events| {
      assert events[..k] == events && events[k..] == [];
    } else {
      var init := events[..|events| - 1];
      AtLeastOfSuffix(init, from, k);
      assert init[..k] == events[..k];
      assert events[k..][..|events| - 1 - k] == init[k..];
    }
  }

  lemma CollectedFromStart(ring: seq<Event>, who: set<nat>, from: nat, before: nat)
    requires before <= |ring|
    requires forall i :: 0 <= i < before ==> ring[i].number < from
    requires forall i :: before <= i < |ring| && IsChunk(ring[i], who) ==> ring[i].number >= from
    ensures Texts(AtLeast(ring, from), who) == Texts(ring[before..], who)
  {
    AtLeastOfSuffix(ring, from, before);
    NothingOld(ring[..before], from);
    TextsOfFiltered(ring[before..], who, from);
    assert [] + AtLeast(ring[before..], from) == AtLeast(ring[before..], from);
  }

  /** The position in push order from which the turn's events are still in the ring. */
  function Kept(s: State): (k: nat)
    requires s.pushedAtStart <= |s.log.pushed| && |s.log.ring| <= |s.log.pushed|
    ensures s.pushedAtStart <= k <= |s.log.pushed|
  {
    var cut := |s.log.pushed| - |s.log.ring|;
    if cut > s.pushedAtStart then cut else s.pushedAtStart
  }

  /** Of a ring that still holds what was pushed just before the turn, filtering by number leaves the turn. */
  lemma TurnInRing(pushed: seq<Event>, cut: nat, start: nat, who: set<nat>, from: nat)
    requires cut <= |pushed| && start <= |pushed|
    requires forall i :: 0 <= i < start ==> pushed[i].number < from
    requires forall i :: start <= i < |pushed| && IsChunk(pushed[i], who) ==> pushed[i].number >= from
    ensures Texts(AtLeast(pushed[cut..], from), who) == Texts(pushed[if cut > start then cut else start..], who)
  {
    var ring, before := pushed[cut..], if cut > start then 0 else start - cut;
    assert forall i :: 0 <= i < |ring| ==> ring[i] == pushed[cut + i];
    CollectedFromStart(ring, who, from, before);
    SuffixOfSuffix(pushed, cut, before);
  }

  /** The collected texts are those of the turn's events that are still in the ring. */
  lemma CollectedTexts(s: State)
    requires RingInv(s.log) && TurnNumbers(s) && s.ask.Collecting?
    ensures Texts(Collected(s), {s.me}) == Texts(s.log.pushed[Kept(s)..], {s.me})
  {
    var pushed, ring := s.log.pushed, s.log.ring;
    var cut := |pushed| - |ring|;
    assert ring == pushed[cut..];
    if s.ask.min <= s.ask.startSeq {
      TurnInRing(pushed, cut, s.pushedAtStart, {s.me}, s.ask.startSeq);
    } else {
      assert Collected(s) == ring && Kept(s) == cut;
    }
  }

  lemma {:induction false} ChunksPrefix(lines: seq<Line>, k: nat)
    requires k <= |lines|
    ensures Chunks(lines[..k]) <= Chunks(lines)
    decreases |lines|
  {
    if k == |lines| {
      assert lines[..k] == lines;
    } else {
      ChunksPrefix(lines[..|lines| - 1], k);
      assert lines[..|lines| - 1][..k] == lines[..k];
    }
  }

  lemma DropLast(a: seq<string>, b: seq<string>, x: string)
    requires a + [x] == b + [x]
    ensures a == b
  {
    assert a == (a + [x])[..|a|] && b == (b + [x])[..|b|];
  }

  /** The lines of a turn with the last chunk still in the reader's hands. */
  lemma HeldBack(turn: seq<Line>, logged: seq<string>, x: string)
    requires turn != [] && turn[|turn| - 1] == Chunk(x) && x != "" && logged + [x] == Chunks(turn)
    ensures logged == Chunks(turn[..|turn| - 1])
  {
    var done := turn[..|turn| - 1];
    assert Chunks(turn) == Chunks(done) + [x];
    DropLast(logged, Chunks(done), x);
  }

  lemma LoggedPrefix(turn: seq<Line>, logged: seq<string>, unpushed: seq<string>, k: nat)
    requires logged + unpushed == Chunks(turn) && k < |turn| && turn[k] == Response
    requires unpushed == [] || (unpushed == [unpushed[0]] && turn[|turn| - 1] == Chunk(unpushed[0]) && unpushed[0] != "")
    ensures Chunks(turn[..k]) <= logged
  {
    if unpushed == [] {
      assert logged == logged + unpushed;
      ChunksPrefix(turn, k);
    } else {
      HeldBack(turn, logged, unpushed[0]);
      var done := turn[..|turn| - 1];
      ChunksPrefix(done, k);
      assert done[..k] == turn[..k];
    }
  }

  lemma LoggedUpToResponse(s: State, r: nat)
    requires ChunksLogged(s) && s.turnStart <= r < |s.lines| && s.lines[r] == Response
    ensures Chunks(s.lines[s.turnStart..r]) <= Texts(s.log.pushed[s.pushedAtStart..], {s.me})
  {
    var turn, since := s.lines[s.turnStart..], s.log.pushed[s.pushedAtStart..];
    var logged, k := Texts(since, {s.me}), r - s.turnStart;
    assert turn[k] == Response && turn[..k] == s.lines[s.turnStart..r];
    assert Unpushed(s) == [] || turn[|turn| - 1] == s.lines[|s.lines| - 1];
    LoggedPrefix(turn, logged, Unpushed(s), k);
  }

  // ------------------------------------------------------------------ other readers of the session

  /** No event without text is logged as a chunk. */
  predicate Worded(e: Event) {
    e.payload.MessageChunk? ==> e.payload.text != ""
  }

  ghost predicate LogWorded(s: Log) {
    && (forall i :: 0 <= i < |s.pushed| ==> Worded(s.pushed[i]))
    && (forall t :: t in s.inFlight ==> Worded(s.inFlight[t].event))
  }

  lemma WordedNext(s: State, a: Action, s': State)
    requires LogWorded(s.log) && Next(s, a, s')
    ensures LogWorded(s'.log) && s'.me == s.me && s'.stale == s.stale
  {
  }

  lemma {:induction false} RunWorded(states: seq<State>, acts: seq<Action>, i: nat)
    requires IsRun(states, acts) && i < |states|
    ensures LogWorded(states[i].log) && states[i].me !in states[i].stale
  {
    if i > 0 {
      RunWorded(states, acts, i - 1);
      WordedNext(states[i - 1], acts[i - 1], states[i]);
    }
  }

  /** A chunk of another reader of the session is in the log when `ask` collects, and is collected. */
  ghost predicate StaleChunkCollected(s: State)
    requires s.ask.Collecting?
  {
    exists e :: e in s.log.ring && IsChunk(e, s.stale) && (e.number >= s.ask.startSeq || 0 < s.ask.startSeq < s.ask.min)
  }

  lemma {:induction false} AtLeastHas(events: seq<Event>, from: nat, e: Event)
    ensures e in AtLeast(events, from) <==> e in events && e.number >= from
  {
    if events != [] {
      AtLeastHas(events[..|events| - 1], from, e);
      assert events == events[..|events| - 1] + [events[|events| - 1]];
    }
  }

  lemma CollectedHas(s: State, e: Event)
    requires s.ask.Collecting?
    ensures e in Collected(s) <==> e in s.log.ring && (e.number >= s.ask.startSeq || 0 < s.ask.startSeq < s.ask.min)
  {
    AtLeastHas(s.log.ring, s.ask.startSeq, e);
  }

  lemma JoinAppend(texts: seq<string>, text: string)
    ensures Join(texts + [text]) == Join(texts) + text
  {
    assert (texts + [text])[..|texts|] == texts;
  }

  lemma JoinTexts(events: seq<Event>, who: set<nat>)
    requires events != []
    ensures var init, e := events[..|events| - 1], events[|events| - 1];
            Join(Texts(events, who)) == Join(Texts(init, who)) + if IsChunk(e, who) then e.payload.text else ""
  {
    var init, e := events[..|events| - 1], events[|events| - 1];
    if IsChunk(e, who) {
      JoinAppend(Texts(init, who), e.payload.text);
    } else {
      assert Texts(events, who) == Texts(init, who);
    }
  }

  /** The text of more readers is longer, unless they contributed nothing. */
  ghost predicate Contributed(events: seq<Event>, stale: set<nat>) {
    exists e :: e in events && IsChunk(e, stale)
  }

  lemma ContributedNext(events: seq<Event>, stale: set<nat>)
    requires events != []
    ensures Contributed(events, stale) <==>
            Contributed(events[..|events| - 1], stale) || IsChunk(events[|events| - 1], stale)
  {
    assert events == events[..|events| - 1] + [events[|events| - 1]];
  }

  lemma {:induction false} MoreReaders(events: seq<Event>, me: nat, stale: set<nat>)
    requires me !in stale && forall i :: 0 <= i < |events| ==> Worded(events[i])
    ensures var own, all := Join(Texts(events, {me})), Join(Texts(events, stale + {me}));
            if Contributed(events, stale) then |all| > |own| else all == own
  {
    if events != [] {
      var e := events[|events| - 1];
      MoreReaders(events[..|events| - 1], me, stale);
      JoinTexts(events, {me});
      JoinTexts(events, stale + {me});
      ContributedNext(events, stale);
      assert IsChunk(e, stale + {me}) <==> IsChunk(e, stale) || IsChunk(e, {me});
      assert !(IsChunk(e, stale) && IsChunk(e, {me})) && Worded(e);
    }
  }

  lemma OwnTextIff(s: State)
    requires s.ask.Collecting? && s.me !in s.stale && LogWorded(s.log) && RingInv(s.log)
    ensures Join(Texts(Collected(s), s.stale + {s.me})) == Join(Texts(Collected(s), {s.me})) <==> !StaleChunkCollected(s)
  {
    var events := Collected(s);
    forall i | 0 <= i < |events| ensures Worded(events[i]) {
      CollectedHas(s, events[i]);
      assert events[i] in s.log.pushed;
    }
    MoreReaders(events, s.me, s.stale);
    if e :| e in events && IsChunk(e, s.stale) {
      CollectedHas(s, e);
    }
    if e :| e in s.log.ring && IsChunk(e, s.stale) && (e.number >= s.ask.startSeq || 0 < s.ask.startSeq < s.ask.min) {
      CollectedHas(s, e);
    }
  }

  // ------------------------------------------------------------------ what is returned

  /** The texts of the turn's chunks that have been pushed so far, and of those already evicted. */
  function Logged(s: State): seq<string>
    requires s.pushedAtStart <= |s.log.pushed|
  {
    Texts(s.log.pushed[s.pushedAtStart..], {s.me})
  }

  function Lost(s: State): seq<string>
    requires s.pushedAtStart <= |s.log.pushed| && |s.log.ring| <= |s.log.pushed|
  {
    Texts(s.log.pushed[s.pushedAtStart..Kept(s)], {s.me})
  }

  /** The text of a turn is the concatenation, in order, of its message chunks that have been pushed, without those the
      ring has already evicted, which come first. The pushed chunks are every chunk the agent sent before the prompt
      response, followed only by chunks it sent later. A successful `ask` returns exactly this text if no chunk of a
      stale reader is collected with it, as when there is no stale reader, and only then. */
  lemma AskReturnsTheTurn(states: seq<State>, acts: seq<Action>, i: nat)
    requires IsRun(states, acts) && i < |acts| && acts[i] == Collect
    ensures var s := states[i];
            && s.pushedAtStart <= |s.log.pushed| && |s.log.ring| <= |s.log.pushed|
            && Lost(s) <= Logged(s)
            && s.ask.Collecting?
            && (states[i + 1].ask == Returned(Join(Logged(s)[|Lost(s)|..])) <==> !StaleChunkCollected(s))
            && (s.stale == {} ==> !StaleChunkCollected(s))
            && (s.pushedAtStart + |s.log.ring| >= |s.log.pushed| ==> Lost(s) == [])
            && s.turnStart <= |s.lines| && Logged(s) <= Chunks(s.lines[s.turnStart..])
            && Response in s.lines[s.turnStart..]
            && forall r :: s.turnStart <= r < |s.lines| && s.lines[r] == Response ==>
                 Chunks(s.lines[s.turnStart..r]) <= Logged(s)
  {
    RunInv(states, acts, i);
    var s := states[i];
    assert Next(s, acts[i], states[i + 1]);
    KeptTexts(s);
    RunWorded(states, acts, i);
    OwnTextIff(s);
    forall r | s.turnStart <= r < |s.lines| && s.lines[r] == Response
      ensures Chunks(s.lines[s.turnStart..r]) <= Logged(s)
    {
      LoggedUpToResponse(s, r);
    }
  }

  lemma KeptTexts(s: State)
    requires RingInv(s.log) && TurnNumbers(s) && s.ask.Collecting?
    ensures Lost(s) <= Logged(s)
    ensures Texts(Collected(s), {s.me}) == Logged(s)[|Lost(s)|..]
    ensures s.pushedAtStart + |s.log.ring| >= |s.log.pushed| ==> Lost(s) == []
  {
    CollectedTexts(s);
    var turn := s.log.pushed[s.pushedAtStart..];
    var k := Kept(s) - s.pushedAtStart;
    TextsOfSuffix(turn, {s.me}, k);
    assert turn[k..] == s.log.pushed[Kept(s)..];
    assert turn[..k] == s.log.pushed[s.pushedAtStart..Kept(s)];
  }

  /** A turn whose own agent says nothing, while the reader of a client that died before logs one more chunk. */
  function Leak(k: nat, text: string): State {
    var e := Event(1, 1, MessageChunk(text));
    var empty, taken := Log(1, [], 0, 10, [], map[], []), Log(2, [], 0, 10, [], map[1 := Taken(e)], []);
    var pushed := Log(2, [e], 1, 10, [], map[1 := InFlight.Pushed(e)], [e]);
    if k == 0 then State(0, {1}, empty, Idle, [], 0, 0)
    else if k == 1 then State(0, {1}, empty, Prompting(1), [], 0, 0)
    else if k == 2 then State(0, {1}, taken, Prompting(1), [], 0, 0)
    else if k == 3 then State(0, {1}, pushed, Prompting(1), [], 0, 0)
    else if k == 4 then State(0, {1}, pushed, Prompting(1), [Response], 0, 0)
    else if k == 5 then State(0, {1}, pushed, Collecting(1, 1), [Response], 0, 0)
    else State(0, {1}, pushed, Returned(text), [Response], 0, 0)
  }

  function LeakActions(text: string): seq<Action> {
    [BeginTurn, Step(Take(1, 1, MessageChunk(text))), Step(Push(1)), ReadLine(Response), Answered, Collect]
  }

  lemma LeakStep(k: nat, text: string)
    requires k < 6 && text != ""
    ensures Next(Leak(k, text), LeakActions(text)[k], Leak(k + 1, text))
  {
    var e, s, s' := Event(1, 1, MessageChunk(text)), Leak(k, text), Leak(k + 1, text);
    if k == 2 {
      assert s'.log.ring == s.log.ring + [e] && Retained(s'.log.ring, 10) == s'.log.ring;
    } else if k == 3 {
      assert s'.lines == s.lines + [Response];
    } else if k == 4 {
      assert s.lines[0..] == s.lines && Response in s.lines;
    } else if k == 5 {
      CollectsOne(s, e);
    }
  }

  lemma CollectsOne(s: State, e: Event)
    requires s.ask == Collecting(1, 1) && s.log.ring == [e] && e.number == 1 && IsChunk(e, s.stale)
    ensures Join(Texts(Collected(s), s.stale + {s.me})) == e.payload.text
  {
    var one, none: seq<Event> := s.log.ring, [];
    assert one[..0] == none && AtLeast(none, 1) == none;
    assert Collected(s) == one;
    assert Texts(none, s.stale + {s.me}) == [];
    JoinTexts(one, s.stale + {s.me});
  }

  /** So the text of an earlier turn's agent can be returned as the answer of this one. */
  lemma StaleReaderLeaks(text: string) returns (states: seq<State>, acts: seq<Action>)
    requires text != ""
    ensures IsRun(states, acts) && |states| == 7 && acts[5] == Collect
    ensures Chunks(states[6].lines) == [] && states[6].ask == Returned(text)
  {
    states := seq(7, k requires 0 <= k < 7 => Leak(k, text));
    acts := LeakActions(text);
    forall k | 0 <= k < 6 ensures Next(states[k], acts[k], states[k + 1]) {
      LeakStep(k, text);
    }
    var lines, none: seq<Line> := states[6].lines, [];
    assert lines[..0] == none && Chunks(none) == [];
  }
}
