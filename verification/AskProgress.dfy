/** A turn that nothing disturbs: whatever texts the agent sends before it responds, `ask` can go on to return them. */
module AskProgress {
  import opened EventLog
  import opened EventLogSteps
  import opened Sequences
  import opened AskTurn

  ghost predicate Steps(states: seq<State>, acts: seq<AskTurn.Action>) {
    && |states| == |acts| + 1
    && forall i :: 0 <= i < |acts| ==> AskTurn.Next(states[i], acts[i], states[i + 1])
  }

  lemma Join2(s1: seq<State>, a1: seq<AskTurn.Action>, s2: seq<State>, a2: seq<AskTurn.Action>)
    requires Steps(s1, a1) && Steps(s2, a2) && s1[|a1|] == s2[0]
    ensures Steps(s1 + s2[1..], a1 + a2) && (s1 + s2[1..])[0] == s1[0] && (s1 + s2[1..])[|a1 + a2|] == s2[|a2|]
  {
    var states, acts := s1 + s2[1..], a1 + a2;
    forall i | 0 <= i < |acts| ensures AskTurn.Next(states[i], acts[i], states[i + 1]) {
      if i >= |a1| {
        assert AskTurn.Next(s2[i - |a1|], a2[i - |a1|], s2[i - |a1| + 1]);
      }
    }
  }

  /** The log after an append of `e` that nothing interrupts. */
  function Appended(log: Log, e: Event): Log {
    var ring := Retained(log.ring + [e], log.max);
    log.(nextSeq := log.nextSeq + 1, ring := ring, minSeq := if ring == [] then log.minSeq else ring[0].number,
         sent := log.sent + [e], pushed := log.pushed + [e])
  }

  /** The reader reads a chunk and logs it. */
  function Chunked(s: State, text: string): State {
    s.(lines := s.lines + [Chunk(text)], log := Appended(s.log, Event(s.log.nextSeq, s.me, MessageChunk(text))))
  }

  lemma ReadsChunk(s: State, text: string) returns (s1: State, s2: State)
    requires READER !in s.log.inFlight && text != ""
    ensures AskTurn.Next(s, ReadLine(Chunk(text)), s1)
    ensures AskTurn.Next(s1, AskTurn.Step(Push(READER)), s2)
    ensures AskTurn.Next(s2, AskTurn.Step(Broadcast(READER)), Chunked(s, text))
  {
    var e := Event(s.log.nextSeq, s.me, MessageChunk(text));
    var taken := s.log.(nextSeq := s.log.nextSeq + 1, inFlight := s.log.inFlight[READER := Taken(e)]);
    s1 := s.(lines := s.lines + [Chunk(text)], log := taken);
    var ring := Retained(s.log.ring + [e], s.log.max);
    var pushed := taken.(ring := ring, minSeq := if ring == [] then s.log.minSeq else ring[0].number,
                         inFlight := s.log.inFlight[READER := InFlight.Pushed(e)], pushed := s.log.pushed + [e]);
    assert taken.inFlight[READER := InFlight.Pushed(e)] == pushed.inFlight;
    s2 := s1.(log := pushed);
    assert pushed.inFlight - {READER} == s.log.inFlight;
    assert EventLogSteps.Next(taken, Push(READER), pushed);
    assert EventLogSteps.Next(pushed, Broadcast(READER), Chunked(s, text).log);
  }

  lemma KeepsInv(s: State, a: AskTurn.Action, s': State)
    requires AskTurn.Inv(s) && LogWorded(s.log) && AskTurn.Next(s, a, s')
    ensures AskTurn.Inv(s') && LogWorded(s'.log)
  {
    AskTurn.InvNext(s, a, s');
    WordedNext(s, a, s');
  }

  predicate NoneEmpty(texts: seq<string>) {
    forall i :: 0 <= i < |texts| ==> texts[i] != ""
  }

  function Spoken(texts: seq<string>): seq<Line> {
    if texts == [] then [Response] else [Chunk(texts[0])] + Spoken(texts[1..])
  }

  /** What stays the same while the reader reads. */
  predicate SameTurn(s: State, s': State) {
    && s'.me == s.me && s'.stale == s.stale && s'.ask == s.ask && s'.turnStart == s.turnStart
    && s'.pushedAtStart == s.pushedAtStart && s'.log.max == s.log.max && s'.log.inFlight == s.log.inFlight
  }

  /** A reachable state whose reader is between two lines. */
  ghost predicate Ready(s: State) {
    AskTurn.Inv(s) && LogWorded(s.log) && READER !in s.log.inFlight && s.me !in s.stale
  }

  lemma ChunkedIsReady(s: State, text: string)
    requires Ready(s) && text != ""
    ensures Ready(Chunked(s, text))
  {
    var s1, s2 := ReadsChunk(s, text);
    KeepsInv(s, ReadLine(Chunk(text)), s1);
    KeepsInv(s1, AskTurn.Step(Push(READER)), s2);
    KeepsInv(s2, AskTurn.Step(Broadcast(READER)), Chunked(s, text));
  }

  lemma ReadChunkAlone(s: State, text: string) returns (states: seq<State>, acts: seq<AskTurn.Action>)
    requires READER !in s.log.inFlight && text != ""
    ensures Steps(states, acts) && states[0] == s && states[|acts|] == Chunked(s, text)
  {
    var s1, s2 := ReadsChunk(s, text);
    states := [s, s1, s2, Chunked(s, text)];
    acts := [ReadLine(Chunk(text)), AskTurn.Step(Push(READER)), AskTurn.Step(Broadcast(READER))];
  }

  lemma RespondAlone(s: State) returns (states: seq<State>, acts: seq<AskTurn.Action>)
    requires Ready(s)
    ensures Steps(states, acts) && states[0] == s && states[|acts|] == s.(lines := s.lines + [Response])
    ensures Ready(s.(lines := s.lines + [Response]))
  {
    var s' := s.(lines := s.lines + [Response]);
    assert AskTurn.Next(s, ReadLine(Response), s');
    KeepsInv(s, ReadLine(Response), s');
    states, acts := [s, s'], [ReadLine(Response)];
  }

  /** The state after all this has been read. */
  function AllRead(s: State, texts: seq<string>): State
    decreases |texts|
  {
    if texts == [] then s.(lines := s.lines + [Response]) else AllRead(Chunked(s, texts[0]), texts[1..])
  }

  lemma {:induction false} ReadsAll(s: State, texts: seq<string>) returns (states: seq<State>, acts: seq<AskTurn.Action>)
    requires Ready(s) && NoneEmpty(texts)
    ensures Steps(states, acts) && states[0] == s && states[|acts|] == AllRead(s, texts) && Ready(AllRead(s, texts))
    decreases |texts|
  {
    if texts == [] {
      states, acts := RespondAlone(s);
    } else {
      var s1, a1 := ReadChunkAlone(s, texts[0]);
      ChunkedIsReady(s, texts[0]);
      var s2, a2 := ReadsAll(Chunked(s, texts[0]), texts[1..]);
      Join2(s1, a1, s2, a2);
      states, acts := s1 + s2[1..], a1 + a2;
    }
  }

  /** What is the same after all this, and what has grown. */
  lemma {:induction false} AllReadIs(s: State, texts: seq<string>)
    requires NoneEmpty(texts)
    ensures var s' := AllRead(s, texts);
            && SameTurn(s, s') && s'.lines == s.lines + Spoken(texts) && |s'.log.pushed| == |s.log.pushed| + |texts|
            && s.log.pushed <= s'.log.pushed
            && forall i :: |s.log.pushed| <= i < |s'.log.pushed| ==> s'.log.pushed[i].session == s.me
    decreases |texts|
  {
    if texts != [] {
      AllReadIs(Chunked(s, texts[0]), texts[1..]);
      Regroup(s.lines, [Chunk(texts[0])], Spoken(texts[1..]));
    }
  }

  lemma {:induction false} ChunksOfSpoken(before: seq<Line>, texts: seq<string>)
    requires NoneEmpty(texts)
    ensures Chunks(before + Spoken(texts)) == Chunks(before) + texts
    decreases |texts|
  {
    if texts == [] {
      assert (before + Spoken(texts))[..|before|] == before;
      assert Chunks(before) + texts == Chunks(before);
    } else {
      var more := before + [Chunk(texts[0])];
      assert more[..|before|] == before;
      ChunksOfSpoken(more, texts[1..]);
      Regroup(before, [Chunk(texts[0])], Spoken(texts[1..]));
      Regroup(Chunks(before), [texts[0]], texts[1..]);
      assert texts == [texts[0]] + texts[1..];
    }
  }

  function Answering(s: State): State
    requires s.ask.Prompting?
  {
    s.(ask := Collecting(s.ask.startSeq, s.log.minSeq))
  }

  lemma AnswerStep(s: State)
    requires Ready(s) && s.ask.Prompting? && s.turnStart <= |s.lines| && Response in s.lines[s.turnStart..]
    ensures AskTurn.Next(s, Answered, Answering(s)) && Ready(Answering(s))
  {
    KeepsInv(s, Answered, Answering(s));
  }

  lemma CollectStep(s: State, texts: seq<string>)
    requires Ready(s) && s.ask.Collecting? && s.stale == {}
    requires s.turnStart <= |s.lines| && s.lines[s.turnStart..] == Spoken(texts)
    requires NoneEmpty(texts) && |s.log.pushed| == s.pushedAtStart + |texts| && |texts| <= s.log.max
    ensures AskTurn.Next(s, Collect, s.(ask := Returned(Join(texts))))
  {
    TurnTexts(s, texts);
  }

  lemma CollectAlone(s: State, texts: seq<string>) returns (states: seq<State>, acts: seq<AskTurn.Action>)
    requires Ready(s) && s.ask.Prompting? && s.stale == {}
    requires s.turnStart <= |s.lines| && s.lines[s.turnStart..] == Spoken(texts)
    requires NoneEmpty(texts) && |s.log.pushed| == s.pushedAtStart + |texts| && |texts| <= s.log.max
    ensures Steps(states, acts) && states[0] == s && states[|acts|].ask == Returned(Join(texts))
  {
    SpokenResponds(texts);
    AnswerStep(s);
    CollectStep(Answering(s), texts);
    states, acts := [s, Answering(s), Answering(s).(ask := Returned(Join(texts)))], [Answered, Collect];
  }

  /** From a turn that has just begun to the answer. */
  lemma TurnAlone(s: State, texts: seq<string>) returns (states: seq<State>, acts: seq<AskTurn.Action>)
    requires Ready(s) && s.ask == Prompting(s.log.nextSeq) && s.turnStart == |s.lines| && s.pushedAtStart == |s.log.pushed|
    requires NoneEmpty(texts) && |texts| <= s.log.max
    requires s.stale == {}
    ensures Steps(states, acts) && states[0] == s && states[|acts|].ask == Returned(Join(texts))
  {
    var s1, a1 := ReadsAll(s, texts);
    AllReadIs(s, texts);
    TurnLines(s.lines, texts);
    var s2, a2 := CollectAlone(AllRead(s, texts), texts);
    Join2(s1, a1, s2, a2);
    states, acts := s1 + s2[1..], a1 + a2;
  }

  lemma TurnLines(before: seq<Line>, texts: seq<string>)
    ensures (before + Spoken(texts))[|before|..] == Spoken(texts) && Response in Spoken(texts)
  {
    SpokenResponds(texts);
  }

  lemma {:induction false} SpokenResponds(texts: seq<string>)
    ensures Response in Spoken(texts)
  {
    if texts == [] {
      assert Spoken(texts)[0] == Response;
    } else {
      SpokenResponds(texts[1..]);
    }
  }

  /** With room for the turn nothing of it is lost. */
  lemma NothingLost(s: State)
    requires RingInv(s.log) && TurnNumbers(s) && s.ask.Collecting? && |s.log.pushed| <= s.pushedAtStart + s.log.max
    ensures s.pushedAtStart <= |s.log.pushed| && |s.log.ring| <= |s.log.pushed|
    ensures Texts(Collected(s), {s.me}) == Logged(s)
  {
    KeptTexts(s);
    assert Logged(s)[0..] == Logged(s);
  }

  lemma TurnTexts(s: State, texts: seq<string>)
    requires Ready(s) && s.ask.Collecting? && s.stale == {}
    requires s.turnStart <= |s.lines| && s.lines[s.turnStart..] == Spoken(texts)
    requires NoneEmpty(texts) && |s.log.pushed| == s.pushedAtStart + |texts| && |texts| <= s.log.max
    ensures Join(Texts(Collected(s), s.stale + {s.me})) == Join(texts)
  {
    NothingLost(s);
    assert s.stale + {s.me} == {s.me};
    TurnIsLogged(s, texts);
  }

  lemma TurnIsLogged(s: State, texts: seq<string>)
    requires ChunksLogged(s) && READER !in s.log.inFlight && s.lines[s.turnStart..] == Spoken(texts) && NoneEmpty(texts)
    ensures Logged(s) == texts
  {
    var none: seq<Line> := [];
    ChunksOfSpoken(none, texts);
    assert none + Spoken(texts) == Spoken(texts) && Chunks(none) + texts == texts;
    assert Logged(s) + Unpushed(s) == Logged(s);
  }

  /** Every `ask` that begins undisturbed can return exactly what its agent is going to say: with no stale reader, room
      for the turn's chunks, and any texts. */
  lemma AskAlone(s: State, texts: seq<string>) returns (states: seq<State>, acts: seq<AskTurn.Action>)
    requires Ready(s) && !s.ask.Prompting? && !s.ask.Collecting? && s.stale == {}
    requires NoneEmpty(texts) && |texts| <= s.log.max
    ensures Steps(states, acts) && states[0] == s && acts != [] && acts[0] == BeginTurn
    ensures states[|acts|].ask == Returned(Join(texts))
  {
    var begun := s.(ask := Prompting(s.log.nextSeq), turnStart := |s.lines|, pushedAtStart := |s.log.pushed|);
    assert AskTurn.Next(s, BeginTurn, begun);
    KeepsInv(s, BeginTurn, begun);
    var s2, a2 := TurnAlone(begun, texts);
    var s1, a1 := [s, begun], [BeginTurn];
    Join2(s1, a1, s2, a2);
    states, acts := s1 + s2[1..], a1 + a2;
  }
}
