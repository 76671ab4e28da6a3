/** A session and the clients it goes through: every prompt of an `ask` is a stretch of some client's run of the
    request table, and what `ask` finds in the `connected` flag is the flag of that run. */
module ClientLife {
  import RT = RequestTable
  import S = Session
  import opened Wrappers

  /** The whole life of one client's request table. */
  datatype Client = Client(states: seq<RT.State>, steps: seq<RT.Action>)

  /** An ask's prompt in its client's run: when it begins, and when `ask` inspects the flag afterwards. */
  datatype Span = Span(begin: nat, end: nat)

  /** How `ask` sees the outcome of its request. */
  predicate SeenAs(o: RT.Outcome, prompt: S.Prompt) {
    match o
    case Answered(FromLine(_)) => prompt.Succeeded? || prompt == S.AgentError
    case Unserialisable => prompt == S.AgentError
    case _ => prompt == S.Transport(o)
  }

  /** The prompt's request, from its first look at the flag in step `at`: turned away there, or given an id and
      finished before the end. */
  ghost predicate RequestAt(c: Client, span: Span, at: nat, prompt: S.Prompt)
    requires |c.states| == |c.steps| + 1 && span.end < |c.states|
  {
    && span.begin <= at < span.end && c.steps[at] == RT.FirstCheck
    && if !c.states[at].connected then prompt == S.Transport(RT.Closed)
       else exists id: int, q: nat, o :: FinishedAt(c, at, q, id, o) && q <= span.end && SeenAs(o, prompt)
  }

  /** A call that took its id after step `at` has finished by step `q`. */
  ghost predicate FinishedAt(c: Client, at: nat, q: nat, id: int, o: RT.Outcome) {
    at < q < |c.states| && id !in c.states[at].calls && RT.At(c.states[q], id, RT.Finished(o))
  }

  ghost predicate PromptIn(c: Client, span: Span, prompt: S.Prompt)
    requires |c.states| == |c.steps| + 1
  {
    && span.begin <= span.end < |c.states|
    && (prompt == S.TimedOut || exists at: nat :: RequestAt(c, span, at, prompt))
  }

  /** A run of a session together with the runs of its clients. */
  datatype Life = Life(
    states: seq<S.Session>, ops: seq<S.Operation>, results: seq<S.AskResult>, spans: seq<Span>, clients: map<nat, Client>)

  /** Operation `i` is an ask that got as far as its prompt. */
  predicate Prompts(l: Life, i: nat) {
    i < |l.ops| && i < |l.results| && l.ops[i].Ask? && S.Prompted(l.results[i])
  }

  ghost predicate IsLife(l: Life) {
    && S.IsRun(l.states, l.ops, l.results) && |l.spans| == |l.ops|
    && (forall c :: c in l.clients ==> RT.IsRun(l.clients[c].states, l.clients[c].steps))
    && forall i: nat :: Prompts(l, i) ==>
         && S.ClientUsed(l.states[i]) in l.clients
         && var client, w := l.clients[S.ClientUsed(l.states[i])], l.ops[i].world;
            PromptIn(client, l.spans[i], w.prompt) && w.connected == client.states[l.spans[i].end].connected
  }

  /** A cleared flag stays cleared. */
  lemma FlagStays(c: Client, i: nat, j: nat)
    requires RT.IsRun(c.states, c.steps) && i <= j < |c.states| && !c.states[i].connected
    ensures !c.states[j].connected
  {
    RT.CompletedAtMostOnce(c.states, c.steps, i, j);
  }

  lemma FailedCallClears(c: Client, at: nat, q: nat, id: int, o: RT.Outcome, end: nat)
    requires RT.IsRun(c.states, c.steps) && FinishedAt(c, at, q, id, o) && q <= end < |c.states|
    requires RT.TransportFailure(o)
    ensures !c.states[end].connected
  {
    RT.TransportFailureIsVisible(c.states, c.steps, q, end);
  }

  lemma TransportClears(c: Client, span: Span, prompt: S.Prompt)
    requires RT.IsRun(c.states, c.steps) && PromptIn(c, span, prompt) && prompt.Transport?
    ensures !c.states[span.end].connected
  {
    var at: nat :| RequestAt(c, span, at, prompt);
    if !c.states[at].connected {
      FlagStays(c, at, span.end);
    } else {
      var id: int, q: nat, o :| FinishedAt(c, at, q, id, o) && q <= span.end && SeenAs(o, prompt);
      FailedCallClears(c, at, q, id, o, span.end);
    }
  }

  lemma DeadBeforePrompt(c: Client, span: Span, prompt: S.Prompt)
    requires RT.IsRun(c.states, c.steps) && PromptIn(c, span, prompt) && !c.states[span.begin].connected
    ensures prompt == S.TimedOut || prompt == S.Transport(RT.Closed)
    ensures !c.states[span.end].connected
  {
    FlagStays(c, span.begin, span.end);
    if prompt != S.TimedOut {
      var at: nat :| RequestAt(c, span, at, prompt);
      FlagStays(c, span.begin, at);
    }
  }

  /** The result of an ask that prompted, by what the prompt came to. */
  lemma PromptDecides(s: S.Session, w: S.World)
    requires S.Prompted(S.AskOf(s, w).1)
    ensures w.prompt == S.TimedOut ==> S.AskOf(s, w).1 == S.Err(S.RequestTimedOut)
    ensures w.prompt.Transport? || w.prompt == S.AgentError ==> S.AskOf(s, w).1 == S.Err(S.PromptFailed)
  {
  }

  /** A transport failure always ends the client: `ask` finds the flag cleared. And an ask begun on a client that is
      already dead always ends so, whether the first look turns it away or the timeout strikes first. */
  lemma TransportFailureIsFatal(l: Life, i: nat)
    requires IsLife(l) && Prompts(l, i)
    requires var client := l.clients[S.ClientUsed(l.states[i])];
             l.ops[i].world.prompt.Transport? || !client.states[l.spans[i].begin].connected
    ensures S.Fatal(l.ops[i].world, l.results[i])
    ensures l.states[i + 1].process == S.Dead && l.states[i + 1].client == None
  {
    var client, w := l.clients[S.ClientUsed(l.states[i])], l.ops[i].world;
    if w.prompt.Transport? {
      TransportClears(client, l.spans[i], w.prompt);
    } else {
      DeadBeforePrompt(client, l.spans[i], w.prompt);
    }
    assert (l.states[i + 1], l.results[i]) == S.AskOf(l.states[i], w);
    PromptDecides(l.states[i], w);
    S.RunStaysLegal(l.states, l.ops, l.results, i);
    S.AskAndClients(l.states[i], w);
  }

  lemma LaterAskUsesAnother(l: Life, i: nat, j: nat)
    requires IsLife(l) && i < j && Prompts(l, i) && Prompts(l, j)
    requires !l.clients[S.ClientUsed(l.states[i])].states[l.spans[i].begin].connected
    ensures S.ClientUsed(l.states[j]) > S.ClientUsed(l.states[i])
  {
    TransportFailureIsFatal(l, i);
    S.DeadClientCostsOneAsk(l.states, l.ops, l.results, i, j);
  }

  /** Each dead client costs at most one failed ask. Once a client's flag is cleared, whatever cleared it, of all asks
      begun after that moment in the session's whole life at most one uses this client. */
  lemma DeadClientIsUsedOnce(l: Life, client: nat, death: nat, i: nat, j: nat)
    requires IsLife(l) && client in l.clients
    requires death < |l.clients[client].states| && !l.clients[client].states[death].connected
    requires Prompts(l, i) && S.ClientUsed(l.states[i]) == client && death <= l.spans[i].begin
    requires Prompts(l, j) && S.ClientUsed(l.states[j]) == client && death <= l.spans[j].begin
    ensures i == j
  {
    FlagStays(l.clients[client], death, l.spans[i].begin);
    FlagStays(l.clients[client], death, l.spans[j].begin);
    if i < j {
      LaterAskUsesAnother(l, i, j);
    } else if j < i {
      LaterAskUsesAnother(l, j, i);
    }
  }
}
