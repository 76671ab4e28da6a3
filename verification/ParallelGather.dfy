/** The `ask_agents` tool: validating its arguments, and gathering the results of parallel tasks that end in any
    order and in any way. */
module ParallelGather {
  import opened Scalars
  import opened Wrappers

  datatype Request = Request(agent: string, message: string)
  datatype AgentResult = AgentResult(agent: string, success: bool, response: Option<string>, error: Option<string>)

  // ------------------------------------------------------------------ validation

  const VALID_AGENTS: seq<string> := ["codex", "gemini", "opencode", "claudecode"]
  const MAX_REQUESTS: nat := 4
  const MAX_TIMEOUT: nat := 1800

  datatype Refusal =
    | BadCount
    | Duplicate(agent: string)
    | InvalidAgent(agent: string)
    | EmptyMessage(agent: string)
    | BadTimeout

  predicate IsBlank(s: string) {
    forall i :: 0 <= i < |s| ==> WhiteSpace(s[i] as int)
  }

  ghost predicate DistinctAgents(requests: seq<Request>) {
    forall i, j :: 0 <= i < j < |requests| ==> requests[i].agent != requests[j].agent
  }

  predicate Sound(r: Request) {
    r.agent in {"codex", "gemini", "opencode", "claudecode"} && !IsBlank(r.message)
  }

  /** What the tool's schema promises to accept. */
  ghost predicate Acceptable(requests: seq<Request>, timeout: nat) {
    && 1 <= |requests| <= 4
    && DistinctAgents(requests)
    && (forall i :: 0 <= i < |requests| ==> Sound(requests[i]))
    && 1 <= timeout <= 1800
  }

  /** `validate_args`: accepts exactly the acceptable, and names a culprit otherwise. */
  method ValidateArgs(requests: seq<Request>, timeout: nat) returns (refusal: Option<Refusal>)
    ensures refusal == None <==> Acceptable(requests, timeout)
    ensures refusal == Some(BadCount) <==> !(1 <= |requests| <= 4)
    ensures refusal.Some? && refusal.value.Duplicate? ==>
              exists i, j :: 0 <= i < j < |requests| && requests[i].agent == requests[j].agent == refusal.value.agent
    ensures refusal.Some? && (refusal.value.InvalidAgent? || refusal.value.EmptyMessage?) ==>
              && DistinctAgents(requests)
              && exists i :: 0 <= i < |requests| && requests[i].agent == refusal.value.agent
                             && (forall k :: 0 <= k < i ==> Sound(requests[k]))
                             && (refusal.value.InvalidAgent? <==> requests[i].agent !in VALID_AGENTS)
                             && (refusal.value.EmptyMessage? ==> IsBlank(requests[i].message))
    ensures refusal == Some(BadTimeout) ==>
              DistinctAgents(requests) && (forall i :: 0 <= i < |requests| ==> Sound(requests[i])) && !(1 <= timeout <= 1800)
  {
    if |requests| == 0 || |requests| > MAX_REQUESTS {
      return Some(BadCount);
    }
    var seen: set<string> := {};
    for i := 0 to |requests|
      invariant seen == set k | 0 <= k < i :: requests[k].agent
      invariant DistinctAgents(requests[..i])
    {
      if requests[i].agent in seen {
        return Some(Duplicate(requests[i].agent));
      }
      seen := seen + {requests[i].agent};
    }
    assert requests[..|requests|] == requests;
    for i := 0 to |requests|
      invariant forall k :: 0 <= k < i ==> Sound(requests[k])
    {
      if requests[i].agent !in VALID_AGENTS {
        return Some(InvalidAgent(requests[i].agent));
      }
      if IsBlank(requests[i].message) {
        return Some(EmptyMessage(requests[i].agent));
      }
    }
    if timeout == 0 || timeout > MAX_TIMEOUT {
      return Some(BadTimeout);
    }
    return None;
  }

  // ------------------------------------------------------------------ gathering

  /** How a task ended: its ask answered, failed or panicked, all caught inside the task; or the task itself was
      cancelled and only its id comes back. */
  datatype TaskEnd =
    | Answered(text: string)
    | Failed(error: string)
    | Panicked(message: string)
    | Aborted(reason: string)

  function ResultFor(agent: string, end: TaskEnd): AgentResult {
    match end
    case Answered(text) => AgentResult(agent, true, Some(text), None)
    case Failed(error) => AgentResult(agent, false, None, Some(error))
    case Panicked(message) => AgentResult(agent, false, None, Some("task panicked: " + message))
    case Aborted(reason) => AgentResult(agent, false, None, Some("task cancelled: " + reason))
  }

  function NotCollected(agent: string): AgentResult {
    AgentResult(agent, false, None, Some("internal error: result not collected"))
  }

  ghost predicate Distinct(ids: seq<nat>) {
    forall i, j :: 0 <= i < j < |ids| ==> ids[i] != ids[j]
  }

  /** `execute_ask_agents` after validation. Task `i` runs request `i` under the id `ids[i]` and ends with
      `ends[i]`; `order` lists the tasks as the join set delivers them. */
  method Gather(requests: seq<Request>, ids: seq<nat>, ends: seq<TaskEnd>, order: seq<nat>) returns (results: seq<AgentResult>)
    requires |ids| == |requests| == |ends| && Distinct(ids)
    requires forall k :: k in order ==> k < |requests|
    ensures results == Gathered(requests, ends, order)
  {
    var n := |requests|;
    var taskIdToIdx: map<nat, nat> := map[];
    for idx := 0 to n
      invariant forall k :: 0 <= k < idx ==> ids[k] in taskIdToIdx && taskIdToIdx[ids[k]] == k
    {
      taskIdToIdx := taskIdToIdx[ids[idx] := idx];
    }
    var slots := new Option<AgentResult>[n](_ => None);
    for j := 0 to |order|
      invariant forall i :: 0 <= i < n ==>
                  slots[i] == if i in order[..j] then Some(ResultFor(requests[i].agent, ends[i])) else None
    {
      var task := order[j];
      assert task in order;
      match ends[task] {
        case Aborted(reason) =>
          var taskId := ids[task];
          if taskId in taskIdToIdx {
            var idx := taskIdToIdx[taskId];
            slots[idx] := Some(AgentResult(requests[idx].agent, false, None, Some("task cancelled: " + reason)));
          }
        case end => slots[task] := Some(ResultFor(requests[task].agent, end));
      }
    }
    assert order[..|order|] == order;
    results := [];
    for i := 0 to n
      invariant |results| == i
      invariant forall k :: 0 <= k < i ==>
                  results[k] == if k in order then ResultFor(requests[k].agent, ends[k]) else NotCollected(requests[k].agent)
    {
      results := results + [if slots[i].Some? then slots[i].value else NotCollected(requests[i].agent)];
    }
  }

  /** What `Gather` promises, as a function of what happened. */
  function Gathered(requests: seq<Request>, ends: seq<TaskEnd>, order: seq<nat>): seq<AgentResult>
    requires |ends| == |requests|
  {
    seq(|requests|, i requires 0 <= i < |requests| =>
          if i in order then ResultFor(requests[i].agent, ends[i]) else NotCollected(requests[i].agent))
  }

  /** A join set delivers every task, each once. */
  ghost predicate DeliversEachOnce(n: nat, order: seq<nat>) {
    |order| == n && Distinct(order) && forall k :: k in order ==> k < n
  }

  function Below(n: nat): (s: set<nat>)
    ensures |s| == n && forall k: nat :: k in s <==> k < n
  {
    if n == 0 then {} else Below(n - 1) + {n - 1}
  }

  function Elements(order: seq<nat>): (s: set<nat>)
    ensures forall k :: k in s <==> k in order
  {
    if order == [] then {} else {order[0]} + Elements(order[1..])
  }

  lemma {:induction false} DistinctCount(order: seq<nat>)
    requires Distinct(order)
    ensures |Elements(order)| == |order|
  {
    if order != [] {
      DistinctCount(order[1..]);
      assert order[0] !in order[1..];
    }
  }

  lemma {:induction false} SubsetOfEqualSize(a: set<nat>, b: set<nat>)
    requires a <= b && |a| == |b|
    ensures a == b
  {
    if x :| x in b && x !in a {
      SubsetIsNoLarger(a, b - {x});
    }
  }

  lemma {:induction false} SubsetIsNoLarger(a: set<nat>, b: set<nat>)
    requires a <= b
    ensures |a| <= |b|
  {
    if a != {} {
      var x :| x in a;
      SubsetIsNoLarger(a - {x}, b - {x});
    }
  }

  lemma EveryTaskIsDelivered(n: nat, order: seq<nat>)
    requires DeliversEachOnce(n, order)
    ensures forall i: nat :: i < n ==> i in order
  {
    DistinctCount(order);
    SubsetOfEqualSize(Elements(order), Below(n));
  }

  /** So the completion order does not show, no entry is left uncollected, entry `i` is about request `i`'s agent,
      and it is a success exactly if its task was answered: then, and only then, is there a response and no error. */
  lemma CompletionOrderDoesNotMatter(requests: seq<Request>, ends: seq<TaskEnd>, order: seq<nat>, other: seq<nat>)
    requires |ends| == |requests| && DeliversEachOnce(|requests|, order) && DeliversEachOnce(|requests|, other)
    ensures Gathered(requests, ends, order) == Gathered(requests, ends, other)
    ensures forall i :: 0 <= i < |requests| ==>
              var r := Gathered(requests, ends, order)[i];
              && r == ResultFor(requests[i].agent, ends[i]) && r.agent == requests[i].agent
              && (r.success <==> ends[i].Answered?)
              && (ends[i].Answered? ==> r.response == Some(ends[i].text)) && (ends[i].Failed? ==> r.error == Some(ends[i].error))
              && (ends[i].Panicked? ==> r.error == Some("task panicked: " + ends[i].message))
              && (ends[i].Aborted? ==> r.error == Some("task cancelled: " + ends[i].reason))
              && (r.success <==> r.response.Some? && r.error == None)
              && (r.response.Some? <==> r.error == None)
  {
    EveryTaskIsDelivered(|requests|, order);
    EveryTaskIsDelivered(|requests|, other);
  }

  /** Were a task never delivered, its request would still have an entry, and a failure; the others would be unaffected. */
  lemma MissingIsReported(requests: seq<Request>, ends: seq<TaskEnd>, order: seq<nat>, i: nat)
    requires |ends| == |requests| && i < |requests|
    ensures |Gathered(requests, ends, order)| == |requests|
    ensures var r := Gathered(requests, ends, order)[i];
            && r.agent == requests[i].agent
            && (i !in order ==> !r.success && r.response == None && r.error == Some("internal error: result not collected"))
            && (i in order ==> r == ResultFor(requests[i].agent, ends[i]))
  {
  }
}
