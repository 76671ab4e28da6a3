/** The JSON-RPC 2.0 side of the MCP request loop: which messages are answered, with what id, and how. */
module McpDispatch {
  import opened Utf8
  import opened McpFraming
  import McpRoundTrip
  import opened Wrappers

  const PARSE_ERROR := -32700
  const METHOD_NOT_FOUND := -32601
  const INVALID_PARAMS := -32602

  datatype Json = Null | Other(text: seq<byte>)

  /** A text as JSON, as far as the message types look into it; a field of the wrong type counts as absent. */
  datatype Document = NotJson | Document(version: Option<string>, id: Option<Json>, verb: Option<string>, params: Json)

  datatype Message = Request(id: Json, verb: string, params: Json) | Notification(verb: string)

  datatype Call = Call(name: string, arguments: Json)

  datatype ToolResult = Done(text: seq<byte>) | Failed(text: seq<byte>)

  datatype Outcome = Capabilities | Tools | Content(text: seq<byte>, isError: bool) | Error(code: int)

  datatype Response = Response(id: Json, outcome: Outcome)

  /** What lies outside the loop: JSON, and what `ask_agents` gives when the `k`-th message calls it. */
  datatype World = World(
    parse: seq<byte> -> Document,
    call: Json -> Option<Call>,
    ask: (nat, Json) -> ToolResult,
    unknownTool: string -> seq<byte>,
    encode: Response -> seq<byte>)

  /** The untagged `JsonRpcMessage`: a request if it can be one, else a notification, else an error. */
  function Decode(d: Document): Option<Message> {
    if d.NotJson? || d.version.None? || d.verb.None? then None
    else if d.id.Some? then Some(Request(d.id.value, d.verb.value, d.params))
    else Some(Notification(d.verb.value))
  }

  function ExecuteTool(w: World, k: nat, call: Call): ToolResult {
    if call.name == "ask_agents" then w.ask(k, call.arguments) else Failed(w.unknownTool(call.name))
  }

  function HandleToolsCall(w: World, k: nat, id: Json, params: Json): Response {
    var call := w.call(params);
    if call.None? then Response(id, Error(INVALID_PARAMS))
    else
      match ExecuteTool(w, k, call.value)
      case Done(text) => Response(id, Content(text, false))
      case Failed(text) => Response(id, Content(text, true))
  }

  function HandleRequest(w: World, k: nat, id: Json, verb: string, params: Json): Response {
    if verb == "initialize" then Response(id, Capabilities)
    else if verb == "tools/list" then Response(id, Tools)
    else if verb == "tools/call" then HandleToolsCall(w, k, id, params)
    else Response(id, Error(METHOD_NOT_FOUND))
  }

  function HandleMessage(w: World, k: nat, m: Message): Option<Response> {
    match m
    case Request(id, verb, params) => Some(HandleRequest(w, k, id, verb, params))
    case Notification(_) => None
  }

  /** The loop body for one trimmed, non-empty content. */
  function Reply(w: World, k: nat, content: seq<byte>): Option<Response> {
    match Decode(w.parse(content))
    case Some(m) => HandleMessage(w, k, m)
    case None => Some(Response(Null, Error(PARSE_ERROR)))
  }

  function Printing(w: World): Handler {
    (k: nat, content: seq<byte>) =>
      var r := Reply(w, k, content);
      if r.Some? then Some(w.encode(r.value)) else None
  }

  /** All replies to a sequence of messages, in order. */
  function Replies(w: World, texts: seq<seq<byte>>, k: nat): seq<Response> {
    if texts == [] then []
    else
      var content := Trim(texts[0]);
      var reply := if content == [] then None else Reply(w, k, content);
      (if reply.Some? then [reply.value] else []) + Replies(w, texts[1..], k + 1)
  }

  // ------------------------------------------------------------------ what is answered, and with which id

  /** A message that calls for an answer: neither blank nor a notification. */
  predicate Expects(w: World, text: seq<byte>) {
    Trim(text) != [] && !IsNotification(w.parse(Trim(text)))
  }

  predicate IsNotification(d: Document) {
    d.Document? && d.version.Some? && d.verb.Some? && d.id.None?
  }

  predicate IsRequest(d: Document) {
    d.Document? && d.version.Some? && d.verb.Some? && d.id.Some?
  }

  /** The positions of the messages that call for an answer. */
  function Expecting(w: World, texts: seq<seq<byte>>, k: nat): (ks: seq<nat>)
    ensures forall j :: 0 <= j < |ks| ==> k <= ks[j] < k + |texts|
  {
    if texts == [] then []
    else (if Expects(w, texts[0]) then [k] else []) + Expecting(w, texts[1..], k + 1)
  }

  /** Which reply a message that calls for one deserves. */
  ghost predicate Deserved(w: World, text: seq<byte>, k: nat, r: Response) {
    var d := w.parse(Trim(text));
    && r.id == (if IsRequest(d) then d.id.value else Null)
    && (r.outcome == Error(-32700) <==> !IsRequest(d))
    && (r.outcome == Error(-32601) <==>
        IsRequest(d) && d.verb.value !in {"initialize", "tools/list", "tools/call"})
    && (r.outcome == Error(-32602) <==>
        IsRequest(d) && d.verb.value == "tools/call" && w.call(d.params).None?)
    && (r.outcome.Error? ==> r.outcome.code in {-32700, -32601, -32602})
    && (r.outcome == Capabilities <==> IsRequest(d) && d.verb.value == "initialize")
    && (r.outcome == Tools <==> IsRequest(d) && d.verb.value == "tools/list")
    && (r.outcome.Content? ==>
        && IsRequest(d) && d.verb.value == "tools/call" && w.call(d.params).Some?
        && var call := w.call(d.params).value;
           && (r.outcome.isError <==> call.name != "ask_agents" || w.ask(k, call.arguments).Failed?)
           && r.outcome.text == (if call.name == "ask_agents" then w.ask(k, call.arguments).text else w.unknownTool(call.name)))
  }

  /** A single message is answered exactly if it calls for an answer, and as it deserves. */
  lemma ReplyDeserved(w: World, text: seq<byte>, k: nat)
    requires Trim(text) != []
    ensures Reply(w, k, Trim(text)).Some? <==> Expects(w, text)
    ensures Expects(w, text) ==> Deserved(w, text, k, Reply(w, k, Trim(text)).value)
  {
  }

  /** The error code, if any, that section 5.1 of JSON-RPC 2.0 has for a text that calls for an answer. */
  function StandardCode(w: World, d: Document): Option<int> {
    if d.NotJson? then Some(-32700)
    else if !IsRequest(d) then Some(-32600)
    else if d.verb.value !in {"initialize", "tools/list", "tools/call"} then Some(-32601)
    else if d.verb.value == "tools/call" && w.call(d.params).None? then Some(-32602)
    else None
  }

  /** The server's error codes are the standard's, except on JSON that is neither a request nor a notification:
      there it answers with a parse error, and under no id. */
  lemma CodeIsStandardIff(w: World, text: seq<byte>, k: nat)
    requires Expects(w, text)
    ensures Reply(w, k, Trim(text)).Some?
    ensures var d, r := w.parse(Trim(text)), Reply(w, k, Trim(text)).value;
            && ((if r.outcome.Error? then Some(r.outcome.code) else None) == StandardCode(w, d) <==> d.NotJson? || IsRequest(d))
            && (!d.NotJson? && !IsRequest(d) ==> r == Response(Null, Error(-32700)))
  {
    ReplyDeserved(w, text, k);
  }

  /** An object with an id and no method, such as a client's response, is one. */
  lemma IdWithoutMethodIsAParseError(w: World, text: seq<byte>, k: nat, id: Json, params: Json)
    requires Trim(text) != [] && w.parse(Trim(text)) == Document(Some("2.0"), Some(id), None, params)
    ensures Expects(w, text) && Reply(w, k, Trim(text)) == Some(Response(Null, Error(-32700)))
    ensures StandardCode(w, w.parse(Trim(text))) == Some(-32600)
  {
    CodeIsStandardIff(w, text, k);
  }

  lemma RepliesNext(w: World, texts: seq<seq<byte>>, k: nat)
    requires texts != []
    ensures Expects(w, texts[0]) ==> Reply(w, k, Trim(texts[0])).Some?
    ensures Replies(w, texts, k) ==
            (if Expects(w, texts[0]) then [Reply(w, k, Trim(texts[0])).value] else []) + Replies(w, texts[1..], k + 1)
  {
    if Trim(texts[0]) != [] {
      ReplyDeserved(w, texts[0], k);
    }
  }

  lemma ExpectingNext(w: World, texts: seq<seq<byte>>, k: nat)
    requires texts != []
    ensures Expecting(w, texts, k) == (if Expects(w, texts[0]) then [k] else []) + Expecting(w, texts[1..], k + 1)
  {
  }

  /** `r` is the reply to the message at position `at`, which calls for one; `texts` starts at position `k`. */
  ghost predicate Belongs(w: World, texts: seq<seq<byte>>, k: nat, at: nat, r: Response) {
    k <= at < k + |texts| && Expects(w, texts[at - k]) && Reply(w, at, Trim(texts[at - k])) == Some(r)
  }

  ghost predicate Matched(w: World, texts: seq<seq<byte>>, k: nat, ks: seq<nat>, rs: seq<Response>) {
    |ks| == |rs| && forall j :: 0 <= j < |ks| ==> Belongs(w, texts, k, ks[j], rs[j])
  }

  lemma MatchedNext(w: World, texts: seq<seq<byte>>, k: nat, ks: seq<nat>, rs: seq<Response>)
    requires texts != [] && Matched(w, texts[1..], k + 1, ks, rs)
    ensures Matched(w, texts, k, ks, rs)
    ensures Expects(w, texts[0]) ==>
              && Reply(w, k, Trim(texts[0])).Some?
              && Matched(w, texts, k, [k] + ks, [Reply(w, k, Trim(texts[0])).value] + rs)
  {
    forall j | 0 <= j < |ks| ensures Belongs(w, texts, k, ks[j], rs[j]) {
      assert Belongs(w, texts[1..], k + 1, ks[j], rs[j]);
    }
    if Expects(w, texts[0]) {
      ReplyDeserved(w, texts[0], k);
      assert Belongs(w, texts, k, k, Reply(w, k, Trim(texts[0])).value);
    }
  }

  /** The `j`-th response is the reply to the `j`-th message that calls for one. */
  lemma {:induction false} RepliesMatch(w: World, texts: seq<seq<byte>>, k: nat)
    ensures Matched(w, texts, k, Expecting(w, texts, k), Replies(w, texts, k))
    decreases |texts|
  {
    if texts != [] {
      RepliesMatch(w, texts[1..], k + 1);
      RepliesNext(w, texts, k);
      ExpectingNext(w, texts, k);
      MatchedNext(w, texts, k, Expecting(w, texts[1..], k + 1), Replies(w, texts[1..], k + 1));
    }
  }

  /** One response for every request and for every text that is no message, none for a notification, in the
      order of the messages. */
  lemma {:induction false} OneReplyEach(w: World, texts: seq<seq<byte>>, k: nat)
    ensures |Replies(w, texts, k)| == |Expecting(w, texts, k)|
    ensures forall j :: 0 <= j < |Replies(w, texts, k)| ==>
              Deserved(w, texts[Expecting(w, texts, k)[j] - k], Expecting(w, texts, k)[j], Replies(w, texts, k)[j])
  {
    RepliesMatch(w, texts, k);
    forall j | 0 <= j < |Replies(w, texts, k)|
      ensures Deserved(w, texts[Expecting(w, texts, k)[j] - k], Expecting(w, texts, k)[j], Replies(w, texts, k)[j])
    {
      var at := Expecting(w, texts, k)[j];
      assert Belongs(w, texts, k, at, Replies(w, texts, k)[j]);
      ReplyDeserved(w, texts[at - k], at);
    }
  }

  // ------------------------------------------------------------------ through the transport

  function Printed(w: World, replies: seq<Response>): (texts: seq<seq<byte>>)
    ensures |texts| == |replies|
  {
    seq(|replies|, i requires 0 <= i < |replies| => w.encode(replies[i]))
  }

  lemma {:induction false} AnswersAreReplies(w: World, texts: seq<seq<byte>>, k: nat)
    ensures Answers(texts, k, Printing(w)) == Printed(w, Replies(w, texts, k))
    decreases |texts|
  {
    if texts != [] {
      AnswersAreReplies(w, texts[1..], k + 1);
    }
  }

  /** End to end: a client that frames its messages and reads the output back gets one printed response for
      each message that calls for one, in the order of the messages, each with the id of its request. Exactly if
      each of these responses prints as text of at most 16 MiB. */
  lemma ServesJsonRpc(w: World, texts: seq<seq<byte>>)
    requires forall t :: t in texts ==> McpRoundTrip.Framable(t)
    ensures var replies := Replies(w, texts, 0);
            && (ReadAll(AutoDetect, Served(AutoDetect, WrittenAll(LspStyle, texts), 0, Printing(w))) == (Printed(w, replies), true)
                <==> forall j :: 0 <= j < |replies| ==> McpRoundTrip.Framable(w.encode(replies[j])))
            && |replies| == |Expecting(w, texts, 0)|
            && forall j :: 0 <= j < |replies| ==>
                 Deserved(w, texts[Expecting(w, texts, 0)[j]], Expecting(w, texts, 0)[j], replies[j])
  {
    var replies := Replies(w, texts, 0);
    McpRoundTrip.ClientReadsAllAnswers(texts, Printing(w));
    AnswersAreReplies(w, texts, 0);
    OneReplyEach(w, texts, 0);
    forall j | 0 <= j < |replies| ensures w.encode(replies[j]) in Printed(w, replies) {
      assert Printed(w, replies)[j] == w.encode(replies[j]);
    }
  }

  /** The same in line form, up to trimming. */
  lemma ServesJsonRpcLines(w: World, texts: seq<seq<byte>>)
    requires forall t :: t in texts ==> McpRoundTrip.OneLineObject(t)
    requires forall j :: 0 <= j < |Replies(w, texts, 0)| ==> McpRoundTrip.OneLineObject(w.encode(Replies(w, texts, 0)[j]))
    ensures var replies := Replies(w, texts, 0);
            var output := ReadAll(AutoDetect, Served(AutoDetect, WrittenAll(JsonLines, texts), 0, Printing(w)));
            && output.1 && McpRoundTrip.Trimmed(output.0) == McpRoundTrip.Trimmed(Printed(w, replies))
            && |replies| == |Expecting(w, texts, 0)|
            && forall j :: 0 <= j < |replies| ==>
                 Deserved(w, texts[Expecting(w, texts, 0)[j]], Expecting(w, texts, 0)[j], replies[j])
  {
    AnswersAreReplies(w, texts, 0);
    McpRoundTrip.ClientReadsAllLines(texts, Printing(w));
    OneReplyEach(w, texts, 0);
  }
}
