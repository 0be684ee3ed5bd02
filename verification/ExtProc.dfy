/** Process of internal/mcp-router/ext_proc_adapter.go with the A2A branch of a2a.go: the receive loop
    that answers Envoy's messages about one HTTP request. */
module ExtProc {

  import opened Text
  import opened Framing
  import opened Config
  import CardCache
  import Serving
  import IdMap
  import Rewriter
  import Elicitation
  import Observer
  import V = Validation

  const JSON := "application/json"
  const POST := "POST"
  const OK := "200"
  const TOOL_CALL := "tools/call"
  const A2A_BACKEND_PATH := "/a2a"
  const ERR_PARSE := -32700
  const ERR_INVALID_PARAMS := -32602
  const ERR_PUSH_NOT_SUPPORTED := -32003
  const ERR_UNSUPPORTED_OP := -32004

  // ---- messages and replies ----

  /** HttpHeaders: the header map may be missing. */
  datatype Http = Http(fields: Option<map<string, string>>, endOfStream: bool)

  function Field(h: Http, name: string): string {
    if h.fields.Some? && name in h.fields.value then h.fields.value[name] else ""
  }

  datatype Message =
    | RequestHeaders(http: Option<Http>)
    | RequestBody(body: Bytes)
    | ResponseHeaders(http: Option<Http>)
    | ResponseBody(body: Bytes, endOfStream: bool)
    | Trailers

  datatype Reply =
    | ToRequestHeaders(authority: Option<string>, path: Option<string>)
    | ToRequestBody(routed: bool)
    | ToResponseHeaders(streamed: bool)
    | ToResponseBody(body: Bytes)
    | Immediate(status: int, code: Option<int>)

  /** A body handed to MCPRequest.Validate, or on to the Router. */
  datatype Effect = Validated(body: Bytes) | Routed(body: Bytes)

  // ---- what Process calls ----

  /** The envelope of an A2A request. */
  datatype Envelope = Envelope(method_: string, hasPush: bool)

  datatype McpRequest = McpRequest(jsonrpc: string, method_: string, hasID: bool, elicitationResponse: bool)

  datatype Unmarshalled = Unmarshalled(req: Option<McpRequest>, ok: bool)

  datatype Decision = Reject(status: int) | Forward

  datatype Env = Env(a2aBroker: Option<CardCache.Broker>, externalHostname: string, maxBody: int, toLower: string -> string,
                     parseA2A: Bytes -> Option<Envelope>, unmarshal: (Option<McpRequest>, Bytes) -> Unmarshalled,
                     route: (McpRequest, Http, Bytes) -> Decision, clientElicitation: (McpRequest, Http) -> bool,
                     rewriting: (McpRequest, Http) -> Rewriter.Env, ids: Rewriter.Ids, observing: Observer.Codec)

  predicate Contains(s: string, t: string) {
    exists i :: 0 <= i <= |s| && t <= s[i..]
  }

  predicate IsJson(env: Env, h: Http) {
    Contains(env.toLower(Field(h, "content-type")), JSON)
  }

  predicate Supported(m: string) {
    m in {"SendMessage", "SendStreamingMessage", "GetTask", "CancelTask", "SubscribeToTask"}
  }

  predicate Streaming(m: string) {
    m in {"SendStreamingMessage", "SubscribeToTask"}
  }

  /** The checks of MCPRequest.Validate, in order. */
  predicate Valid(req: Option<McpRequest>) {
    if req == None then false
    else if req.value.jsonrpc != "2.0" then false
    else if req.value.method_ == "" && !req.value.elicitationResponse then false
    else if !req.value.hasID && !("notifications" <= req.value.method_) then false
    else true
  }

  // ---- the loop's local state ----

  datatype A2A = A2A(discovery: bool, method_: string, streaming: bool)

  datatype Rewriting = Rewriting(env: Rewriter.Env, held: Held<Rewriter.Ids>)

  datatype Stream = Stream(http: Option<Http>, endOfStream: bool, mcp: Option<McpRequest>, a2a: Option<A2A>,
                           rewriter: Option<Rewriting>, observer: Option<Held<Observer.Seen>>, closed: bool)

  const NEW := Stream(None, false, None, None, None, None, false)

  datatype Outcome = Outcome(st: Stream, replies: seq<Reply>, effects: seq<Effect>)

  function Say(st: Stream, r: Reply): Outcome {
    Outcome(st, [r], [])
  }

  function Abort(st: Stream, status: int): Outcome {
    Outcome(st.(closed := true), [Immediate(status, None)], [])
  }

  // ---- the four phases ----

  function OnRequestHeaders(env: Env, st: Stream, http: Option<Http>): Outcome {
    if http == None then Abort(st, 500)
    else
      var h := http.value;
      var st1 := st.(http := http, endOfStream := h.endOfStream);
      var path := Field(h, ":path");
      if env.a2aBroker == None || !(V.A2A <= path) then Say(st1, ToRequestHeaders(Some(env.externalHostname), None))
      else if Field(h, ":method") != POST then Say(st1.(a2a := Some(A2A(true, "", false))), ToRequestHeaders(None, None))
      else
        match Serving.AgentAt(env.a2aBroker.value, path)
        case None => Say(st1.(a2a := Some(A2A(false, "", false))), Immediate(200, Some(ERR_INVALID_PARAMS)))
        case Some(agent) =>
          Say(st1.(a2a := Some(A2A(false, "", false))), ToRequestHeaders(Some(agent.hostname), Some(A2A_BACKEND_PATH)))
  }

  function OnA2ABody(env: Env, st: Stream, a: A2A, body: Bytes): Outcome {
    if a.discovery then Say(st, ToRequestBody(false))
    else
      match env.parseA2A(body)
      case None => Say(st, Immediate(200, Some(ERR_PARSE)))
      case Some(e) =>
        if !Supported(e.method_) then Say(st, Immediate(200, Some(ERR_UNSUPPORTED_OP)))
        else if e.hasPush then Say(st, Immediate(200, Some(ERR_PUSH_NOT_SUPPORTED)))
        else Say(st.(a2a := Some(a.(method_ := e.method_, streaming := Streaming(e.method_)))), ToRequestBody(false))
  }

  function OnMcpBody(env: Env, st: Stream, h: Http, body: Bytes): Outcome {
    var u := env.unmarshal(st.mcp, body);
    var st1 := st.(mcp := u.req);
    if !u.ok then Say(st1, Immediate(400, None))
    else if !Valid(u.req) then Outcome(st1, [Immediate(400, None)], [Validated(body)])
    else
      match env.route(u.req.value, h, body)
      case Reject(status) => Outcome(st1, [Immediate(status, None)], [Validated(body), Routed(body)])
      case Forward => Outcome(st1, [ToRequestBody(true)], [Validated(body), Routed(body)])
  }

  function OnRequestBody(env: Env, st: Stream, body: Bytes): Outcome {
    if st.endOfStream then Say(st, ToRequestBody(false))
    else if st.http == None || st.http.value.fields == None then Abort(st, 500)
    else if env.maxBody > 0 && |body| > env.maxBody then Abort(st, 413)
    else if !IsJson(env, st.http.value) || body == [] then Say(st, ToRequestBody(false))
    else if st.a2a.Some? then OnA2ABody(env, st, st.a2a.value, body)
    else OnMcpBody(env, st, st.http.value, body)
  }

  /** A streamed tool-call response is rewritten when the client takes elicitations. */
  predicate StreamsBody(env: Env, st: Stream, status: string) {
    st.http.Some? && st.mcp.Some? && st.mcp.value.method_ == TOOL_CALL && env.clientElicitation(st.mcp.value, st.http.value) && status == OK
  }

  function OnResponseHeaders(env: Env, st: Stream, http: Option<Http>): Outcome {
    if http == None || st.http == None then Abort(st, 500)
    else
      var status := Field(http.value, ":status");
      if st.a2a.Some? then
        var observe := st.a2a.value.streaming && status == OK;
        var obs := if observe then Some(Held(Observer.NOTHING, [])) else st.observer;
        Say(st.(observer := obs, closed := obs == None), ToResponseHeaders(observe))
      else
        var streams := StreamsBody(env, st, status);
        var rw := if streams then Some(Rewriting(env.rewriting(st.mcp.value, st.http.value), Held(env.ids, []))) else st.rewriter;
        Say(st.(rewriter := rw, closed := rw == None), ToResponseHeaders(streams))
  }

  function Observed(codec: Observer.Codec, h: Held<Observer.Seen>, body: Bytes, last: bool): Held<Observer.Seen> {
    var fed := Feed(LF, Observer.ObserveStep(codec), h, body).0;
    if last then Held(LastLine(Observer.ObserveStep(codec), fed).0, []) else fed
  }

  function Rewritten(rw: Rewriting, body: Bytes, last: bool): (Rewriting, Bytes) {
    var (h, out) := Feed(LF, Rewriter.LineStep(rw.env), rw.held, body);
    if !last then (rw.(held := h), out)
    else
      var (done, tail) := Rewriter.Finish(rw.env, h);
      (rw.(held := Held(done, [])), out + tail)
  }

  function OnResponseBody(env: Env, st: Stream, body: Bytes, last: bool): Outcome {
    var obs := if st.observer.Some? then Some(Observed(env.observing, st.observer.value, body, last)) else None;
    if st.rewriter == None then Say(st.(observer := obs, closed := last), ToResponseBody(body))
    else
      var (rw, out) := Rewritten(st.rewriter.value, body, last);
      Say(st.(observer := obs, rewriter := Some(rw), closed := last), ToResponseBody(out))
  }

  function Handle(env: Env, st: Stream, m: Message): Outcome {
    match m
    case RequestHeaders(http) => OnRequestHeaders(env, st, http)
    case RequestBody(body) => OnRequestBody(env, st, body)
    case ResponseHeaders(http) => OnResponseHeaders(env, st, http)
    case ResponseBody(body, last) => OnResponseBody(env, st, body, last)
    case Trailers => Outcome(st, [], [])
  }

  // ---- runs ----

  /** One turn of the loop, with the state it started in. */
  datatype Turn = Turn(before: Stream, msg: Message, replies: seq<Reply>, effects: seq<Effect>)

  datatype Run = Run(st: Stream, log: seq<Turn>)

  function Receive(env: Env, r: Run, m: Message): Run {
    if r.st.closed then r
    else
      var o := Handle(env, r.st, m);
      Run(o.st, r.log + [Turn(r.st, m, o.replies, o.effects)])
  }

  function Exec(env: Env, msgs: seq<Message>): Run {
    if msgs == [] then Run(NEW, []) else Receive(env, Exec(env, msgs[..|msgs| - 1]), msgs[|msgs| - 1])
  }

  /** The loop goes on from where it is. */
  function Continue(env: Env, r: Run, msgs: seq<Message>): Run
    decreases |msgs|
  {
    if msgs == [] then r else Continue(env, Receive(env, r, msgs[0]), msgs[1..])
  }

  lemma {:induction false} ExecContinues(env: Env, before: seq<Message>, msgs: seq<Message>)
    ensures Exec(env, before + msgs) == Continue(env, Exec(env, before), msgs)
    decreases |msgs|
  {
    if msgs == [] {
      assert before + msgs == before;
    } else {
      var next := before + [msgs[0]];
      assert next[..|before|] == before;
      assert before + msgs == next + msgs[1..];
      ExecContinues(env, next, msgs[1..]);
    }
  }

  /** The receive loop: it answers until it closes or the messages end. */
  method Process(env: Env, msgs: seq<Message>) returns (st: Stream, log: seq<Turn>)
    ensures Run(st, log) == Exec(env, msgs)
  {
    st, log := NEW, [];
    var i := 0;
    while i < |msgs| && !st.closed
      invariant 0 <= i <= |msgs| && Run(st, log) == Exec(env, msgs[..i])
    {
      assert msgs[..i + 1][..i] == msgs[..i];
      var o := Handle(env, st, msgs[i]);
      log := log + [Turn(st, msgs[i], o.replies, o.effects)];
      st := o.st;
      i := i + 1;
    }
    ClosedStays(env, msgs, i);
  }

  lemma {:induction false} ClosedStays(env: Env, msgs: seq<Message>, i: nat)
    requires i <= |msgs| && (i == |msgs| || Exec(env, msgs[..i]).st.closed)
    ensures Exec(env, msgs) == Exec(env, msgs[..i])
    decreases |msgs|
  {
    if i == |msgs| {
      assert msgs[..i] == msgs;
    } else {
      var init := msgs[..|msgs| - 1];
      assert init[..i] == msgs[..i];
      ClosedStays(env, init, i);
    }
  }

  lemma LogGrows(env: Env, msgs: seq<Message>)
    requires msgs != [] && !Exec(env, msgs[..|msgs| - 1]).st.closed
    ensures var r, m := Exec(env, msgs[..|msgs| - 1]), msgs[|msgs| - 1]; var o := Handle(env, r.st, m);
            && Exec(env, msgs).st == o.st
            && |Exec(env, msgs).log| == |r.log| + 1
            && (forall k :: 0 <= k < |r.log| ==> Exec(env, msgs).log[k] == r.log[k])
            && Exec(env, msgs).log[|r.log|] == Turn(r.st, m, o.replies, o.effects)
  {
  }

  // ---- one reply each ----

  predicate OfPhase(m: Message, r: Reply) {
    || r.Immediate?
    || match m
       case RequestHeaders(_) => r.ToRequestHeaders?
       case RequestBody(_) => r.ToRequestBody?
       case ResponseHeaders(_) => r.ToResponseHeaders?
       case ResponseBody(_, _) => r.ToResponseBody?
       case Trailers => false
  }

  predicate Answered(t: Turn) {
    if t.msg.Trailers? then t.replies == [] else |t.replies| == 1 && OfPhase(t.msg, t.replies[0])
  }

  /** Every message the loop receives gets exactly one reply, of its own phase or immediate (trailers,
      which the modes in use never send, get none), and every message is received until it closes. */
  lemma {:induction false} OneReplyEach(env: Env, msgs: seq<Message>)
    ensures var r := Exec(env, msgs);
            && |r.log| <= |msgs| && (|r.log| == |msgs| || r.st.closed)
            && (forall k :: 0 <= k < |r.log| ==> r.log[k].msg == msgs[k] && Answered(r.log[k]))
    decreases |msgs|
  {
    if msgs != [] {
      OneReplyEach(env, msgs[..|msgs| - 1]);
      var r := Exec(env, msgs[..|msgs| - 1]);
      if !r.st.closed {
        HandleAnswers(env, r.st, msgs[|msgs| - 1]);
      }
    }
  }

  lemma HandleAnswers(env: Env, st: Stream, m: Message)
    ensures var o := Handle(env, st, m); Answered(Turn(st, m, o.replies, o.effects))
  {
  }

  // ---- A2A stays apart from MCP ----

  predicate IsA2A(env: Env, h: Http) {
    env.a2aBroker.Some? && V.A2A <= Field(h, ":path")
  }

  /** Request headers with a path under /a2a/. */
  predicate A2AHeaders(env: Env, m: Message) {
    m.RequestHeaders? && m.http.Some? && IsA2A(env, m.http.value)
  }

  /** Such headers are among the messages received so far. */
  ghost predicate SawA2A(env: Env, log: seq<Turn>) {
    exists j :: 0 <= j < |log| && A2AHeaders(env, log[j].msg)
  }

  lemma {:induction false} ClassifiedIff(env: Env, msgs: seq<Message>)
    ensures var r := Exec(env, msgs); r.st.a2a.Some? <==> SawA2A(env, r.log)
    decreases |msgs|
  {
    if msgs != [] {
      ClassifiedIff(env, msgs[..|msgs| - 1]);
      var r, m := Exec(env, msgs[..|msgs| - 1]), msgs[|msgs| - 1];
      if !r.st.closed {
        LogGrows(env, msgs);
        HandleKeepsApart(env, r.st, m);
        var log := Exec(env, msgs).log;
        assert A2AHeaders(env, m) <==> A2AHeaders(env, log[|r.log|].msg);
        if j :| 0 <= j < |r.log| && A2AHeaders(env, r.log[j].msg) {
          assert A2AHeaders(env, log[j].msg);
        }
      }
    }
  }

  /** Over any message sequence, well ordered or not: after request headers with a path under /a2a/ no
      later body of the stream reaches MCPRequest.Validate or the Router. */
  lemma {:induction false} A2ANeverReachesMcp(env: Env, msgs: seq<Message>, j: nat, k: nat)
    requires j < k < |Exec(env, msgs).log| && A2AHeaders(env, Exec(env, msgs).log[j].msg)
    ensures Exec(env, msgs).log[k].effects == []
    decreases |msgs|
  {
    var r, m := Exec(env, msgs[..|msgs| - 1]), msgs[|msgs| - 1];
    if r.st.closed {
      A2ANeverReachesMcp(env, msgs[..|msgs| - 1], j, k);
    } else {
      LogGrows(env, msgs);
      if k < |r.log| {
        A2ANeverReachesMcp(env, msgs[..|msgs| - 1], j, k);
      } else {
        ClassifiedIff(env, msgs[..|msgs| - 1]);
        assert A2AHeaders(env, r.log[j].msg);
        HandleKeepsApart(env, r.st, m);
      }
    }
  }

  lemma HandleKeepsApart(env: Env, st: Stream, m: Message)
    ensures var o := Handle(env, st, m);
            && (st.a2a.Some? ==> o.effects == [])
            && (o.st.a2a.Some? <==> st.a2a.Some? || A2AHeaders(env, m))
  {
  }

  /** Envoy's order, as far as it matters here: request headers come first and only first. */
  predicate WellOrdered(msgs: seq<Message>) {
    forall k :: 0 < k < |msgs| ==> !msgs[k].RequestHeaders?
  }

  predicate Unrewritten(st: Stream) {
    st.a2a.Some? ==> st.rewriter == None
  }

  ghost predicate Verbatim(t: Turn) {
    t.before.a2a.Some? && t.msg.ResponseBody? ==> t.replies == [ToResponseBody(t.msg.body)]
  }

  /** The response bytes of an A2A stream are returned unchanged. */
  lemma {:induction false} A2AResponseIsVerbatim(env: Env, msgs: seq<Message>)
    requires WellOrdered(msgs)
    ensures var r := Exec(env, msgs);
            && Unrewritten(r.st) && (msgs == [] ==> r.st.rewriter == None)
            && (forall k :: 0 <= k < |r.log| ==> Verbatim(r.log[k]))
    decreases |msgs|
  {
    if msgs != [] {
      var init, m := msgs[..|msgs| - 1], msgs[|msgs| - 1];
      A2AResponseIsVerbatim(env, init);
      var r := Exec(env, init);
      if !r.st.closed {
        assert m.RequestHeaders? ==> init == [];
        HandleIsVerbatim(env, r.st, m);
      }
    }
  }

  lemma HandleIsVerbatim(env: Env, st: Stream, m: Message)
    requires Unrewritten(st) && (m.RequestHeaders? ==> st.rewriter == None)
    ensures var o := Handle(env, st, m); Unrewritten(o.st) && Verbatim(Turn(st, m, o.replies, o.effects))
  {
  }

  // ---- what the request headers decide ----

  /** A stream as Envoy sends it: the request headers first, and never again. */
  predicate Opens(msgs: seq<Message>, h: Http) {
    msgs != [] && msgs[0] == RequestHeaders(Some(h)) && WellOrdered(msgs)
  }

  predicate Within(env: Env, body: Bytes) {
    !(env.maxBody > 0 && |body| > env.maxBody)
  }

  /** The content type mentions application/json, in any case. */
  predicate SaysJson(env: Env, h: Http) {
    var type_ := env.toLower(Field(h, "content-type"));
    exists i :: 0 <= i <= |type_| && "application/json" <= type_[i..]
  }

  /** A body that is looked into. */
  predicate Examined(env: Env, h: Http, body: Bytes) {
    !h.endOfStream && h.fields.Some? && Within(env, body) && SaysJson(env, h) && body != []
  }

  /** A body the loop cannot take: the stream ends with an error. */
  predicate Fatal(env: Env, h: Http, body: Bytes) {
    !h.endOfStream && (h.fields.None? || !Within(env, body))
  }

  /** JSON-RPC 2.0 with a method, or an elicitation reply, and with an id, or a notification. */
  predicate IsRequest(req: Option<McpRequest>) {
    && req.Some? && req.value.jsonrpc == "2.0"
    && (req.value.method_ != "" || req.value.elicitationResponse)
    && (req.value.hasID || "notifications" <= req.value.method_)
  }

  predicate Acceptable(env: Env, body: Bytes) {
    var e := env.parseA2A(body);
    && e.Some? && !e.value.hasPush
    && e.value.method_ in {"SendMessage", "SendStreamingMessage", "GetTask", "CancelTask", "SubscribeToTask"}
  }

  /** The method of the last A2A call let through. */
  function LastCall(env: Env, h: Http, msgs: seq<Message>): string {
    if msgs == [] then ""
    else
      var m := msgs[|msgs| - 1];
      if m.RequestBody? && Field(h, ":method") == "POST" && Examined(env, h, m.body) && Acceptable(env, m.body)
      then env.parseA2A(m.body).value.method_
      else LastCall(env, h, msgs[..|msgs| - 1])
  }

  /** What is in mcpRequest after these messages: each body that is looked into is unmarshalled over
      what was there before. */
  function Parsed(env: Env, h: Http, msgs: seq<Message>): Option<McpRequest> {
    if msgs == [] then None
    else
      var before, m := Parsed(env, h, msgs[..|msgs| - 1]), msgs[|msgs| - 1];
      if m.RequestBody? && !IsA2A(env, h) && Examined(env, h, m.body) then env.unmarshal(before, m.body).req else before
  }

  /** A response whose body the gateway wants to see: to a streaming A2A call, or to a tool call of a
      client that takes elicitations, and successful. */
  predicate Wanted(env: Env, h: Http, before: seq<Message>, m: Message) {
    && m.ResponseHeaders? && m.http.Some? && Field(m.http.value, ":status") == "200"
    && if IsA2A(env, h) then LastCall(env, h, before) in {"SendStreamingMessage", "SubscribeToTask"}
       else
         var req := Parsed(env, h, before);
         req.Some? && req.value.method_ == "tools/call" && env.clientElicitation(req.value, h)
  }

  /** There were such response headers among these messages. */
  predicate Tapped(env: Env, h: Http, msgs: seq<Message>) {
    msgs != [] && var init := msgs[..|msgs| - 1]; Tapped(env, h, init) || Wanted(env, h, init, msgs[|msgs| - 1])
  }

  /** The loop's state after such a stream, as far as headers and bodies decide it. */
  ghost predicate Follows(env: Env, h: Http, st: Stream, msgs: seq<Message>) {
    && st.http == Some(h) && st.endOfStream == h.endOfStream && st.mcp == Parsed(env, h, msgs)
    && (st.a2a.Some? <==> IsA2A(env, h))
    && if IsA2A(env, h) then
         && st.a2a.value.discovery == (Field(h, ":method") != POST)
         && st.a2a.value.method_ == LastCall(env, h, msgs)
         && st.a2a.value.streaming == (LastCall(env, h, msgs) in {"SendStreamingMessage", "SubscribeToTask"})
         && st.rewriter == None && (st.observer.Some? <==> Tapped(env, h, msgs))
       else st.observer == None && (st.rewriter.Some? <==> Tapped(env, h, msgs))
  }

  lemma FirstFollows(env: Env, h: Http)
    ensures Follows(env, h, Handle(env, NEW, RequestHeaders(Some(h))).st, [RequestHeaders(Some(h))])
  {
    assert [RequestHeaders(Some(h))][..0] == [];
  }

  lemma StepFollows(env: Env, h: Http, st: Stream, msgs: seq<Message>, m: Message)
    requires Follows(env, h, st, msgs) && !m.RequestHeaders?
    ensures var o := Handle(env, st, m); o.st.closed || Follows(env, h, o.st, msgs + [m])
  {
    assert (msgs + [m])[..|msgs|] == msgs;
    match m
    case RequestBody(body) =>
      if IsA2A(env, h) {
        CallFollows(env, h, st, msgs, body);
      } else {
        BodyFollows(env, h, st, msgs, body);
      }
    case ResponseHeaders(http) => ResponseFollows(env, h, st, msgs, http);
    case _ =>
  }

  lemma CallFollows(env: Env, h: Http, st: Stream, msgs: seq<Message>, body: Bytes)
    requires Follows(env, h, st, msgs) && IsA2A(env, h)
    ensures var o := OnRequestBody(env, st, body); o.st.closed || Follows(env, h, o.st, msgs + [RequestBody(body)])
  {
    assert (msgs + [RequestBody(body)])[..|msgs|] == msgs;
  }

  lemma BodyFollows(env: Env, h: Http, st: Stream, msgs: seq<Message>, body: Bytes)
    requires Follows(env, h, st, msgs) && !IsA2A(env, h)
    ensures var o := OnRequestBody(env, st, body); o.st.closed || Follows(env, h, o.st, msgs + [RequestBody(body)])
  {
    assert (msgs + [RequestBody(body)])[..|msgs|] == msgs;
  }

  lemma ResponseFollows(env: Env, h: Http, st: Stream, msgs: seq<Message>, http: Option<Http>)
    requires Follows(env, h, st, msgs)
    ensures var o := OnResponseHeaders(env, st, http); o.st.closed || Follows(env, h, o.st, msgs + [ResponseHeaders(http)])
  {
    assert (msgs + [ResponseHeaders(http)])[..|msgs|] == msgs;
  }

  lemma {:induction false} RunFollows(env: Env, h: Http, msgs: seq<Message>)
    requires Opens(msgs, h)
    ensures var r := Exec(env, msgs); r.st.closed || (|r.log| == |msgs| && Follows(env, h, r.st, msgs))
    decreases |msgs|
  {
    var init, m := msgs[..|msgs| - 1], msgs[|msgs| - 1];
    assert msgs == init + [m];
    if init == [] {
      assert msgs == [m];
      FirstFollows(env, h);
      LogGrows(env, msgs);
    } else {
      RunFollows(env, h, init);
      var r := Exec(env, init);
      if !r.st.closed {
        LogGrows(env, msgs);
        StepFollows(env, h, r.st, init, m);
      }
    }
  }

  /** Every turn started in the state its predecessors left, with the loop still open. */
  lemma {:induction false} TurnsInOrder(env: Env, msgs: seq<Message>, k: nat)
    requires k < |Exec(env, msgs).log|
    ensures k < |msgs| && !Exec(env, msgs[..k]).st.closed
    ensures var st := Exec(env, msgs[..k]).st; var o := Handle(env, st, msgs[k]);
            Exec(env, msgs).log[k] == Turn(st, msgs[k], o.replies, o.effects)
    decreases |msgs|
  {
    OneReplyEach(env, msgs);
    var init := msgs[..|msgs| - 1];
    var r := Exec(env, init);
    OneReplyEach(env, init);
    if k < |r.log| {
      TurnsInOrder(env, init, k);
      assert init[..k] == msgs[..k];
      if !r.st.closed {
        LogGrows(env, msgs);
      }
    } else {
      LogGrows(env, msgs);
      assert k == |msgs| - 1;
    }
  }

  /** A turn after the first, in terms of the messages before it. */
  lemma LaterTurn(env: Env, h: Http, msgs: seq<Message>, k: nat)
    requires Opens(msgs, h) && 0 < k < |Exec(env, msgs).log|
    ensures k < |msgs| && Exec(env, msgs).log[k].msg == msgs[k] && Follows(env, h, Exec(env, msgs).log[k].before, msgs[..k])
    ensures var t := Exec(env, msgs).log[k]; var o := Handle(env, t.before, t.msg);
            !t.before.closed && t.replies == o.replies && t.effects == o.effects && Exec(env, msgs[..k + 1]).st == o.st
  {
    TurnsInOrder(env, msgs, k);
    RunFollows(env, h, msgs[..k]);
    assert msgs[..k + 1][..k] == msgs[..k];
    LogGrows(env, msgs[..k + 1]);
  }

  /** Which bodies of a stream under /a2a/ go on, by headers and body alone: any when the headers ended
      the stream; otherwise, within the size limit, any that is not a POST's, not JSON or empty, and a
      POST's JSON exactly with a supported method and no push configuration. */
  predicate Passes(env: Env, h: Http, body: Bytes) {
    || h.endOfStream
    || (Within(env, body) && (Field(h, ":method") != "POST" || !SaysJson(env, h) || body == [] || Acceptable(env, body)))
  }

  /** The answer to a body of a stream under /a2a/, and whether the loop ends with it: an error for one
      that cannot be taken, and a JSON-RPC error for a call that is not acceptable. */
  predicate A2AAnswer(env: Env, h: Http, body: Bytes, replies: seq<Reply>, closed: bool) {
    && (closed <==> Fatal(env, h, body))
    && replies == [if Fatal(env, h, body) then Immediate(if h.fields.None? then 500 else 413, None)
                   else if Passes(env, h, body) then ToRequestBody(false)
                   else
                     match env.parseA2A(body)
                     case None => Immediate(200, Some(-32700))
                     case Some(e) =>
                       Immediate(200, Some(if e.method_ in {"SendMessage", "SendStreamingMessage", "GetTask", "CancelTask", "SubscribeToTask"}
                                           then -32003 else -32004))]
  }

  /** The answer to the headers of a stream under /a2a/: a POST goes to the agent at its path, or is
      refused when there is none, and anything else goes to the broker. */
  function OpeningAnswer(env: Env, h: Http): Reply
    requires env.a2aBroker.Some?
  {
    var agent := Serving.AgentAt(env.a2aBroker.value, Field(h, ":path"));
    if Field(h, ":method") != "POST" then ToRequestHeaders(None, None)
    else if agent.None? then Immediate(200, Some(-32602))
    else ToRequestHeaders(Some(agent.value.hostname), Some("/a2a"))
  }

  /** A stream whose path is under /a2a/, whatever follows the headers: no body of it reaches
      MCPRequest.Validate or the Router, every response body is returned unchanged, a request body is
      let through if and only if Passes says so, and otherwise it ends the stream or is refused with
      the JSON-RPC error of its fault. */
  lemma InvocationGate(env: Env, h: Http, msgs: seq<Message>, k: nat)
    requires Opens(msgs, h) && IsA2A(env, h) && k < |Exec(env, msgs).log|
    ensures var t := Exec(env, msgs).log[k];
            && k < |msgs| && t.msg == msgs[k] && t.effects == []
            && (k == 0 ==> t.replies == [OpeningAnswer(env, h)])
            && (msgs[k].ResponseBody? ==> t.replies == [ToResponseBody(msgs[k].body)])
            && (msgs[k].RequestBody? ==>
                  && (t.replies == [ToRequestBody(false)] <==> Passes(env, h, msgs[k].body))
                  && A2AAnswer(env, h, msgs[k].body, t.replies, Exec(env, msgs[..k + 1]).st.closed))
  {
    if k == 0 {
      TurnsInOrder(env, msgs, 0);
    } else {
      LaterTurn(env, h, msgs, k);
      A2ATurn(env, h, Exec(env, msgs).log[k].before, msgs[..k], msgs[k]);
    }
  }

  lemma A2ATurn(env: Env, h: Http, st: Stream, before: seq<Message>, m: Message)
    requires Follows(env, h, st, before) && !st.closed && IsA2A(env, h) && !m.RequestHeaders?
    ensures var o := Handle(env, st, m);
            && o.effects == []
            && (m.ResponseBody? ==> o.replies == [ToResponseBody(m.body)])
            && (m.RequestBody? ==>
                  && (o.replies == [ToRequestBody(false)] <==> Passes(env, h, m.body))
                  && A2AAnswer(env, h, m.body, o.replies, o.st.closed))
  {
  }

  /** A body that is looked into and completes a valid MCP request. */
  predicate Complete(env: Env, h: Http, before: seq<Message>, body: Bytes) {
    var u := env.unmarshal(Parsed(env, h, before), body);
    Examined(env, h, body) && u.ok && IsRequest(u.req)
  }

  /** The answer to a body of a stream elsewhere, and whether the loop ends with it. */
  predicate McpAnswer(env: Env, h: Http, before: seq<Message>, body: Bytes, replies: seq<Reply>, closed: bool) {
    && (closed <==> Fatal(env, h, body))
    && replies == [if Fatal(env, h, body) then Immediate(if h.fields.None? then 500 else 413, None)
                   else if !Examined(env, h, body) then ToRequestBody(false)
                   else if !Complete(env, h, before, body) then Immediate(400, None)
                   else
                     match env.route(env.unmarshal(Parsed(env, h, before), body).req.value, h, body)
                     case Forward => ToRequestBody(true)
                     case Reject(status) => Immediate(status, None)]
  }

  /** A stream elsewhere, each request body by headers and bodies alone: the Router is asked about
      exactly those that are looked into and complete a valid MCP request, and its decision is the
      answer; a body that is looked into and is no valid request gets 400, one that is not looked into
      is let through untouched, and one that cannot be taken ends the stream. */
  lemma RouterGate(env: Env, h: Http, msgs: seq<Message>, k: nat)
    requires Opens(msgs, h) && !IsA2A(env, h) && k < |Exec(env, msgs).log|
    ensures var t := Exec(env, msgs).log[k];
            && k < |msgs| && t.msg == msgs[k]
            && (k == 0 ==> t.replies == [ToRequestHeaders(Some(env.externalHostname), None)])
            && (forall b :: Routed(b) in t.effects ==> msgs[k] == RequestBody(b))
            && (msgs[k].RequestBody? ==>
                  && (Routed(msgs[k].body) in t.effects <==> Complete(env, h, msgs[..k], msgs[k].body))
                  && McpAnswer(env, h, msgs[..k], msgs[k].body, t.replies, Exec(env, msgs[..k + 1]).st.closed))
  {
    if k == 0 {
      TurnsInOrder(env, msgs, 0);
    } else {
      LaterTurn(env, h, msgs, k);
      McpTurn(env, h, Exec(env, msgs).log[k].before, msgs[..k], msgs[k]);
    }
  }

  lemma McpTurn(env: Env, h: Http, st: Stream, before: seq<Message>, m: Message)
    requires Follows(env, h, st, before) && !st.closed && !IsA2A(env, h)
    ensures var o := Handle(env, st, m);
            && (forall b :: Routed(b) in o.effects ==> m == RequestBody(b))
            && (m.RequestBody? ==>
                  && (Routed(m.body) in o.effects <==> Complete(env, h, before, m.body))
                  && McpAnswer(env, h, before, m.body, o.replies, o.st.closed))
  {
  }

  /** The answer to response headers or a response body, and the state it leaves: exactly a wanted
      response is streamed through the gateway, from a new rewriter or observer; headers end the loop
      when no body is awaited; and unless a rewriter is at work a body is returned as it came. */
  ghost predicate ResponseAnswer(env: Env, h: Http, before: seq<Message>, m: Message, replies: seq<Reply>, st: Stream) {
    var wanted := Wanted(env, h, before, m);
    match m
    case ResponseHeaders(None) => replies == [Immediate(500, None)] && st.closed
    case ResponseHeaders(Some(_)) =>
      && replies == [ToResponseHeaders(wanted)] && (st.closed <==> !wanted && !Tapped(env, h, before))
      && (wanted && IsA2A(env, h) ==> st.observer == Some(Held(Observer.NOTHING, [])))
      && (wanted && !IsA2A(env, h) ==>
            st.rewriter == Some(Rewriting(env.rewriting(Parsed(env, h, before).value, h), Held(env.ids, []))))
    case ResponseBody(body, last) =>
      && (st.closed <==> last)
      && (IsA2A(env, h) || !Tapped(env, h, before) ==> replies == [ToResponseBody(body)])
    case _ => true
  }

  /** The response side of any stream, by headers and bodies alone. */
  lemma ResponseGate(env: Env, h: Http, msgs: seq<Message>, k: nat)
    requires Opens(msgs, h) && 0 < k < |Exec(env, msgs).log|
    ensures k < |msgs| && ResponseAnswer(env, h, msgs[..k], msgs[k], Exec(env, msgs).log[k].replies, Exec(env, msgs[..k + 1]).st)
  {
    LaterTurn(env, h, msgs, k);
    ResponseTurn(env, h, Exec(env, msgs).log[k].before, msgs[..k], msgs[k]);
  }

  lemma ResponseTurn(env: Env, h: Http, st: Stream, before: seq<Message>, m: Message)
    requires Follows(env, h, st, before) && !st.closed
    ensures var o := Handle(env, st, m); ResponseAnswer(env, h, before, m, o.replies, o.st)
  {
  }

  /** Without request headers nothing gets anywhere: a body, response headers or missing request headers
      are answered 500 and end the loop. */
  lemma NothingWithoutHeaders(env: Env, msgs: seq<Message>, k: nat)
    requires k < |Exec(env, msgs).log| && forall j :: 0 <= j <= k && j < |msgs| && msgs[j].RequestHeaders? ==> msgs[j].http == None
    ensures k < |msgs| && Exec(env, msgs).log[k].effects == []
    ensures !msgs[k].ResponseBody? && !msgs[k].Trailers? ==>
              Exec(env, msgs).log[k].replies == [Immediate(500, None)] && Exec(env, msgs[..k + 1]).st.closed
  {
    TurnsInOrder(env, msgs, k);
    StaysBlank(env, msgs[..k]);
    assert msgs[..k + 1][..k] == msgs[..k];
    LogGrows(env, msgs[..k + 1]);
  }

  lemma {:induction false} StaysBlank(env: Env, msgs: seq<Message>)
    requires forall j :: 0 <= j < |msgs| && msgs[j].RequestHeaders? ==> msgs[j].http == None
    ensures var st := Exec(env, msgs).st; st.http == None && !st.endOfStream
    decreases |msgs|
  {
    if msgs != [] {
      StaysBlank(env, msgs[..|msgs| - 1]);
    }
  }

  /** No turn of this stream hands a body to MCPRequest.Validate or the Router. */
  ghost predicate Silent(env: Env, msgs: seq<Message>) {
    forall k :: 0 <= k < |Exec(env, msgs).log| ==> Exec(env, msgs).log[k].effects == []
  }

  /** The headers alone decide whether anything of a stream can reach the MCP side: nothing does,
      whatever follows, exactly when the path is under /a2a/, the headers ended the stream, or there
      is no JSON content type. The body witnesses that some body unmarshals at all. */
  lemma SilentIff(env: Env, h: Http, body: Bytes)
    requires body != [] && Within(env, body) && env.unmarshal(None, body).ok
    ensures (forall msgs :: Opens(msgs, h) ==> Silent(env, msgs))
       <==> IsA2A(env, h) || h.endOfStream || h.fields.None? || !SaysJson(env, h)
  {
    if IsA2A(env, h) || h.endOfStream || h.fields.None? || !SaysJson(env, h) {
      forall msgs | Opens(msgs, h)
        ensures Silent(env, msgs)
      {
        HeadersSilence(env, h, msgs);
      }
    } else {
      var msgs := [RequestHeaders(Some(h)), RequestBody(body)];
      assert Opens(msgs, h) && msgs[..1] == [RequestHeaders(Some(h))] && msgs[..1][..0] == [];
      LogGrows(env, msgs[..1]);
      FirstFollows(env, h);
      LogGrows(env, msgs);
      assert Exec(env, msgs).log[1].effects != [];
    }
  }

  lemma HeadersSilence(env: Env, h: Http, msgs: seq<Message>)
    requires Opens(msgs, h) && (IsA2A(env, h) || h.endOfStream || h.fields.None? || !SaysJson(env, h))
    ensures Silent(env, msgs)
  {
    forall k | 0 <= k < |Exec(env, msgs).log|
      ensures Exec(env, msgs).log[k].effects == []
    {
      if k == 0 {
        TurnsInOrder(env, msgs, 0);
      } else {
        LaterTurn(env, h, msgs, k);
      }
    }
  }

  /** A POST to the path under which an agent is advertised, with or without trailing slashes, is sent
      to that agent's host at the fixed backend path; a path that leads to no agent is refused. */
  lemma AdvertisedPathsReachTheAgent(env: Env, st: Stream, h: Http, n: Serving.Name)
    requires env.a2aBroker.Some? && Field(h, ":method") == POST && V.A2A <= Field(h, ":path")
    requires Serving.WellFormed(n.namespace) && Serving.WellFormed(n.prefix) && '?' !in n.namespace && '?' !in n.prefix
    requires V.TrimRight(Field(h, ":path"), '/') == V.A2A + CardCache.Key(n.namespace, n.prefix)
    ensures var agents := env.a2aBroker.value.agents; var key := CardCache.Key(n.namespace, n.prefix);
            var o := OnRequestHeaders(env, st, Some(h));
            && o.st.a2a.Some? && !o.st.a2a.value.discovery
            && o.replies == if key in agents then [ToRequestHeaders(Some(agents[key].hostname), Some(A2A_BACKEND_PATH))]
                            else [Immediate(200, Some(ERR_INVALID_PARAMS))]
  {
    Serving.AgentAtGatewayPath(env.a2aBroker.value, Field(h, ":path"), n);
  }

  // ---- whole responses ----

  /** The response body arrives in chunks, the last one marked; the bytes returned, and the end state. */
  function Deliver(env: Env, st: Stream, chunks: seq<Bytes>): (Stream, Bytes)
    decreases |chunks|
  {
    if chunks == [] then (st, [])
    else
      var o := OnResponseBody(env, st, chunks[0], |chunks| == 1);
      var (st', rest) := Deliver(env, o.st, chunks[1..]);
      (st', (if o.replies[0].ToResponseBody? then o.replies[0].body else []) + rest)
  }

  /** A streamed tool-call response: the client gets the line-by-line rewrite of the whole response,
      however it was chunked, and no id of the stream is left in the map. */
  lemma RewrittenResponse(env: Env, st: Stream, rw: Rewriter.Env, ids: Rewriter.Ids, chunks: seq<Bytes>)
    requires st.rewriter == Some(Rewriting(rw, Held(ids, []))) && chunks != []
    ensures var (st', out) := Deliver(env, st, chunks);
            var (all, bytes) := Framing.Run(Rewriter.LineStep(rw), ids, Lines(Flatten(chunks)));
            && out == bytes && st'.closed
            && st'.rewriter == Some(Rewriting(rw, Held(Rewriter.Ids(Rewriter.Dropped(all.entries, all.own), all.drawn, []), [])))
  {
    DeliverRewrites(env, st, chunks);
    Rewriter.RewriteIsChunkIndependent(rw, ids, chunks);
  }

  lemma {:induction false} DeliverRewrites(env: Env, st: Stream, chunks: seq<Bytes>)
    requires st.rewriter.Some? && chunks != []
    ensures var rw := st.rewriter.value;
            var (st', out) := Deliver(env, st, chunks);
            var (h, fed) := FeedAll(LF, Rewriter.LineStep(rw.env), rw.held, chunks);
            var (done, tail) := Rewriter.Finish(rw.env, h);
            out == fed + tail && st'.closed && st'.rewriter == Some(Rewriting(rw.env, Held(done, [])))
    decreases |chunks|
  {
    var rw := st.rewriter.value;
    var o := OnResponseBody(env, st, chunks[0], |chunks| == 1);
    var (h1, out1) := Feed(LF, Rewriter.LineStep(rw.env), rw.held, chunks[0]);
    if |chunks| == 1 {
      assert chunks[1..] == [];
      assert out1 + [] == out1;
      assert o.replies[0].body + [] == o.replies[0].body;
    } else {
      DeliverRewrites(env, o.st, chunks[1..]);
      var (h2, out2) := FeedAll(LF, Rewriter.LineStep(rw.env), h1, chunks[1..]);
      Assoc(out1, out2, Rewriter.Finish(rw.env, h2).1);
    }
  }

  function Bodies(chunks: seq<Bytes>): seq<Message> {
    if chunks == [] then [] else [ResponseBody(chunks[0], |chunks| == 1)] + Bodies(chunks[1..])
  }

  /** The response bytes returned in these turns. */
  function Returned(log: seq<Turn>): Bytes {
    if log == [] then []
    else (if |log[0].replies| == 1 && log[0].replies[0].ToResponseBody? then log[0].replies[0].body else []) + Returned(log[1..])
  }

  /** Delivering chunks is what the loop does when it receives them. */
  lemma {:induction false} DeliverIsContinue(env: Env, r: Run, chunks: seq<Bytes>)
    requires !r.st.closed
    ensures var all := Continue(env, r, Bodies(chunks));
            && all.st == Deliver(env, r.st, chunks).0
            && r.log <= all.log && Returned(all.log[|r.log|..]) == Deliver(env, r.st, chunks).1
    decreases |chunks|
  {
    if chunks != [] {
      var m := ResponseBody(chunks[0], |chunks| == 1);
      var next := Receive(env, r, m);
      assert Bodies(chunks)[0] == m && Bodies(chunks)[1..] == Bodies(chunks[1..]);
      var all := Continue(env, r, Bodies(chunks));
      if |chunks| == 1 {
        assert chunks[1..] == [];
        assert all == Continue(env, next, []) == next;
      } else {
        DeliverIsContinue(env, next, chunks[1..]);
      }
      assert all.log[|r.log|] == next.log[|r.log|];
      ReturnedNext(all.log, |r.log|);
    }
  }

  lemma ReturnedNext(log: seq<Turn>, n: nat)
    requires n < |log| && |log[n].replies| == 1 && log[n].replies[0].ToResponseBody?
    ensures Returned(log[n..]) == log[n].replies[0].body + Returned(log[n + 1..])
  {
    assert log[n..][1..] == log[n + 1..];
  }

  /** The last of these messages were the headers of a wanted response, and the loop waits for its body. */
  ghost predicate Awaits(env: Env, h: Http, msgs: seq<Message>) {
    && Opens(msgs, h) && !Exec(env, msgs).st.closed
    && Wanted(env, h, msgs[..|msgs| - 1], msgs[|msgs| - 1])
  }

  lemma AwaitsMeans(env: Env, h: Http, msgs: seq<Message>)
    requires Awaits(env, h, msgs)
    ensures var st := Exec(env, msgs).st; var before := msgs[..|msgs| - 1];
            if IsA2A(env, h) then st.rewriter == None && st.observer == Some(Held(Observer.NOTHING, []))
            else
              && Parsed(env, h, before).Some?
              && st.rewriter == Some(Rewriting(env.rewriting(Parsed(env, h, before).value, h), Held(env.ids, [])))
  {
    RunFollows(env, h, msgs);
    assert msgs[..|msgs|] == msgs;
    OneReplyEach(env, msgs);
    ResponseGate(env, h, msgs, |msgs| - 1);
  }

  /** Whole tool calls: however its request came and its response was chunked, the bytes returned for a
      wanted response are the line-by-line rewrite of the response, for the request as parsed, and
      afterwards no id of the stream is left in the map. */
  lemma ToolCallResponse(env: Env, h: Http, msgs: seq<Message>, chunks: seq<Bytes>)
    requires Awaits(env, h, msgs) && !IsA2A(env, h) && chunks != []
    ensures var before := msgs[..|msgs| - 1]; var r, all := Exec(env, msgs), Exec(env, msgs + Bodies(chunks));
            && Parsed(env, h, before).Some? && r.log <= all.log
            && var rw := env.rewriting(Parsed(env, h, before).value, h);
               var (ids, bytes) := Framing.Run(Rewriter.LineStep(rw), env.ids, Lines(Flatten(chunks)));
               && Returned(all.log[|r.log|..]) == bytes && all.st.closed
               && all.st.rewriter == Some(Rewriting(rw, Held(Rewriter.Ids(Rewriter.Dropped(ids.entries, ids.own), ids.drawn, []), [])))
  {
    AwaitsMeans(env, h, msgs);
    ExecContinues(env, msgs, Bodies(chunks));
    DeliverIsContinue(env, Exec(env, msgs), chunks);
    RewrittenResponse(env, Exec(env, msgs).st, env.rewriting(Parsed(env, h, msgs[..|msgs| - 1]).value, h), env.ids, chunks);
  }

  /** Whole streaming A2A calls: the bytes returned are the response's own, and the observer ends with
      what the lines of the whole response say. */
  lemma StreamingCallResponse(env: Env, h: Http, msgs: seq<Message>, chunks: seq<Bytes>)
    requires Awaits(env, h, msgs) && IsA2A(env, h) && chunks != []
    ensures var r, all := Exec(env, msgs), Exec(env, msgs + Bodies(chunks));
            && r.log <= all.log && Returned(all.log[|r.log|..]) == Flatten(chunks) && all.st.closed
            && all.st.observer
               == Some(Held(Observer.Noted(Observer.NOTHING, Observer.Sightings(env.observing, Lines(Flatten(chunks)))), []))
  {
    AwaitsMeans(env, h, msgs);
    ExecContinues(env, msgs, Bodies(chunks));
    DeliverIsContinue(env, Exec(env, msgs), chunks);
    ObservedResponse(env, Exec(env, msgs).st, chunks);
  }

  /** Which of its ids the stream leaves answerable when it hands a chunk on: all those drawn in the
      chunk or still in the map from before, unless the chunk ends the response, and then none.
      Process and Flush of the last chunk both run before the chunk is sent. */
  lemma AnswerableIff(rw: Rewriting, body: Bytes, last: bool, g: string)
    requires IdMap.Fresh(rw.env.supply)
    requires var a, b := rw.held.st, Rewritten(rw, body, last).0.held.st;
             (exists d: nat :: a.drawn <= d < b.drawn && rw.env.supply(d) == g) || (g in a.own && g in a.entries)
    ensures g in Rewritten(rw, body, last).0.held.st.entries <==> !last
  {
    var a, b := rw.held.st, Rewritten(rw, body, last).0.held.st;
    var (h, out) := Feed(LF, Rewriter.LineStep(rw.env), rw.held, body);
    Elicitation.RunGrows(rw.env, a, Frames(LF, rw.held.buf + body).frames);
    Elicitation.LastLineGrows(rw.env, h);
    var ms := Rewriter.Requests(rw.env.codec, Frames(LF, rw.held.buf + body).frames);
    var tail := Rewriter.Requests(rw.env.codec, Elicitation.Tail(h.buf));
    if d: nat :| a.drawn <= d < b.drawn && rw.env.supply(d) == g {
      assert Rewriter.Draw(rw.env.supply, a.drawn, b.drawn - a.drawn)[d - a.drawn] == g;
    }
    if last {
      OwnsWhatItDrew(rw.env, a, h.st, ms, LastLine(Rewriter.LineStep(rw.env), h).0, tail, g);
    } else {
      KeepsWhatItDrew(rw.env, a, h.st, ms, g);
    }
  }

  lemma KeepsWhatItDrew(env: Rewriter.Env, a: Rewriter.Ids, b: Rewriter.Ids, ms: seq<Rewriter.Message>, g: string)
    requires Elicitation.Grown(env, a, b, ms)
    requires g in Rewriter.Draw(env.supply, a.drawn, |ms|) || g in a.entries
    ensures g in b.entries
  {
    var new_ := Rewriter.Draw(env.supply, a.drawn, |ms|);
    if g in new_ {
      var i :| 0 <= i < |new_| && new_[i] == g;
      assert Rewriter.Answers(b.entries, env.supply(a.drawn + i), ms[i], env.origin);
    } else {
      assert Rewriter.Same(g, b.entries, a.entries);
    }
  }

  lemma OwnsWhatItDrew(env: Rewriter.Env, a: Rewriter.Ids, b: Rewriter.Ids, ms: seq<Rewriter.Message>, c: Rewriter.Ids,
                       tail: seq<Rewriter.Message>, g: string)
    requires Elicitation.Grown(env, a, b, ms) && Elicitation.Grown(env, b, c, tail)
    requires g in Rewriter.Draw(env.supply, a.drawn, c.drawn - a.drawn) || g in a.own
    ensures g !in Rewriter.Dropped(c.entries, c.own)
  {
    var all, first, then_ := Rewriter.Draw(env.supply, a.drawn, c.drawn - a.drawn),
                             Rewriter.Draw(env.supply, a.drawn, b.drawn - a.drawn),
                             Rewriter.Draw(env.supply, b.drawn, c.drawn - b.drawn);
    assert all == first + then_;
    assert c.own == a.own + first + then_;
    assert g in c.own;
    var i :| 0 <= i < |c.own| && c.own[i] == g;
  }

  /** For example, a terminated request line alone in its chunk: the client gets it under a fresh id,
      and a reply in its session is accepted for the request as it came, unless the chunk was the last,
      when the id is already unknown. */
  lemma RequestInLastChunk(rw: Rewriting, line: Bytes, msg: Rewriter.Message, last: bool)
    requires rw.held.buf == [] && IsFrame(LF, line) && Rewriter.Request(rw.env.codec, line) == Some(msg) && IdMap.Fresh(rw.env.supply)
    ensures var (rw', out) := Rewritten(rw, line, last);
            && out == Rewriter.RewriteLine(rw.env, rw.held.st, line).1
            && var v := Elicitation.Check(rw'.held.st.entries, rw.env.supply(rw.held.st.drawn), rw.env.origin.gatewaySessionID);
               if last then v == Elicitation.UnknownId
               else
                 && v.Accepted? && msg.id == Some(v.entry.backendID)
                 && v.entry.serverName == rw.env.origin.serverName && v.entry.sessionID == rw.env.origin.backendSessionID
  {
    Rewriter.ChunkOfOneLine(rw.env, rw.held, line);
    var ids := Rewriter.RewriteLine(rw.env, rw.held.st, line).0;
    assert ids.own[|ids.own| - 1] == rw.env.supply(rw.held.st.drawn);
  }

  /** A streamed A2A response: the client gets its bytes, and the observer ends with what its lines
      say, however it was chunked. */
  lemma ObservedResponse(env: Env, st: Stream, chunks: seq<Bytes>)
    requires st.rewriter == None && st.observer == Some(Held(Observer.NOTHING, [])) && chunks != []
    ensures var (st', out) := Deliver(env, st, chunks);
            && out == Flatten(chunks) && st'.closed
            && st'.observer == Some(Held(Observer.Noted(Observer.NOTHING, Observer.Sightings(env.observing, Lines(Flatten(chunks)))), []))
  {
    DeliverObserves(env, st, chunks);
    Observer.ObserveIsChunkIndependent(env.observing, chunks);
  }

  lemma {:induction false} DeliverObserves(env: Env, st: Stream, chunks: seq<Bytes>)
    requires st.rewriter == None && st.observer.Some? && chunks != []
    ensures var step := Observer.ObserveStep(env.observing);
            var (st', out) := Deliver(env, st, chunks);
            && out == Flatten(chunks) && st'.closed
            && st'.observer == Some(Held(LastLine(step, FeedAll(LF, step, st.observer.value, chunks).0).0, []))
    decreases |chunks|
  {
    var o := OnResponseBody(env, st, chunks[0], |chunks| == 1);
    if |chunks| == 1 {
      assert chunks[1..] == [];
    } else {
      DeliverObserves(env, o.st, chunks[1..]);
    }
  }
}
