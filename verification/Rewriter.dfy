/** internal/mcp-router/elicitation.go: rewriting the ids of elicitation requests in a streamed
    tool-call response, line by line, while the response arrives in arbitrary chunks. */
module Rewriter {

  import opened Text
  import opened Framing
  import opened IdMap

  const ELICITATION_CREATE := "elicitation/create"

  /** The JSON-RPC envelope; params, result and error stay raw. */
  datatype Message = Message(jsonrpc: string, method_: string, id: Option<RpcId>, rest: Bytes)

  /** The library functions used on a line: bytes.TrimSpace, json.Unmarshal and json.Marshal. */
  datatype Codec = Codec(trimSpace: Bytes -> Bytes, parse: Bytes -> Option<Message>, marshal: Message -> Option<Bytes>)

  /** The tool call whose response is being streamed. */
  datatype Origin = Origin(serverName: string, backendSessionID: string, gatewaySessionID: string)

  datatype Env = Env(codec: Codec, supply: Supply, origin: Origin)

  /** The part of the world a line may change: the id map, and the ids this stream owns. */
  datatype Ids = Ids(entries: map<string, Entry>, drawn: nat, own: seq<string>)

  predicate IsData(codec: Codec, line: Bytes) {
    DATA <= codec.trimSpace(line)
  }

  function Payload(codec: Codec, line: Bytes): Bytes {
    var trimmed := codec.trimSpace(line);
    var data := if DATA <= trimmed then trimmed[|DATA|..] else trimmed;
    if data != [] && data[0] == SPACE then data[1..] else data
  }

  /** The elicitation request a line carries, if any. */
  function Request(codec: Codec, line: Bytes): (r: Option<Message>)
    ensures r.Some? ==> r.value.id.Some? && r.value.method_ == ELICITATION_CREATE
  {
    if !IsData(codec, line) then None else
    match codec.parse(Payload(codec, line))
    case None => None
    case Some(msg) => if msg.method_ == ELICITATION_CREATE && msg.id.Some? then Some(msg) else None
  }

  /** The line, trimmed, is a data line whose payload parses to this elicitation request with an id. */
  ghost predicate Carries(codec: Codec, line: Bytes, msg: Message) {
    && msg.method_ == "elicitation/create" && msg.id.Some?
    && exists p :: IsPayload(codec.trimSpace(line), p) && codec.parse(p) == Some(msg)
  }

  lemma RequestMeans(codec: Codec, line: Bytes, msg: Message)
    ensures Request(codec, line) == Some(msg) <==> Carries(codec, line, msg)
  {
    var t := codec.trimSpace(line);
    if DATA <= t {
      PayloadIs(codec, line);
      forall p | IsPayload(t, p)
        ensures p == Payload(codec, line)
      {
        PayloadUnique(t, p, Payload(codec, line));
      }
    } else {
      assert forall p: Bytes :: (DATA + [SPACE] + p)[..|DATA|] == DATA && (DATA + p)[..|DATA|] == DATA;
    }
  }

  lemma PayloadIs(codec: Codec, line: Bytes)
    requires IsData(codec, line)
    ensures IsPayload(codec.trimSpace(line), Payload(codec, line))
  {
    var t := codec.trimSpace(line);
    var data := t[|DATA|..];
    assert t == DATA + data;
    if data != [] && data[0] == SPACE {
      assert data == [SPACE] + data[1..];
      assert t == DATA + [SPACE] + data[1..];
    }
  }

  lemma PayloadUnique(t: Bytes, p: Bytes, q: Bytes)
    requires IsPayload(t, p) && IsPayload(t, q)
    ensures p == q
  {
    var data := t[|DATA|..];
    assert data == p || data == [SPACE] + p;
    assert data == q || data == [SPACE] + q;
    assert data == [SPACE] + p ==> data[1..] == p;
    assert data == [SPACE] + q ==> data[1..] == q;
  }

  function EntryFor(origin: Origin, msg: Message): Entry
    requires msg.id.Some?
  {
    Entry(msg.id.value, origin.serverName, origin.backendSessionID, origin.gatewaySessionID)
  }

  /** One line: an elicitation request gets a fresh gateway id, anything else passes through. */
  function RewriteLine(env: Env, ids: Ids, line: Bytes): (Ids, Bytes) {
    match Request(env.codec, line)
    case None => (ids, line)
    case Some(msg) =>
      var gid := env.supply(ids.drawn);
      var ids' := Ids(ids.entries[gid := EntryFor(env.origin, msg)], ids.drawn + 1, ids.own + [gid]);
      match env.codec.marshal(msg.(id := Some(StringId(gid))))
      case None => (ids', line)
      case Some(rewritten) => (ids', DATA + [SPACE] + rewritten + LF)
  }

  function LineStep(env: Env): Step<Ids> {
    (ids: Ids, line: Bytes) => RewriteLine(env, ids, line)
  }

  function Dropped(entries: map<string, Entry>, ids: seq<string>): map<string, Entry> {
    entries - (set i | 0 <= i < |ids| :: ids[i])
  }

  /** Flush: the unterminated last line goes out, and the ids of this stream are withdrawn. */
  function Finish(env: Env, h: Held<Ids>): (Ids, Bytes) {
    var (ids, out) := LastLine(LineStep(env), h);
    (Ids(Dropped(ids.entries, ids.own), ids.drawn, []), out)
  }

  class SseRewriter {
    var buf: Bytes
    var gatewayIDs: seq<string>
    const idMap: InMemoryMap
    const codec: Codec
    const origin: Origin

    constructor (idMap: InMemoryMap, codec: Codec, origin: Origin)
      ensures this.idMap == idMap && this.codec == codec && this.origin == origin
      ensures buf == [] && gatewayIDs == []
    {
      this.idMap, this.codec, this.origin := idMap, codec, origin;
      buf, gatewayIDs := [], [];
    }

    function Context(): Env {
      Env(codec, idMap.supply, origin)
    }

    function Now(): Ids
      reads this, idMap
    {
      Ids(idMap.entries, idMap.drawn, gatewayIDs)
    }

    method MaybeRewrite(line: Bytes) returns (out: Bytes)
      requires IsData(codec, line)
      modifies this`gatewayIDs, idMap
      ensures (Now(), out) == RewriteLine(Context(), old(Now()), line)
      ensures match Request(codec, line)
              case None => out == line && Now() == old(Now())
              case Some(msg) =>
                && idMap.drawn == old(idMap.drawn) + 1 && gatewayIDs == old(gatewayIDs) + [idMap.supply(old(idMap.drawn))]
                && Answers(idMap.entries, idMap.supply(old(idMap.drawn)), msg, origin)
    {
      var parsed := codec.parse(Payload(codec, line));
      if parsed.None? {
        return line;
      }
      var msg := parsed.value;
      if msg.method_ != ELICITATION_CREATE || msg.id.None? {
        return line;
      }
      var gatewayID := idMap.Store(msg.id.value, origin.serverName, origin.backendSessionID, origin.gatewaySessionID);
      gatewayIDs := gatewayIDs + [gatewayID];
      var rewritten := codec.marshal(msg.(id := Some(StringId(gatewayID))));
      if rewritten.None? {
        return line;
      }
      return DATA + [SPACE] + rewritten.value + LF;
    }

    /** Every complete line of what is held back plus the chunk goes through RewriteLine, in order. */
    method Process(chunk: Bytes) returns (output: Bytes)
      modifies this`buf, this`gatewayIDs, idMap
      ensures (Held(Now(), buf), output) == Feed(LF, LineStep(Context()), old(Held(Now(), buf)), chunk)
    {
      buf := buf + chunk;
      output := [];
      ghost var whole := Frames(LF, buf);
      ghost var goal := Run(LineStep(Context()), old(Now()), whole.frames);
      assert [] + goal.1 == goal.1;
      var idx := Find(buf, LF);
      while idx != -1
        invariant idx == Find(buf, LF)
        invariant Frames(LF, buf).rest == whole.rest
        invariant var r := Run(LineStep(Context()), Now(), Frames(LF, buf).frames); goal == (r.0, output + r.1)
        decreases |buf|
      {
        ghost var fs := Frames(LF, buf).frames;
        var line := buf[..idx + 1];
        assert fs[0] == line && fs[1..] == Frames(LF, buf[idx + 1..]).frames;
        buf := buf[idx + 1..];
        ghost var before, emitted := Now(), output;
        if IsData(codec, line) {
          line := MaybeRewrite(line);
        }
        assert (Now(), line) == LineStep(Context())(before, fs[0]);
        output := output + line;
        Assoc(emitted, line, Run(LineStep(Context()), Now(), fs[1..]).1);
        idx := Find(buf, LF);
      }
      assert output + [] == output;
    }

    method Flush() returns (remaining: Bytes)
      modifies this, idMap
      ensures buf == []
      ensures (Now(), remaining) == Finish(Context(), old(Held(Now(), buf)))
    {
      ghost var h := Held(Now(), buf);
      ghost var all := LastLine(LineStep(Context()), h).0;
      remaining := buf;
      buf := [];
      if |remaining| > 0 && IsData(codec, remaining) {
        remaining := MaybeRewrite(remaining);
      }
      assert Now() == all;
      for i := 0 to |gatewayIDs|
        invariant buf == [] && gatewayIDs == all.own && idMap.drawn == all.drawn
        invariant idMap.entries == Dropped(all.entries, gatewayIDs[..i])
      {
        idMap.Remove(gatewayIDs[i]);
        assert gatewayIDs[..i + 1] == gatewayIDs[..i] + [gatewayIDs[i]];
        DroppedNext(all.entries, gatewayIDs[..i], gatewayIDs[i]);
      }
      assert gatewayIDs[..|gatewayIDs|] == gatewayIDs;
      gatewayIDs := [];
    }
  }

  lemma DroppedNext(entries: map<string, Entry>, ids: seq<string>, id: string)
    ensures Dropped(entries, ids + [id]) == Dropped(entries, ids) - {id}
  {
    assert (ids + [id])[|ids|] == id;
    assert forall i :: 0 <= i < |ids| ==> (ids + [id])[i] == ids[i];
  }

  // ---- what the rewriter does to a whole stream ----

  /** The elicitation requests in a list of lines, in order. */
  function Requests(codec: Codec, ls: seq<Bytes>): (ms: seq<Message>)
    ensures forall m :: m in ms ==> m.id.Some?
  {
    if ls == [] then []
    else
      var r := Request(codec, ls[0]);
      (if r.Some? then [r.value] else []) + Requests(codec, ls[1..])
  }

  /** However a response is chunked, the bytes that reach the client are those of rewriting its
      lines one by one, and the same ids were drawn for the same requests. */
  lemma RewriteIsChunkIndependent(env: Env, ids: Ids, chunks: seq<Bytes>)
    ensures var (h, out) := FeedAll(LF, LineStep(env), Held(ids, []), chunks);
            var (done, tail) := Finish(env, h);
            var (all, bytes) := Run(LineStep(env), ids, Lines(Flatten(chunks)));
            out + tail == bytes && done == Ids(Dropped(all.entries, all.own), all.drawn, [])
  {
    LinesChunkIndependence(LineStep(env), ids, chunks);
  }

  /** n ids of the supply, from the d-th on. */
  function Draw(supply: Supply, d: nat, n: nat): (r: seq<string>)
    ensures |r| == n && forall i :: 0 <= i < n ==> r[i] == supply(d + i)
  {
    seq(n, i requires 0 <= i => supply(d + i))
  }

  /** Under g the map has the id this request came with, and the server and sessions of its origin. */
  predicate Answers(entries: map<string, Entry>, g: string, msg: Message, o: Origin) {
    && g in entries && msg.id == Some(entries[g].backendID) && entries[g].serverName == o.serverName
    && entries[g].sessionID == o.backendSessionID && entries[g].gatewaySessionID == o.gatewaySessionID
  }

  /** The ids owned and the entries stored after some lines: one fresh id per request, in order,
      standing for that request's backend id and for this stream's origin; nothing else changes. */
  lemma {:induction false} StoreCalls(env: Env, ids: Ids, ls: seq<Bytes>)
    requires Fresh(env.supply)
    ensures var ms := Requests(env.codec, ls); var all := Run(LineStep(env), ids, ls).0;
            && all.drawn == ids.drawn + |ms|
            && all.own == ids.own + Draw(env.supply, ids.drawn, |ms|)
            && (forall i :: 0 <= i < |ms| ==> Answers(all.entries, env.supply(ids.drawn + i), ms[i], env.origin))
            && (forall g :: g !in Draw(env.supply, ids.drawn, |ms|) ==> Same(g, all.entries, ids.entries))
    decreases |ls|
  {
    var ms := Requests(env.codec, ls);
    var all := Run(LineStep(env), ids, ls).0;
    if ls == [] {
      assert ids.own + [] == ids.own;
    } else {
      var (ids1, out) := RewriteLine(env, ids, ls[0]);
      StoreCalls(env, ids1, ls[1..]);
      if Request(env.codec, ls[0]).Some? {
        var d, n := ids.drawn, |ms|;
        assert ms[1..] == Requests(env.codec, ls[1..]);
        assert Draw(env.supply, d, n) == [env.supply(d)] + Draw(env.supply, d + 1, n - 1);
        assert env.supply(d) !in Draw(env.supply, d + 1, n - 1);
        assert Same(env.supply(d), all.entries, ids1.entries);
        forall i | 0 <= i < n
          ensures Answers(all.entries, env.supply(d + i), ms[i], env.origin)
        {
          if i > 0 {
            assert ms[i] == ms[1..][i - 1];
            assert Answers(all.entries, env.supply(d + 1 + (i - 1)), ms[1..][i - 1], env.origin);
          }
        }
      }
    }
  }

  predicate Same(g: string, a: map<string, Entry>, b: map<string, Entry>) {
    (g in a <==> g in b) && (g in a ==> a[g] == b[g])
  }

  // ---- what the client reads ----

  /** The libraries read back what they wrote for this message: it marshals, the text parses to the
      same id, method and version with the raw rest in normal form (encoding/json compacts raw text),
      and trimming its data line takes off the newline only. */
  predicate RoundTrips(codec: Codec, norm: Bytes -> Bytes, msg: Message) {
    var r := codec.marshal(msg);
    && r.Some? && codec.parse(r.value) == Some(msg.(rest := norm(msg.rest)))
    && codec.trimSpace(DATA + [SPACE] + r.value + LF) == DATA + [SPACE] + r.value
  }

  predicate ReadsBackAs(codec: Codec, norm: Bytes -> Bytes, text: Bytes, id: string) {
    codec.parse(text).Some? ==> RoundTrips(codec, norm, codec.parse(text).value.(id := Some(StringId(id))))
  }

  /** They do so for every message that was parsed and given a string id, the only ones the gateway
      writes. */
  ghost predicate ReadsBack(codec: Codec, norm: Bytes -> Bytes) {
    forall text, id :: ReadsBackAs(codec, norm, text, id)
  }

  /** The lines that go out for the lines that come in. */
  function Emitted(env: Env, ids: Ids, ls: seq<Bytes>): (out: seq<Bytes>)
    ensures |out| == |ls|
    decreases |ls|
  {
    if ls == [] then []
    else
      var (ids1, line) := RewriteLine(env, ids, ls[0]);
      [line] + Emitted(env, ids1, ls[1..])
  }

  lemma {:induction false} EmittedIsRun(env: Env, ids: Ids, ls: seq<Bytes>)
    ensures Flatten(Emitted(env, ids, ls)) == Run(LineStep(env), ids, ls).1
    decreases |ls|
  {
    if ls != [] {
      var (ids1, line) := RewriteLine(env, ids, ls[0]);
      EmittedIsRun(env, ids1, ls[1..]);
      FlattenCons(line, Emitted(env, ids1, ls[1..]));
    }
  }

  /** The requests under new ids, their raw rest in normal form. */
  function Renamed(norm: Bytes -> Bytes, ms: seq<Message>, gids: seq<string>): (r: seq<Message>)
    requires |ms| == |gids|
  {
    seq(|ms|, i requires 0 <= i < |ms| => ms[i].(id := Some(StringId(gids[i])), rest := norm(ms[i].rest)))
  }

  lemma EmittedRequest(env: Env, norm: Bytes -> Bytes, ids: Ids, line: Bytes)
    requires ReadsBack(env.codec, norm)
    ensures Request(env.codec, RewriteLine(env, ids, line).1)
         == match Request(env.codec, line)
            case None => None
            case Some(msg) => Some(msg.(id := Some(StringId(env.supply(ids.drawn))), rest := norm(msg.rest)))
  {
    var r := Request(env.codec, line);
    if r.Some? {
      var msg := r.value.(id := Some(StringId(env.supply(ids.drawn))));
      assert ReadsBackAs(env.codec, norm, Payload(env.codec, line), env.supply(ids.drawn));
      assert RoundTrips(env.codec, norm, msg);
      var text := env.codec.marshal(msg).value;
      var out := DATA + [SPACE] + text + LF;
      var t := DATA + [SPACE] + text;
      assert t == DATA + ([SPACE] + text);
      assert t[|DATA|..] == [SPACE] + text && ([SPACE] + text)[1..] == text;
      assert Payload(env.codec, out) == text;
    }
  }

  /** What the client reads in the rewritten stream: the same elicitation requests in the same order,
      the i-th under the i-th fresh id, and under that id the map holds the backend id the i-th request
      came with. Whoever answers the id the client saw answers the request the backend sent. */
  lemma ClientSeesAnswerableIds(env: Env, norm: Bytes -> Bytes, ids: Ids, ls: seq<Bytes>)
    requires Fresh(env.supply) && ReadsBack(env.codec, norm)
    ensures var ms := Requests(env.codec, ls); var all := Run(LineStep(env), ids, ls).0;
            && Requests(env.codec, Emitted(env, ids, ls)) == Renamed(norm, ms, Draw(env.supply, ids.drawn, |ms|))
            && (forall i :: 0 <= i < |ms| ==> Answers(all.entries, env.supply(ids.drawn + i), ms[i], env.origin))
  {
    EmittedRequests(env, norm, ids, ls);
    StoreCalls(env, ids, ls);
  }

  lemma {:induction false} EmittedRequests(env: Env, norm: Bytes -> Bytes, ids: Ids, ls: seq<Bytes>)
    requires ReadsBack(env.codec, norm)
    ensures var ms := Requests(env.codec, ls);
            Requests(env.codec, Emitted(env, ids, ls)) == Renamed(norm, ms, Draw(env.supply, ids.drawn, |ms|))
    decreases |ls|
  {
    if ls != [] {
      var (ids1, line) := RewriteLine(env, ids, ls[0]);
      var ms := Requests(env.codec, ls);
      var rest := Emitted(env, ids1, ls[1..]);
      EmittedRequest(env, norm, ids, ls[0]);
      EmittedRequests(env, norm, ids1, ls[1..]);
      assert ([line] + rest)[1..] == rest;
      if Request(env.codec, ls[0]).Some? {
        assert ms[1..] == Requests(env.codec, ls[1..]);
        RenamedCons(norm, ms, env.supply, ids.drawn);
      }
    }
  }

  lemma RenamedCons(norm: Bytes -> Bytes, ms: seq<Message>, supply: Supply, d: nat)
    requires ms != []
    ensures Renamed(norm, ms, Draw(supply, d, |ms|))
         == [ms[0].(id := Some(StringId(supply(d))), rest := norm(ms[0].rest))] + Renamed(norm, ms[1..], Draw(supply, d + 1, |ms| - 1))
  {
  }

  /** With no elicitation request in it, a stream goes out byte for byte and draws no id. */
  lemma NoRequestNoChange(env: Env, ids: Ids, chunks: seq<Bytes>)
    requires Requests(env.codec, Lines(Flatten(chunks))) == []
    ensures var (h, out) := FeedAll(LF, LineStep(env), Held(ids, []), chunks);
            var (done, tail) := Finish(env, h);
            out + tail == Flatten(chunks) && done.drawn == ids.drawn && done.entries == Dropped(ids.entries, ids.own)
  {
    RewriteIsChunkIndependent(env, ids, chunks);
    PassThrough(env, ids, Lines(Flatten(chunks)));
    LinesLossless(Flatten(chunks));
  }

  lemma {:induction false} PassThrough(env: Env, ids: Ids, ls: seq<Bytes>)
    requires Requests(env.codec, ls) == []
    ensures Run(LineStep(env), ids, ls) == (ids, Flatten(ls))
    decreases |ls|
  {
    if ls != [] {
      assert Request(env.codec, ls[0]).None?;
      PassThrough(env, ids, ls[1..]);
    }
  }

  lemma ChunkOfOneLine(env: Env, h: Held<Ids>, line: Bytes)
    requires h.buf == [] && IsFrame(LF, line)
    ensures Feed(LF, LineStep(env), h, line) == (Held(RewriteLine(env, h.st, line).0, []), RewriteLine(env, h.st, line).1)
  {
    assert [] + line == line && Flatten([line]) + [] == line by {
      assert [line][1..] == [];
    }
    FramesUnique(LF, [line], []);
    RunOne(LineStep(env), h.st, line);
  }

  /** Flushing again changes nothing and emits nothing. */
  lemma FlushTwice(env: Env, h: Held<Ids>)
    ensures var (done, out) := Finish(env, h);
            Finish(env, Held(done, [])) == (done, [])
            && forall g :: g in done.entries ==> g !in LastLine(LineStep(env), h).0.own
  {
    var (done, out) := Finish(env, h);
    var all := LastLine(LineStep(env), h).0;
    assert done.entries == Dropped(all.entries, all.own);
    assert Dropped(done.entries, []) == done.entries;
  }
}
