/** The life of an elicitation id, over any interleaving of streamed responses and client replies
    (internal/mcp-router/elicitation.go with routeElicitationResponse of
    internal/routing/router_202511.go and the deferred Flush of ext_proc_adapter.go). */
module Elicitation {

  import opened Text
  import opened Framing
  import opened IdMap
  import opened Rewriter

  /** An open response stream: its rewriter between chunks. */
  datatype Stream = Stream(origin: Origin, buf: Bytes, own: seq<string>)

  /** A client reply whose id was found and whose session was checked. */
  datatype Reply = Reply(gid: string, session: string, entry: Entry)

  /** What an id was handed out for: the id its request line came with, and the stream's origin. */
  datatype Asked = Asked(id: RpcId, origin: Origin)

  datatype System = System(
    entries: map<string, Entry>,
    drawn: nat,
    streams: map<nat, Stream>,
    replies: map<nat, Reply>,    // looked up, not yet forwarded
    issued: map<string, Asked>,  // history: every id ever handed out
    forwarded: seq<Reply>        // history: every reply sent to a backend
  )

  const INITIAL := System(map[], 0, map[], map[], map[], [])

  datatype Event =
    | Open(sid: nat, origin: Origin)
    | Chunk(sid: nat, bytes: Bytes)
    | Close(sid: nat)
    | Lookup(rid: nat, gid: string, session: string)
    | Forward(rid: nat, serverKnown: bool)

  datatype Verdict = UnknownId | SessionMismatch | Accepted(entry: Entry)

  /** The checks of routeElicitationResponse before it touches the map. */
  function Check(entries: map<string, Entry>, gid: string, session: string): (v: Verdict)
    ensures v.Accepted? <==> gid in entries && entries[gid].gatewaySessionID == session
    ensures v.Accepted? ==> v.entry == entries[gid]
    ensures v.UnknownId? <==> gid !in entries
  {
    if gid !in entries then UnknownId
    else if entries[gid].gatewaySessionID != session then SessionMismatch
    else Accepted(entries[gid])
  }

  datatype Response = Refused(status: int) | Delivered(id: RpcId, serverName: string, session: string)

  /** routeElicitationResponse, one reply from lookup to forwarding. deliverable: the server is still
      configured, its URL parses and the reply marshals. */
  method RouteElicitationResponse(idMap: InMemoryMap, gid: string, session: string, deliverable: bool) returns (r: Response)
    modifies idMap
    ensures match Check(old(idMap.entries), gid, session)
            case UnknownId => r == Refused(400)
            case SessionMismatch => r == Refused(403)
            case Accepted(e) => r == if deliverable then Delivered(e.backendID, e.serverName, e.sessionID) else Refused(500)
    ensures idMap.entries == (if r.Delivered? then old(idMap.entries) - {gid} else old(idMap.entries)) && idMap.drawn == old(idMap.drawn)
  {
    var entry := idMap.Lookup(gid);
    if entry.None? {
      return Refused(400);
    }
    if entry.value.gatewaySessionID != session {
      return Refused(403);
    }
    if !deliverable {
      return Refused(500);
    }
    idMap.Remove(gid);
    return Delivered(entry.value.backendID, entry.value.serverName, entry.value.sessionID);
  }

  datatype Gateway = Gateway(codec: Codec, supply: Supply)

  function EnvOf(gw: Gateway, st: Stream): Env {
    Env(gw.codec, gw.supply, st.origin)
  }

  function HeldOf(s: System, st: Stream): Held<Ids> {
    Held(Ids(s.entries, s.drawn, st.own), st.buf)
  }

  /** The requests read from a stream go on record, one id of the supply each, from the d-th on. */
  function Recorded(issued: map<string, Asked>, supply: Supply, d: nat, origin: Origin, ms: seq<Message>): map<string, Asked>
    requires forall m :: m in ms ==> m.id.Some?
    decreases |ms|
  {
    if ms == [] then issued
    else Recorded(issued[supply(d) := Asked(ms[0].id.value, origin)], supply, d + 1, origin, ms[1..])
  }

  /** The system after stream sid went through some lines with the requests ms in them. */
  function Absorbed(gw: Gateway, s: System, sid: nat, b: Ids, buf: Bytes, ms: seq<Message>): System
    requires sid in s.streams && forall m :: m in ms ==> m.id.Some?
  {
    var origin := s.streams[sid].origin;
    s.(entries := b.entries, drawn := b.drawn, issued := Recorded(s.issued, gw.supply, s.drawn, origin, ms),
       streams := s.streams[sid := Stream(origin, buf, b.own)])
  }

  function ApplyChunk(gw: Gateway, s: System, sid: nat, bytes: Bytes): System
    requires sid in s.streams
  {
    var st := s.streams[sid];
    var (h, _) := Feed(LF, LineStep(EnvOf(gw, st)), HeldOf(s, st), bytes);
    Absorbed(gw, s, sid, h.st, h.buf, Requests(gw.codec, Frames(LF, st.buf + bytes).frames))
  }

  /** The unterminated last line, if there is one. */
  function Tail(buf: Bytes): seq<Bytes> {
    if buf == [] then [] else [buf]
  }

  /** Flush and the end of the stream. */
  function ApplyClose(gw: Gateway, s: System, sid: nat): System
    requires sid in s.streams
  {
    var st := s.streams[sid];
    var last := LastLine(LineStep(EnvOf(gw, st)), HeldOf(s, st)).0;
    var t := Absorbed(gw, s, sid, last, [], Requests(gw.codec, Tail(st.buf)));
    t.(entries := Finish(EnvOf(gw, st), HeldOf(s, st)).0.entries, streams := t.streams - {sid})
  }

  /** One step of the gateway; a step that is not possible changes nothing. */
  function Apply(gw: Gateway, s: System, e: Event): System {
    match e
    case Open(sid, origin) =>
      if sid in s.streams then s else s.(streams := s.streams[sid := Stream(origin, [], [])])
    case Chunk(sid, bytes) =>
      if sid in s.streams then ApplyChunk(gw, s, sid, bytes) else s
    case Close(sid) =>
      if sid in s.streams then ApplyClose(gw, s, sid) else s
    case Lookup(rid, gid, session) =>
      var v := Check(s.entries, gid, session);
      if rid in s.replies || !v.Accepted? then s
      else s.(replies := s.replies[rid := Reply(gid, session, v.entry)])
    case Forward(rid, serverKnown) =>
      if rid !in s.replies then s
      else if !serverKnown then s.(replies := s.replies - {rid})
      else
        var r := s.replies[rid];
        s.(entries := s.entries - {r.gid}, replies := s.replies - {rid}, forwarded := s.forwarded + [r])
  }

  function Exec(gw: Gateway, s: System, es: seq<Event>): System
    decreases |es|
  {
    if es == [] then s else Exec(gw, Apply(gw, s, es[0]), es[1..])
  }

  // ---- invariant ----

  ghost predicate Sent(s: System, g: string) {
    exists r :: r in s.forwarded && r.gid == g
  }

  /** e leads back to what was asked. */
  predicate LeadsTo(e: Entry, q: Asked) {
    && e.backendID == q.id && e.serverName == q.origin.serverName
    && e.sessionID == q.origin.backendSessionID && e.gatewaySessionID == q.origin.gatewaySessionID
  }

  predicate Owned(s: System, sid: nat, g: string) {
    sid in s.streams && g in s.streams[sid].own
  }

  /** The map holds exactly the ids of open streams that no reply has answered yet, each leading back
      to the request it was issued for. */
  ghost predicate MapExact(s: System) {
    && (forall g :: g in s.entries ==> g in s.issued && LeadsTo(s.entries[g], s.issued[g]) && !Sent(s, g))
    && (forall g :: g in s.entries ==> exists sid :: Owned(s, sid, g))
    && (forall sid, g :: Owned(s, sid, g) && !Sent(s, g) ==> g in s.entries)
  }

  /** Ids on record come from the part of the supply already drawn, and an id belongs to one stream. */
  ghost predicate IdsFresh(gw: Gateway, s: System) {
    && (forall g :: g in s.issued ==> g in Draw(gw.supply, 0, s.drawn))
    && (forall sid, g :: Owned(s, sid, g) ==> g in s.issued && s.issued[g].origin == s.streams[sid].origin)
    && (forall sid, sid', g :: Owned(s, sid, g) && Owned(s, sid', g) ==> sid == sid')
  }

  predicate Genuine(s: System, r: Reply) {
    r.gid in s.issued && LeadsTo(r.entry, s.issued[r.gid]) && r.session == s.issued[r.gid].origin.gatewaySessionID
  }

  ghost predicate RepliesGenuine(s: System) {
    && (forall rid :: rid in s.replies ==> Genuine(s, s.replies[rid]))
    && (forall r :: r in s.forwarded ==> Genuine(s, r))
  }

  ghost predicate Inv(gw: Gateway, s: System) {
    MapExact(s) && IdsFresh(gw, s) && RepliesGenuine(s)
  }

  /** b is a after lines of one stream with the requests ms in them. */
  ghost predicate Grown(env: Env, a: Ids, b: Ids, ms: seq<Message>) {
    && b.drawn == a.drawn + |ms|
    && b.own == a.own + Draw(env.supply, a.drawn, |ms|)
    && (forall i :: 0 <= i < |ms| ==> Answers(b.entries, env.supply(a.drawn + i), ms[i], env.origin))
    && (forall g :: g !in Draw(env.supply, a.drawn, |ms|) ==> Same(g, b.entries, a.entries))
  }

  lemma RunGrows(env: Env, a: Ids, ls: seq<Bytes>)
    requires Fresh(env.supply)
    ensures Grown(env, a, Run(LineStep(env), a, ls).0, Requests(env.codec, ls))
  {
    StoreCalls(env, a, ls);
  }

  lemma LineGrows(env: Env, a: Ids, line: Bytes)
    requires Fresh(env.supply)
    ensures Grown(env, a, RewriteLine(env, a, line).0, Requests(env.codec, [line]))
  {
    RunGrows(env, a, [line]);
    assert [line][1..] == [];
    var (b, out) := RewriteLine(env, a, line);
    assert Run(LineStep(env), b, []) == (b, []);
  }

  lemma DrawDisjoint(supply: Supply, d: nat, n: nat)
    requires Fresh(supply)
    ensures forall g :: g in Draw(supply, d, n) ==> g !in Draw(supply, 0, d)
    ensures forall g :: g in Draw(supply, 0, d + n) <==> g in Draw(supply, 0, d) || g in Draw(supply, d, n)
  {
    assert Draw(supply, 0, d + n) == Draw(supply, 0, d) + Draw(supply, d, n);
  }

  /** t is s after stream sid drew the fresh ids new_. */
  ghost predicate Extends(s: System, sid: nat, new_: seq<string>, t: System) {
    && t.forwarded == s.forwarded && t.replies == s.replies
    && sid in s.streams
    && (forall k, g :: Owned(t, k, g) <==> Owned(s, k, g) || (k == sid && g in new_))
    && (forall k :: k in t.streams ==> k in s.streams && t.streams[k].origin == s.streams[k].origin)
    && (forall g :: g in s.issued ==> g !in new_ && g in t.issued && t.issued[g] == s.issued[g])
    && (forall g :: g in t.issued ==> g in s.issued || g in new_)
    && (forall g :: g in new_ ==> g in t.entries && g in t.issued && LeadsTo(t.entries[g], t.issued[g])
                                  && t.issued[g].origin == s.streams[sid].origin)
    && (forall g :: g !in new_ ==> Same(g, t.entries, s.entries))
  }

  predicate OnRecord(issued: map<string, Asked>, g: string, msg: Message, origin: Origin) {
    g in issued && Some(issued[g].id) == msg.id && issued[g].origin == origin
  }

  /** Each request is on record under its own id, and no other record changed. */
  lemma {:induction false} RecordedMeans(issued: map<string, Asked>, supply: Supply, d: nat, origin: Origin, ms: seq<Message>)
    requires Fresh(supply) && forall m :: m in ms ==> m.id.Some?
    ensures var r := Recorded(issued, supply, d, origin, ms);
            && (forall i :: 0 <= i < |ms| ==> OnRecord(r, supply(d + i), ms[i], origin))
            && (forall g :: g !in Draw(supply, d, |ms|) ==> (g in r <==> g in issued) && (g in r ==> r[g] == issued[g]))
    decreases |ms|
  {
    if ms != [] {
      var issued1 := issued[supply(d) := Asked(ms[0].id.value, origin)];
      RecordedMeans(issued1, supply, d + 1, origin, ms[1..]);
      var r := Recorded(issued, supply, d, origin, ms);
      assert Draw(supply, d, |ms|) == [supply(d)] + Draw(supply, d + 1, |ms| - 1);
      assert supply(d) !in Draw(supply, d + 1, |ms| - 1);
      forall i | 0 <= i < |ms|
        ensures OnRecord(r, supply(d + i), ms[i], origin)
      {
        if i > 0 {
          assert OnRecord(r, supply(d + 1 + (i - 1)), ms[1..][i - 1], origin);
        }
      }
    }
  }

  lemma AbsorbIssues(gw: Gateway, s: System, sid: nat, b: Ids, ms: seq<Message>)
    requires Fresh(gw.supply) && IdsFresh(gw, s) && sid in s.streams && forall m :: m in ms ==> m.id.Some?
    requires Grown(EnvOf(gw, s.streams[sid]), Ids(s.entries, s.drawn, s.streams[sid].own), b, ms)
    ensures var new_, origin := Draw(gw.supply, s.drawn, |ms|), s.streams[sid].origin;
            var issued := Recorded(s.issued, gw.supply, s.drawn, origin, ms);
            && (forall g :: g in s.issued ==> g !in new_ && g in issued && issued[g] == s.issued[g])
            && (forall g :: g in issued ==> g in s.issued || g in new_)
            && (forall g :: g in new_ ==> g in b.entries && g in issued && LeadsTo(b.entries[g], issued[g]) && issued[g].origin == origin)
  {
    var new_, origin := Draw(gw.supply, s.drawn, |ms|), s.streams[sid].origin;
    DrawDisjoint(gw.supply, s.drawn, |ms|);
    RecordedMeans(s.issued, gw.supply, s.drawn, origin, ms);
    var issued := Recorded(s.issued, gw.supply, s.drawn, origin, ms);
    forall g | g in new_
      ensures g in b.entries && g in issued && LeadsTo(b.entries[g], issued[g]) && issued[g].origin == origin
    {
      var i :| 0 <= i < |new_| && new_[i] == g;
      assert Answers(b.entries, gw.supply(s.drawn + i), ms[i], origin);
      assert OnRecord(issued, gw.supply(s.drawn + i), ms[i], origin);
    }
  }

  lemma AbsorbOwns(gw: Gateway, s: System, sid: nat, b: Ids, buf: Bytes, ms: seq<Message>, new_: seq<string>)
    requires sid in s.streams && b.own == s.streams[sid].own + new_ && forall m :: m in ms ==> m.id.Some?
    ensures var t := Absorbed(gw, s, sid, b, buf, ms);
            && (forall k, g :: Owned(t, k, g) <==> Owned(s, k, g) || (k == sid && g in new_))
            && (forall k :: k in t.streams ==> k in s.streams && t.streams[k].origin == s.streams[k].origin)
  {
    var own := s.streams[sid].own;
    assert forall g :: g in own + new_ <==> g in own || g in new_;
  }

  lemma AbsorbExtends(gw: Gateway, s: System, sid: nat, b: Ids, buf: Bytes, ms: seq<Message>)
    requires Fresh(gw.supply) && IdsFresh(gw, s) && sid in s.streams && forall m :: m in ms ==> m.id.Some?
    requires Grown(EnvOf(gw, s.streams[sid]), Ids(s.entries, s.drawn, s.streams[sid].own), b, ms)
    ensures Extends(s, sid, Draw(gw.supply, s.drawn, |ms|), Absorbed(gw, s, sid, b, buf, ms))
  {
    AbsorbIssues(gw, s, sid, b, ms);
    AbsorbOwns(gw, s, sid, b, buf, ms, Draw(gw.supply, s.drawn, |ms|));
  }

  lemma ExtendsKeepsIds(gw: Gateway, s: System, sid: nat, new_: seq<string>, t: System)
    requires Extends(s, sid, new_, t) && IdsFresh(gw, s)
    requires forall g :: g in new_ || g in Draw(gw.supply, 0, s.drawn) ==> g in Draw(gw.supply, 0, t.drawn)
    ensures IdsFresh(gw, t)
  {
    forall k, g | Owned(t, k, g)
      ensures g in t.issued && t.issued[g].origin == t.streams[k].origin
    {
      if k != sid || g !in new_ {
        assert Owned(s, k, g);
      }
    }
  }

  lemma ExtendsKeepsMap(s: System, sid: nat, new_: seq<string>, t: System)
    requires Extends(s, sid, new_, t) && MapExact(s)
    requires RepliesGenuine(s)
    ensures MapExact(t)
  {
    assert forall g :: Sent(t, g) == Sent(s, g);
    assert forall g :: g in new_ ==> !Sent(s, g);
    forall g | g in t.entries
      ensures exists k :: Owned(t, k, g)
    {
      if g in new_ {
        assert Owned(t, sid, g);
      } else {
        assert Same(g, t.entries, s.entries);
        var k :| Owned(s, k, g);
        assert Owned(t, k, g);
      }
    }
    forall g | g in t.entries
      ensures g in t.issued && LeadsTo(t.entries[g], t.issued[g]) && !Sent(t, g)
    {
      assert g !in new_ ==> Same(g, t.entries, s.entries);
    }
    forall k, g | Owned(t, k, g) && !Sent(t, g)
      ensures g in t.entries
    {
      if g !in new_ {
        assert Owned(s, k, g) && Same(g, t.entries, s.entries);
      }
    }
  }

  lemma ExtendsKeepsReplies(s: System, sid: nat, new_: seq<string>, t: System)
    requires Extends(s, sid, new_, t) && RepliesGenuine(s)
    ensures RepliesGenuine(t)
  {
    assert forall r: Reply :: Genuine(s, r) ==> Genuine(t, r);
  }

  lemma DrawCovers(supply: Supply, d: nat, d': nat)
    requires d <= d'
    ensures forall g :: g in Draw(supply, d, d' - d) || g in Draw(supply, 0, d) ==> g in Draw(supply, 0, d')
  {
    assert Draw(supply, 0, d') == Draw(supply, 0, d) + Draw(supply, d, d' - d);
  }

  lemma ExtendsKeepsInv(gw: Gateway, s: System, sid: nat, t: System)
    requires Inv(gw, s) && s.drawn <= t.drawn && Extends(s, sid, Draw(gw.supply, s.drawn, t.drawn - s.drawn), t)
    ensures Inv(gw, t)
  {
    var new_ := Draw(gw.supply, s.drawn, t.drawn - s.drawn);
    assert MapExact(t) by {
      ExtendsKeepsMap(s, sid, new_, t);
    }
    assert RepliesGenuine(t) by {
      ExtendsKeepsReplies(s, sid, new_, t);
    }
    assert IdsFresh(gw, t) by {
      DrawCovers(gw.supply, s.drawn, t.drawn);
      ExtendsKeepsIds(gw, s, sid, new_, t);
    }
  }

  lemma AbsorbKeepsInv(gw: Gateway, s: System, sid: nat, b: Ids, buf: Bytes, ms: seq<Message>)
    requires Fresh(gw.supply) && Inv(gw, s) && sid in s.streams && forall m :: m in ms ==> m.id.Some?
    requires Grown(EnvOf(gw, s.streams[sid]), Ids(s.entries, s.drawn, s.streams[sid].own), b, ms)
    ensures Inv(gw, Absorbed(gw, s, sid, b, buf, ms))
  {
    AbsorbExtends(gw, s, sid, b, buf, ms);
    ExtendsKeepsInv(gw, s, sid, Absorbed(gw, s, sid, b, buf, ms));
  }

  lemma CloseKeepsInv(gw: Gateway, s: System, sid: nat, entries: map<string, Entry>)
    requires Inv(gw, s) && sid in s.streams
    requires entries == Dropped(s.entries, s.streams[sid].own)
    ensures Inv(gw, s.(entries := entries, streams := s.streams - {sid}))
  {
    var t := s.(entries := entries, streams := s.streams - {sid});
    assert forall g :: g in entries <==> g in s.entries && g !in s.streams[sid].own;
    assert forall k, g :: Owned(t, k, g) <==> Owned(s, k, g) && k != sid;
    assert forall g :: Sent(t, g) == Sent(s, g);
    forall g | g in t.entries
      ensures exists k :: Owned(t, k, g)
    {
      var k :| Owned(s, k, g);
      assert Owned(t, k, g);
    }
    forall k, g | Owned(t, k, g) && !Sent(t, g)
      ensures g in t.entries
    {
      assert Owned(s, k, g) && (g in s.streams[sid].own ==> Owned(s, sid, g));
    }
    assert MapExact(t);
  }

  lemma OpenKeepsInv(gw: Gateway, s: System, sid: nat, origin: Origin)
    requires Inv(gw, s) && sid !in s.streams
    ensures Inv(gw, s.(streams := s.streams[sid := Stream(origin, [], [])]))
  {
    var t := s.(streams := s.streams[sid := Stream(origin, [], [])]);
    assert forall k, g :: Owned(t, k, g) <==> Owned(s, k, g);
    assert forall g :: Sent(t, g) == Sent(s, g);
    assert MapExact(t);
  }

  lemma ChunkKeepsInv(gw: Gateway, s: System, sid: nat, bytes: Bytes)
    requires Fresh(gw.supply) && Inv(gw, s) && sid in s.streams
    ensures Inv(gw, ApplyChunk(gw, s, sid, bytes))
  {
    var st := s.streams[sid];
    RunGrows(EnvOf(gw, st), HeldOf(s, st).st, Frames(LF, st.buf + bytes).frames);
    var (h, out) := Feed(LF, LineStep(EnvOf(gw, st)), HeldOf(s, st), bytes);
    AbsorbKeepsInv(gw, s, sid, h.st, h.buf, Requests(gw.codec, Frames(LF, st.buf + bytes).frames));
  }

  lemma LastLineGrows(env: Env, h: Held<Ids>)
    requires Fresh(env.supply)
    ensures Grown(env, h.st, LastLine(LineStep(env), h).0, Requests(env.codec, Tail(h.buf)))
  {
    if h.buf == [] {
      RunGrows(env, h.st, []);
    } else {
      LineGrows(env, h.st, h.buf);
    }
  }

  lemma FlushKeepsInv(gw: Gateway, s: System, sid: nat)
    requires Fresh(gw.supply) && Inv(gw, s) && sid in s.streams
    ensures Inv(gw, ApplyClose(gw, s, sid))
  {
    var st := s.streams[sid];
    LastLineGrows(EnvOf(gw, st), HeldOf(s, st));
    var last := LastLine(LineStep(EnvOf(gw, st)), HeldOf(s, st)).0;
    var ms := Requests(gw.codec, Tail(st.buf));
    AbsorbKeepsInv(gw, s, sid, last, [], ms);
    CloseKeepsInv(gw, Absorbed(gw, s, sid, last, [], ms), sid, Finish(EnvOf(gw, st), HeldOf(s, st)).0.entries);
  }

  lemma ApplyKeepsInv(gw: Gateway, s: System, e: Event)
    requires Fresh(gw.supply) && Inv(gw, s)
    ensures Inv(gw, Apply(gw, s, e))
  {
    match e
    case Open(sid, origin) =>
      if sid !in s.streams {
        OpenKeepsInv(gw, s, sid, origin);
      }
    case Chunk(sid, bytes) =>
      if sid in s.streams {
        ChunkKeepsInv(gw, s, sid, bytes);
      }
    case Close(sid) =>
      if sid in s.streams {
        FlushKeepsInv(gw, s, sid);
      }
    case Lookup(rid, gid, session) =>
      LookupKeepsInv(gw, s, Apply(gw, s, e));
    case Forward(rid, serverKnown) =>
      ForwardKeepsInv(gw, s, rid, serverKnown);
  }

  lemma LookupKeepsInv(gw: Gateway, s: System, t: System)
    requires Inv(gw, s) && t == s.(replies := t.replies)
    requires forall rid :: rid in t.replies ==> Genuine(s, t.replies[rid])
    ensures Inv(gw, t)
  {
    assert forall k, g :: Owned(t, k, g) <==> Owned(s, k, g);
    assert forall g :: Sent(t, g) == Sent(s, g);
    assert MapExact(t);
    assert forall r :: Genuine(t, r) == Genuine(s, r);
  }

  lemma ForwardKeepsInv(gw: Gateway, s: System, rid: nat, serverKnown: bool)
    requires Inv(gw, s)
    ensures Inv(gw, Apply(gw, s, Forward(rid, serverKnown)))
  {
    var t := Apply(gw, s, Forward(rid, serverKnown));
    if rid in s.replies && serverKnown {
      var r := s.replies[rid];
      assert forall k, g :: Owned(t, k, g) <==> Owned(s, k, g);
      assert t.forwarded[|s.forwarded|] == r;
      assert forall g :: Sent(t, g) <==> Sent(s, g) || g == r.gid;
      assert forall x :: Genuine(t, x) == Genuine(s, x);
    } else {
      LookupKeepsInv(gw, s, t);
    }
  }

  /** The whole life cycle, in every interleaving: the map holds exactly the unanswered ids of
      streams still open, and every reply sent on went out under the session, to the server and
      backend session, and with the backend id, that its gateway id was issued for. */
  lemma {:induction false} LifeCycle(gw: Gateway, s: System, es: seq<Event>)
    requires Fresh(gw.supply) && Inv(gw, s)
    ensures Inv(gw, Exec(gw, s, es))
    decreases |es|
  {
    if es != [] {
      ApplyKeepsInv(gw, s, es[0]);
      LifeCycle(gw, Apply(gw, s, es[0]), es[1..]);
    }
  }

  /** In every run, a reply sent to a backend carries the id its request line came with, to the server
      and backend session of that stream, and came in under that stream's gateway session. */
  lemma ForwardedRepliesAreRight(gw: Gateway, es: seq<Event>, r: Reply)
    requires Fresh(gw.supply) && r in Exec(gw, INITIAL, es).forwarded
    ensures var issued := Exec(gw, INITIAL, es).issued;
            && r.gid in issued
            && var q := issued[r.gid];
               && r.entry == Entry(q.id, q.origin.serverName, q.origin.backendSessionID, q.origin.gatewaySessionID)
               && r.session == q.origin.gatewaySessionID
  {
    LifeCycle(gw, INITIAL, es);
  }

  lemma RequestIsEntered(gw: Gateway, s: System, sid: nat, origin: Origin, line: Bytes, msg: Message)
    requires sid !in s.streams && IsFrame(LF, line) && Carries(gw.codec, line, msg)
    ensures var asked := Apply(gw, Apply(gw, s, Open(sid, origin)), Chunk(sid, line));
            && asked.forwarded == s.forwarded && asked.replies == s.replies
            && Answers(asked.entries, gw.supply(s.drawn), msg, origin)
  {
    var ready := Apply(gw, s, Open(sid, origin));
    var env := Env(gw.codec, gw.supply, origin);
    var st := Stream(origin, [], []);
    assert ready.streams[sid] == st && EnvOf(gw, st) == env;
    RequestMeans(gw.codec, line, msg);
    ChunkOfOneLine(env, HeldOf(ready, st), line);
  }

  /** From request to answer, whatever went on before: a stream opens and delivers a request line, and a
      reply in its gateway session to the id drawn for it reaches the backend once, with the id the
      request came with, and uses the id up. */
  lemma AnswerReachesTheBackend(gw: Gateway, s: System, sid: nat, origin: Origin, line: Bytes, msg: Message, rid: nat)
    requires sid !in s.streams && rid !in s.replies && IsFrame(LF, line) && Carries(gw.codec, line, msg)
    ensures var g := gw.supply(s.drawn);
            var asked := Apply(gw, Apply(gw, s, Open(sid, origin)), Chunk(sid, line));
            var t := Apply(gw, Apply(gw, asked, Lookup(rid, g, origin.gatewaySessionID)), Forward(rid, true));
            && |t.forwarded| == |s.forwarded| + 1 && t.forwarded[..|s.forwarded|] == s.forwarded
            && var r := t.forwarded[|s.forwarded|];
               && r.gid == g && Some(r.entry.backendID) == msg.id
               && r.entry.serverName == origin.serverName && r.entry.sessionID == origin.backendSessionID
               && g !in t.entries && rid !in t.replies
  {
    RequestIsEntered(gw, s, sid, origin, line, msg);
  }

  /** Once every stream has ended the map is empty, whatever replies never came. */
  lemma NothingLeftBehind(gw: Gateway, es: seq<Event>)
    requires Fresh(gw.supply)
    ensures var s := Exec(gw, INITIAL, es); s.streams == map[] ==> s.entries == map[]
  {
    LifeCycle(gw, INITIAL, es);
    var s := Exec(gw, INITIAL, es);
    if s.streams == map[] {
      assert forall k, g :: !Owned(s, k, g);
    }
  }

  // ---- at most once ----

  /** Replies are serialised per id: none is looked up while another for the same id is pending. */
  ghost predicate Serial(gw: Gateway, s: System, es: seq<Event>)
    decreases |es|
  {
    es == [] || (
      && (es[0].Lookup? ==> forall rid :: rid in s.replies ==> s.replies[rid].gid != es[0].gid)
      && Serial(gw, Apply(gw, s, es[0]), es[1..]))
  }

  ghost predicate Once(s: System) {
    && (forall i, j :: 0 <= i < j < |s.forwarded| ==> s.forwarded[i].gid != s.forwarded[j].gid)
    && (forall rid :: rid in s.replies ==> !Sent(s, s.replies[rid].gid))
    && (forall rid, rid' :: rid in s.replies && rid' in s.replies && rid != rid' ==> s.replies[rid].gid != s.replies[rid'].gid)
  }

  lemma OnceStep(gw: Gateway, s: System, e: Event)
    requires Inv(gw, s) && Once(s) && Serial(gw, s, [e])
    ensures Once(Apply(gw, s, e))
  {
    var t := Apply(gw, s, e);
    if e.Forward? && e.rid in s.replies && e.serverKnown {
      OnceForward(s, t, e.rid);
    } else if e.Lookup? {
      OnceLookup(s, t, e.rid, e.gid);
    } else {
      OnceElse(s, t);
    }
  }

  lemma OnceElse(s: System, t: System)
    requires Once(s) && t.forwarded == s.forwarded && forall rid :: rid in t.replies ==> rid in s.replies && t.replies[rid] == s.replies[rid]
    ensures Once(t)
  {
    assert forall g :: Sent(t, g) == Sent(s, g);
  }

  lemma OnceLookup(s: System, t: System, rid: nat, gid: string)
    requires Once(s) && MapExact(s) && t.forwarded == s.forwarded && forall r :: r in s.replies ==> s.replies[r].gid != gid
    requires t.replies == s.replies || (gid in s.entries && rid in t.replies && t.replies[rid].gid == gid && t.replies == s.replies[rid := t.replies[rid]])
    ensures Once(t)
  {
    assert forall g :: Sent(t, g) == Sent(s, g);
  }

  lemma OnceForward(s: System, t: System, rid: nat)
    requires Once(s) && rid in s.replies
    requires t.replies == s.replies - {rid} && t.forwarded == s.forwarded + [s.replies[rid]]
    ensures Once(t)
  {
    assert forall g :: Sent(t, g) ==> Sent(s, g) || g == s.replies[rid].gid;
    assert forall i :: 0 <= i < |s.forwarded| ==> Sent(s, s.forwarded[i].gid);
  }

  /** With replies serialised, no id is answered twice. */
  lemma {:induction false} AtMostOnce(gw: Gateway, s: System, es: seq<Event>)
    requires Fresh(gw.supply) && Inv(gw, s) && Once(s) && Serial(gw, s, es)
    ensures Once(Exec(gw, s, es))
    decreases |es|
  {
    if es != [] {
      ApplyKeepsInv(gw, s, es[0]);
      assert Serial(gw, Apply(gw, s, es[0]), []);
      OnceStep(gw, s, es[0]);
      AtMostOnce(gw, Apply(gw, s, es[0]), es[1..]);
    }
  }

  /** Without serialisation it fails: any answerable id whose two replies are both looked up before
      either is forwarded is answered twice. */
  lemma OverlappingRepliesForwardTwice(gw: Gateway, s: System, gid: string, a: nat, b: nat)
    requires gid in s.entries && a != b && a !in s.replies && b !in s.replies
    ensures var session := s.entries[gid].gatewaySessionID;
            var r := Reply(gid, session, s.entries[gid]);
            Exec(gw, s, [Lookup(a, gid, session), Lookup(b, gid, session), Forward(a, true), Forward(b, true)]).forwarded
              == s.forwarded + [r, r]
  {
    var session := s.entries[gid].gatewaySessionID;
    var es := [Lookup(a, gid, session), Lookup(b, gid, session), Forward(a, true), Forward(b, true)];
    var s1 := Apply(gw, s, es[0]);
    var s2 := Apply(gw, s1, es[1]);
    var s3 := Apply(gw, s2, es[2]);
    var s4 := Apply(gw, s3, es[3]);
    assert es[1..] == [es[1], es[2], es[3]] && es[1..][1..] == [es[2], es[3]] && es[1..][1..][1..] == [es[3]];
    assert Exec(gw, s3, [es[3]]) == Exec(gw, s4, []);
    assert Exec(gw, s2, [es[2], es[3]]) == Exec(gw, s3, [es[3]]);
    assert Exec(gw, s1, es[1..]) == Exec(gw, s2, [es[2], es[3]]);
  }

  ghost predicate NoRepeats(rs: seq<Reply>) {
    forall i, j :: 0 <= i < j < |rs| ==> rs[i].gid != rs[j].gid
  }

  predicate NoLookups(es: seq<Event>) {
    forall i :: 0 <= i < |es| ==> !es[i].Lookup?
  }

  lemma {:induction false} NoLookupsIsSerial(gw: Gateway, s: System, es: seq<Event>)
    requires NoLookups(es)
    ensures Serial(gw, s, es)
    decreases |es|
  {
    if es != [] {
      NoLookupsIsSerial(gw, Apply(gw, s, es[0]), es[1..]);
    }
  }

  lemma ExecTwo(gw: Gateway, s: System, a: Event, b: Event)
    ensures Exec(gw, s, [a]) == Apply(gw, s, a) && Exec(gw, s, [a, b]) == Apply(gw, Apply(gw, s, a), b)
  {
    assert [a][1..] == [] && [a, b][1..] == [b] && [b][1..] == [];
    assert Exec(gw, Apply(gw, s, a), [b]) == Exec(gw, Apply(gw, Apply(gw, s, a), b), []);
  }

  /** Exactly when the replies already looked up cannot make any id be answered twice, whatever else
      happens before the next lookup: when no two of them share an id and none has an id already
      answered. */
  lemma AnsweredTwiceIff(gw: Gateway, s: System)
    requires Fresh(gw.supply) && Inv(gw, s) && NoRepeats(s.forwarded)
    ensures (forall es :: NoLookups(es) ==> NoRepeats(Exec(gw, s, es).forwarded)) <==> Once(s)
  {
    if Once(s) {
      forall es | NoLookups(es)
        ensures NoRepeats(Exec(gw, s, es).forwarded)
      {
        NoLookupsIsSerial(gw, s, es);
        AtMostOnce(gw, s, es);
      }
    } else if rid :| rid in s.replies && Sent(s, s.replies[rid].gid) {
      AnswersAgain(gw, s, rid);
    } else {
      var a, b :| a in s.replies && b in s.replies && a != b && s.replies[a].gid == s.replies[b].gid;
      AnswersBoth(gw, s, a, b);
    }
  }

  lemma AnswersAgain(gw: Gateway, s: System, rid: nat)
    requires rid in s.replies && Sent(s, s.replies[rid].gid)
    ensures exists es :: NoLookups(es) && !NoRepeats(Exec(gw, s, es).forwarded)
  {
    var e := Forward(rid, true);
    ExecTwo(gw, s, e, e);
    var sent := Exec(gw, s, [e]).forwarded;
    var i :| 0 <= i < |s.forwarded| && s.forwarded[i].gid == s.replies[rid].gid;
    assert sent[i].gid == sent[|s.forwarded|].gid;
    assert NoLookups([e]);
  }

  lemma AnswersBoth(gw: Gateway, s: System, a: nat, b: nat)
    requires a in s.replies && b in s.replies && a != b && s.replies[a].gid == s.replies[b].gid
    ensures exists es :: NoLookups(es) && !NoRepeats(Exec(gw, s, es).forwarded)
  {
    var e, f := Forward(a, true), Forward(b, true);
    ExecTwo(gw, s, e, f);
    var sent := Exec(gw, s, [e, f]).forwarded;
    assert sent[|s.forwarded|].gid == sent[|s.forwarded| + 1].gid;
    assert NoLookups([e, f]);
  }

  /** What a verdict means for the client: a reply is let through iff its id belongs to an open
      stream of the same gateway session and has not been answered. */
  lemma VerdictMeans(gw: Gateway, es: seq<Event>, gid: string, session: string)
    requires Fresh(gw.supply)
    ensures var s := Exec(gw, INITIAL, es);
            Check(s.entries, gid, session).Accepted? <==>
              !Sent(s, gid) && exists sid :: Owned(s, sid, gid) && s.streams[sid].origin.gatewaySessionID == session
  {
    LifeCycle(gw, INITIAL, es);
    var s := Exec(gw, INITIAL, es);
    if gid in s.entries {
      var sid :| Owned(s, sid, gid);
      assert s.issued[gid].origin == s.streams[sid].origin;
    }
  }
}
