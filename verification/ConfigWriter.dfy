/** internal/config/config_writer.go: several controllers editing one configuration secret by
    read-modify-write, with a version check on the write and a retry on conflict. */
module ConfigWriter {

  import opened Text
  import opened Config

  datatype VirtualServer = VirtualServer(name: string, tools: seq<string>, prompts: seq<string>)

  datatype BrokerConfig = BrokerConfig(
    servers: seq<MCPServer>, virtualServers: seq<VirtualServer>, gatewayCACertPEM: string, a2aAgents: seq<A2AAgent>)

  const EMPTY := BrokerConfig([], [], "", [])

  // ---- named entries ----

  /** The namedEntry contract: GetName and ConfigChanged. */
  datatype Kind<!T> = Kind(name: T -> string, changed: (T, T) -> bool)

  const SERVERS: Kind<MCPServer> := Kind((s: MCPServer) => s.name, (s: MCPServer, old_: MCPServer) => ConfigChanged(s, old_))
  const AGENTS: Kind<A2AAgent> := Kind((a: A2AAgent) => a.name, (a: A2AAgent, old_: A2AAgent) => AgentConfigChanged(a, old_))

  function Lookup<T>(kind: Kind<T>, es: seq<T>, name: string): Option<T> {
    if es == [] then None else if kind.name(es[0]) == name then Some(es[0]) else Lookup(kind, es[1..], name)
  }

  ghost predicate Unique<T>(kind: Kind<T>, es: seq<T>) {
    forall i, j :: 0 <= i < j < |es| ==> kind.name(es[i]) != kind.name(es[j])
  }

  /** The entries after an upsert that has to write. */
  function Upserted<T>(kind: Kind<T>, es: seq<T>, e: T): (r: seq<T>) {
    if es == [] then [e]
    else if kind.name(es[0]) == kind.name(e) then [e] + es[1..]
    else [es[0]] + Upserted(kind, es[1..], e)
  }

  function Without<T>(kind: Kind<T>, es: seq<T>, name: string): (r: seq<T>) {
    if es == [] then []
    else (if kind.name(es[0]) == name then [] else [es[0]]) + Without(kind, es[1..], name)
  }

  /** The loop of upsertNamedEntry; None means the write is skipped. */
  method UpsertNamedEntry<T>(kind: Kind<T>, entries: seq<T>, entry: T) returns (r: Option<seq<T>>)
    ensures r == UpsertResult(kind, entries, entry)
  {
    for i := 0 to |entries|
      invariant forall j :: 0 <= j < i ==> kind.name(entries[j]) != kind.name(entry)
    {
      if kind.name(entries[i]) == kind.name(entry) {
        UpsertedAt(kind, entries, entry, i);
        if !kind.changed(entry, entries[i]) {
          return None;
        }
        return Some(entries[i := entry]);
      }
    }
    UpsertedNew(kind, entries, entry);
    return Some(entries + [entry]);
  }

  lemma {:induction false} UpsertedAt<T>(kind: Kind<T>, es: seq<T>, e: T, i: nat)
    requires i < |es| && kind.name(es[i]) == kind.name(e) && forall j :: 0 <= j < i ==> kind.name(es[j]) != kind.name(e)
    ensures Lookup(kind, es, kind.name(e)) == Some(es[i]) && Upserted(kind, es, e) == es[i := e]
    decreases i
  {
    if i > 0 {
      UpsertedAt(kind, es[1..], e, i - 1);
      assert es[i := e] == [es[0]] + es[1..][i - 1 := e];
    } else {
      assert es[0 := e] == [e] + es[1..];
    }
  }

  lemma {:induction false} UpsertedNew<T>(kind: Kind<T>, es: seq<T>, e: T)
    requires forall j :: 0 <= j < |es| ==> kind.name(es[j]) != kind.name(e)
    ensures Lookup(kind, es, kind.name(e)) == None && Upserted(kind, es, e) == es + [e]
  {
    if es != [] {
      UpsertedNew(kind, es[1..], e);
      assert es + [e] == [es[0]] + (es[1..] + [e]);
    }
  }

  function UpsertResult<T>(kind: Kind<T>, es: seq<T>, e: T): Option<seq<T>> {
    var old_ := Lookup(kind, es, kind.name(e));
    if old_.Some? && !kind.changed(e, old_.value) then None else Some(Upserted(kind, es, e))
  }

  /** The loop of removeNamedEntry over one secret; None means the write is skipped. */
  method RemoveNamedEntry<T>(kind: Kind<T>, entries: seq<T>, name: string) returns (r: Option<seq<T>>)
    ensures r == RemoveResult(kind, entries, name)
  {
    var found, filtered := false, [];
    for i := 0 to |entries|
      invariant Without(kind, entries, name) == filtered + Without(kind, entries[i..], name)
      invariant found || Lookup(kind, entries, name) == Lookup(kind, entries[i..], name)
      invariant found ==> Lookup(kind, entries, name).Some?
    {
      assert entries[i..][1..] == entries[i + 1..];
      if kind.name(entries[i]) == name {
        found := true;
      } else {
        assert filtered + ([entries[i]] + Without(kind, entries[i + 1..], name))
            == (filtered + [entries[i]]) + Without(kind, entries[i + 1..], name);
        filtered := filtered + [entries[i]];
      }
    }
    assert filtered + [] == filtered;
    return if found then Some(filtered) else None;
  }

  function RemoveResult<T>(kind: Kind<T>, es: seq<T>, name: string): Option<seq<T>> {
    if Lookup(kind, es, name).None? then None else Some(Without(kind, es, name))
  }

  lemma {:induction false} WithoutNothing<T>(kind: Kind<T>, es: seq<T>, name: string)
    requires Lookup(kind, es, name).None?
    ensures Without(kind, es, name) == es
  {
    if es != [] {
      WithoutNothing(kind, es[1..], name);
      assert es == [es[0]] + es[1..];
    }
  }

  /** removeNamedEntry over every aggregated secret: each one is attempted whatever happened to the
      others, and only a run without failures reports none. fails: the secrets that could not be read
      or written. */
  method RemoveEverywhere<T>(kind: Kind<T>, secrets: map<string, seq<T>>, name: string, fails: set<string>)
    returns (after: map<string, seq<T>>, failed: bool)
    ensures after.Keys == secrets.Keys
    ensures forall k :: k in secrets ==> after[k] == if k in fails then secrets[k] else Without(kind, secrets[k], name)
    ensures failed <==> exists k :: k in secrets && k in fails
    ensures !failed ==> forall k :: k in after ==> Lookup(kind, after[k], name).None?
  {
    after, failed := secrets, false;
    var keys := secrets.Keys;
    while keys != {}
      invariant keys <= secrets.Keys == after.Keys
      invariant forall k :: k in secrets ==> after[k] == if k in keys || k in fails then secrets[k] else Without(kind, secrets[k], name)
      invariant failed <==> exists k :: k in secrets && k !in keys && k in fails
      decreases keys
    {
      var k :| k in keys;
      keys := keys - {k};
      if k in fails {
        failed := true;
      } else {
        var r := RemoveNamedEntry(kind, secrets[k], name);
        if r.Some? {
          after := after[k := r.value];
        } else {
          WithoutNothing(kind, secrets[k], name);
        }
      }
    }
    forall k | k in after && !failed
      ensures Lookup(kind, after[k], name).None?
    {
      RemoveMeans(kind, secrets[k], name);
    }
  }

  /** An upsert sets its own name, leaves every other name alone, and keeps names unique. */
  lemma {:induction false} UpsertMeans<T>(kind: Kind<T>, es: seq<T>, e: T)
    ensures forall n :: Lookup(kind, Upserted(kind, es, e), n) == if n == kind.name(e) then Some(e) else Lookup(kind, es, n)
    ensures Unique(kind, es) ==> Unique(kind, Upserted(kind, es, e))
    ensures |Upserted(kind, es, e)| == |es| + if Lookup(kind, es, kind.name(e)).Some? then 0 else 1
    ensures forall x :: x in Upserted(kind, es, e) ==> x == e || x in es
  {
    var r := Upserted(kind, es, e);
    if es != [] {
      UpsertMeans(kind, es[1..], e);
      if kind.name(es[0]) == kind.name(e) {
        assert r[1..] == es[1..];
      } else {
        assert r[1..] == Upserted(kind, es[1..], e);
        if Unique(kind, es) {
          assert forall x :: x in es[1..] ==> kind.name(x) != kind.name(es[0]);
        }
      }
    }
  }

  /** A removal clears its own name, leaves every other name alone, and keeps names unique. */
  lemma {:induction false} RemoveMeans<T>(kind: Kind<T>, es: seq<T>, name: string)
    ensures forall n :: Lookup(kind, Without(kind, es, name), n) == if n == name then None else Lookup(kind, es, n)
    ensures Unique(kind, es) ==> Unique(kind, Without(kind, es, name))
    ensures forall x :: x in Without(kind, es, name) ==> x in es
  {
    var r := Without(kind, es, name);
    if es != [] {
      RemoveMeans(kind, es[1..], name);
      if kind.name(es[0]) == name {
        assert r == Without(kind, es[1..], name);
      } else {
        assert r[1..] == Without(kind, es[1..], name);
        if Unique(kind, es) {
          assert forall x :: x in es[1..] ==> kind.name(x) != kind.name(es[0]);
        }
      }
    }
  }

  // ---- operations ----

  datatype Op =
    | SetVirtualServers(vs: seq<VirtualServer>)
    | UpsertServer(server: MCPServer)
    | RemoveServer(name: string)
    | UpsertAgent(agent: A2AAgent)
    | RemoveAgent(name: string)
    | SetCACert(pem: string)
    | WriteEmpty

  /** The modification between the read and the write; None means nothing has to be written. */
  function Modify(op: Op, c: BrokerConfig): Option<BrokerConfig> {
    match op
    case SetVirtualServers(vs) => Some(c.(virtualServers := vs))
    case UpsertServer(s) =>
      var r := UpsertResult(SERVERS, c.servers, s);
      if r.None? then None else Some(c.(servers := r.value))
    case RemoveServer(n) =>
      var r := RemoveResult(SERVERS, c.servers, n);
      if r.None? then None else Some(c.(servers := r.value))
    case UpsertAgent(a) =>
      var r := UpsertResult(AGENTS, c.a2aAgents, a);
      if r.None? then None else Some(c.(a2aAgents := r.value))
    case RemoveAgent(n) =>
      var r := RemoveResult(AGENTS, c.a2aAgents, n);
      if r.None? then None else Some(c.(a2aAgents := r.value))
    case SetCACert(pem) => if c.gatewayCACertPEM == pem then None else Some(c.(gatewayCACertPEM := pem))
    case WriteEmpty => Some(EMPTY)
  }

  /** What a caller asked for is the case, up to changes the gateway does not act on. */
  predicate Holds(op: Op, c: BrokerConfig) {
    match op
    case SetVirtualServers(vs) => c.virtualServers == vs
    case UpsertServer(s) => var e := Lookup(SERVERS, c.servers, s.name); e.Some? && SameServer(s, e.value)
    case RemoveServer(n) => Lookup(SERVERS, c.servers, n).None?
    case UpsertAgent(a) => var e := Lookup(AGENTS, c.a2aAgents, a.name); e.Some? && SameAgent(a, e.value)
    case RemoveAgent(n) => Lookup(AGENTS, c.a2aAgents, n).None?
    case SetCACert(pem) => c.gatewayCACertPEM == pem
    case WriteEmpty => c == EMPTY
  }

  ghost predicate UniqueNames(c: BrokerConfig) {
    Unique(SERVERS, c.servers) && Unique(AGENTS, c.a2aAgents)
  }

  /** A write is skipped only when the request already holds, a write makes it hold, it touches its
      own section only, and names stay unique. */
  lemma ModifyMeans(op: Op, c: BrokerConfig)
    ensures Modify(op, c).None? <==> Holds(op, c) && !op.SetVirtualServers? && !op.WriteEmpty?
    ensures Modify(op, c).Some? ==> Holds(op, Modify(op, c).value)
    ensures Modify(op, c).Some? && UniqueNames(c) ==> UniqueNames(Modify(op, c).value)
    ensures Modify(op, c).Some? && !op.WriteEmpty? ==>
              var d := Modify(op, c).value;
              && (op.SetVirtualServers? || d.virtualServers == c.virtualServers)
              && (op.UpsertServer? || op.RemoveServer? || d.servers == c.servers)
              && (op.UpsertAgent? || op.RemoveAgent? || d.a2aAgents == c.a2aAgents)
              && (op.SetCACert? || d.gatewayCACertPEM == c.gatewayCACertPEM)
  {
    match op
    case UpsertServer(s) =>
      UpsertMeans(SERVERS, c.servers, s);
      forall t {
        UnchangedMeans(s, t);
      }
    case RemoveServer(n) => RemoveMeans(SERVERS, c.servers, n);
    case UpsertAgent(a) =>
      UpsertMeans(AGENTS, c.a2aAgents, a);
      forall b {
        AgentUnchangedMeans(a, b);
      }
    case RemoveAgent(n) => RemoveMeans(AGENTS, c.a2aAgents, n);
    case _ =>
  }

  // ---- concurrent writers ----

  /** How the stored secret changed. */
  datatype Change = Created | Deleted | Wrote(op: Op)

  datatype Phase =
    | Ready
    | HasRead(version: nat, next: BrokerConfig)
    | Succeeded(version: nat, wrote: bool)
    | GaveUp

  datatype Writer = Writer(op: Op, phase: Phase)

  /** history[v] is the secret at resource version v, None when it does not exist. */
  datatype System = System(history: seq<Option<BrokerConfig>>, log: seq<Change>, writers: map<nat, Writer>)

  const INITIAL := System([None], [], map[])

  datatype Event =
    | Start(w: nat, op: Op)
    | Read(w: nat, version: nat)  // an informer cache may serve an older version
    | Commit(w: nat)
    | Abandon(w: nat)             // retries exhausted, or any other error
    | DeleteConfig

  function Advance(w: Writer, version: nat, c: BrokerConfig): Writer {
    match Modify(w.op, c)
    case None => w.(phase := Succeeded(version, false))
    case Some(next) => w.(phase := HasRead(version, next))
  }

  function Current(s: System): Option<BrokerConfig>
    requires s.history != []
  {
    s.history[|s.history| - 1]
  }

  function Append(s: System, c: Option<BrokerConfig>, change: Change): System {
    s.(history := s.history + [c], log := s.log + [change])
  }

  /** One step; a step that is not possible changes nothing. */
  function Apply(s: System, e: Event): System
    requires s.history != []
  {
    match e
    case Start(w, op) => if w in s.writers then s else s.(writers := s.writers[w := Writer(op, Ready)])
    case Read(w, version) =>
      if w !in s.writers || !s.writers[w].phase.Ready? || version >= |s.history| then s
      else if s.history[version].Some? then
        s.(writers := s.writers[w := Advance(s.writers[w], version, s.history[version].value)])
      else if Current(s).None? then  // not found, so create it and go on with the new secret
        Append(s, Some(EMPTY), Created).(writers := s.writers[w := Advance(s.writers[w], |s.history|, EMPTY)])
      else s                          // already exists after all: read again
    case Commit(w) =>
      if w !in s.writers || !s.writers[w].phase.HasRead? then s
      else if Current(s).None? then s.(writers := s.writers[w := s.writers[w].(phase := GaveUp)])
      else if s.writers[w].phase.version != |s.history| - 1 then s.(writers := s.writers[w := s.writers[w].(phase := Ready)])
      else
        Append(s, Some(s.writers[w].phase.next), Wrote(s.writers[w].op))
          .(writers := s.writers[w := s.writers[w].(phase := Succeeded(|s.history|, true))])
    case Abandon(w) =>
      if w !in s.writers || s.writers[w].phase.Succeeded? then s
      else s.(writers := s.writers[w := s.writers[w].(phase := GaveUp)])
    case DeleteConfig => if Current(s).None? then s else Append(s, None, Deleted)
  }

  function Exec(s: System, es: seq<Event>): (t: System)
    requires s.history != []
    ensures t.history != []
    decreases |es|
  {
    if es == [] then s else Exec(Apply(s, es[0]), es[1..])
  }

  // ---- the secret is the sequential fold of what was committed ----

  function Replay(log: seq<Change>): Option<BrokerConfig> {
    if log == [] then None
    else
      var before := Replay(log[..|log| - 1]);
      match log[|log| - 1]
      case Created => Some(EMPTY)
      case Deleted => None
      case Wrote(op) => if before.Some? then Modify(op, before.value) else None
  }

  ghost predicate Replayed(s: System) {
    && |s.history| == |s.log| + 1
    && (forall i :: 0 <= i <= |s.log| ==> s.history[i] == Replay(s.log[..i]))
    && (forall i :: 0 <= i < |s.log| && s.log[i].Wrote? ==> s.history[i].Some? && s.history[i + 1].Some?)
  }

  predicate WriterOk(s: System, w: Writer)
    requires |s.history| == |s.log| + 1
  {
    match w.phase
    case Ready => true
    case GaveUp => true
    case HasRead(v, next) => v < |s.history| && s.history[v].Some? && Modify(w.op, s.history[v].value) == Some(next)
    case Succeeded(v, wrote) =>
      && v < |s.history| && s.history[v].Some? && Holds(w.op, s.history[v].value)
      && (if wrote then v > 0 && s.log[v - 1] == Wrote(w.op) else Modify(w.op, s.history[v].value).None?)
  }

  ghost predicate Inv(s: System) {
    && Replayed(s)
    && (forall w :: w in s.writers ==> WriterOk(s, s.writers[w]))
  }

  lemma AppendKeepsInv(s: System, c: Option<BrokerConfig>, change: Change)
    requires Inv(s)
    requires match change
             case Created => c == Some(EMPTY)
             case Deleted => c == None
             case Wrote(op) => Current(s).Some? && c == Modify(op, Current(s).value) && c.Some?
    ensures Inv(Append(s, c, change))
  {
    var t := Append(s, c, change);
    forall i | 0 <= i <= |t.log|
      ensures t.history[i] == Replay(t.log[..i])
    {
      if i < |t.log| {
        assert t.log[..i] == s.log[..i];
      } else {
        assert t.log[..i][..i - 1] == s.log && s.log == s.log[..|s.log|];
      }
    }
    forall w | w in t.writers
      ensures WriterOk(t, t.writers[w])
    {
      WriterSurvives(s, c, change, s.writers[w]);
    }
  }

  lemma WriterSurvives(s: System, c: Option<BrokerConfig>, change: Change, w: Writer)
    requires |s.history| == |s.log| + 1 && WriterOk(s, w)
    ensures WriterOk(Append(s, c, change), w)
  {
  }

  lemma WriterKeepsInv(s: System, w: nat, x: Writer)
    requires Inv(s) && WriterOk(s, x)
    ensures Inv(s.(writers := s.writers[w := x]))
  {
    var t := s.(writers := s.writers[w := x]);
    forall k | k in t.writers
      ensures WriterOk(t, t.writers[k])
    {
      assert k != w ==> WriterOk(s, s.writers[k]);
    }
  }

  lemma ApplyKeepsInv(s: System, e: Event)
    requires Inv(s)
    ensures Inv(Apply(s, e))
  {
    match e
    case Start(w, op) => WriterKeepsInv(s, w, Writer(op, Ready));
    case Read(w, version) =>
      if w in s.writers && s.writers[w].phase.Ready? && version < |s.history| {
        if s.history[version].Some? {
          ModifyMeans(s.writers[w].op, s.history[version].value);
          WriterKeepsInv(s, w, Advance(s.writers[w], version, s.history[version].value));
        } else if Current(s).None? {
          var t := Append(s, Some(EMPTY), Created);
          AppendKeepsInv(s, Some(EMPTY), Created);
          ModifyMeans(s.writers[w].op, EMPTY);
          WriterKeepsInv(t, w, Advance(s.writers[w], |s.history|, EMPTY));
        }
      }
    case Commit(w) => CommitKeepsInv(s, w);
    case Abandon(w) =>
      if w in s.writers {
        WriterKeepsInv(s, w, s.writers[w].(phase := GaveUp));
      }
    case DeleteConfig =>
      AppendKeepsInv(s, None, Deleted);
  }

  lemma CommitKeepsInv(s: System, w: nat)
    requires Inv(s)
    ensures Inv(Apply(s, Commit(w)))
  {
    if w in s.writers && s.writers[w].phase.HasRead? {
      var x := s.writers[w];
      assert WriterOk(s, x);
      if Current(s).None? {
        WriterKeepsInv(s, w, x.(phase := GaveUp));
      } else if x.phase.version != |s.history| - 1 {
        WriterKeepsInv(s, w, x.(phase := Ready));
      } else {
        ModifyMeans(x.op, Current(s).value);
        AppendKeepsInv(s, Some(x.phase.next), Wrote(x.op));
        WriterKeepsInv(Append(s, Some(x.phase.next), Wrote(x.op)), w, x.(phase := Succeeded(|s.history|, true)));
      }
    }
  }

  /** No lost update: in every interleaving of writers, stale reads included, the secret is the
      sequential replay of the committed operations in commit order; and a writer that returned no
      error either committed its operation, making it hold, or had read a version in which it already
      held and that would not be written again. */
  lemma {:induction false} NoLostUpdate(s: System, es: seq<Event>)
    requires Inv(s)
    ensures var t := Exec(s, es);
            && Inv(t) && Current(t) == Replay(t.log)
            && (forall w :: w in t.writers && t.writers[w].phase.Succeeded? ==>
                  var v := t.writers[w].phase.version;
                  && v < |t.history| && t.history[v].Some? && Holds(t.writers[w].op, t.history[v].value)
                  && ((0 < v <= |t.log| && t.log[v - 1] == Wrote(t.writers[w].op))
                      || (!t.writers[w].op.SetVirtualServers? && !t.writers[w].op.WriteEmpty?)))
    decreases |es|
  {
    if es == [] {
      assert s.log[..|s.log|] == s.log;
      forall w | w in s.writers && s.writers[w].phase.Succeeded?
        ensures WriterOk(s, s.writers[w])
      {
        ModifyMeans(s.writers[w].op, s.history[s.writers[w].phase.version].value);
      }
    } else {
      ApplyKeepsInv(s, es[0]);
      NoLostUpdate(Apply(s, es[0]), es[1..]);
    }
  }

  /** A writer that nobody gets in between with succeeds: whatever it asks for holds in the secret
      afterwards, which is created if need be. */
  lemma UndisturbedWriterSucceeds(s: System, w: nat, op: Op)
    requires Inv(s) && w !in s.writers
    ensures var t := Apply(Apply(Apply(s, Start(w, op)), Read(w, |s.history| - 1)), Commit(w));
            && w in t.writers && t.writers[w].phase.Succeeded?
            && Current(t).Some? && Holds(op, Current(t).value)
  {
    var s1 := Apply(s, Start(w, op));
    var s2 := Apply(s1, Read(w, |s.history| - 1));
    var c := if Current(s).Some? then Current(s).value else EMPTY;
    ReadThenCommit(s2, w, op, c);
  }

  lemma ReadThenCommit(s: System, w: nat, op: Op, c: BrokerConfig)
    requires s.history != [] && Current(s) == Some(c)
    requires w in s.writers && s.writers[w] == Advance(Writer(op, Ready), |s.history| - 1, c)
    ensures var t := Apply(s, Commit(w));
            && w in t.writers && t.writers[w].phase.Succeeded?
            && Current(t).Some? && Holds(op, Current(t).value)
  {
    ModifyMeans(op, c);
  }

  // ---- what the replay means, name by name ----

  /** The server entry of a name is what the last committed operation on that name left. */
  function ServerAfter(log: seq<Change>, name: string): Option<MCPServer> {
    if log == [] then None
    else
      match log[|log| - 1]
      case Wrote(UpsertServer(s)) => if s.name == name then Some(s) else ServerAfter(log[..|log| - 1], name)
      case Wrote(RemoveServer(n)) => if n == name then None else ServerAfter(log[..|log| - 1], name)
      case Wrote(WriteEmpty) => None
      case Wrote(_) => ServerAfter(log[..|log| - 1], name)
      case _ => None
  }

  function AgentAfter(log: seq<Change>, name: string): Option<A2AAgent> {
    if log == [] then None
    else
      match log[|log| - 1]
      case Wrote(UpsertAgent(a)) => if a.name == name then Some(a) else AgentAfter(log[..|log| - 1], name)
      case Wrote(RemoveAgent(n)) => if n == name then None else AgentAfter(log[..|log| - 1], name)
      case Wrote(WriteEmpty) => None
      case Wrote(_) => AgentAfter(log[..|log| - 1], name)
      case _ => None
  }

  /** Every write on record found a secret and left one. */
  predicate Sound(log: seq<Change>) {
    log == [] || (Sound(log[..|log| - 1]) && (log[|log| - 1].Wrote? ==> Replay(log).Some?))
  }

  lemma {:induction false} HistoryIsSound(s: System, n: nat)
    requires Replayed(s) && n <= |s.log|
    ensures Sound(s.log[..n])
  {
    if n > 0 {
      HistoryIsSound(s, n - 1);
      assert s.log[..n][..n - 1] == s.log[..n - 1];
      assert s.log[..n][n - 1] == s.log[n - 1] && s.history[n] == Replay(s.log[..n]);
    }
  }

  lemma {:induction false} ReplayPerName(log: seq<Change>, name: string)
    requires Sound(log)
    ensures Replay(log).Some? ==>
              && UniqueNames(Replay(log).value)
              && Lookup(SERVERS, Replay(log).value.servers, name) == ServerAfter(log, name)
              && Lookup(AGENTS, Replay(log).value.a2aAgents, name) == AgentAfter(log, name)
    decreases |log|
  {
    if log != [] {
      var init := log[..|log| - 1];
      ReplayPerName(init, name);
      if log[|log| - 1].Wrote? && Replay(init).Some? {
        var op, c := log[|log| - 1].op, Replay(init).value;
        ModifyMeans(op, c);
        NameAfter(op, c, name);
      }
    }
  }

  /** In every reachable state names are unique, and each name's entry is what the last committed
      operation on that name wrote, whatever other writers did in between. */
  lemma LastCommitPerNameWins(es: seq<Event>, name: string)
    ensures var s := Exec(INITIAL, es);
            Current(s).Some? ==>
              && UniqueNames(Current(s).value)
              && Lookup(SERVERS, Current(s).value.servers, name) == ServerAfter(s.log, name)
              && Lookup(AGENTS, Current(s).value.a2aAgents, name) == AgentAfter(s.log, name)
  {
    assert Inv(INITIAL);
    NoLostUpdate(INITIAL, es);
    var s := Exec(INITIAL, es);
    HistoryIsSound(s, |s.log|);
    assert s.log[..|s.log|] == s.log;
    ReplayPerName(s.log, name);
  }

  lemma NameAfter(op: Op, c: BrokerConfig, name: string)
    requires Modify(op, c).Some?
    ensures var d := Modify(op, c).value;
            && Lookup(SERVERS, d.servers, name) ==
                 (match op
                  case UpsertServer(s) => if s.name == name then Some(s) else Lookup(SERVERS, c.servers, name)
                  case RemoveServer(n) => if n == name then None else Lookup(SERVERS, c.servers, name)
                  case WriteEmpty => None
                  case _ => Lookup(SERVERS, c.servers, name))
            && Lookup(AGENTS, d.a2aAgents, name) ==
                 (match op
                  case UpsertAgent(a) => if a.name == name then Some(a) else Lookup(AGENTS, c.a2aAgents, name)
                  case RemoveAgent(n) => if n == name then None else Lookup(AGENTS, c.a2aAgents, name)
                  case WriteEmpty => None
                  case _ => Lookup(AGENTS, c.a2aAgents, name))
  {
    match op
    case UpsertServer(s) => UpsertMeans(SERVERS, c.servers, s);
    case RemoveServer(n) => RemoveMeans(SERVERS, c.servers, n);
    case UpsertAgent(a) => UpsertMeans(AGENTS, c.a2aAgents, a);
    case RemoveAgent(n) => RemoveMeans(AGENTS, c.a2aAgents, n);
    case _ =>
  }
}
