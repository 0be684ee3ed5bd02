/** internal/session/cache.go, in-memory mode: one flat string-keyed map that stands for backend
    sessions, user tokens, elicitation flags and A2A task owners. */
module SessionCache {

  import opened Text

  const FLAG_PREFIX := "clientelicitation:"
  const TOKEN_PREFIX := "token:"
  const TASK_PREFIX := "taskowner:"

  function FlagKey(session: string): string {
    FLAG_PREFIX + session
  }

  function TokenField(server: string): string {
    TOKEN_PREFIX + server
  }

  function TaskKey(agent: string, id: string): string {
    TASK_PREFIX + agent + ":" + id
  }

  /** A value of the flat map: a session's field map, a flag, or a task owner. */
  datatype Value = Session(fields: map<string, string>) | Flag | Owner(principal: string)

  type Flat = map<string, Value>

  datatype Op =
    | KeyExists(session: string)
    | GetSession(session: string)
    | AddSession(session: string, server: string, backend: string)
    | RemoveServerSession(session: string, server: string)
    | DeleteSession(session: string)
    | SetFlag(session: string)
    | GetFlag(session: string)
    | SetToken(session: string, server: string, token: string)
    | GetToken(session: string, server: string, expired: bool)  // expired: the stored token's own claim
    | DeleteToken(session: string, server: string)
    | StoreTask(agent: string, id: string, principal: string)
    | LookupTask(agent: string, id: string)
    | DeleteTask(agent: string, id: string)

  datatype Reply =
    | Done
    | Fields(fields: map<string, string>)
    | Found(value: Option<string>)
    | IsSet(flag: bool)
    | Owned(principal: string, created: bool)
    | Panic  // a failed type assertion

  function Put(c: Flat, session: string, field: string, value: string): (Flat, Reply) {
    if session !in c then (c[session := Session(map[field := value])], Done)
    else if c[session].Session? then (c[session := Session(c[session].fields[field := value])], Done)
    else (c, Panic)
  }

  function Drop(c: Flat, session: string, field: string): (Flat, Reply) {
    if session !in c then (c, Done)
    else if c[session].Session? then (c[session := Session(c[session].fields - {field})], Done)
    else (c, Panic)
  }

  /** What each cache method does to the flat map. */
  function Step(c: Flat, op: Op): (Flat, Reply) {
    match op
    case KeyExists(s) => (c, IsSet(s in c))
    case GetSession(s) =>
      if s !in c then (c, Fields(map[])) else if c[s].Session? then (c, Fields(c[s].fields)) else (c, Panic)
    case AddSession(s, server, backend) => Put(c, s, server, backend)
    case RemoveServerSession(s, server) => Drop(c, s, server)
    case DeleteSession(s) => (c - {s} - {FlagKey(s)}, Done)
    case SetFlag(s) => (c[FlagKey(s) := Flag], Done)
    case GetFlag(s) => (c, IsSet(FlagKey(s) in c))
    case SetToken(s, server, token) => Put(c, s, TokenField(server), token)
    case GetToken(s, server, expired) =>
      if s !in c then (c, Found(None))
      else if !c[s].Session? then (c, Panic)
      else if TokenField(server) !in c[s].fields then (c, Found(None))
      else if expired then (Drop(c, s, TokenField(server)).0, Found(None))
      else (c, Found(Some(c[s].fields[TokenField(server)])))
    case DeleteToken(s, server) => Drop(c, s, TokenField(server))
    case StoreTask(agent, id, principal) =>
      var k := TaskKey(agent, id);
      if k !in c then (c[k := Owner(principal)], Owned(principal, true))
      else if c[k].Owner? then (c, Owned(c[k].principal, false))
      else (c, Panic)
    case LookupTask(agent, id) =>
      var k := TaskKey(agent, id);
      if k !in c then (c, Found(None)) else if c[k].Owner? then (c, Found(Some(c[k].principal))) else (c, Panic)
    case DeleteTask(agent, id) => (c - {TaskKey(agent, id)}, Done)
  }

  // ---- four independent maps ----

  datatype Pair = Pair(a: string, b: string)

  datatype Maps = Maps(
    known: set<string>,           // sessions that have a field map, empty or not
    backends: map<Pair, string>,  // (session, server)
    tokens: map<Pair, string>,    // (session, server)
    flags: set<string>,
    owners: map<Pair, string>)    // (agent, id)

  const EMPTY := Maps({}, map[], map[], {}, map[])

  function At(m: map<Pair, string>, a: string, b: string): Option<string> {
    if Pair(a, b) in m then Some(m[Pair(a, b)]) else None
  }

  /** What field f of session s stands for. */
  function FieldAt(m: Maps, s: string, f: string): Option<string> {
    if Pair(s, f) in m.backends then Some(m.backends[Pair(s, f)])
    else if TOKEN_PREFIX <= f then At(m.tokens, s, f[|TOKEN_PREFIX|..])
    else None
  }

  /** A session's backends and tokens side by side, as GetSession hands them out. */
  function View(m: Maps, s: string): map<string, string> {
    var names := (set p | p in m.backends && p.a == s :: p.b) + (set p | p in m.tokens && p.a == s :: TokenField(p.b));
    map f | f in names && FieldAt(m, s, f).Some? :: FieldAt(m, s, f).value
  }

  /** The specification: each operation acts on its own map only. */
  function SpecStep(m: Maps, op: Op): (Maps, Reply) {
    match op
    case KeyExists(s) => (m, IsSet(s in m.known))
    case GetSession(s) => (m, Fields(if s in m.known then View(m, s) else map[]))
    case AddSession(s, server, backend) => (m.(known := m.known + {s}, backends := m.backends[Pair(s, server) := backend]), Done)
    case RemoveServerSession(s, server) => (m.(backends := m.backends - {Pair(s, server)}), Done)
    case DeleteSession(s) =>
      (m.(known := m.known - {s}, flags := m.flags - {s},
          backends := map p | p in m.backends && p.a != s :: m.backends[p],
          tokens := map p | p in m.tokens && p.a != s :: m.tokens[p]), Done)
    case SetFlag(s) => (m.(flags := m.flags + {s}), Done)
    case GetFlag(s) => (m, IsSet(s in m.flags))
    case SetToken(s, server, token) => (m.(known := m.known + {s}, tokens := m.tokens[Pair(s, server) := token]), Done)
    case GetToken(s, server, expired) =>
      if expired then (m.(tokens := m.tokens - {Pair(s, server)}), Found(None)) else (m, Found(At(m.tokens, s, server)))
    case DeleteToken(s, server) => (m.(tokens := m.tokens - {Pair(s, server)}), Done)
    case StoreTask(agent, id, principal) =>
      if Pair(agent, id) in m.owners then (m, Owned(m.owners[Pair(agent, id)], false))
      else (m.(owners := m.owners[Pair(agent, id) := principal]), Owned(principal, true))
    case LookupTask(agent, id) => (m, Found(At(m.owners, agent, id)))
    case DeleteTask(agent, id) => (m.(owners := m.owners - {Pair(agent, id)}), Done)
  }

  // ---- names ----

  /** The session ids, agent names and server names in use. Task ids are the agents' own and may be
      anything. */
  datatype Names = Names(session: string -> bool, agent: string -> bool, server: string -> bool)

  /** The operation uses these names only. */
  predicate Uses(n: Names, op: Op) {
    match op
    case KeyExists(s) => n.session(s)
    case GetSession(s) => n.session(s)
    case AddSession(s, server, _) => n.session(s) && n.server(server)
    case RemoveServerSession(s, server) => n.session(s) && n.server(server)
    case DeleteSession(s) => n.session(s)
    case SetFlag(s) => n.session(s)
    case GetFlag(s) => n.session(s)
    case SetToken(s, server, _) => n.session(s) && n.server(server)
    case GetToken(s, server, _) => n.session(s) && n.server(server)
    case DeleteToken(s, server) => n.session(s) && n.server(server)
    case StoreTask(agent, _, _) => n.agent(agent)
    case LookupTask(agent, _) => n.agent(agent)
    case DeleteTask(agent, _) => n.agent(agent)
  }

  predicate FlagClash(s: string, t: string) {
    s == FlagKey(t)
  }

  predicate TaskClash(s: string, agent: string) {
    TASK_PREFIX + agent + ":" <= s
  }

  predicate AgentClash(a: string, b: string) {
    a + ":" <= b
  }

  predicate TokenClash(x: string, y: string) {
    x == TokenField(y)
  }

  /** The names do not get in each other's way: no session id is another's flag key or begins a task
      key, no agent name followed by a colon begins another, and no server is named like another's
      token field. */
  ghost predicate Apart(n: Names) {
    && (forall s, t :: n.session(s) && n.session(t) ==> !FlagClash(s, t))
    && (forall s, a :: n.session(s) && n.agent(a) ==> !TaskClash(s, a))
    && (forall a, b :: n.agent(a) && n.agent(b) ==> !AgentClash(a, b))
    && (forall s, x, y :: n.session(s) && n.server(x) && n.server(y) ==> !TokenClash(x, y))
  }

  /** The usual names are apart: session ids outside the two prefixes, agent names without a colon,
      server names outside the token space. */
  lemma UsualNamesAreApart(n: Names)
    requires forall s :: n.session(s) ==> !(FLAG_PREFIX <= s) && !(TASK_PREFIX <= s)
    requires forall a :: n.agent(a) ==> ':' !in a
    requires forall x :: n.server(x) ==> !(TOKEN_PREFIX <= x)
    ensures Apart(n)
  {
    forall s, a | TaskClash(s, a)
      ensures TASK_PREFIX <= s
    {
      assert TASK_PREFIX + a + ":" == TASK_PREFIX + (a + ":");
      assert s[..|TASK_PREFIX|] == (TASK_PREFIX + a + ":")[..|TASK_PREFIX|];
    }
    forall a, b | AgentClash(a, b)
      ensures ':' in b
    {
      assert b[|a|] == (a + ":")[|a|];
    }
  }

  lemma TaskClashMeans(s: string, agent: string)
    ensures TaskClash(s, agent) <==> exists id :: s == TaskKey(agent, id)
  {
    var head := TASK_PREFIX + agent + ":";
    if TaskClash(s, agent) {
      assert s == TaskKey(agent, s[|head|..]);
    }
  }

  lemma FlagKeysInjective(s: string, t: string)
    ensures FlagKey(s) == FlagKey(t) ==> s == t
  {
    assert FlagKey(s)[|FLAG_PREFIX|..] == s && FlagKey(t)[|FLAG_PREFIX|..] == t;
  }

  lemma FlagIsNoTask(s: string, agent: string, id: string)
    ensures FlagKey(s) != TaskKey(agent, id)
  {
    assert FlagKey(s)[0] == 'c' && TaskKey(agent, id)[0] == 't';
  }

  /** Two task records share a key only if they are the same, or one agent's name with a colon begins
      the other's. */
  lemma TaskKeyInjective(agent: string, id: string, agent': string, id': string)
    ensures TaskKey(agent, id) == TaskKey(agent', id') ==>
              (agent == agent' && id == id') || AgentClash(agent, agent') || AgentClash(agent', agent)
  {
    if TaskKey(agent, id) == TaskKey(agent', id') {
      var x, y := agent + [':'] + id, agent' + [':'] + id';
      assert TaskKey(agent, id) == TASK_PREFIX + x && TaskKey(agent', id') == TASK_PREFIX + y;
      assert x == TaskKey(agent, id)[|TASK_PREFIX|..] && y == TaskKey(agent', id')[|TASK_PREFIX|..];
      SameTail(agent, id, agent', id');
    }
  }

  lemma SameTail(a: string, i: string, b: string, j: string)
    requires a + [':'] + i == b + [':'] + j
    ensures (a == b && i == j) || AgentClash(a, b) || AgentClash(b, a)
  {
    var x := a + [':'] + i;
    assert x == b + [':'] + j;
    if |a| == |b| {
      assert a == x[..|a|] == b && i == x[|a| + 1..] == j;
    } else if |a| < |b| {
      assert a + ":" == x[..|a| + 1] && b == x[..|b|];
      assert b[..|a| + 1] == x[..|a| + 1];
    } else {
      assert b + ":" == x[..|b| + 1] && a == x[..|a|];
      assert a[..|b| + 1] == x[..|b| + 1];
    }
  }

  lemma TokenFieldsInjective(x: string, y: string)
    ensures TokenField(x) == TokenField(y) <==> x == y
    ensures TOKEN_PREFIX <= TokenField(x) && TokenField(x)[|TOKEN_PREFIX|..] == x
  {
    assert TokenField(x)[|TOKEN_PREFIX|..] == x && TokenField(y)[|TOKEN_PREFIX|..] == y;
  }

  // ---- the flat map represents the four maps ----

  /** A session's field map holds its backends under the server names and its tokens under theirs. */
  ghost predicate FieldsMatch(fields: map<string, string>, m: Maps, s: string) {
    forall f :: FieldMatches(fields, m, s, f)
  }

  predicate FieldMatches(fields: map<string, string>, m: Maps, s: string, f: string) {
    FieldAt(m, s, f) == if f in fields then Some(fields[f]) else None
  }

  ghost predicate Tidy(n: Names, m: Maps) {
    && (forall p :: p in m.backends ==> p.a in m.known && n.server(p.b))
    && (forall p :: p in m.tokens ==> p.a in m.known && n.server(p.b))
  }

  ghost predicate SessionsMatch(n: Names, c: Flat, m: Maps) {
    forall s :: n.session(s) ==>
      && (s in c <==> s in m.known)
      && (s in c ==> c[s].Session? && FieldsMatch(c[s].fields, m, s))
  }

  ghost predicate FlagsMatch(n: Names, c: Flat, m: Maps) {
    forall s :: n.session(s) ==> (FlagKey(s) in c <==> s in m.flags)
  }

  ghost predicate OwnersMatch(n: Names, c: Flat, m: Maps) {
    forall agent, id :: n.agent(agent) ==>
      && (TaskKey(agent, id) in c <==> Pair(agent, id) in m.owners)
      && (TaskKey(agent, id) in c ==> c[TaskKey(agent, id)] == Owner(m.owners[Pair(agent, id)]))
  }

  ghost predicate Represents(n: Names, c: Flat, m: Maps) {
    Tidy(n, m) && SessionsMatch(n, c, m) && FlagsMatch(n, c, m) && OwnersMatch(n, c, m)
  }

  lemma FieldsAreView(fields: map<string, string>, m: Maps, s: string)
    requires FieldsMatch(fields, m, s)
    ensures fields == View(m, s)
  {
    var v := View(m, s);
    forall f
      ensures (f in fields <==> f in v) && (f in fields ==> fields[f] == v[f])
    {
      assert FieldMatches(fields, m, s, f);
      if TOKEN_PREFIX <= f {
        assert f == TokenField(f[|TOKEN_PREFIX|..]);
        assert Pair(s, f[|TOKEN_PREFIX|..]) in m.tokens ==> Pair(s, f[|TOKEN_PREFIX|..]).a == s;
      }
      assert Pair(s, f) in m.backends ==> Pair(s, f).a == s;
    }
  }

  ghost predicate SameElsewhere(m: Maps, m': Maps, s: string) {
    && (forall p: Pair :: p.a != s ==> (p in m'.backends <==> p in m.backends) && (p in m.backends ==> m'.backends[p] == m.backends[p]))
    && (forall p: Pair :: p.a != s ==> (p in m'.tokens <==> p in m.tokens) && (p in m.tokens ==> m'.tokens[p] == m.tokens[p]))
  }

  lemma FieldsKept(fields: map<string, string>, m: Maps, m': Maps, t: string, s: string)
    requires FieldsMatch(fields, m, t) && SameElsewhere(m, m', s) && t != s
    ensures FieldsMatch(fields, m', t)
  {
    forall f
      ensures FieldMatches(fields, m', t, f)
    {
      assert FieldMatches(fields, m, t, f);
      assert Pair(t, f).a != s;
      if TOKEN_PREFIX <= f {
        assert Pair(t, f[|TOKEN_PREFIX|..]).a != s;
      }
    }
  }

  /** Replacing one session's field map. */
  lemma SessionUpdated(n: Names, c: Flat, m: Maps, s: string, fields: map<string, string>, m': Maps)
    requires Apart(n) && Represents(n, c, m) && n.session(s) && Tidy(n, m')
    requires m'.flags == m.flags && m'.owners == m.owners && m'.known == m.known + {s}
    requires SameElsewhere(m, m', s) && FieldsMatch(fields, m', s)
    ensures Represents(n, c[s := Session(fields)], m')
  {
    SessionsUpdated(n, c, m, s, fields, m');
    FlagsUntouched(n, c, m, s, fields, m');
    OwnersUntouched(n, c, m, s, fields, m');
  }

  lemma SessionsUpdated(n: Names, c: Flat, m: Maps, s: string, fields: map<string, string>, m': Maps)
    requires SessionsMatch(n, c, m) && m'.known == m.known + {s} && SameElsewhere(m, m', s) && FieldsMatch(fields, m', s)
    ensures SessionsMatch(n, c[s := Session(fields)], m')
  {
    forall t | n.session(t) && t in c && t != s
      ensures FieldsMatch(c[t].fields, m', t)
    {
      FieldsKept(c[t].fields, m, m', t, s);
    }
  }

  lemma FlagsUntouched(n: Names, c: Flat, m: Maps, s: string, fields: map<string, string>, m': Maps)
    requires Apart(n) && FlagsMatch(n, c, m) && n.session(s) && m'.flags == m.flags
    ensures FlagsMatch(n, c[s := Session(fields)], m')
  {
    assert forall t :: n.session(t) ==> !FlagClash(s, t);
  }

  lemma OwnersUntouched(n: Names, c: Flat, m: Maps, s: string, fields: map<string, string>, m': Maps)
    requires Apart(n) && OwnersMatch(n, c, m) && n.session(s) && m'.owners == m.owners
    ensures OwnersMatch(n, c[s := Session(fields)], m')
  {
    forall agent, id | n.agent(agent)
      ensures s != TaskKey(agent, id)
    {
      TaskClashMeans(s, agent);
    }
  }

  lemma ServerFieldSet(fields: map<string, string>, m: Maps, s: string, x: string, value: string)
    requires FieldsMatch(fields, m, s)
    ensures FieldsMatch(fields[x := value], m.(backends := m.backends[Pair(s, x) := value]), s)
  {
    var m', fields' := m.(backends := m.backends[Pair(s, x) := value]), fields[x := value];
    forall f
      ensures FieldMatches(fields', m', s, f)
    {
      assert FieldMatches(fields, m, s, f);
    }
  }

  lemma TokenFieldSet(fields: map<string, string>, m: Maps, s: string, y: string, value: string)
    requires FieldsMatch(fields, m, s) && Pair(s, TokenField(y)) !in m.backends
    ensures FieldsMatch(fields[TokenField(y) := value], m.(tokens := m.tokens[Pair(s, y) := value]), s)
  {
    var m', fields' := m.(tokens := m.tokens[Pair(s, y) := value]), fields[TokenField(y) := value];
    forall f
      ensures FieldMatches(fields', m', s, f)
    {
      assert FieldMatches(fields, m, s, f);
      TokenFieldsInjective(y, y);
      if TOKEN_PREFIX <= f && f != TokenField(y) {
        assert f == TokenField(f[|TOKEN_PREFIX|..]);
      }
    }
  }

  lemma ServerFieldDropped(fields: map<string, string>, m: Maps, s: string, x: string)
    requires FieldsMatch(fields, m, s) && forall y :: Pair(s, y) in m.tokens ==> !TokenClash(x, y)
    ensures FieldsMatch(fields - {x}, m.(backends := m.backends - {Pair(s, x)}), s)
  {
    var m' := m.(backends := m.backends - {Pair(s, x)});
    forall f
      ensures FieldMatches(fields - {x}, m', s, f)
    {
      assert FieldMatches(fields, m, s, f);
      if f == x && TOKEN_PREFIX <= f {
        assert TokenClash(x, f[|TOKEN_PREFIX|..]);
      }
    }
  }

  lemma TokenFieldDropped(fields: map<string, string>, m: Maps, s: string, y: string)
    requires FieldsMatch(fields, m, s) && Pair(s, TokenField(y)) !in m.backends
    ensures FieldsMatch(fields - {TokenField(y)}, m.(tokens := m.tokens - {Pair(s, y)}), s)
  {
    var m' := m.(tokens := m.tokens - {Pair(s, y)});
    forall f
      ensures FieldMatches(fields - {TokenField(y)}, m', s, f)
    {
      assert FieldMatches(fields, m, s, f);
      TokenFieldsInjective(y, y);
      if TOKEN_PREFIX <= f && f != TokenField(y) {
        assert f == TokenField(f[|TOKEN_PREFIX|..]);
      }
    }
  }

  /** No server in use for session s has the name of server's token field. */
  lemma NoBackendNamedSo(n: Names, m: Maps, s: string, server: string)
    requires Apart(n) && Tidy(n, m) && n.session(s) && n.server(server)
    ensures Pair(s, TokenField(server)) !in m.backends
    ensures forall y :: Pair(s, y) in m.tokens ==> !TokenClash(server, y)
  {
    assert n.server(TokenField(server)) ==> !TokenClash(TokenField(server), server);
    assert forall y :: Pair(s, y) in m.tokens ==> n.server(Pair(s, y).b);
  }

  lemma AddSimulates(n: Names, c: Flat, m: Maps, s: string, server: string, backend: string)
    requires Apart(n) && Represents(n, c, m) && n.session(s) && n.server(server)
    ensures var op := AddSession(s, server, backend);
            Represents(n, Step(c, op).0, SpecStep(m, op).0) && Step(c, op).1 == SpecStep(m, op).1
  {
    var before := FieldsOf(n, c, m, s);
    ServerFieldSet(before, m, s, server, backend);
    var m' := SpecStep(m, AddSession(s, server, backend)).0;
    KnownIsAside(before[server := backend], m.(backends := m'.backends), m', s);
    SessionUpdated(n, c, m, s, before[server := backend], m');
  }

  lemma SetTokenSimulates(n: Names, c: Flat, m: Maps, s: string, server: string, token: string)
    requires Apart(n) && Represents(n, c, m) && n.session(s) && n.server(server)
    ensures var op := SetToken(s, server, token);
            Represents(n, Step(c, op).0, SpecStep(m, op).0) && Step(c, op).1 == SpecStep(m, op).1
  {
    var before := FieldsOf(n, c, m, s);
    NoBackendNamedSo(n, m, s, server);
    TokenFieldSet(before, m, s, server, token);
    var m' := SpecStep(m, SetToken(s, server, token)).0;
    KnownIsAside(before[TokenField(server) := token], m.(tokens := m'.tokens), m', s);
    SessionUpdated(n, c, m, s, before[TokenField(server) := token], m');
  }

  /** The fields a write to session s starts from. */
  lemma FieldsOf(n: Names, c: Flat, m: Maps, s: string) returns (fields: map<string, string>)
    requires Represents(n, c, m) && n.session(s)
    ensures FieldsMatch(fields, m, s) && (s in c ==> c[s] == Session(fields)) && (s !in c ==> fields == map[])
  {
    if s in c {
      fields := c[s].fields;
    } else {
      fields := map[];
      forall f
        ensures FieldMatches(fields, m, s, f)
      {
        assert Pair(s, f) !in m.backends && (TOKEN_PREFIX <= f ==> Pair(s, f[|TOKEN_PREFIX|..]) !in m.tokens);
      }
    }
  }

  lemma KnownIsAside(fields: map<string, string>, m: Maps, m': Maps, s: string)
    requires FieldsMatch(fields, m, s) && m'.backends == m.backends && m'.tokens == m.tokens
    ensures FieldsMatch(fields, m', s)
  {
    forall f
      ensures FieldMatches(fields, m', s, f)
    {
      assert FieldMatches(fields, m, s, f);
    }
  }

  /** Dropping a field that is not there changes nothing. */
  lemma DropIsUniform(c: Flat, s: string, field: string)
    requires s in c && c[s].Session?
    ensures field !in c[s].fields ==> c[s := Session(c[s].fields - {field})] == c
  {
    if field !in c[s].fields {
      assert c[s].fields - {field} == c[s].fields;
    }
  }

  lemma DropUnknown(n: Names, m: Maps, s: string, server: string)
    requires Tidy(n, m) && s !in m.known
    ensures m.(backends := m.backends - {Pair(s, server)}) == m
    ensures m.(tokens := m.tokens - {Pair(s, server)}) == m
  {
    assert Pair(s, server) !in m.backends && Pair(s, server) !in m.tokens;
  }

  lemma DropServerSimulates(n: Names, c: Flat, m: Maps, s: string, server: string)
    requires Apart(n) && Represents(n, c, m) && n.session(s) && n.server(server)
    ensures var op := RemoveServerSession(s, server);
            Represents(n, Step(c, op).0, SpecStep(m, op).0) && Step(c, op).1 == SpecStep(m, op).1
  {
    if s in c {
      NoBackendNamedSo(n, m, s, server);
      ServerFieldDropped(c[s].fields, m, s, server);
      SessionUpdated(n, c, m, s, c[s].fields - {server}, m.(backends := m.backends - {Pair(s, server)}));
    } else {
      DropUnknown(n, m, s, server);
    }
  }

  lemma DropTokenSimulates(n: Names, c: Flat, m: Maps, s: string, server: string)
    requires Apart(n) && Represents(n, c, m) && n.session(s) && n.server(server)
    ensures Represents(n, Drop(c, s, TokenField(server)).0, m.(tokens := m.tokens - {Pair(s, server)}))
    ensures Drop(c, s, TokenField(server)).1 == Done
  {
    if s in c {
      NoBackendNamedSo(n, m, s, server);
      TokenFieldDropped(c[s].fields, m, s, server);
      SessionUpdated(n, c, m, s, c[s].fields - {TokenField(server)}, m.(tokens := m.tokens - {Pair(s, server)}));
    } else {
      DropUnknown(n, m, s, server);
    }
  }

  lemma GetTokenSimulates(n: Names, c: Flat, m: Maps, s: string, server: string, expired: bool)
    requires Apart(n) && Represents(n, c, m) && n.session(s) && n.server(server)
    ensures var op := GetToken(s, server, expired);
            Represents(n, Step(c, op).0, SpecStep(m, op).0) && Step(c, op).1 == SpecStep(m, op).1
  {
    if expired {
      DropTokenSimulates(n, c, m, s, server);
      if s in c {
        DropIsUniform(c, s, TokenField(server));
      }
    } else {
      TokenAnswers(n, c, m, s, server);
    }
  }

  lemma TokenAnswers(n: Names, c: Flat, m: Maps, s: string, server: string)
    requires Apart(n) && Represents(n, c, m) && n.session(s) && n.server(server)
    ensures Step(c, GetToken(s, server, false)).1 == Found(At(m.tokens, s, server))
  {
    NoBackendNamedSo(n, m, s, server);
    TokenFieldsInjective(server, server);
    if s in c {
      assert FieldMatches(c[s].fields, m, s, TokenField(server));
    } else {
      assert Pair(s, server) !in m.tokens;
    }
  }

  lemma DeleteSimulates(n: Names, c: Flat, m: Maps, s: string)
    requires Apart(n) && Represents(n, c, m) && n.session(s)
    ensures Represents(n, Step(c, DeleteSession(s)).0, SpecStep(m, DeleteSession(s)).0)
  {
    var c', m' := Step(c, DeleteSession(s)).0, SpecStep(m, DeleteSession(s)).0;
    DeleteKeepsSessions(n, c, m, s, m');
    DeleteKeepsFlags(n, c, m, s, m');
    DeleteKeepsOwners(n, c, m, s, m');
  }

  lemma DeleteKeepsSessions(n: Names, c: Flat, m: Maps, s: string, m': Maps)
    requires Apart(n) && SessionsMatch(n, c, m) && n.session(s) && SameElsewhere(m, m', s) && m'.known == m.known - {s}
    ensures SessionsMatch(n, c - {s} - {FlagKey(s)}, m')
  {
    forall t | n.session(t) && t in c && t != s
      ensures FieldsMatch(c[t].fields, m', t)
    {
      FieldsKept(c[t].fields, m, m', t, s);
    }
    assert forall t :: n.session(t) ==> !FlagClash(t, s);
  }

  lemma DeleteKeepsFlags(n: Names, c: Flat, m: Maps, s: string, m': Maps)
    requires Apart(n) && FlagsMatch(n, c, m) && n.session(s) && m'.flags == m.flags - {s}
    ensures FlagsMatch(n, c - {s} - {FlagKey(s)}, m')
  {
    forall t | n.session(t)
      ensures FlagKey(t) != s && (FlagKey(t) == FlagKey(s) <==> t == s)
    {
      assert !FlagClash(s, t);
      FlagKeysInjective(s, t);
    }
  }

  lemma DeleteKeepsOwners(n: Names, c: Flat, m: Maps, s: string, m': Maps)
    requires Apart(n) && OwnersMatch(n, c, m) && n.session(s) && m'.owners == m.owners
    ensures OwnersMatch(n, c - {s} - {FlagKey(s)}, m')
  {
    forall agent, id | n.agent(agent)
      ensures TaskKey(agent, id) != s && TaskKey(agent, id) != FlagKey(s)
    {
      TaskClashMeans(s, agent);
      FlagIsNoTask(s, agent, id);
    }
  }

  lemma FlagSimulates(n: Names, c: Flat, m: Maps, s: string)
    requires Apart(n) && Represents(n, c, m) && n.session(s)
    ensures Represents(n, Step(c, SetFlag(s)).0, SpecStep(m, SetFlag(s)).0)
  {
    var c', m' := Step(c, SetFlag(s)).0, SpecStep(m, SetFlag(s)).0;
    forall t | n.session(t)
      ensures t != FlagKey(s) && (FlagKey(t) == FlagKey(s) <==> s == t)
    {
      assert !FlagClash(t, s);
      FlagKeysInjective(s, t);
    }
    forall t | n.session(t) && t in c'
      ensures c'[t].Session? && FieldsMatch(c'[t].fields, m', t)
    {
      KnownIsAside(c[t].fields, m, m', t);
    }
    forall agent, id
      ensures TaskKey(agent, id) != FlagKey(s)
    {
      FlagIsNoTask(s, agent, id);
    }
  }

  /** Only the owner record of (agent, id) changes. */
  ghost predicate OwnerChange(c: Flat, m: Maps, agent: string, id: string, c': Flat, m': Maps) {
    && m' == m.(owners := m'.owners)
    && (forall k :: k != TaskKey(agent, id) ==> (k in c' <==> k in c) && (k in c ==> c'[k] == c[k]))
    && (forall p :: p != Pair(agent, id) ==> (p in m'.owners <==> p in m.owners) && (p in m.owners ==> m'.owners[p] == m.owners[p]))
    && (TaskKey(agent, id) in c' <==> Pair(agent, id) in m'.owners)
    && (TaskKey(agent, id) in c' ==> c'[TaskKey(agent, id)] == Owner(m'.owners[Pair(agent, id)]))
  }

  lemma TaskSimulates(n: Names, c: Flat, m: Maps, agent: string, id: string, c': Flat, m': Maps)
    requires Apart(n) && Represents(n, c, m) && n.agent(agent) && OwnerChange(c, m, agent, id, c', m')
    ensures Represents(n, c', m')
  {
    forall t | n.session(t)
      ensures t != TaskKey(agent, id)
    {
      TaskClashMeans(t, agent);
    }
    forall t
      ensures FlagKey(t) != TaskKey(agent, id)
    {
      FlagIsNoTask(t, agent, id);
    }
    forall t | n.session(t) && t in c
      ensures FieldsMatch(c[t].fields, m', t)
    {
      KnownIsAside(c[t].fields, m, m', t);
    }
    TaskOwners(n, c, m, agent, id, c', m');
  }

  lemma TaskOwners(n: Names, c: Flat, m: Maps, agent: string, id: string, c': Flat, m': Maps)
    requires Apart(n) && OwnersMatch(n, c, m) && n.agent(agent) && OwnerChange(c, m, agent, id, c', m')
    ensures OwnersMatch(n, c', m')
  {
    forall a, i | n.agent(a)
      ensures TaskKey(a, i) == TaskKey(agent, id) <==> Pair(a, i) == Pair(agent, id)
    {
      TaskKeyInjective(a, i, agent, id);
      assert !AgentClash(a, agent) && !AgentClash(agent, a);
    }
  }

  /** With names apart, one operation on the flat map answers and acts exactly as on the four
      independent maps, and never panics. */
  lemma StepSimulates(n: Names, c: Flat, m: Maps, op: Op)
    requires Apart(n) && Represents(n, c, m) && Uses(n, op)
    ensures Represents(n, Step(c, op).0, SpecStep(m, op).0)
    ensures Step(c, op).1 == SpecStep(m, op).1 && !Step(c, op).1.Panic?
  {
    match op
    case KeyExists(_) =>
    case GetSession(s) =>
      if s in c {
        FieldsAreView(c[s].fields, m, s);
      }
    case AddSession(s, server, backend) => AddSimulates(n, c, m, s, server, backend);
    case SetToken(s, server, token) => SetTokenSimulates(n, c, m, s, server, token);
    case RemoveServerSession(s, server) => DropServerSimulates(n, c, m, s, server);
    case DeleteToken(s, server) => DropTokenSimulates(n, c, m, s, server);
    case DeleteSession(s) => DeleteSimulates(n, c, m, s);
    case SetFlag(s) => FlagSimulates(n, c, m, s);
    case GetFlag(_) =>
    case GetToken(s, server, expired) => GetTokenSimulates(n, c, m, s, server, expired);
    case StoreTask(agent, id, _) => TaskSimulates(n, c, m, agent, id, Step(c, op).0, SpecStep(m, op).0);
    case LookupTask(_, _) =>
    case DeleteTask(agent, id) => TaskSimulates(n, c, m, agent, id, Step(c, op).0, SpecStep(m, op).0);
  }

  function Replies(c: Flat, ops: seq<Op>): seq<Reply>
    decreases |ops|
  {
    if ops == [] then [] else [Step(c, ops[0]).1] + Replies(Step(c, ops[0]).0, ops[1..])
  }

  function SpecReplies(m: Maps, ops: seq<Op>): seq<Reply>
    decreases |ops|
  {
    if ops == [] then [] else [SpecStep(m, ops[0]).1] + SpecReplies(SpecStep(m, ops[0]).0, ops[1..])
  }

  ghost predicate AllUse(n: Names, ops: seq<Op>) {
    forall op :: op in ops ==> Uses(n, op)
  }

  /** Over any run with names apart no caller can tell the flat cache from four maps. */
  lemma {:induction false} CacheIsFourMaps(n: Names, c: Flat, m: Maps, ops: seq<Op>)
    requires Apart(n) && Represents(n, c, m) && AllUse(n, ops)
    ensures Replies(c, ops) == SpecReplies(m, ops)
    ensures Panic !in Replies(c, ops)
    decreases |ops|
  {
    if ops != [] {
      StepSimulates(n, c, m, ops[0]);
      CacheIsFourMaps(n, Step(c, ops[0]).0, SpecStep(m, ops[0]).0, ops[1..]);
    }
  }

  lemma EmptyCache(n: Names)
    ensures Represents(n, map[], EMPTY)
  {
  }

  /** Some run from the empty cache, with these names only, is answered differently by four maps. */
  ghost predicate Shows(n: Names) {
    exists ops :: AllUse(n, ops) && Replies(map[], ops) != SpecReplies(EMPTY, ops)
  }

  lemma TwoOps(c: Flat, m: Maps, a: Op, b: Op)
    ensures Replies(c, [a, b]) == [Step(c, a).1, Step(Step(c, a).0, b).1]
    ensures SpecReplies(m, [a, b]) == [SpecStep(m, a).1, SpecStep(SpecStep(m, a).0, b).1]
  {
    assert [a, b][1..] == [b] && [b][1..] == [];
    assert Replies(Step(c, a).0, [b]) == [Step(Step(c, a).0, b).1] + [];
    assert SpecReplies(SpecStep(m, a).0, [b]) == [SpecStep(SpecStep(m, a).0, b).1] + [];
  }

  lemma ShowsBy(n: Names, a: Op, b: Op)
    requires Uses(n, a) && Uses(n, b) && Step(Step(map[], a).0, b).1 != SpecStep(SpecStep(EMPTY, a).0, b).1
    ensures Shows(n)
  {
    TwoOps(map[], EMPTY, a, b);
    assert AllUse(n, [a, b]);
    assert Replies(map[], [a, b])[1] != SpecReplies(EMPTY, [a, b])[1];
  }

  /** A session id that is another's flag key: set the flag, and reading the session panics. */
  lemma FlagClashShows(n: Names, s: string, t: string)
    requires n.session(s) && n.session(t) && FlagClash(s, t)
    ensures Shows(n)
  {
    ShowsBy(n, SetFlag(t), GetSession(s));
  }

  /** A session id that is a task key: store the record, and reading the session panics. */
  lemma TaskClashShows(n: Names, s: string, agent: string)
    requires n.session(s) && n.agent(agent) && TaskClash(s, agent)
    ensures Shows(n)
  {
    TaskClashMeans(s, agent);
    var id :| s == TaskKey(agent, id);
    ShowsBy(n, StoreTask(agent, id, ""), GetSession(s));
  }

  /** An agent name that begins another before a colon: a record of the one is found as the other's. */
  lemma AgentClashShows(n: Names, a: string, b: string)
    requires n.agent(a) && n.agent(b) && AgentClash(a, b)
    ensures Shows(n)
  {
    var rest := b[|a| + 1..];
    assert b == a + ":" + rest;
    assert TaskKey(b, "") == TASK_PREFIX + (a + ":" + rest) + ":" + "";
    assert TaskKey(a, rest + ":") == TASK_PREFIX + a + ":" + (rest + ":");
    assert TaskKey(b, "") == TaskKey(a, rest + ":");
    assert Pair(a, rest + ":") != Pair(b, "");
    ShowsBy(n, StoreTask(b, "", ""), LookupTask(a, rest + ":"));
  }

  /** A server named like another's token field: its session is handed out as that token. */
  lemma TokenClashShows(n: Names, s: string, x: string, y: string)
    requires n.session(s) && n.server(x) && n.server(y) && TokenClash(x, y)
    ensures Shows(n)
  {
    ShowsBy(n, AddSession(s, x, ""), GetToken(s, y, false));
  }

  /** The names matter, and exactly so: no run from the empty cache with these names can tell the flat
      cache from four maps if and only if the names are apart. */
  lemma IndistinguishableIffApart(n: Names)
    ensures Shows(n) <==> !Apart(n)
  {
    if Apart(n) {
      EmptyCache(n);
      forall ops | AllUse(n, ops)
        ensures Replies(map[], ops) == SpecReplies(EMPTY, ops)
      {
        CacheIsFourMaps(n, map[], EMPTY, ops);
      }
    } else if s, t :| n.session(s) && n.session(t) && FlagClash(s, t) {
      FlagClashShows(n, s, t);
    } else if s, a :| n.session(s) && n.agent(a) && TaskClash(s, a) {
      TaskClashShows(n, s, a);
    } else if a, b :| n.agent(a) && n.agent(b) && AgentClash(a, b) {
      AgentClashShows(n, a, b);
    } else {
      var s, x, y :| n.session(s) && n.server(x) && n.server(y) && TokenClash(x, y);
      TokenClashShows(n, s, x, y);
    }
  }

  function Exec(c: Flat, ops: seq<Op>): Flat
    decreases |ops|
  {
    if ops == [] then c else Exec(Step(c, ops[0]).0, ops[1..])
  }

  /** The first writer of a task record owns it until it is deleted, whatever else happens, the end of
      every session included, as long as the names in use are apart. */
  lemma {:induction false} FirstWriterOwns(n: Names, c: Flat, agent: string, id: string, principal: string, ops: seq<Op>, other: string)
    requires Apart(n) && n.agent(agent) && TaskKey(agent, id) in c && c[TaskKey(agent, id)] == Owner(principal)
    requires AllUse(n, ops) && DeleteTask(agent, id) !in ops
    ensures Step(Exec(c, ops), LookupTask(agent, id)).1 == Found(Some(principal))
    ensures Step(Exec(c, ops), StoreTask(agent, id, other)).1 == Owned(principal, false)
    decreases |ops|
  {
    if ops != [] {
      OwnerStays(n, c, agent, id, ops[0]);
      FirstWriterOwns(n, Step(c, ops[0]).0, agent, id, principal, ops[1..], other);
    }
  }

  lemma OwnerStays(n: Names, c: Flat, agent: string, id: string, op: Op)
    requires Apart(n) && n.agent(agent) && TaskKey(agent, id) in c && c[TaskKey(agent, id)].Owner?
    requires Uses(n, op) && op != DeleteTask(agent, id)
    ensures var t := Step(c, op).0; TaskKey(agent, id) in t && t[TaskKey(agent, id)] == c[TaskKey(agent, id)]
  {
    if op.StoreTask? || op.LookupTask? || op.DeleteTask? {
      TaskKeyInjective(agent, id, op.agent, op.id);
      assert !AgentClash(agent, op.agent) && !AgentClash(op.agent, agent);
    } else {
      TaskClashMeans(op.session, agent);
      FlagIsNoTask(op.session, agent, id);
    }
  }

  // ---- the cache object ----

  /** A Go map of a session's fields: an object, shared with whoever got it from GetSession. */
  class FieldMap {
    var entries: map<string, string>

    constructor (entries: map<string, string>)
      ensures this.entries == entries
    {
      this.entries := entries;
    }
  }

  datatype Cell = SessionCell(fieldMap: FieldMap) | FlagCell | OwnerCell(principal: string)

  class Cache {
    var inmemory: map<string, Cell>

    constructor ()
      ensures Contents() == map[]
    {
      inmemory := map[];
    }

    /** The field maps reachable from the cache. */
    ghost function Shared(): set<FieldMap>
      reads this
    {
      set k | k in inmemory && inmemory[k].SessionCell? :: inmemory[k].fieldMap
    }

    ghost function Contents(): Flat
      reads this, Shared()
    {
      map k | k in inmemory ::
        match inmemory[k]
        case SessionCell(fm) => assert fm in Shared(); Session(fm.entries)
        case FlagCell => Flag
        case OwnerCell(p) => Owner(p)
    }

    /** Copy on write: the new field map is a new object, so a map handed out earlier never changes;
        this holds of every method below, none of which may modify more than the cache itself. */
    method StoreFields(session: string, entries: map<string, string>)
      modifies this
      ensures Contents() == old(Contents())[session := Session(entries)]
      ensures forall fm :: fm in old(Shared()) ==> fm.entries == old(fm.entries)
    {
      var next := new FieldMap(entries);
      inmemory := inmemory[session := SessionCell(next)];
    }

    method KeyExists(key: string) returns (found: bool)
      ensures IsSet(found) == Step(Contents(), Op.KeyExists(key)).1
    {
      found := key in inmemory;
    }

    /** Hands out the live field map of the session, or a new empty one. */
    method GetSession(session: string) returns (r: Option<FieldMap>)
      ensures r.None? <==> Step(Contents(), Op.GetSession(session)).1 == Panic
      ensures r.Some? ==> Fields(r.value.entries) == Step(Contents(), Op.GetSession(session)).1
    {
      if session !in inmemory {
        var empty := new FieldMap(map[]);
        return Some(empty);
      }
      match inmemory[session] {
        case SessionCell(fm) =>
          assert fm in Shared();
          return Some(fm);
        case _ => return None;
      }
    }

    method PutField(session: string, field: string, value: string) returns (r: Reply)
      modifies this
      ensures (Contents(), r) == Put(old(Contents()), session, field, value)
      ensures forall fm :: fm in old(Shared()) ==> fm.entries == old(fm.entries)
    {
      if session !in inmemory {
        StoreFields(session, map[field := value]);
        return Done;
      }
      match inmemory[session] {
        case SessionCell(fm) =>
          assert fm in Shared();
          StoreFields(session, fm.entries[field := value]);
          return Done;
        case _ => return Panic;
      }
    }

    method DropField(session: string, field: string) returns (r: Reply)
      modifies this
      ensures (Contents(), r) == Drop(old(Contents()), session, field)
      ensures forall fm :: fm in old(Shared()) ==> fm.entries == old(fm.entries)
    {
      if session !in inmemory {
        return Done;
      }
      match inmemory[session] {
        case SessionCell(fm) =>
          assert fm in Shared();
          StoreFields(session, fm.entries - {field});
          return Done;
        case _ => return Panic;
      }
    }

    method GetUserToken(session: string, server: string, expired: string -> bool) returns (r: Reply)
      modifies this
      ensures var e := TokenExpired(old(Contents()), session, server, expired);
              (Contents(), r) == Step(old(Contents()), GetToken(session, server, e))
      ensures r.Found? && r.value.Some? ==> !expired(r.value.value)
      ensures forall fm :: fm in old(Shared()) ==> fm.entries == old(fm.entries)
    {
      if session !in inmemory {
        return Found(None);
      }
      match inmemory[session] {
        case SessionCell(fm) =>
          assert fm in Shared();
          if TokenField(server) !in fm.entries {
            return Found(None);
          }
          var token := fm.entries[TokenField(server)];
          if expired(token) {
            var _ := DropField(session, TokenField(server));
            return Found(None);
          }
          return Found(Some(token));
        case _ => return Panic;
      }
    }

    method DeleteSessions(keys: seq<string>)
      modifies this
      ensures Contents() == Exec(old(Contents()), Deletes(keys))
      ensures forall fm :: fm in old(Shared()) ==> fm.entries == old(fm.entries)
    {
      for i := 0 to |keys|
        invariant Exec(Contents(), Deletes(keys[i..])) == Exec(old(Contents()), Deletes(keys))
        invariant forall fm :: fm in old(Shared()) ==> fm.entries == old(fm.entries)
      {
        ghost var before := Contents();
        inmemory := inmemory - {keys[i]};
        inmemory := inmemory - {FlagKey(keys[i])};
        assert Contents() == Step(before, DeleteSession(keys[i])).0;
        assert keys[i..][1..] == keys[i + 1..];
        assert Deletes(keys[i..])[1..] == Deletes(keys[i + 1..]);
      }
    }

    method SetClientElicitation(session: string)
      modifies this
      ensures Contents() == Step(old(Contents()), SetFlag(session)).0
    {
      inmemory := inmemory[FlagKey(session) := FlagCell];
    }

    method GetClientElicitation(session: string) returns (flag: bool)
      ensures IsSet(flag) == Step(Contents(), GetFlag(session)).1
    {
      flag := FlagKey(session) in inmemory;
    }

    /** LoadOrStore: insert-only. */
    method StoreTaskRecord(agent: string, id: string, principal: string) returns (r: Reply)
      modifies this
      ensures (Contents(), r) == Step(old(Contents()), StoreTask(agent, id, principal))
    {
      var key := TaskKey(agent, id);
      if key !in inmemory {
        inmemory := inmemory[key := OwnerCell(principal)];
        assert Contents() == old(Contents())[key := Owner(principal)];
        return Owned(principal, true);
      }
      match inmemory[key] {
        case OwnerCell(p) => return Owned(p, false);
        case _ => return Panic;
      }
    }

    method LookupTaskRecord(agent: string, id: string) returns (r: Reply)
      ensures r == Step(Contents(), LookupTask(agent, id)).1
    {
      var key := TaskKey(agent, id);
      if key !in inmemory {
        return Found(None);
      }
      match inmemory[key] {
        case OwnerCell(p) => return Found(Some(p));
        case _ => return Panic;
      }
    }

    method DeleteTaskRecord(agent: string, id: string)
      modifies this
      ensures Contents() == Step(old(Contents()), DeleteTask(agent, id)).0
    {
      inmemory := inmemory - {TaskKey(agent, id)};
    }
  }

  /** Whether the token stored for the server, if there is one, has expired. */
  function TokenExpired(c: Flat, session: string, server: string, expired: string -> bool): bool {
    && session in c && c[session].Session? && TokenField(server) in c[session].fields
    && expired(c[session].fields[TokenField(server)])
  }

  function Deletes(keys: seq<string>): (r: seq<Op>)
    ensures |r| == |keys| && forall i :: 0 <= i < |keys| ==> r[i] == DeleteSession(keys[i])
  {
    seq(|keys|, i requires 0 <= i < |keys| => DeleteSession(keys[i]))
  }
}
