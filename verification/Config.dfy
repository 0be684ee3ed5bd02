/** internal/config/types.go and a2a_types.go: the configured servers and agents. */
module Config {

  import opened Text

  datatype MCPServer = MCPServer(
    name: string, url: string, hostname: string, prefix: string, auth: Option<string>, credential: string,
    caCert: string, state: string, tokenURLElicitation: Option<string>, userSpecificList: bool,
    category: seq<string>, hint: string, tags: seq<string>)

  datatype A2AAgent = A2AAgent(
    name: string, url: string, hostname: string, agentPrefix: string, auth: Option<string>, credential: string,
    agentCardURL: string, caCert: string, state: string)

  function ID(s: MCPServer): string {
    s.name + ":" + s.prefix + ":" + s.hostname
  }

  function NormalizeState(state: string): string {
    if state == "" then "Enabled" else state
  }

  /** The loop of tagsEqual decides equality up to order, counting repetitions. */
  method TagsEqual(a: seq<string>, b: seq<string>) returns (equal: bool)
    ensures equal <==> multiset(a) == multiset(b)
  {
    if |a| != |b| {
      assert |multiset(a)| != |multiset(b)|;
      return false;
    }
    if |a| == 0 {
      return true;
    }
    var counts := CountTags(a);
    equal := Uncount(a, b, counts);
  }

  method CountTags(a: seq<string>) returns (counts: map<string, int>)
    ensures forall t :: Count(counts, t) == multiset(a)[t]
  {
    counts := map[];
    for i := 0 to |a|
      invariant forall t :: Count(counts, t) == multiset(a[..i])[t]
    {
      assert a[..i + 1] == a[..i] + [a[i]];
      counts := counts[a[i] := Count(counts, a[i]) + 1];
    }
    assert a[..|a|] == a;
  }

  /** The second loop: count down, and stop at the first tag that comes too often. */
  method Uncount(a: seq<string>, b: seq<string>, counted: map<string, int>) returns (equal: bool)
    requires |a| == |b| && forall t :: Count(counted, t) == multiset(a)[t]
    ensures equal <==> multiset(a) == multiset(b)
  {
    var counts := counted;
    for i := 0 to |b|
      invariant forall t :: Count(counts, t) + multiset(b[..i])[t] == multiset(a)[t]
      invariant multiset(b[..i]) <= multiset(a)
    {
      assert b[..i + 1] == b[..i] + [b[i]];
      counts := counts[b[i] := Count(counts, b[i]) - 1];
      if counts[b[i]] < 0 {
        assert b == b[..i + 1] + b[i + 1..];
        assert multiset(a)[b[i]] < multiset(b)[b[i]];
        return false;
      }
    }
    assert b[..|b|] == b;
    SameSize(multiset(b), multiset(a));
    return true;
  }

  function Count(counts: map<string, int>, t: string): int {
    if t in counts then counts[t] else 0
  }

  lemma SameSize(m: multiset<string>, n: multiset<string>)
    requires m <= n && |m| == |n|
    ensures m == n
  {
    assert n == m + (n - m);
    assert |n| == |m| + |n - m|;
  }

  predicate ConfigChanged(s: MCPServer, existing: MCPServer) {
    || existing.name != s.name
    || existing.prefix != s.prefix
    || existing.url != s.url
    || existing.hostname != s.hostname
    || existing.credential != s.credential
    || existing.caCert != s.caCert
    || NormalizeState(existing.state) != NormalizeState(s.state)
    || existing.userSpecificList != s.userSpecificList
    || existing.hint != s.hint
    || existing.tokenURLElicitation != s.tokenURLElicitation
    || existing.category != s.category
    || multiset(s.tags) != multiset(existing.tags)
  }

  predicate AgentConfigChanged(a: A2AAgent, existing: A2AAgent) {
    || existing.name != a.name
    || existing.url != a.url
    || existing.hostname != a.hostname
    || existing.agentPrefix != a.agentPrefix
    || existing.credential != a.credential
    || existing.agentCardURL != a.agentCardURL
    || existing.caCert != a.caCert
    || NormalizeState(existing.state) != NormalizeState(a.state)
  }

  /** A state left unset is the same as Enabled. */
  predicate SameState(x: string, y: string) {
    x == y || (x in {"", "Enabled"} && y in {"", "Enabled"})
  }

  /** The same record but for auth, the spelling of the state and the order of the tags. */
  predicate SameServer(s: MCPServer, t: MCPServer) {
    && s.(auth := t.auth, state := t.state, tags := t.tags) == t
    && SameState(s.state, t.state)
    && multiset(s.tags) == multiset(t.tags)
  }

  predicate SameAgent(a: A2AAgent, b: A2AAgent) {
    a.(auth := b.auth, state := b.state) == b && SameState(a.state, b.state)
  }

  /** What counts as a change: any difference in the record except in auth, in Enabled against unset,
      and in the order of the tags. */
  lemma UnchangedMeans(s: MCPServer, t: MCPServer)
    ensures !ConfigChanged(s, t) <==> SameServer(s, t)
  {
  }

  lemma AgentUnchangedMeans(a: A2AAgent, b: A2AAgent)
    ensures !AgentConfigChanged(a, b) <==> SameAgent(a, b)
  {
  }

  /** "Not changed" is an equivalence, and it never confuses two server ids. */
  lemma UnchangedIsEquivalence(r: MCPServer, s: MCPServer, t: MCPServer)
    ensures !ConfigChanged(s, s)
    ensures ConfigChanged(s, t) <==> ConfigChanged(t, s)
    ensures !ConfigChanged(r, s) && !ConfigChanged(s, t) ==> !ConfigChanged(r, t)
    ensures !ConfigChanged(s, t) ==> ID(s) == ID(t)
  {
  }

  lemma IdAt(s: MCPServer, i: nat)
    requires i < |ID(s)| && ':' !in s.name && ':' !in s.prefix && ':' !in s.hostname
    ensures ID(s)[i] == ':' <==> i == |s.name| || i == |s.name| + 1 + |s.prefix|
  {
    var id := ID(s);
    if i < |s.name| {
      assert id[i] == s.name[i];
    } else if |s.name| < i < |s.name| + 1 + |s.prefix| {
      assert id[i] == s.prefix[i - |s.name| - 1];
    } else if |s.name| + 1 + |s.prefix| < i {
      assert id[i] == s.hostname[i - |s.name| - |s.prefix| - 2];
    }
  }

  predicate SameNames(s: MCPServer, t: MCPServer) {
    s.name == t.name && s.prefix == t.prefix && s.hostname == t.hostname
  }

  lemma ColonFreeIdIdentifies(s: MCPServer, t: MCPServer)
    requires ':' !in s.name && ':' !in s.prefix && ':' !in s.hostname && ID(s) == ID(t)
    ensures SameNames(s, t)
  {
    var a, b := |t.name|, |t.name| + 1 + |t.prefix|;
    assert ID(t)[a] == ':' && ID(t)[b] == ':';
    IdAt(s, a);
    IdAt(s, b);
    IdParts(s);
    IdParts(t);
  }

  lemma IdParts(s: MCPServer)
    ensures var id, a := ID(s), |s.name|; var b := a + 1 + |s.prefix|;
            s.name == id[..a] && s.prefix == id[a + 1..b] && s.hostname == id[b + 1..]
  {
  }

  /** A server id stands for one name, prefix and hostname exactly when none of them has a colon in
      it; a hostname with a port does. */
  lemma IdIdentifiesIff(s: MCPServer)
    ensures forall t :: SameNames(s, t) ==> ID(s) == ID(t)
    ensures (forall t :: ID(s) == ID(t) ==> SameNames(s, t)) <==> ':' !in s.name && ':' !in s.prefix && ':' !in s.hostname
  {
    if ':' !in s.name && ':' !in s.prefix && ':' !in s.hostname {
      forall t | ID(s) == ID(t)
        ensures SameNames(s, t)
      {
        ColonFreeIdIdentifies(s, t);
      }
    } else {
      IdIsShared(s);
    }
  }

  /** Four parts can be read as three in three ways. */
  lemma Regrouped(a: string, b: string, c: string, d: string)
    ensures (a + ":" + b) + ":" + c + ":" + d == a + ":" + b + ":" + (c + ":" + d)
    ensures a + ":" + (b + ":" + c) + ":" + d == a + ":" + b + ":" + (c + ":" + d)
  {
  }

  lemma IdIsShared(s: MCPServer)
    requires ':' in s.name || ':' in s.prefix || ':' in s.hostname
    ensures exists t :: ID(s) == ID(t) && !SameNames(s, t)
  {
    if ':' in s.name {
      var c := Cut(s.name, ':');
      Regrouped(c.before, c.after, s.prefix, s.hostname);
      IdsMeet(s, s.(name := c.before, prefix := c.after, hostname := s.prefix + ":" + s.hostname));
    } else if ':' in s.prefix {
      var c := Cut(s.prefix, ':');
      Regrouped(s.name, c.before, c.after, s.hostname);
      IdsMeet(s, s.(prefix := c.before, hostname := c.after + ":" + s.hostname));
    } else {
      var c := Cut(s.hostname, ':');
      Regrouped(s.name, s.prefix, c.before, c.after);
      IdsMeet(s, s.(prefix := s.prefix + ":" + c.before, hostname := c.after));
    }
  }

  lemma IdsMeet(s: MCPServer, t: MCPServer)
    requires s.name + ":" + s.prefix + ":" + s.hostname == t.name + ":" + t.prefix + ":" + t.hostname
    requires |s.name| != |t.name| || |s.prefix| != |t.prefix|
    ensures exists u :: ID(s) == ID(u) && !SameNames(s, u)
  {
    assert ID(s) == ID(t) && !SameNames(s, t);
  }

  /** A server id contains a colon, so it is never the broker's own id. */
  lemma IdIsNotBroker(s: MCPServer)
    ensures ID(s) != "broker"
  {
    assert ID(s)[|s.name|] == ':';
  }
}
