/** The guard of storeIfCurrent and failCardValidation in internal/a2a/manager.go: what a fetch was
    made with, against what the configuration asks for when it ends. */
module FetchInputs {

  import opened Text
  import opened Config
  import opened CardCache
  import V = Validation

  const NUL := '\0'

  // ---- the effective card URL ----

  /** u is the override, or else the base URL without its trailing slashes and then the well-known path. */
  predicate IsCardURL(a: A2AAgent, u: string) {
    if a.agentCardURL != "" then u == a.agentCardURL
    else exists n :: 0 <= n <= |a.url| && StripsAt(a.url, n) && u == a.url[..n] + "/.well-known/agent-card.json"
  }

  /** All slashes from n on, and none just before. */
  predicate StripsAt(url: string, n: nat)
    requires n <= |url|
  {
    (n == 0 || url[n - 1] != '/') && forall i :: n <= i < |url| ==> url[i] == '/'
  }

  lemma CardURLMeans(a: A2AAgent, u: string)
    ensures IsCardURL(a, u) <==> u == CardURL(a)
  {
    if a.agentCardURL == "" {
      var n := |V.TrimRight(a.url, '/')|;
      assert StripsAt(a.url, n) && a.url[..n] == V.TrimRight(a.url, '/');
      assert forall m :: 0 <= m <= |a.url| && StripsAt(a.url, m) ==> m == n;
    }
  }

  lemma CardURLIsNotEmpty(a: A2AAgent)
    ensures CardURL(a) != ""
  {
    assert WELL_KNOWN[0] == '/';
  }

  // ---- what a fingerprint tells apart ----

  /** The inputs that shape a card fetch agree. */
  ghost predicate SameInputs(a: A2AAgent, b: A2AAgent) {
    (exists u :: IsCardURL(a, u) && IsCardURL(b, u)) && a.credential == b.credential && a.caCert == b.caCert
  }

  lemma SameInputsMeans(a: A2AAgent, b: A2AAgent)
    ensures SameInputs(a, b) <==> CardURL(a) == CardURL(b) && a.credential == b.credential && a.caCert == b.caCert
  {
    CardURLMeans(a, CardURL(a));
    CardURLMeans(b, CardURL(a));
    if u :| IsCardURL(a, u) && IsCardURL(b, u) {
      CardURLMeans(a, u);
      CardURLMeans(b, u);
    }
  }

  function Joined(u: string, c: string, k: string): string {
    u + [NUL] + c + [NUL] + k
  }

  /** No separator inside the parts, but for the first character of the URL, which is never empty. */
  predicate Separable(u: string, c: string, k: string) {
    (forall i :: 0 < i < |u| ==> u[i] != NUL) && NUL !in c && NUL !in k
  }

  lemma NoOtherNul(u: string, c: string, k: string, i: nat)
    requires Separable(u, c, k) && 0 < i < |Joined(u, c, k)| && i != |u| && i != |u| + 1 + |c|
    ensures Joined(u, c, k)[i] != NUL
  {
    var s := Joined(u, c, k);
    if i < |u| {
      assert s[i] == u[i];
    } else if i < |u| + 1 + |c| {
      assert s[i] == c[i - |u| - 1];
    } else {
      assert s[i] == k[i - |u| - |c| - 2];
    }
  }

  lemma JoinedApart(u: string, c: string, k: string, u': string, c': string, k': string)
    requires Separable(u, c, k) && u != "" && u' != "" && Joined(u, c, k) == Joined(u', c', k')
    ensures u == u' && c == c' && k == k'
  {
    var s, t := Joined(u, c, k), Joined(u', c', k');
    assert t[|u'|] == NUL && t[|u'| + 1 + |c'|] == NUL;
    assert |u'| in {|u|, |u| + 1 + |c|} && |u'| + 1 + |c'| in {|u|, |u| + 1 + |c|} by {
      forall i | 0 < i < |s| && i != |u| && i != |u| + 1 + |c|
        ensures s[i] != NUL
      {
        NoOtherNul(u, c, k, i);
      }
    }
    assert u == s[..|u|] && c == s[|u| + 1..|u| + 1 + |c|] && k == s[|u| + |c| + 2..];
    assert u' == t[..|u'|] && c' == t[|u'| + 1..|u'| + 1 + |c'|] && k' == t[|u'| + |c'| + 2..];
  }

  /** Moving a separator gives other parts of the same whole. */
  lemma JoinedAgain(u: string, c: string, k: string)
    requires u != "" && !Separable(u, c, k)
    ensures exists u', c', k' :: u' != "" && (u', c', k') != (u, c, k) && Joined(u', c', k') == Joined(u, c, k)
  {
    if i :| 0 < i < |u| && u[i] == NUL {
      assert u == u[..i] + [NUL] + u[i + 1..];
      assert Joined(u[..i], u[i + 1..], c + [NUL] + k) == Joined(u, c, k);
    } else if NUL in c {
      var i :| 0 <= i < |c| && c[i] == NUL;
      assert c == c[..i] + [NUL] + c[i + 1..];
      assert Joined(u, c[..i], c[i + 1..] + [NUL] + k) == Joined(u, c, k);
    } else {
      var i :| 0 <= i < |k| && k[i] == NUL;
      assert k == k[..i] + [NUL] + k[i + 1..];
      assert Joined(u, c + [NUL] + k[..i], k[i + 1..]) == Joined(u, c, k);
    }
  }

  /** The agent's URL, past its first character, credential and CA are free of the separator. */
  predicate Clear(a: A2AAgent) {
    Separable(CardURL(a), a.credential, a.caCert)
  }

  lemma FingerprintIsJoined(a: A2AAgent)
    ensures Fingerprint(a) == Joined(CardURL(a), a.credential, a.caCert)
  {
  }

  /** Equal inputs always give equal fingerprints. Conversely, an agent's fingerprint stands for its
      effective URL, credential and CA alone exactly when none of them has a NUL where a separator
      could be. */
  lemma FingerprintIdentifiesIff(a: A2AAgent)
    ensures forall b :: SameInputs(a, b) ==> Fingerprint(a) == Fingerprint(b)
    ensures (forall b :: Fingerprint(a) == Fingerprint(b) ==> SameInputs(a, b)) <==> Clear(a)
  {
    forall b
      ensures SameInputs(a, b) ==> Fingerprint(a) == Fingerprint(b)
    {
      SameInputsMeans(a, b);
    }
    if Clear(a) {
      forall b | Fingerprint(a) == Fingerprint(b)
        ensures SameInputs(a, b)
      {
        ClearIsIdentified(a, b);
      }
    } else {
      CardURLIsNotEmpty(a);
      JoinedAgain(CardURL(a), a.credential, a.caCert);
      var u, c, k :| u != "" && (u, c, k) != (CardURL(a), a.credential, a.caCert)
                     && Joined(u, c, k) == Joined(CardURL(a), a.credential, a.caCert);
      var b := a.(agentCardURL := u, credential := c, caCert := k);
      FingerprintIsJoined(a);
      FingerprintIsJoined(b);
      SameInputsMeans(a, b);
      assert Fingerprint(a) == Fingerprint(b) && !SameInputs(a, b);
    }
  }

  lemma ClearIsIdentified(a: A2AAgent, b: A2AAgent)
    requires Clear(a) && Fingerprint(a) == Fingerprint(b)
    ensures SameInputs(a, b)
  {
    FingerprintIsJoined(a);
    FingerprintIsJoined(b);
    CardURLIsNotEmpty(a);
    CardURLIsNotEmpty(b);
    JoinedApart(CardURL(a), a.credential, a.caCert, CardURL(b), b.credential, b.caCert);
    SameInputsMeans(a, b);
  }

  // ---- the guard ----

  /** The configuration still asks for what the fetch was made with. */
  ghost predicate Asked(b: Broker, key: string, agent: A2AAgent, ca: string, host: string) {
    && key in b.agents && SameInputs(agent, b.agents[key])
    && b.caCertPEM == ca && b.externalHost == host
  }

  /** A fetch may commit whenever the configuration still asks for its URL, credential, CAs and host,
      and only then, if the fetched or the registered agent is free of NULs. */
  lemma StillCurrentIff(b: Broker, f: Fetch)
    ensures Asked(b, f.namespace + "/" + f.prefix, f.agent, f.gwCA, f.host) ==> StillCurrent(b, f)
    ensures Clear(f.agent) || (KeyOf(f) in b.agents && Clear(b.agents[KeyOf(f)])) ==>
              (StillCurrent(b, f) <==> Asked(b, f.namespace + "/" + f.prefix, f.agent, f.gwCA, f.host))
    ensures StillCurrent(b, f) ==> KeyOf(f) in b.agents && b.caCertPEM == f.gwCA && b.externalHost == f.host
  {
    if KeyOf(f) in b.agents {
      FingerprintIdentifiesIff(f.agent);
      FingerprintIdentifiesIff(b.agents[KeyOf(f)]);
      SameInputsMeans(f.agent, b.agents[KeyOf(f)]);
      SameInputsMeans(b.agents[KeyOf(f)], f.agent);
    }
  }

  // ---- whole runs ----

  /** The i-th step began this fetch, and took the trust settings of that moment along. */
  ghost predicate BegunAt(lib: Library, s0: System, es: seq<Event>, fid: nat, f: Fetch, i: int) {
    && 0 <= i < |es| && es[i] == Begin(fid, f.namespace, f.prefix, f.agent)
    && var b := Exec(lib, s0, es[..i]).broker; f.gwCA == b.caCertPEM && f.host == b.externalHost
  }

  ghost predicate Begun(lib: Library, s0: System, es: seq<Event>, fid: nat, f: Fetch) {
    exists i :: BegunAt(lib, s0, es, fid, f, i)
  }

  lemma BegunGrows(lib: Library, s0: System, es: seq<Event>, e: Event, fid: nat, f: Fetch, g: Fetch)
    requires Begun(lib, s0, es, fid, f) && g == f.(prev := g.prev)
    ensures Begun(lib, s0, es + [e], fid, g)
  {
    var i :| BegunAt(lib, s0, es, fid, f, i);
    assert (es + [e])[..i] == es[..i];
    assert BegunAt(lib, s0, es + [e], fid, g, i);
  }

  lemma {:induction false} FetchesWereBegun(lib: Library, host: string, ca: string, es: seq<Event>, fid: nat)
    requires fid in Exec(lib, Initial(host, ca), es).fetches
    ensures Begun(lib, Initial(host, ca), es, fid, Exec(lib, Initial(host, ca), es).fetches[fid])
    decreases |es|
  {
    if es != [] {
      var s0, init, e := Initial(host, ca), es[..|es| - 1], es[|es| - 1];
      assert es == init + [e];
      var s, t := Exec(lib, s0, init), Exec(lib, s0, es);
      if fid in s.fetches {
        FetchesWereBegun(lib, host, ca, init, fid);
        BegunGrows(lib, s0, init, e, fid, s.fetches[fid], t.fetches[fid]);
      } else {
        assert BegunAt(lib, s0, es, fid, t.fetches[fid], |init|);
      }
    }
  }

  /** The card or the rejection of key differs. */
  predicate Touched(a: Broker, b: Broker, key: string) {
    || Get(a.cards, key) != Get(b.cards, key)
    || (key in a.invalid) != (key in b.invalid)
    || (key in a.invalid && key in b.invalid && a.invalid[key] != b.invalid[key])
  }

  /** The i-th step began fetch fid for key, under the CA bundle and host that are in force after the
      run, and with the effective URL, credential and CA of the agent then registered, unless both
      agents have NULs in them. */
  ghost predicate MadeFor(lib: Library, s0: System, es: seq<Event>, i: int, fid: nat, key: string) {
    && 0 <= i < |es| && es[i].Begin? && es[i].fid == fid && es[i].namespace + "/" + es[i].prefix == key
    && var then_, now := Exec(lib, s0, es[..i]).broker, Exec(lib, s0, es).broker;
       && key in now.agents && then_.caCertPEM == now.caCertPEM && then_.externalHost == now.externalHost
       && (Clear(es[i].agent) || Clear(now.agents[key]) ==> SameInputs(es[i].agent, now.agents[key]))
  }

  /** In every run: a fetch whose end changes a key's card or rejection was made for that key with what
      the configuration asks for at that moment. */
  lemma CommitsMatchTheConfiguration(lib: Library, host: string, ca: string, es: seq<Event>, fid: nat, resp: Response, now: int, key: string)
    requires var s := Exec(lib, Initial(host, ca), es); Touched(s.broker, Apply(lib, s, Complete(fid, resp, now)).broker, key)
    ensures exists i :: MadeFor(lib, Initial(host, ca), es, i, fid, key)
  {
    var s0, s := Initial(host, ca), Exec(lib, Initial(host, ca), es);
    TouchedByItsOwn(lib, s, fid, resp, now, key);
    var f := s.fetches[fid];
    FetchesWereBegun(lib, host, ca, es, fid);
    var i :| BegunAt(lib, s0, es, fid, f, i);
    StillCurrentIff(s.broker, f);
    assert MadeFor(lib, s0, es, i, fid, key);
  }

  lemma TouchedByItsOwn(lib: Library, s: System, fid: nat, resp: Response, now: int, key: string)
    requires Touched(s.broker, Apply(lib, s, Complete(fid, resp, now)).broker, key)
    ensures fid in s.fetches && KeyOf(s.fetches[fid]) == key && StillCurrent(s.broker, s.fetches[fid])
  {
  }
}
