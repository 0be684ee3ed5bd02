/** internal/a2a/broker.go and manager.go as a concurrent protocol: card fetches run without the
    broker lock and commit through a fingerprint check; configuration reloads swap the agent index
    under the lock and evict cards after releasing it, and may overlap. */
module CardCache {

  import opened Text
  import opened Config
  import V = Validation

  const WELL_KNOWN := "/.well-known/agent-card.json"
  const MAX_CARD_BYTES := 1048576

  datatype CardEntry = CardEntry(raw: Bytes, etag: string, lastModified: string, sha256: string, fetchedAt: int)

  /** What the broker's mutex and the card store's mutex protect. */
  datatype Broker = Broker(
    agents: map<string, A2AAgent>,
    invalid: map<string, V.Reason>,
    cards: map<string, CardEntry>,
    externalHost: string,
    caCertPEM: string)

  datatype Library = Library(codec: V.Codec, sha256: Bytes -> string)

  // ---- pure helpers of the source ----

  function Key(namespace: string, prefix: string): string {
    namespace + "/" + prefix
  }

  function PathKey(a: A2AAgent): string {
    Key(Cut(a.name, '/').before, a.agentPrefix)
  }

  predicate Enabled(a: A2AAgent) {
    a.state == "" || a.state == "Enabled"
  }

  function CardURL(a: A2AAgent): string {
    if a.agentCardURL != "" then a.agentCardURL else V.TrimRight(a.url, '/') + WELL_KNOWN
  }

  function Fingerprint(a: A2AAgent): string {
    CardURL(a) + "\0" + a.credential + "\0" + a.caCert
  }

  /** The index SetAgents builds: enabled agents by path key, a later one replacing an earlier. */
  function Index(agents: seq<A2AAgent>): map<string, A2AAgent> {
    if agents == [] then map[]
    else
      var last := agents[|agents| - 1];
      var init := Index(agents[..|agents| - 1]);
      if Enabled(last) then init[PathKey(last) := last] else init
  }

  /** The i-th agent is enabled, has this key, and is the last such. */
  ghost predicate LastUnder(agents: seq<A2AAgent>, key: string, i: int) {
    && 0 <= i < |agents| && agents[i].state in {"", "Enabled"} && PathKey(agents[i]) == key
    && forall j :: i < j < |agents| && PathKey(agents[j]) == key ==> agents[j].state !in {"", "Enabled"}
  }

  /** The index has exactly the keys of enabled agents, each with the last of them. */
  lemma {:induction false} IndexMeans(agents: seq<A2AAgent>, key: string)
    ensures key in Index(agents) <==> exists i :: LastUnder(agents, key, i)
    ensures key in Index(agents) ==> exists i :: LastUnder(agents, key, i) && Index(agents)[key] == agents[i]
    decreases |agents|
  {
    if agents != [] {
      var init, n := agents[..|agents| - 1], |agents| - 1;
      IndexMeans(init, key);
      if PathKey(agents[n]) == key && Enabled(agents[n]) {
        assert LastUnder(agents, key, n);
      } else {
        forall i
          ensures LastUnder(agents, key, i) <==> LastUnder(init, key, i)
        {
          LastUnderInit(agents, key, i);
        }
      }
    }
  }

  lemma LastUnderInit(agents: seq<A2AAgent>, key: string, i: int)
    requires agents != [] && !(PathKey(agents[|agents| - 1]) == key && Enabled(agents[|agents| - 1]))
    ensures LastUnder(agents, key, i) <==> LastUnder(agents[..|agents| - 1], key, i)
  {
    var init, n := agents[..|agents| - 1], |agents| - 1;
    assert forall j :: 0 <= j < n ==> init[j] == agents[j];
  }

  /** With distinct path keys the index loses nobody and the order of the configuration is
      immaterial: each enabled agent is found under its own key. */
  lemma {:induction false} IndexFindsEveryAgent(agents: seq<A2AAgent>, i: nat)
    requires i < |agents| && Enabled(agents[i])
    requires forall j :: 0 <= j < |agents| && j != i && Enabled(agents[j]) ==> PathKey(agents[j]) != PathKey(agents[i])
    ensures PathKey(agents[i]) in Index(agents) && Index(agents)[PathKey(agents[i])] == agents[i]
    decreases |agents|
  {
    if i < |agents| - 1 {
      IndexFindsEveryAgent(agents[..|agents| - 1], i);
    }
  }

  // ---- critical sections ----

  /** A card fetch: what it snapshotted, and the cached entry it revalidates once it has read it. */
  datatype Fetch = Fetch(namespace: string, prefix: string, agent: A2AAgent, gwCA: string, host: string, prev: Prev)

  datatype Prev = Unread | Read(entry: Option<CardEntry>)

  datatype Response =
    | NotModified
    | OK(body: Bytes, etag: string, lastModified: string)
    | Failed  // no response, an unreadable body, or any other status

  function KeyOf(f: Fetch): string {
    Key(f.namespace, f.prefix)
  }

  predicate StillCurrent(b: Broker, f: Fetch) {
    && KeyOf(f) in b.agents
    && Fingerprint(b.agents[KeyOf(f)]) == Fingerprint(f.agent)
    && b.caCertPEM == f.gwCA
    && b.externalHost == f.host
  }

  function StoreIfCurrent(b: Broker, f: Fetch, entry: CardEntry): Broker {
    if !StillCurrent(b, f) then b
    else b.(invalid := b.invalid - {KeyOf(f)}, cards := b.cards[KeyOf(f) := entry])
  }

  function FailValidation(b: Broker, f: Fetch, reason: V.Reason): Broker {
    if !StillCurrent(b, f) then b
    else b.(invalid := b.invalid[KeyOf(f) := reason], cards := b.cards - {KeyOf(f)})
  }

  /** What refreshCard wants done with a response. */
  datatype Outcome = KeepStale | Store(entry: CardEntry) | Reject(reason: V.Reason)

  function Decide(lib: Library, f: Fetch, prev: Option<CardEntry>, resp: Response, now: int): Outcome {
    match resp
    case Failed => KeepStale
    case NotModified =>
      if prev.None? then KeepStale else Store(prev.value.(fetchedAt := now))
    case OK(body, etag, lastModified) =>
      if |body| > MAX_CARD_BYTES then KeepStale
      else if prev.Some? && lib.sha256(body) == prev.value.sha256 then
        Store(prev.value.(fetchedAt := now, etag := etag, lastModified := lastModified))
      else
        match V.CardReason(lib.codec, body, f.host, V.A2A + f.namespace + "/" + f.prefix)
        case Some(reason) => Reject(reason)
        case None => Store(CardEntry(body, etag, lastModified, lib.sha256(body), now))
  }

  function Commit(b: Broker, f: Fetch, o: Outcome): Broker {
    match o
    case KeepStale => b
    case Store(entry) => StoreIfCurrent(b, f, entry)
    case Reject(reason) => FailValidation(b, f, reason)
  }

  function SwapIndex(b: Broker, next: map<string, A2AAgent>): Broker {
    b.(agents := next, invalid := map k | k in b.invalid && k in next :: b.invalid[k])
  }

  // ---- the protocol ----

  /** A SetAgents call that has swapped the index: the cards it still has to delete, once it has
      listed the store. */
  datatype Reload = Reload(next: map<string, A2AAgent>, pending: Pending)

  datatype Pending = Unlisted | Listed(keys: set<string>)

  datatype System = System(
    broker: Broker,
    fetches: map<nat, Fetch>,
    reloads: map<nat, Reload>,
    latest: Option<nat>  // the reload of the latest swap, while it is running
  )

  datatype Event =
    | SetTrust(host: string, ca: string)
    | Swap(rid: nat, agents: seq<A2AAgent>)
    | ListCards(rid: nat)
    | Evict(rid: nat, key: string)
    | EndReload(rid: nat)
    | Begin(fid: nat, namespace: string, prefix: string, agent: A2AAgent)
    | ReadPrev(fid: nat)
    | Complete(fid: nat, resp: Response, now: int)

  function Initial(host: string, ca: string): System {
    System(Broker(map[], map[], map[], host, ca), map[], map[], None)
  }

  function Get(cards: map<string, CardEntry>, key: string): Option<CardEntry> {
    if key in cards then Some(cards[key]) else None
  }

  /** One atomic step; a step that is not possible changes nothing. */
  function Apply(lib: Library, s: System, e: Event): System {
    var b := s.broker;
    match e
    case SetTrust(host, ca) =>
      s.(broker := b.(externalHost := host, caCertPEM := ca))
    case Swap(rid, agents) =>
      if rid in s.reloads then s
      else s.(broker := SwapIndex(b, Index(agents)), reloads := s.reloads[rid := Reload(Index(agents), Unlisted)], latest := Some(rid))
    case ListCards(rid) =>
      if rid !in s.reloads || s.reloads[rid].pending.Listed? then s
      else
        var stale := b.cards.Keys - s.reloads[rid].next.Keys;
        s.(reloads := s.reloads[rid := s.reloads[rid].(pending := Listed(stale))])
    case Evict(rid, key) =>
      if rid !in s.reloads || s.reloads[rid].pending.Unlisted? || key !in s.reloads[rid].pending.keys then s
      else
        s.(broker := b.(cards := b.cards - {key}),
           reloads := s.reloads[rid := s.reloads[rid].(pending := Listed(s.reloads[rid].pending.keys - {key}))])
    case EndReload(rid) =>
      if rid !in s.reloads || s.reloads[rid].pending != Listed({}) then s
      else s.(reloads := s.reloads - {rid}, latest := if s.latest == Some(rid) then None else s.latest)
    case Begin(fid, namespace, prefix, agent) =>
      if fid in s.fetches then s
      else s.(fetches := s.fetches[fid := Fetch(namespace, prefix, agent, b.caCertPEM, b.externalHost, Unread)])
    case ReadPrev(fid) =>
      if fid !in s.fetches || s.fetches[fid].prev.Read? then s
      else s.(fetches := s.fetches[fid := s.fetches[fid].(prev := Read(Get(b.cards, KeyOf(s.fetches[fid]))))])
    case Complete(fid, resp, now) =>
      if fid !in s.fetches || s.fetches[fid].prev.Unread? then s
      else
        var f := s.fetches[fid];
        s.(broker := Commit(b, f, Decide(lib, f, f.prev.entry, resp, now)), fetches := s.fetches - {fid})
  }

  /** The state after a run, steps applied in order. */
  function Exec(lib: Library, s: System, es: seq<Event>): System {
    if es == [] then s else Apply(lib, Exec(lib, s, es[..|es| - 1]), es[|es| - 1])
  }

  // ---- what every reachable state satisfies ----

  /** No agent is both rejected and cached, and only registered agents are rejected. */
  ghost predicate Sound(b: Broker) {
    && (forall k :: k in b.invalid ==> k !in b.cards)
    && (forall k :: k in b.invalid ==> k in b.agents)
  }

  /** The eviction of key by the latest swap is still to come. */
  predicate Awaited(s: System, key: string) {
    && s.latest.Some? && s.latest.value in s.reloads
    && (var p := s.reloads[s.latest.value].pending; p.Unlisted? || key in p.keys)
  }

  /** An unregistered card is cached only while the latest swap still has its eviction pending, and
      the latest swap evicts no registered agent's card. */
  ghost predicate Evicting(s: System) {
    && (forall k :: k in s.broker.cards && k !in s.broker.agents ==> Awaited(s, k))
    && (s.latest.Some? ==>
          && s.latest.value in s.reloads
          && s.reloads[s.latest.value].next == s.broker.agents
          && (s.reloads[s.latest.value].pending.Listed? ==> s.reloads[s.latest.value].pending.keys !! s.broker.agents.Keys))
  }

  ghost predicate Hashed(lib: Library, s: System) {
    && (forall k :: k in s.broker.cards ==> s.broker.cards[k].sha256 == lib.sha256(s.broker.cards[k].raw))
    && (forall i :: i in s.fetches && s.fetches[i].prev.Read? && s.fetches[i].prev.entry.Some? ==>
          s.fetches[i].prev.entry.value.sha256 == lib.sha256(s.fetches[i].prev.entry.value.raw))
  }

  ghost predicate Inv(lib: Library, s: System) {
    Sound(s.broker) && Evicting(s) && Hashed(lib, s)
  }

  lemma ApplyKeepsInv(lib: Library, s: System, e: Event)
    requires Inv(lib, s)
    ensures Inv(lib, Apply(lib, s, e))
  {
    ApplyKeepsSound(lib, s, e);
    ApplyKeepsEvicting(lib, s, e);
    ApplyKeepsHashed(lib, s, e);
  }

  lemma ApplyKeepsSound(lib: Library, s: System, e: Event)
    requires Inv(lib, s)
    ensures Sound(Apply(lib, s, e).broker)
  {
  }

  lemma ApplyKeepsEvicting(lib: Library, s: System, e: Event)
    requires Inv(lib, s)
    ensures Evicting(Apply(lib, s, e))
  {
  }

  lemma ApplyKeepsHashed(lib: Library, s: System, e: Event)
    requires Inv(lib, s)
    ensures Hashed(lib, Apply(lib, s, e))
  {
  }

  /** In every interleaving of reloads, trust changes and overlapping fetches: nothing is both
      rejected and cached, only registered agents are rejected, an unregistered card is cached only
      while the latest swap is about to evict it, and every card carries its own hash. */
  lemma {:induction false} Safety(lib: Library, host: string, ca: string, es: seq<Event>)
    ensures Inv(lib, Exec(lib, Initial(host, ca), es))
    decreases |es|
  {
    if es != [] {
      Safety(lib, host, ca, es[..|es| - 1]);
      ApplyKeepsInv(lib, Exec(lib, Initial(host, ca), es[..|es| - 1]), es[|es| - 1]);
    }
  }

  /** With no reload running, every cached card belongs to a registered agent. */
  lemma QuiescentCardsAreRegistered(lib: Library, host: string, ca: string, es: seq<Event>)
    ensures var s := Exec(lib, Initial(host, ca), es);
            s.reloads == map[] ==> s.broker.cards.Keys <= s.broker.agents.Keys
  {
    Safety(lib, host, ca, es);
  }

  /** No late fetch brings a removed agent's card back: from any state in which key is neither
      registered nor cached, it stays so until a swap registers it again. */
  lemma {:induction false} RemovedStaysRemoved(lib: Library, s: System, es: seq<Event>, key: string)
    requires key !in s.broker.agents && key !in s.broker.cards
    requires forall i :: 0 <= i < |es| && es[i].Swap? ==> key !in Index(es[i].agents)
    ensures var t := Exec(lib, s, es); key !in t.broker.agents && key !in t.broker.cards
    decreases |es|
  {
    if es != [] {
      RemovedStaysRemoved(lib, s, es[..|es| - 1], key);
    }
  }

  /** The exact effect of a commit, on the fetch's own key and on everything else. */
  lemma CommitMeans(lib: Library, b: Broker, f: Fetch, prev: Option<CardEntry>, resp: Response, now: int)
    ensures var o := Decide(lib, f, prev, resp, now); var t := Commit(b, f, o); var k := KeyOf(f);
            && t.agents == b.agents && t.externalHost == b.externalHost && t.caCertPEM == b.caCertPEM
            && t.cards - {k} == b.cards - {k} && t.invalid - {k} == b.invalid - {k}
            && (resp.Failed? || (resp.NotModified? && prev.None?) || (resp.OK? && |resp.body| > MAX_CARD_BYTES) || !StillCurrent(b, f) ==> t == b)
            && (StillCurrent(b, f) && resp.OK? && |resp.body| <= MAX_CARD_BYTES
                && (prev.None? || lib.sha256(resp.body) != prev.value.sha256) ==>
                  if V.Conforms(lib.codec, resp.body, f.host, V.A2A + k)
                  then k !in t.invalid && k in t.cards && t.cards[k].raw == resp.body && t.cards[k].etag == resp.etag
                  else k in t.invalid && k !in t.cards)
            && (StillCurrent(b, f) && resp.OK? && |resp.body| <= MAX_CARD_BYTES && prev.Some? && lib.sha256(resp.body) == prev.value.sha256 ==>
                  && k !in t.invalid && k in t.cards
                  && t.cards[k] == prev.value.(fetchedAt := now, etag := resp.etag, lastModified := resp.lastModified))
            && (StillCurrent(b, f) && resp.NotModified? && prev.Some? ==>
                  k !in t.invalid && k in t.cards && t.cards[k] == prev.value.(fetchedAt := now))
  {
    assert V.A2A + f.namespace + "/" + f.prefix == V.A2A + KeyOf(f);
  }

  // ---- where a cached card comes from ----

  /** The card is cached for a registered agent and conforms under the host of that moment. */
  predicate Vetted(lib: Library, b: Broker, key: string, raw: Bytes) {
    && key in b.cards && b.cards[key].raw == raw && key in b.agents
    && V.Conforms(lib.codec, raw, b.externalHost, V.A2A + key)
  }

  ghost predicate Justified(lib: Library, s0: System, es: seq<Event>, key: string, raw: Bytes) {
    exists i :: 0 <= i <= |es| && Vetted(lib, Exec(lib, s0, es[..i]).broker, key, raw)
  }

  ghost predicate AllJustified(lib: Library, s0: System, es: seq<Event>) {
    var s := Exec(lib, s0, es);
    && (forall k :: k in s.broker.cards ==> Justified(lib, s0, es, k, s.broker.cards[k].raw))
    && (forall i :: i in s.fetches && s.fetches[i].prev.Read? && s.fetches[i].prev.entry.Some? ==>
          Justified(lib, s0, es, KeyOf(s.fetches[i]), s.fetches[i].prev.entry.value.raw))
  }

  lemma JustifiedGrows(lib: Library, s0: System, es: seq<Event>, e: Event, key: string, raw: Bytes)
    requires Justified(lib, s0, es, key, raw)
    ensures Justified(lib, s0, es + [e], key, raw)
  {
    var i :| 0 <= i <= |es| && Vetted(lib, Exec(lib, s0, es[..i]).broker, key, raw);
    assert (es + [e])[..i] == es[..i];
  }

  /** Where the cards of a state come from: the state before, a revalidated entry, or a new body
      that conforms under the current host. */
  lemma CardOrigin(lib: Library, s: System, e: Event, k: string)
    requires k in Apply(lib, s, e).broker.cards
    ensures var t := Apply(lib, s, e); var raw := t.broker.cards[k].raw;
            || (k in s.broker.cards && s.broker.cards[k].raw == raw)
            || (e.Complete? && e.fid in s.fetches && KeyOf(s.fetches[e.fid]) == k && s.fetches[e.fid].prev.Read?
                && s.fetches[e.fid].prev.entry.Some? && s.fetches[e.fid].prev.entry.value.raw == raw)
            || Vetted(lib, t.broker, k, raw)
  {
    if e.Complete? && e.fid in s.fetches {
      var f := s.fetches[e.fid];
      assert V.A2A + f.namespace + "/" + f.prefix == V.A2A + KeyOf(f);
    }
  }

  /** Every cached card, and every entry a fetch holds for revalidation, was at some moment of the
      run cached for its registered agent while conforming under the host then current. */
  lemma {:induction false} Provenance(lib: Library, host: string, ca: string, es: seq<Event>)
    ensures AllJustified(lib, Initial(host, ca), es)
    decreases |es|
  {
    if es != [] {
      var s0, init, e := Initial(host, ca), es[..|es| - 1], es[|es| - 1];
      Provenance(lib, host, ca, init);
      assert es == init + [e];
      var t := Exec(lib, s0, es);
      forall k | k in t.broker.cards
        ensures Justified(lib, s0, es, k, t.broker.cards[k].raw)
      {
        CardStaysJustified(lib, s0, init, e, k);
      }
      forall i | i in t.fetches && t.fetches[i].prev.Read? && t.fetches[i].prev.entry.Some?
        ensures Justified(lib, s0, es, KeyOf(t.fetches[i]), t.fetches[i].prev.entry.value.raw)
      {
        PrevStaysJustified(lib, s0, init, e, i);
      }
    }
  }

  lemma ExecNext(lib: Library, s0: System, es: seq<Event>, e: Event)
    ensures Exec(lib, s0, es + [e]) == Apply(lib, Exec(lib, s0, es), e)
  {
    assert (es + [e])[..|es|] == es;
  }

  lemma ExecTo(lib: Library, s0: System, es: seq<Event>, n: nat)
    requires 0 < n <= |es|
    ensures Exec(lib, s0, es[..n]) == Apply(lib, Exec(lib, s0, es[..n - 1]), es[n - 1])
  {
    assert es[..n][..n - 1] == es[..n - 1];
  }

  lemma CardStaysJustified(lib: Library, s0: System, es: seq<Event>, e: Event, k: string)
    requires AllJustified(lib, s0, es) && k in Exec(lib, s0, es + [e]).broker.cards
    ensures Justified(lib, s0, es + [e], k, Exec(lib, s0, es + [e]).broker.cards[k].raw)
  {
    ExecNext(lib, s0, es, e);
    var s, t := Exec(lib, s0, es), Exec(lib, s0, es + [e]);
    CardOrigin(lib, s, e, k);
    if Vetted(lib, t.broker, k, t.broker.cards[k].raw) {
      assert (es + [e])[..|es + [e]|] == es + [e];
    } else {
      JustifiedGrows(lib, s0, es, e, k, t.broker.cards[k].raw);
    }
  }

  /** A fetch reads its entry out of the cache, and carries it unchanged. */
  lemma PrevStaysJustified(lib: Library, s0: System, es: seq<Event>, e: Event, i: nat)
    requires AllJustified(lib, s0, es)
    requires var t := Exec(lib, s0, es + [e]); i in t.fetches && t.fetches[i].prev.Read? && t.fetches[i].prev.entry.Some?
    ensures var f := Exec(lib, s0, es + [e]).fetches[i]; Justified(lib, s0, es + [e], KeyOf(f), f.prev.entry.value.raw)
  {
    ExecNext(lib, s0, es, e);
    var f := Exec(lib, s0, es + [e]).fetches[i];
    JustifiedGrows(lib, s0, es, e, KeyOf(f), f.prev.entry.value.raw);
  }

  /** Nothing over the size limit is cached or held. */
  ghost predicate Fits(s: System) {
    && (forall k :: k in s.broker.cards ==> |s.broker.cards[k].raw| <= MAX_CARD_BYTES)
    && (forall i :: i in s.fetches && s.fetches[i].prev.Read? && s.fetches[i].prev.entry.Some? ==>
          |s.fetches[i].prev.entry.value.raw| <= MAX_CARD_BYTES)
  }

  lemma FitsStep(lib: Library, s: System, e: Event)
    requires Fits(s)
    ensures Fits(Apply(lib, s, e))
  {
  }

  lemma {:induction false} CardsFit(lib: Library, host: string, ca: string, es: seq<Event>)
    ensures Fits(Exec(lib, Initial(host, ca), es))
    decreases |es|
  {
    if es != [] {
      CardsFit(lib, host, ca, es[..|es| - 1]);
      FitsStep(lib, Exec(lib, Initial(host, ca), es[..|es| - 1]), es[|es| - 1]);
    }
  }

  /** If the gateway host never changes, every cached card conforms under it. */
  lemma FixedHostCardsConform(lib: Library, host: string, ca: string, es: seq<Event>)
    requires forall i :: 0 <= i < |es| && es[i].SetTrust? ==> es[i].host == host
    ensures var b := Exec(lib, Initial(host, ca), es).broker;
            forall k :: k in b.cards ==> V.Conforms(lib.codec, b.cards[k].raw, host, V.A2A + k)
  {
    Provenance(lib, host, ca, es);
    var b := Exec(lib, Initial(host, ca), es).broker;
    forall k | k in b.cards
      ensures V.Conforms(lib.codec, b.cards[k].raw, host, V.A2A + k)
    {
      var i :| 0 <= i <= |es| && Vetted(lib, Exec(lib, Initial(host, ca), es[..i]).broker, k, b.cards[k].raw);
      HostStays(lib, host, ca, es[..i]);
    }
  }

  lemma {:induction false} HostStays(lib: Library, host: string, ca: string, es: seq<Event>)
    requires forall i :: 0 <= i < |es| && es[i].SetTrust? ==> es[i].host == host
    ensures Exec(lib, Initial(host, ca), es).broker.externalHost == host
    decreases |es|
  {
    if es != [] {
      HostStays(lib, host, ca, es[..|es| - 1]);
    }
  }

  // ---- recovery after a rejection ----

  /** No fetch begins for a key that already has one in flight. */
  ghost predicate NonOverlapping(lib: Library, s0: System, es: seq<Event>) {
    forall n :: 0 <= n < |es| && es[n].Begin? ==>
      forall i :: i in Exec(lib, s0, es[..n]).fetches ==>
        KeyOf(Exec(lib, s0, es[..n]).fetches[i]) != Key(es[n].namespace, es[n].prefix)
  }

  /** Nothing is cached for key, and no fetch in flight holds an old card of it. */
  ghost predicate Clean(s: System, key: string) {
    && key !in s.broker.cards
    && forall i :: i in s.fetches && KeyOf(s.fetches[i]) == key && s.fetches[i].prev.Read? ==> s.fetches[i].prev.entry.None?
  }

  ghost predicate Lone(s: System) {
    && OnePerKey(s)
    && (forall k :: k in s.broker.invalid ==> Clean(s, k))
  }

  /** A step that serves key with a new card that conforms. */
  predicate Serves(lib: Library, s: System, e: Event, key: string) {
    && e.Complete? && e.fid in s.fetches && KeyOf(s.fetches[e.fid]) == key
    && e.resp.OK? && V.Conforms(lib.codec, e.resp.body, s.broker.externalHost, V.A2A + key)
  }

  lemma CleanStep(lib: Library, s: System, e: Event, key: string)
    requires Clean(s, key)
    ensures Clean(Apply(lib, s, e), key) || Serves(lib, s, e, key)
  {
    if e.Complete? && e.fid in s.fetches {
      var f := s.fetches[e.fid];
      assert V.A2A + f.namespace + "/" + f.prefix == V.A2A + KeyOf(f);
    }
  }

  ghost predicate OnePerKey(s: System) {
    forall i, j :: i in s.fetches && j in s.fetches && KeyOf(s.fetches[i]) == KeyOf(s.fetches[j]) ==> i == j
  }

  lemma OnePerKeyStep(lib: Library, s: System, e: Event)
    requires OnePerKey(s)
    requires e.Begin? ==> forall i :: i in s.fetches ==> KeyOf(s.fetches[i]) != Key(e.namespace, e.prefix)
    ensures OnePerKey(Apply(lib, s, e))
  {
  }

  /** A key gets rejected by its one fetch, which takes its card along. */
  lemma RejectedIsClean(lib: Library, s: System, e: Event, k: string)
    requires Sound(s.broker) && OnePerKey(s) && k !in s.broker.invalid && k in Apply(lib, s, e).broker.invalid
    ensures Clean(Apply(lib, s, e), k)
  {
  }

  lemma LoneStep(lib: Library, s: System, e: Event)
    requires Sound(s.broker) && Lone(s)
    requires e.Begin? ==> forall i :: i in s.fetches ==> KeyOf(s.fetches[i]) != Key(e.namespace, e.prefix)
    ensures Lone(Apply(lib, s, e))
  {
    OnePerKeyStep(lib, s, e);
    forall k | k in Apply(lib, s, e).broker.invalid
      ensures Clean(Apply(lib, s, e), k)
    {
      RejectedStaysClean(lib, s, e, k);
    }
  }

  lemma RejectedStaysClean(lib: Library, s: System, e: Event, k: string)
    requires Sound(s.broker) && Lone(s) && k in Apply(lib, s, e).broker.invalid
    ensures Clean(Apply(lib, s, e), k)
  {
    if k in s.broker.invalid {
      CleanStep(lib, s, e, k);
    } else {
      RejectedIsClean(lib, s, e, k);
    }
  }

  lemma {:induction false} RunIsLone(lib: Library, host: string, ca: string, es: seq<Event>)
    requires NonOverlapping(lib, Initial(host, ca), es)
    ensures Lone(Exec(lib, Initial(host, ca), es))
    decreases |es|
  {
    if es != [] {
      var init := es[..|es| - 1];
      assert forall n :: 0 <= n <= |init| ==> init[..n] == es[..n];
      RunIsLone(lib, host, ca, init);
      Safety(lib, host, ca, init);
      LoneStep(lib, Exec(lib, Initial(host, ca), init), es[|es| - 1]);
    }
  }

  /** With fetches of a key not overlapping, an agent once rejected is served again only after a 200
      whose body conforms under the host of that moment. */
  lemma {:induction false} RejectedIsServedOnlyByConformingCard(
    lib: Library, host: string, ca: string, es: seq<Event>, i: nat, key: string)
    requires NonOverlapping(lib, Initial(host, ca), es) && i <= |es|
    requires key in Exec(lib, Initial(host, ca), es[..i]).broker.invalid
    requires key in Exec(lib, Initial(host, ca), es).broker.cards
    ensures exists j :: i <= j < |es| && Serves(lib, Exec(lib, Initial(host, ca), es[..j]), es[j], key)
  {
    var s0 := Initial(host, ca);
    assert es[..|es|] == es;
    if forall j :: i <= j < |es| ==> !Serves(lib, Exec(lib, s0, es[..j]), es[j], key) {
      assert forall n :: 0 <= n <= i ==> es[..i][..n] == es[..n];
      RunIsLone(lib, host, ca, es[..i]);
      StaysClean(lib, s0, es, i, |es|, key);
    }
  }

  lemma {:induction false} StaysClean(lib: Library, s0: System, es: seq<Event>, i: nat, n: nat, key: string)
    requires i <= n <= |es| && Clean(Exec(lib, s0, es[..i]), key)
    requires forall j :: i <= j < n ==> !Serves(lib, Exec(lib, s0, es[..j]), es[j], key)
    ensures Clean(Exec(lib, s0, es[..n]), key)
    decreases n
  {
    if i < n {
      StaysClean(lib, s0, es, i, n - 1, key);
      ExecTo(lib, s0, es, n);
      CleanStep(lib, Exec(lib, s0, es[..n - 1]), es[n - 1], key);
    }
  }

  /** With overlap it fails: of two fetches holding the same card, one is told the card no longer
      conforms and rejects it, the other gets a 304 and puts it back. */
  lemma OverlappingFetchRestoresRejectedCard(lib: Library, s: System, i: nat, j: nat, body: Bytes, now: int)
    requires i != j && i in s.fetches && j in s.fetches && KeyOf(s.fetches[i]) == KeyOf(s.fetches[j])
    requires StillCurrent(s.broker, s.fetches[i]) && StillCurrent(s.broker, s.fetches[j])
    requires s.fetches[i].prev == s.fetches[j].prev && s.fetches[i].prev.Read? && s.fetches[i].prev.entry.Some?
    requires |body| <= MAX_CARD_BYTES && lib.sha256(body) != s.fetches[i].prev.entry.value.sha256
    requires !V.Conforms(lib.codec, body, s.broker.externalHost, V.A2A + KeyOf(s.fetches[i]))
    ensures var k := KeyOf(s.fetches[i]);
            var mid := Apply(lib, s, Complete(i, OK(body, "", ""), now));
            var end := Apply(lib, mid, Complete(j, NotModified, now));
            && k in mid.broker.invalid && k !in mid.broker.cards
            && k !in end.broker.invalid && k in end.broker.cards && end.broker.cards[k].raw == s.fetches[i].prev.entry.value.raw
  {
    var f := s.fetches[i];
    assert V.A2A + f.namespace + "/" + f.prefix == V.A2A + KeyOf(f);
  }

  /** A fetch in flight for key holds a card it read before key was rejected. */
  ghost predicate HoldsOldCard(s: System, i: nat, key: string) {
    i in s.fetches && KeyOf(s.fetches[i]) == key && s.fetches[i].prev.Read? && s.fetches[i].prev.entry.Some?
  }

  /** A step that caches key without a new card that conforms. */
  ghost predicate Restores(lib: Library, s: System, e: Event, key: string) {
    key in Apply(lib, s, e).broker.cards && !Serves(lib, s, e, key)
  }

  /** A rejected agent's card can come back in one step, without a conforming new one, exactly when a
      fetch that still holds an old card would still be accepted. */
  lemma NextStepRestoresIff(lib: Library, s: System, key: string)
    requires Sound(s.broker) && key in s.broker.invalid
    ensures (exists e :: Restores(lib, s, e, key)) <==> exists i :: HoldsOldCard(s, i, key) && StillCurrent(s.broker, s.fetches[i])
  {
    if e :| Restores(lib, s, e, key) {
      RestoringStep(lib, s, e, key);
    }
    if i :| HoldsOldCard(s, i, key) && StillCurrent(s.broker, s.fetches[i]) {
      assert Restores(lib, s, Complete(i, NotModified, 0), key);
    }
  }

  lemma RestoringStep(lib: Library, s: System, e: Event, key: string)
    requires Sound(s.broker) && key in s.broker.invalid && Restores(lib, s, e, key)
    ensures exists i :: HoldsOldCard(s, i, key) && StillCurrent(s.broker, s.fetches[i])
  {
    var f := s.fetches[e.fid];
    assert V.A2A + f.namespace + "/" + f.prefix == V.A2A + KeyOf(f);
    assert HoldsOldCard(s, e.fid, key) && StillCurrent(s.broker, s.fetches[e.fid]);
  }

  ghost predicate Unserved(lib: Library, s: System, es: seq<Event>, key: string) {
    forall j :: 0 <= j < |es| ==> !Serves(lib, Exec(lib, s, es[..j]), es[j], key)
  }

  /** Some run from s ends with key cached although no step of it brought a conforming card. */
  ghost predicate Restorable(lib: Library, s: System, key: string) {
    exists es :: key in Exec(lib, s, es).broker.cards && Unserved(lib, s, es, key)
  }

  /** Over whole runs, a rejected agent's old card can come back exactly when some fetch in flight
      still holds one: configuration may return to what that fetch was started under. */
  lemma RestorableIff(lib: Library, s: System, key: string)
    requires Sound(s.broker) && key in s.broker.invalid
    ensures Restorable(lib, s, key) <==> exists i :: HoldsOldCard(s, i, key)
  {
    if es :| key in Exec(lib, s, es).broker.cards && Unserved(lib, s, es, key) {
      assert es[..0] == [] && es[..|es|] == es;
      if forall i :: !HoldsOldCard(s, i, key) {
        CleanWithoutHolder(s, key);
        StaysClean(lib, s, es, 0, |es|, key);
      }
    }
    if i :| HoldsOldCard(s, i, key) {
      ComesBack(lib, s, i, key);
    }
  }

  lemma CleanWithoutHolder(s: System, key: string)
    requires Sound(s.broker) && key in s.broker.invalid && forall i :: !HoldsOldCard(s, i, key)
    ensures Clean(s, key)
  {
    assert forall i :: i in s.fetches ==> !HoldsOldCard(s, i, key);
  }

  /** An agent that lives under key and is fetched with the same inputs as f's. */
  function Stand(f: Fetch): (a: A2AAgent)
    ensures Enabled(a) && PathKey(a) == KeyOf(f) && Fingerprint(a) == Fingerprint(f.agent)
  {
    var c := Cut(KeyOf(f), '/');
    assert c.found by {
      assert KeyOf(f)[|f.namespace|] == '/';
    }
    assert c.before + "/x" == c.before + ['/'] + "x";
    CutJoin(c.before, '/', "x");
    var a := A2AAgent(c.before + "/x", "", "", c.after, None, f.agent.credential, CardURL(f.agent), f.agent.caCert, "");
    assert CardURL(f.agent) != "" by {
      assert |WELL_KNOWN| > 0;
    }
    a
  }

  lemma ComesBack(lib: Library, s: System, i: nat, key: string)
    requires HoldsOldCard(s, i, key) && key in s.broker.invalid
    ensures Restorable(lib, s, key)
  {
    var f := s.fetches[i];
    var rid := FreshReload(s.reloads.Keys);
    var es := [SetTrust(f.host, f.gwCA), Swap(rid, [Stand(f)]), Complete(i, NotModified, 0)];
    var t := Exec(lib, s, es[..2]);
    BackToStart(lib, s, f, rid, es);
    assert es[..3] == es;
    ExecTo(lib, s, es, 3);
    assert key in Exec(lib, s, es).broker.cards && Unserved(lib, s, es, key);
  }

  lemma BackToStart(lib: Library, s: System, f: Fetch, rid: nat, es: seq<Event>)
    requires |es| >= 2 && es[0] == SetTrust(f.host, f.gwCA) && es[1] == Swap(rid, [Stand(f)]) && rid !in s.reloads
    ensures var t := Exec(lib, s, es[..2]); StillCurrent(t.broker, f) && t.fetches == s.fetches
  {
    ExecTo(lib, s, es, 1);
    ExecTo(lib, s, es, 2);
    assert [Stand(f)][..0] == [];
    assert Index([Stand(f)]) == map[KeyOf(f) := Stand(f)];
  }

  lemma FreshReload(used: set<nat>) returns (rid: nat)
    ensures rid !in used
  {
    rid := Above(used);
  }

  lemma Above(used: set<nat>) returns (n: nat)
    ensures forall k :: k in used ==> k < n
  {
    if used == {} {
      n := 0;
    } else {
      var k :| k in used;
      var m := Above(used - {k});
      n := if k < m then m else k + 1;
      assert forall j :: j in used ==> j == k || j in used - {k};
    }
  }

  // ---- which evictions hit a registered agent ----

  /** An eviction removes a registered agent's card iff the key is on the list of the reload that
      runs it, and then that reload is not the latest: a newer swap overtook it. */
  lemma LiveEvictionMeansOvertaken(lib: Library, s: System, rid: nat, key: string)
    requires Inv(lib, s) && key in s.broker.agents && key in s.broker.cards
    ensures var t := Apply(lib, s, Evict(rid, key));
            && (key !in t.broker.cards <==> rid in s.reloads && s.reloads[rid].pending.Listed? && key in s.reloads[rid].pending.keys)
            && (key !in t.broker.cards ==> s.latest != Some(rid))
  {
  }

  /** Reloads one at a time: none swaps the index while another is still running. */
  ghost predicate SerialReloads(lib: Library, s0: System, es: seq<Event>) {
    forall n :: 0 <= n < |es| && es[n].Swap? ==> Exec(lib, s0, es[..n]).reloads == map[]
  }

  lemma LatestStep(lib: Library, s: System, e: Event)
    requires (forall rid :: rid in s.reloads ==> s.latest == Some(rid)) && (e.Swap? ==> s.reloads == map[])
    ensures var t := Apply(lib, s, e); forall rid :: rid in t.reloads ==> t.latest == Some(rid)
  {
  }

  lemma {:induction false} SerialMeansLatest(lib: Library, host: string, ca: string, es: seq<Event>)
    requires SerialReloads(lib, Initial(host, ca), es)
    ensures var s := Exec(lib, Initial(host, ca), es); forall rid :: rid in s.reloads ==> s.latest == Some(rid)
    decreases |es|
  {
    if es != [] {
      var init := es[..|es| - 1];
      assert forall n :: 0 <= n <= |init| ==> init[..n] == es[..n];
      SerialMeansLatest(lib, host, ca, init);
      LatestStep(lib, Exec(lib, Initial(host, ca), init), es[|es| - 1]);
    }
  }

  /** With reloads one at a time, no step of any run evicts a registered agent's card. */
  lemma SerialReloadsKeepLiveCards(lib: Library, host: string, ca: string, es: seq<Event>, j: nat, key: string)
    requires SerialReloads(lib, Initial(host, ca), es) && j < |es| && es[j].Evict?
    requires var b := Exec(lib, Initial(host, ca), es[..j]).broker; key in b.agents && key in b.cards
    ensures key in Apply(lib, Exec(lib, Initial(host, ca), es[..j]), es[j]).broker.cards
  {
    var s := Exec(lib, Initial(host, ca), es[..j]);
    assert forall n :: 0 <= n <= j ==> es[..j][..n] == es[..n];
    Safety(lib, host, ca, es[..j]);
    SerialMeansLatest(lib, host, ca, es[..j]);
    if es[j].key == key {
      LiveEvictionMeansOvertaken(lib, s, es[j].rid, key);
    }
  }

  /** A running reload has key on its list, or will put it there. */
  ghost predicate Doomed(s: System, key: string) {
    exists rid :: rid in s.reloads && DoomedBy(s, rid, key)
  }

  predicate DoomedBy(s: System, rid: nat, key: string)
    requires rid in s.reloads
  {
    var r := s.reloads[rid];
    if r.pending.Listed? then key in r.pending.keys else key !in r.next
  }

  /** A run without further swaps in which an eviction takes key's card. */
  ghost predicate LosesCard(lib: Library, s: System, es: seq<Event>, key: string) {
    && (forall j :: 0 <= j < |es| ==> !es[j].Swap?)
    && exists j :: 0 <= j < |es| && Takes(lib, Exec(lib, s, es[..j]), es[j], key)
  }

  predicate Takes(lib: Library, s: System, e: Event, key: string) {
    e.Evict? && key in s.broker.cards && key !in Apply(lib, s, e).broker.cards
  }

  /** Exactly when a cached card is in danger with no further swap to come: when a running reload that
      does not know the key has listed it or has yet to list the store. */
  lemma CardIsLostIff(lib: Library, s: System, key: string)
    requires key in s.broker.cards
    ensures (exists es :: LosesCard(lib, s, es, key)) <==> Doomed(s, key)
  {
    if es :| LosesCard(lib, s, es, key) {
      LossMeansDoomed(lib, s, es, key);
    }
    if rid :| rid in s.reloads && DoomedBy(s, rid, key) {
      DoomedLoses(lib, s, rid, key);
    }
  }

  lemma LossMeansDoomed(lib: Library, s: System, es: seq<Event>, key: string)
    requires LosesCard(lib, s, es, key)
    ensures Doomed(s, key)
  {
    var j :| 0 <= j < |es| && Takes(lib, Exec(lib, s, es[..j]), es[j], key);
    var t := Exec(lib, s, es[..j]);
    assert DoomedBy(t, es[j].rid, key);
    if !Doomed(s, key) {
      StaysSafe(lib, s, es, j, key);
    }
  }

  lemma DoomedLoses(lib: Library, s: System, rid: nat, key: string)
    requires key in s.broker.cards && rid in s.reloads && DoomedBy(s, rid, key)
    ensures exists es :: LosesCard(lib, s, es, key)
  {
    if s.reloads[rid].pending.Listed? {
      var es := [Evict(rid, key)];
      assert es[..0] == [];
      assert Takes(lib, Exec(lib, s, es[..0]), es[0], key);
      assert LosesCard(lib, s, es, key);
    } else {
      var es := [ListCards(rid), Evict(rid, key)];
      assert es[..1] == [ListCards(rid)] && es[..1][..0] == [];
      assert Takes(lib, Exec(lib, s, es[..1]), es[1], key);
      assert LosesCard(lib, s, es, key);
    }
  }

  lemma SafeStep(lib: Library, s: System, e: Event, key: string)
    requires !Doomed(s, key) && !e.Swap?
    ensures !Doomed(Apply(lib, s, e), key)
  {
    var t := Apply(lib, s, e);
    forall rid | rid in t.reloads
      ensures !DoomedBy(t, rid, key)
    {
      assert rid in s.reloads && !DoomedBy(s, rid, key);
    }
  }

  lemma {:induction false} StaysSafe(lib: Library, s: System, es: seq<Event>, j: nat, key: string)
    requires j <= |es| && !Doomed(s, key) && forall n :: 0 <= n < |es| ==> !es[n].Swap?
    ensures !Doomed(Exec(lib, s, es[..j]), key)
    decreases j
  {
    if j > 0 {
      StaysSafe(lib, s, es, j - 1, key);
      ExecTo(lib, s, es, j);
      SafeStep(lib, Exec(lib, s, es[..j - 1]), es[j - 1], key);
    }
  }

  /** It does happen: a reload that dropped the agent lists its card, the next reload registers the
      agent again, and the first one then deletes the live card. */
  lemma OverlappingReloadsEvictLiveCard(lib: Library, s: System, a: nat, b: nat, agents: seq<A2AAgent>, key: string)
    requires a != b && a !in s.reloads && b !in s.reloads
    requires key in s.broker.cards && key in Index(agents)
    ensures var s1 := Apply(lib, s, Swap(a, []));
            var s2 := Apply(lib, s1, ListCards(a));
            var s3 := Apply(lib, s2, Swap(b, agents));
            var s4 := Apply(lib, s3, Evict(a, key));
            key in s4.broker.agents && key !in s4.broker.cards && s3.broker.cards[key] == s.broker.cards[key]
  {
    var s1 := Apply(lib, s, Swap(a, []));
    assert Index([]) == map[];
    var s2 := Apply(lib, s1, ListCards(a));
    assert key in s2.broker.cards;
    var s3 := Apply(lib, s2, Swap(b, agents));
    assert key in s3.broker.agents && key in s3.broker.cards;
  }
}
