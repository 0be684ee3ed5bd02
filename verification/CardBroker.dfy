/** The broker of internal/a2a/broker.go and manager.go with the store of store.go, in the form the
    source has them: objects whose critical sections carry out the steps of CardCache. */
module CardBroker {

  import opened Text
  import opened Config
  import opened CardCache
  import opened FetchInputs
  import V = Validation

  class MemoryStore {
    var cards: map<string, CardEntry>

    constructor ()
      ensures cards == map[]
    {
      cards := map[];
    }

    method Set(namespace: string, prefix: string, entry: CardEntry)
      modifies this
      ensures cards == old(cards)[Key(namespace, prefix) := entry]
    {
      cards := cards[Key(namespace, prefix) := entry];
    }

    method Delete(namespace: string, prefix: string)
      modifies this
      ensures cards == old(cards) - {Key(namespace, prefix)}
    {
      cards := cards - {Key(namespace, prefix)};
    }
  }

  predicate Refetches(prev: map<string, A2AAgent>, agent: A2AAgent, k: string, cards: map<string, CardEntry>) {
    k !in cards || (k in prev && Fingerprint(prev[k]) != Fingerprint(agent))
  }

  class CardBroker {
    const store: MemoryStore
    const lib: Library
    var agents: map<string, A2AAgent>
    var invalid: map<string, V.Reason>
    var externalHost: string
    var caCertPEM: string

    constructor (lib: Library, store: MemoryStore)
      requires store.cards == map[]
      ensures this.lib == lib && this.store == store
      ensures View() == Initial("", "").broker
    {
      this.lib, this.store := lib, store;
      agents, invalid, externalHost, caCertPEM := map[], map[], "", "";
    }

    function View(): Broker
      reads this, store
    {
      Broker(agents, invalid, store.cards, externalHost, caCertPEM)
    }

    /** The first critical section of OnConfigChange. */
    method SetTrust(host: string, ca: string)
      modifies this`externalHost, this`caCertPEM
      ensures View() == old(View()).(externalHost := host, caCertPEM := ca)
    {
      externalHost, caCertPEM := host, ca;
    }

    /** The critical section of SetAgents. */
    method SwapAgents(configured: seq<A2AAgent>) returns (next: map<string, A2AAgent>)
      modifies this`agents, this`invalid
      ensures next == Index(configured)
      ensures View() == SwapIndex(old(View()), next)
    {
      next := map[];
      for i := 0 to |configured|
        invariant next == Index(configured[..i])
      {
        var a := configured[i];
        assert configured[..i + 1][..i] == configured[..i];
        if Enabled(a) {
          next := next[PathKey(a) := a];
        }
      }
      assert configured[..|configured|] == configured;
      agents := next;
      var keys := invalid.Keys;
      while keys != {}
        invariant agents == next && keys <= old(invalid).Keys
        invariant forall k :: k in invalid <==> k in old(invalid) && (k in keys || k in next)
        invariant forall k :: k in invalid ==> invalid[k] == old(invalid)[k]
        decreases keys
      {
        var k :| k in keys;
        if k !in next {
          invalid := invalid - {k};
        }
        keys := keys - {k};
      }
      assert invalid == SwapIndex(old(View()), next).invalid;
    }

    /** The store walk after the index was swapped, run without interference. */
    method EvictStaleCards(current: map<string, A2AAgent>)
      requires forall k :: k in store.cards ==> '/' in k
      modifies store
      ensures forall k :: k in store.cards <==> k in old(store.cards) && k in current
      ensures forall k :: k in store.cards ==> store.cards[k] == old(store.cards)[k]
    {
      var keys := store.cards.Keys;
      while keys != {}
        invariant keys <= old(store.cards).Keys
        invariant forall k :: k in store.cards <==> k in old(store.cards) && (k in keys || k in current)
        invariant forall k :: k in store.cards ==> store.cards[k] == old(store.cards)[k]
        decreases keys
      {
        var k :| k in keys;
        if k !in current {
          var c := Cut(k, '/');
          assert Key(c.before, c.after) == k;
          store.Delete(c.before, c.after);
        }
        keys := keys - {k};
      }
    }

    /** The loop of refreshNewCards; its order is up to map iteration. */
    method RefreshNewCards(prev: map<string, A2AAgent>, current: map<string, A2AAgent>) returns (pending: set<string>)
      requires forall k :: k in current ==> '/' in k
      ensures forall k :: k in pending ==> k in current
      ensures forall k :: k in current && k !in store.cards ==> k in pending
      ensures forall k :: k in pending && k in store.cards ==> k in prev && !SameInputs(prev[k], current[k])
      ensures forall k :: k in current && k in prev && !SameInputs(prev[k], current[k]) && (Clear(prev[k]) || Clear(current[k])) ==> k in pending
    {
      pending := {};
      var keys := current.Keys;
      while keys != {}
        invariant keys <= current.Keys
        invariant forall k :: k in pending <==> k in current && k !in keys && Refetches(prev, current[k], k, store.cards)
        decreases keys
      {
        var k :| k in keys;
        keys := keys - {k};
        var c := Cut(k, '/');
        assert Key(c.before, c.after) == k;
        if Key(c.before, c.after) in store.cards {
          if k !in prev || Fingerprint(prev[k]) == Fingerprint(current[k]) {
            continue;
          }
        }
        pending := pending + {k};
      }
      forall k | k in current && k in prev
        ensures Fingerprint(prev[k]) != Fingerprint(current[k]) ==> !SameInputs(prev[k], current[k])
        ensures !SameInputs(prev[k], current[k]) && (Clear(prev[k]) || Clear(current[k])) ==> Fingerprint(prev[k]) != Fingerprint(current[k])
      {
        FingerprintIdentifiesIff(prev[k]);
        FingerprintIdentifiesIff(current[k]);
        SameInputsMeans(prev[k], current[k]);
        SameInputsMeans(current[k], prev[k]);
      }
    }

    method CommitStore(f: Fetch, entry: CardEntry)
      modifies this`invalid, store
      ensures View() == StoreIfCurrent(old(View()), f, entry)
    {
      if !StillCurrent(View(), f) {
        return;
      }
      invalid := invalid - {KeyOf(f)};
      store.Set(f.namespace, f.prefix, entry);
    }

    method CommitFailure(f: Fetch, reason: V.Reason)
      modifies this`invalid, store
      ensures View() == FailValidation(old(View()), f, reason)
    {
      if !StillCurrent(View(), f) {
        return;
      }
      invalid := invalid[KeyOf(f) := reason];
      store.Delete(f.namespace, f.prefix);
    }

    /** The switch of refreshCard over the response, with the commit it ends in. */
    method FinishRefresh(f: Fetch, prev: Option<CardEntry>, resp: Response, now: int)
      modifies this`invalid, store
      ensures View() == Commit(old(View()), f, Decide(lib, f, prev, resp, now))
    {
      match resp {
        case Failed => return;
        case NotModified =>
          if prev.Some? {
            CommitStore(f, prev.value.(fetchedAt := now));
          }
        case OK(body, etag, lastModified) =>
          if |body| > MAX_CARD_BYTES {
            return;
          }
          var sha := lib.sha256(body);
          if prev.Some? && sha == prev.value.sha256 {
            CommitStore(f, prev.value.(fetchedAt := now, etag := etag, lastModified := lastModified));
            return;
          }
          var reason := V.ValidateCard(lib.codec, body, f.host, f.namespace, f.prefix);
          if reason.Some? {
            CommitFailure(f, reason.value);
          } else {
            CommitStore(f, CardEntry(body, etag, lastModified, sha, now));
          }
      }
    }
  }
}
