/** internal/controller/a2aagentregistration_controller.go: which registration owns an agent prefix,
    and what the reconciler leaves in the gateway configurations, in whatever order it runs. */
module PrefixOwnership {

  import opened Text
  import opened Config
  import CardCache

  /** A registration as the reconciler sees it: whether a cross-namespace route reference is
      permitted, the namespaces whose configuration the route attaches to, and whether it carries the
      reconciler's finalizer. */
  datatype Reg = Reg(namespace: string, name: string, prefix: string, created: int, deleting: bool,
                     granted: bool, targets: seq<string>, finalizer: bool)

  /** One agent's entry in the configuration of one namespace; its value is the agent prefix. */
  datatype Slot = Slot(config: string, agent: string)

  type Configs = map<Slot, string>

  function AgentName(r: Reg): string {
    r.namespace + "/" + r.name
  }

  predicate Older(a: Reg, b: Reg) {
    if a.created != b.created then a.created < b.created else Less(a.name, b.name)
  }

  /** registrationOlder is a strict total order on registrations with different names. */
  lemma OlderIsTotalOrder(a: Reg, b: Reg, c: Reg)
    ensures !Older(a, a)
    ensures !(Older(a, b) && Older(b, a))
    ensures a.name != b.name ==> Older(a, b) || Older(b, a)
    ensures Older(a, b) && Older(b, c) ==> Older(a, c)
  {
    LessTotal(a.name, b.name);
    if Less(a.name, b.name) && Less(b.name, c.name) {
      LessTransitive(a.name, b.name, c.name);
    }
  }

  /** Another live registration of r's namespace wants the same prefix. */
  predicate Claims(o: Reg, r: Reg) {
    o.namespace == r.namespace && o.name != r.name && o.prefix == r.prefix && !o.deleting
  }

  /** o holds r's prefix against it: it claims it and was created earlier, or at the same time under
      a smaller name. */
  predicate Beats(o: Reg, r: Reg) {
    Claims(o, r) && (o.created < r.created || (o.created == r.created && Less(o.name, r.name)))
  }

  method OlderPrefixOwner(regs: seq<Reg>, r: Reg) returns (owner: Option<string>)
    ensures owner.Some? <==> exists o :: o in regs && Beats(o, r)
    ensures owner.Some? ==> exists o :: o in regs && Beats(o, r) && o.name == owner.value
  {
    for i := 0 to |regs|
      invariant forall j :: 0 <= j < i ==> !Beats(regs[j], r)
    {
      var other := regs[i];
      if other.namespace != r.namespace {
        continue;  // listed from the registration's own namespace only
      }
      if other.name == r.name || other.prefix != r.prefix {
        continue;
      }
      if other.deleting {
        continue;
      }
      if Older(other, r) {
        assert other in regs && Beats(other, r);
        return Some(other.name);
      }
    }
    return None;
  }

  predicate Withdraws(regs: seq<Reg>, r: Reg) {
    r.deleting || !r.granted || exists o :: o in regs && Beats(o, r)
  }

  function Removed(c: Configs, agent: string): Configs {
    map s | s in c && s.agent != agent :: c[s]
  }

  function Upserted(c: Configs, agent: string, prefix: string, targets: seq<string>): Configs {
    c + map t | t in targets :: Slot(t, agent) := prefix
  }

  lemma UpsertedNext(c: Configs, agent: string, prefix: string, targets: seq<string>, t: string)
    ensures Upserted(c, agent, prefix, targets + [t]) == Upserted(c, agent, prefix, targets)[Slot(t, agent) := prefix]
  {
    assert forall x :: x in targets + [t] <==> x in targets || x == t;
  }

  /** The configuration effect of one error-free Reconcile. */
  function Effect(regs: seq<Reg>, r: Reg, c: Configs): Configs {
    if Withdraws(regs, r) then Removed(c, AgentName(r)) else Upserted(c, AgentName(r), r.prefix, r.targets)
  }

  /** One error-free Reconcile: what becomes of the object, None when its last finalizer went, and of
      the configurations. Deletion cleans up before the finalizer comes off, and nothing is written
      before it is on. */
  function Reconciled(regs: seq<Reg>, r: Reg, c: Configs): (Option<Reg>, Configs) {
    if r.deleting then if r.finalizer then (None, Removed(c, AgentName(r))) else (Some(r), c)
    else if !r.finalizer then (Some(r.(finalizer := true)), c)
    else (Some(r), Effect(regs, r, c))
  }

  class ConfigSecrets {
    var slots: Configs

    /** The order of the checks in Reconcile, with the fan-out over the valid namespaces. */
    method Reconcile(regs: seq<Reg>, r: Reg) returns (after: Option<Reg>)
      modifies this
      ensures (after, slots) == Reconciled(regs, r, old(slots))
    {
      if r.deleting {
        if r.finalizer {
          slots := Removed(slots, AgentName(r));
          return None;
        }
        return Some(r);
      }
      if !r.finalizer {
        return Some(r.(finalizer := true));
      }
      after := Some(r);
      if !r.granted {
        slots := Removed(slots, AgentName(r));
        return;
      }
      var owner := OlderPrefixOwner(regs, r);
      if owner.Some? {
        slots := Removed(slots, AgentName(r));
        return;
      }
      UpsertAll(AgentName(r), r.prefix, r.targets);
    }

    method UpsertAll(agent: string, prefix: string, targets: seq<string>)
      modifies this
      ensures slots == Upserted(old(slots), agent, prefix, targets)
    {
      for i := 0 to |targets|
        invariant slots == Upserted(old(slots), agent, prefix, targets[..i])
      {
        assert targets[..i + 1] == targets[..i] + [targets[i]];
        UpsertedNext(old(slots), agent, prefix, targets[..i], targets[i]);
        slots := slots[Slot(targets[i], agent) := prefix];
      }
      assert targets[..|targets|] == targets;
    }
  }

  // ---- any order of reconciles ----

  function ReconcileAll(regs: seq<Reg>, order: seq<Reg>, c: Configs): Configs {
    if order == [] then c
    else Effect(regs, order[|order| - 1], ReconcileAll(regs, order[..|order| - 1], c))
  }

  function At(c: Configs, s: Slot): Option<string> {
    if s in c then Some(c[s]) else None
  }

  /** What one reconcile leaves in one of the registration's own slots. */
  function Settled(regs: seq<Reg>, r: Reg, config: string, before: Option<string>): Option<string> {
    if Withdraws(regs, r) then None
    else if config in r.targets then Some(r.prefix)
    else before
  }

  /** Registrations have distinct agent names, as the API server's namespace and name give them. */
  ghost predicate Distinct(regs: seq<Reg>) {
    forall a, b :: a in regs && b in regs && AgentName(a) == AgentName(b) ==> a == b
  }

  /** Order independence: whatever the order and however often each is visited, the slots of a
      registration end as one reconcile of it would leave them, and only those are touched. */
  lemma {:induction false} OrderDoesNotMatter(regs: seq<Reg>, order: seq<Reg>, c: Configs, r: Reg, config: string)
    requires Distinct(regs) && r in regs && forall x :: x in order ==> x in regs
    ensures At(ReconcileAll(regs, order, c), Slot(config, AgentName(r)))
         == if r in order then Settled(regs, r, config, At(c, Slot(config, AgentName(r)))) else At(c, Slot(config, AgentName(r)))
    decreases |order|
  {
    if order != [] {
      var init, last := order[..|order| - 1], order[|order| - 1];
      assert order == init + [last];
      OrderDoesNotMatter(regs, init, c, r, config);
      EffectOnSlot(regs, last, ReconcileAll(regs, init, c), r, config);
    }
  }

  lemma EffectOnSlot(regs: seq<Reg>, x: Reg, c: Configs, r: Reg, config: string)
    requires Distinct(regs) && r in regs && x in regs
    ensures At(Effect(regs, x, c), Slot(config, AgentName(r)))
         == if x == r then Settled(regs, r, config, At(c, Slot(config, AgentName(r)))) else At(c, Slot(config, AgentName(r)))
  {
  }

  // ---- whole runs, from empty configurations ----

  /** The cluster: registrations by agent name, the configurations, and the registrations reconciled
      against the current set of registrations since it last changed. */
  datatype Cluster = Cluster(regs: map<string, Reg>, configs: Configs, visited: set<string>)

  const EMPTY := Cluster(map[], map[], {})

  /** What the API server and the rest of the cluster may do between reconciles: routes, listeners and
      grants change at will; the prefix of a registration never does, because its API type makes the
      field immutable. A reconcile may see any listing of the other registrations, current or stale. */
  datatype Event =
    | Create(r: Reg)
    | Change(agent: string, granted: bool, targets: seq<string>)
    | Delete(agent: string)
    | Reconcile(agent: string, listing: seq<Reg>)

  ghost predicate Lists(regs: map<string, Reg>, listing: seq<Reg>) {
    forall r :: r in listing <==> exists a :: a in regs && regs[a] == r
  }

  function WithReg(regs: map<string, Reg>, agent: string, r: Option<Reg>): map<string, Reg> {
    if r.None? then regs - {agent} else regs[agent := r.value]
  }

  ghost function ApplyReconcile(s: Cluster, agent: string, listing: seq<Reg>): Cluster
    requires agent in s.regs
  {
    var r := s.regs[agent];
    var (after, configs) := Reconciled(listing, r, s.configs);
    var settles := !r.deleting && r.finalizer && Lists(s.regs, listing);
    Cluster(WithReg(s.regs, agent, after), configs, if settles then s.visited + {agent} else s.visited - {agent})
  }

  /** One step; a step that is not possible changes nothing. */
  ghost function Apply(s: Cluster, e: Event): Cluster {
    match e
    case Create(r) =>
      if AgentName(r) in s.regs || '/' in r.namespace || r.deleting || r.finalizer then s
      else Cluster(s.regs[AgentName(r) := r], s.configs, {})
    case Change(agent, granted, targets) =>
      if agent !in s.regs then s
      else Cluster(s.regs[agent := s.regs[agent].(granted := granted, targets := targets)], s.configs, {})
    case Delete(agent) =>
      if agent !in s.regs then s
      else if s.regs[agent].finalizer then Cluster(s.regs[agent := s.regs[agent].(deleting := true)], s.configs, {})
      else Cluster(s.regs - {agent}, s.configs, {})
    case Reconcile(agent, listing) =>
      if agent !in s.regs then s else ApplyReconcile(s, agent, listing)
  }

  ghost function Exec(s: Cluster, es: seq<Event>): Cluster {
    if es == [] then s else Apply(Exec(s, es[..|es| - 1]), es[|es| - 1])
  }

  /** Every entry belongs to a registration that still exists, and carries that one's prefix. */
  ghost predicate OwnPrefixes(s: Cluster) {
    && (forall a :: a in s.regs ==> AgentName(s.regs[a]) == a && '/' !in s.regs[a].namespace)
    && (forall e :: e in s.configs ==>
          e.agent in s.regs && s.regs[e.agent].finalizer && s.configs[e] == s.regs[e.agent].prefix)
  }

  /** An older live registration claims the same prefix. */
  ghost predicate Contested(regs: map<string, Reg>, r: Reg) {
    exists a :: a in regs && Beats(regs[a], r)
  }

  /** A visited registration has an entry in every target if its prefix is its own, and none at all
      otherwise. */
  ghost predicate Settles(s: Cluster, agent: string) {
    && agent in s.regs && !s.regs[agent].deleting
    && var r := s.regs[agent];
       if !r.granted || Contested(s.regs, r) then forall e :: e in s.configs ==> e.agent != agent
       else forall t :: t in r.targets ==> Slot(t, agent) in s.configs
  }

  ghost predicate Inv(s: Cluster) {
    OwnPrefixes(s) && forall a :: a in s.visited ==> Settles(s, a)
  }

  lemma ReconcileKeepsOwnPrefixes(s: Cluster, agent: string, listing: seq<Reg>)
    requires OwnPrefixes(s) && agent in s.regs
    ensures OwnPrefixes(ApplyReconcile(s, agent, listing))
  {
  }

  /** The registrations a reconcile leaves behind contest each other as before: it takes away only
      what is being deleted, and that contests nobody. */
  lemma ReconcileKeepsContests(s: Cluster, agent: string, listing: seq<Reg>, r: Reg)
    requires agent in s.regs
    ensures Contested(ApplyReconcile(s, agent, listing).regs, r) <==> Contested(s.regs, r)
  {
    var regs := ApplyReconcile(s, agent, listing).regs;
    forall a
      ensures a in s.regs && Beats(s.regs[a], r) <==> a in regs && Beats(regs[a], r)
    {
    }
  }

  lemma WithdrawsIsContested(regs: map<string, Reg>, listing: seq<Reg>, r: Reg)
    requires Lists(regs, listing) && !r.deleting
    ensures Withdraws(listing, r) <==> !r.granted || Contested(regs, r)
  {
    if o :| o in listing && Beats(o, r) {
      var a :| a in regs && regs[a] == o;
    }
    if a :| a in regs && Beats(regs[a], r) {
      assert regs[a] in listing;
    }
  }

  lemma ReconcileSettles(s: Cluster, agent: string, listing: seq<Reg>)
    requires OwnPrefixes(s) && agent in s.regs && !s.regs[agent].deleting && s.regs[agent].finalizer && Lists(s.regs, listing)
    ensures Settles(ApplyReconcile(s, agent, listing), agent)
  {
    WithdrawsIsContested(s.regs, listing, s.regs[agent]);
    ReconcileKeepsContests(s, agent, listing, s.regs[agent]);
  }

  lemma ReconcileKeepsSettled(s: Cluster, agent: string, listing: seq<Reg>, other: string)
    requires OwnPrefixes(s) && agent in s.regs && Settles(s, other) && other != agent
    ensures Settles(ApplyReconcile(s, agent, listing), other)
  {
    ReconcileKeepsContests(s, agent, listing, s.regs[other]);
  }

  lemma ApplyKeepsInv(s: Cluster, e: Event)
    requires Inv(s)
    ensures Inv(Apply(s, e))
  {
    if e.Reconcile? && e.agent in s.regs {
      ReconcileKeepsOwnPrefixes(s, e.agent, e.listing);
      forall a | a in Apply(s, e).visited
        ensures Settles(Apply(s, e), a)
      {
        if a == e.agent {
          ReconcileSettles(s, a, e.listing);
        } else {
          ReconcileKeepsSettled(s, e.agent, e.listing, a);
        }
      }
    }
  }

  /** In every run, whatever the order of reconciles, the changes between them and the listings they
      saw: every entry carries the prefix of its own, still existing registration, and a registration
      reconciled since the last change has entries in all its targets if no older live one claims its
      prefix, and none otherwise. */
  lemma {:induction false} RunKeepsInv(es: seq<Event>)
    ensures Inv(Exec(EMPTY, es))
  {
    if es != [] {
      RunKeepsInv(es[..|es| - 1]);
      ApplyKeepsInv(Exec(EMPTY, es[..|es| - 1]), es[|es| - 1]);
    }
  }

  /** Two reconciles in a row settle a live registration from any state, the second with a current
      listing: the first may only have put the finalizer on. */
  lemma TwoReconcilesSettle(s: Cluster, agent: string, first: seq<Reg>, second: seq<Reg>)
    requires OwnPrefixes(s) && agent in s.regs && !s.regs[agent].deleting
    requires Lists(Apply(s, Reconcile(agent, first)).regs, second)
    ensures var t := Apply(Apply(s, Reconcile(agent, first)), Reconcile(agent, second)); agent in t.visited && Settles(t, agent)
  {
    var s1 := Apply(s, Reconcile(agent, first));
    ReconcileKeepsOwnPrefixes(s, agent, first);
    ReconcileSettles(s1, agent, second);
  }

  /** A deleted registration is gone after its next reconcile, and all its entries with it. */
  lemma DeletionCompletes(s: Cluster, agent: string, listing: seq<Reg>)
    requires OwnPrefixes(s) && agent in s.regs
    ensures var t := Apply(Apply(s, Delete(agent)), Reconcile(agent, listing));
            agent !in t.regs && forall e :: e in t.configs ==> e.agent != agent
  {
  }

  /** Who has an entry after being visited was created before every other live claimant of its prefix,
      visited or not, or at the same time under a smaller name. */
  lemma HolderIsOldest(es: seq<Event>, r: string, o: string, config: string)
    requires var s := Exec(EMPTY, es); r in s.visited && r in s.regs && o in s.regs && Slot(config, r) in s.configs
    requires var s := Exec(EMPTY, es); r != o && !s.regs[o].deleting
    requires var s := Exec(EMPTY, es); s.regs[o].namespace == s.regs[r].namespace && s.regs[o].prefix == s.regs[r].prefix
    ensures var holder, other := Exec(EMPTY, es).regs[r], Exec(EMPTY, es).regs[o];
            holder.created < other.created || (holder.created == other.created && Less(holder.name, other.name))
  {
    var s := Exec(EMPTY, es);
    RunKeepsInv(es);
    assert Settles(s, r);
    assert !Beats(s.regs[o], s.regs[r]);
    assert s.regs[o].name != s.regs[r].name;
    OlderIsTotalOrder(s.regs[r], s.regs[o], s.regs[o]);
  }

  /** After being visited, a registration has its entry in a target exactly when it is permitted and
      every other live registration of its namespace with its prefix was created later, or at the
      same time under a greater name. */
  lemma HoldsPrefixIff(es: seq<Event>, agent: string, config: string)
    requires var s := Exec(EMPTY, es); agent in s.visited && agent in s.regs && config in s.regs[agent].targets
    ensures var s := Exec(EMPTY, es); var r := s.regs[agent];
            Slot(config, agent) in s.configs <==>
              && r.granted
              && forall a :: a in s.regs && a != agent ==>
                   var o := s.regs[a];
                   o.namespace == r.namespace && o.prefix == r.prefix && !o.deleting ==>
                     r.created < o.created || (r.created == o.created && Less(r.name, o.name))
  {
    var s := Exec(EMPTY, es);
    RunKeepsInv(es);
    assert Settles(s, agent);
    forall a | a in s.regs && a != agent && s.regs[a].namespace == s.regs[agent].namespace
      ensures s.regs[a].name != s.regs[agent].name
      ensures Older(s.regs[agent], s.regs[a]) <==> !Older(s.regs[a], s.regs[agent])
    {
      OlderIsTotalOrder(s.regs[agent], s.regs[a], s.regs[a]);
    }
  }

  /** Convergence: in every run, once two registrations have been visited after the last change, in
      whatever order, their entries in any one configuration have different path keys, so the
      broker's index holds both. */
  lemma Converges(es: seq<Event>, r: string, q: string, config: string)
    requires var s := Exec(EMPTY, es); r in s.visited && q in s.visited && r != q
    ensures var s := Exec(EMPTY, es); var a, b := Slot(config, r), Slot(config, q);
            a in s.configs && b in s.configs ==> PathKeyOf(a, s.configs[a]) != PathKeyOf(b, s.configs[b])
  {
    var s := Exec(EMPTY, es);
    RunKeepsInv(es);
    assert Settles(s, r) && Settles(s, q);
    OlderIsTotalOrder(s.regs[r], s.regs[q], s.regs[r]);
    var a, b := Slot(config, r), Slot(config, q);
    if a in s.configs && b in s.configs && PathKeyOf(a, s.configs[a]) == PathKeyOf(b, s.configs[b]) {
      NamespaceOf(s.regs[r]);
      NamespaceOf(s.regs[q]);
      JoinInjective(s.regs[r].namespace, s.configs[a], s.regs[q].namespace, s.configs[b], '/');
      HolderIsOldest(es, r, q, config);
      HolderIsOldest(es, q, r, config);
    }
  }

  /** Once every registration has been visited, the broker that reads a configuration finds every
      enabled agent of it under its own path. agents: the configuration's entries, in any order. */
  lemma BrokerFindsEveryAgent(es: seq<Event>, config: string, agents: seq<A2AAgent>, i: nat)
    requires var s := Exec(EMPTY, es); s.visited == s.regs.Keys
    requires forall j :: 0 <= j < |agents| ==> IsEntry(Exec(EMPTY, es).configs, config, agents[j])
    requires forall j, k :: 0 <= j < k < |agents| ==> agents[j].name != agents[k].name
    requires i < |agents| && CardCache.Enabled(agents[i])
    ensures var index := CardCache.Index(agents); var key := CardCache.PathKey(agents[i]); key in index && index[key] == agents[i]
  {
    RunKeepsInv(es);
    forall j | 0 <= j < |agents| && j != i
      ensures CardCache.PathKey(agents[j]) != CardCache.PathKey(agents[i])
    {
      assert IsEntry(Exec(EMPTY, es).configs, config, agents[j]) && IsEntry(Exec(EMPTY, es).configs, config, agents[i]);
      assert agents[j].name != agents[i].name;
      Converges(es, agents[j].name, agents[i].name, config);
    }
    CardCache.IndexFindsEveryAgent(agents, i);
  }

  predicate IsEntry(c: Configs, config: string, a: A2AAgent) {
    Slot(config, a.name) in c && c[Slot(config, a.name)] == a.agentPrefix
  }

  // ---- where entries come from and how long they stay ----

  /** This step writes the agent's entry into this configuration. */
  ghost predicate Writes(s: Cluster, e: Event, agent: string, config: string) {
    && e.Reconcile? && e.agent == agent && agent in s.regs
    && var r := s.regs[agent]; !r.deleting && r.finalizer && !Withdraws(e.listing, r) && config in r.targets
  }

  /** This step takes all of the agent's entries away. */
  ghost predicate Clears(s: Cluster, e: Event, agent: string) {
    && e.Reconcile? && e.agent == agent && agent in s.regs
    && var r := s.regs[agent]; r.finalizer && (r.deleting || Withdraws(e.listing, r))
  }

  /** The n-th step wrote the entry and none since has cleared the agent's. */
  ghost predicate Stands(es: seq<Event>, n: nat, agent: string, config: string) {
    && n < |es| && Writes(Exec(EMPTY, es[..n]), es[n], agent, config)
    && forall m :: n < m < |es| ==> !Clears(Exec(EMPTY, es[..m]), es[m], agent)
  }

  lemma StepOnEntry(s: Cluster, e: Event, agent: string, config: string)
    requires OwnPrefixes(s)
    ensures Slot(config, agent) in Apply(s, e).configs <==>
              Writes(s, e, agent, config) || (Slot(config, agent) in s.configs && !Clears(s, e, agent))
  {
  }

  lemma StandsNext(es: seq<Event>, n: nat, agent: string, config: string)
    requires es != [] && n < |es| - 1
    ensures Stands(es, n, agent, config) <==>
              Stands(es[..|es| - 1], n, agent, config) && !Clears(Exec(EMPTY, es[..|es| - 1]), es[|es| - 1], agent)
  {
    var init := es[..|es| - 1];
    assert forall m :: 0 <= m <= |init| ==> init[..m] == es[..m];
  }

  /** Some step wrote the entry and none since has cleared the agent's. */
  ghost predicate Standing(es: seq<Event>, agent: string, config: string) {
    exists n :: Stands(es, n, agent, config)
  }

  lemma StandingNext(es: seq<Event>, agent: string, config: string)
    requires es != []
    ensures var s, e := Exec(EMPTY, es[..|es| - 1]), es[|es| - 1];
            Standing(es, agent, config) <==>
              Writes(s, e, agent, config) || (Standing(es[..|es| - 1], agent, config) && !Clears(s, e, agent))
  {
    var init, last := es[..|es| - 1], |es| - 1;
    if Writes(Exec(EMPTY, init), es[last], agent, config) {
      assert Stands(es, last, agent, config);
    } else {
      if n :| Stands(init, n, agent, config) {
        StandsNext(es, n, agent, config);
      }
      if n :| Stands(es, n, agent, config) {
        assert n != last;
        StandsNext(es, n, agent, config);
      }
    }
  }

  lemma EntryNext(es: seq<Event>, agent: string, config: string)
    requires es != []
    ensures var s, e := Exec(EMPTY, es[..|es| - 1]), es[|es| - 1];
            Slot(config, agent) in Exec(EMPTY, es).configs <==>
              Writes(s, e, agent, config) || (Slot(config, agent) in s.configs && !Clears(s, e, agent))
  {
    RunKeepsInv(es[..|es| - 1]);
    StepOnEntry(Exec(EMPTY, es[..|es| - 1]), es[|es| - 1], agent, config);
  }

  /** In every run, a configuration holds an agent's entry exactly when some reconcile wrote it there
      and none since has withdrawn or deleted the registration. Losing a target is no reason to remove
      one. */
  lemma {:induction false} EntryIff(es: seq<Event>, agent: string, config: string)
    ensures Slot(config, agent) in Exec(EMPTY, es).configs <==> Standing(es, agent, config)
    decreases |es|
  {
    if es == [] {
      assert forall n :: !Stands(es, n, agent, config);
    } else {
      EntryIff(es[..|es| - 1], agent, config);
      StandingNext(es, agent, config);
      EntryNext(es, agent, config);
    }
  }

  /** So a registration that owns its prefix and was reconciled since the last change has entries in
      exactly its targets if and only if every entry of it still standing was written to one of them. */
  lemma EntriesAreTargetsIff(es: seq<Event>, agent: string)
    requires var s := Exec(EMPTY, es); agent in s.visited && agent in s.regs && s.regs[agent].granted && !Contested(s.regs, s.regs[agent])
    ensures (forall config :: Slot(config, agent) in Exec(EMPTY, es).configs <==> config in Exec(EMPTY, es).regs[agent].targets)
       <==> (forall config :: Standing(es, agent, config) ==> config in Exec(EMPTY, es).regs[agent].targets)
  {
    var s := Exec(EMPTY, es);
    RunKeepsInv(es);
    assert Settles(s, agent);
    forall config
      ensures Slot(config, agent) in s.configs <==> Standing(es, agent, config)
    {
      EntryIff(es, agent, config);
    }
  }

  /** It does happen: when a live owner's targets change, its entry in a former target stays through the
      change and every later reconcile that does not withdraw it. */
  lemma FormerTargetKeepsEntry(s: Cluster, agent: string, config: string, targets: seq<string>, listing: seq<Reg>)
    requires OwnPrefixes(s) && Slot(config, agent) in s.configs && agent in s.regs && !s.regs[agent].deleting && config !in targets
    requires var changed := Apply(s, Change(agent, true, targets)); Lists(changed.regs, listing) && !Contested(changed.regs, changed.regs[agent])
    ensures var t := Apply(Apply(s, Change(agent, true, targets)), Reconcile(agent, listing));
            agent in t.visited && config !in t.regs[agent].targets && Slot(config, agent) in t.configs
  {
    var changed := Apply(s, Change(agent, true, targets));
    WithdrawsIsContested(changed.regs, listing, changed.regs[agent]);
  }

  /** The broker's key for a config entry: the namespace from the agent name, and the prefix. */
  function PathKeyOf(s: Slot, prefix: string): string {
    CardCache.Key(Cut(s.agent, '/').before, prefix)
  }

  lemma NamespaceOf(r: Reg)
    requires '/' !in r.namespace
    ensures Cut(AgentName(r), '/').before == r.namespace
  {
    CutJoin(r.namespace, '/', r.name);
    assert AgentName(r) == r.namespace + ['/'] + r.name;
  }
}
