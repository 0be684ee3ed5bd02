/** The broker's federation of upstream servers over whole runs: manage passes of any manager and
    reloads, over one shared registry and one cached routing table. A pass is one step; a reload is one
    step per phase and per stopped manager, and passes interleave with it. */
module Federation {

  import opened Text
  import opened Config
  import opened Registry
  import opened Manager
  import opened Reload
  import Routing

  type Servers = Routing.Servers

  type Table = Routing.Table

  /** own: the broker's own tools, put on the gateway when the broker was built. states: the state of
      each running manager. */
  datatype World = World(own: Shelf, reject: bool, gateway: Gateway, life: Life, states: map<string, State>, table: Table)

  function Running(w: World): Servers {
    map id | id in w.life.running && id in w.states :: Routing.Server(w.life.running[id].cfg, w.states[id])
  }

  /** Events carry what map iteration leaves open: diff orders, stop orders, tables. */
  datatype Event =
    | ManagePass(id: string, pass: Pass, diffs: Diffs, table: Table)
    | BeginReload(servers: seq<MCPServer>, ca: string, queue: seq<string>)
    | StopNext(table: Table)
    | StartAll(table: Table)

  // ---- steps ----

  /** A changed world with its table: rebuilt from the registered managers when the gateway signalled. */
  ghost function WithTable(w: World, w': World, touched: bool, t: Table): World {
    if !touched then w'
    else if Routing.IsTable(t, Routing.Restrict(Running(w'), w'.life.registered)) then w'.(table := t)
    else w
  }

  function Passed(w: World, id: string, o: Outcome): World {
    w.(gateway := o.gateway, states := w.states[id := o.state])
  }

  function StoppedNext(w: World, o: Outcome): World
    requires CanStop(w.life)
  {
    w.(gateway := o.gateway, life := Stop(w.life), states := w.states - {w.life.phase.queue[0]})
  }

  function FreshFor(id: string, cfg: MCPServer, reject: bool): State {
    Fresh(Owner(id, cfg.prefix), cfg.userSpecificList, reject)
  }

  function StartedAll(w: World): World
    requires CanStart(w.life)
  {
    var l := Start(w.life);
    w.(life := l, states := map id | id in l.running :: if id in w.states then w.states[id] else FreshFor(id, l.running[id].cfg, w.reject))
  }

  ghost function Apply(w: World, e: Event): World {
    match e
    case ManagePass(id, p, d, t) =>
      if id in w.states && DiffsOk(w.states[id], p, d) then
        var o := AfterPass(w.states[id], w.gateway, p, d);
        WithTable(w, Passed(w, id, o), o.touched, t)
      else w
    case BeginReload(servers, ca, queue) =>
      if CanBegin(w.life, servers, ca, queue) then w.(life := Begin(w.life, servers, ca, queue)) else w
    case StopNext(t) =>
      if CanStop(w.life) && w.life.phase.queue[0] in w.states then
        var o := WithdrawAll(w.states[w.life.phase.queue[0]], w.gateway);
        WithTable(w, StoppedNext(w, o), o.touched, t)
      else w
    case StartAll(t) =>
      if CanStart(w.life) then WithTable(w, StartedAll(w), true, t) else w
  }

  ghost function Exec(w: World, events: seq<Event>): World {
    if events == [] then w else Apply(Exec(w, events[..|events| - 1]), events[|events| - 1])
  }

  /** A broker that has been built and has loaded nothing yet. */
  ghost predicate Initial(w: World) {
    && Labelled(w.own) && (forall n :: n in w.own ==> w.own[n].owner == "broker")
    && w.gateway == Gateway(w.own, map[])
    && w.life == NEW && w.states == map[]
    && Routing.IsTable(w.table, map[])
  }

  // ---- the shared registry ----

  ghost predicate OwnersRun(shelf: Shelf, ids: set<string>) {
    forall n :: n in shelf ==> shelf[n].owner == "broker" || shelf[n].owner in ids
  }

  function BrokerOwn(shelf: Shelf): Shelf {
    map n | n in shelf && shelf[n].owner == "broker" :: shelf[n]
  }

  ghost predicate Configured(id: string, cfg: MCPServer, m: State, reject: bool) {
    m.owner == Owner(id, cfg.prefix) && m.userSpecific == cfg.userSpecificList && m.rejectInvalid == reject && Healthy(m)
  }

  /** Each running manager has a state, of its configuration. */
  ghost predicate Staffed(w: World) {
    && w.states.Keys == w.life.running.Keys
    && (forall id :: id in w.states ==> id != "broker" && Configured(id, w.life.running[id].cfg, w.states[id], w.reject))
  }

  ghost predicate AllInAgreement(states: map<string, State>, g: Gateway) {
    forall id :: id in states ==> InAgreement(states[id], g)
  }

  /** Every entry on the gateway belongs to the broker or to a running manager, and every manager's
      lists, indexes and published names agree with the gateway. */
  ghost predicate Shared(own: Shelf, g: Gateway, states: map<string, State>) {
    && AllLabelled(g)
    && AllInAgreement(states, g)
    && OwnersRun(g.tools, states.Keys) && OwnersRun(g.prompts, states.Keys)
    && BrokerOwn(g.tools) == own && BrokerOwn(g.prompts) == map[]
  }

  ghost predicate OnlyOf(id: string, g: Gateway, g': Gateway) {
    OthersKept(id, g.tools, g'.tools) && OthersKept(id, g.prompts, g'.prompts)
  }

  lemma AgreementSurvives(m: State, id: string, g: Gateway, g': Gateway)
    requires InAgreement(m, g) && m.owner.id != id && OnlyOf(id, g, g')
    ensures InAgreement(m, g')
  {
    OtherOwnerStaysInStep(m.owner, id, m.tools, g.tools, g'.tools);
    OtherOwnerStaysInStep(m.owner, id, m.prompts, g.prompts, g'.prompts);
  }

  lemma OthersSurvive(states: map<string, State>, id: string, g: Gateway, g': Gateway)
    requires AllInAgreement(states, g) && OnlyOf(id, g, g') && forall i :: i in states ==> states[i].owner.id == i
    ensures AllInAgreement(states - {id}, g')
  {
    forall i | i in states && i != id
      ensures InAgreement(states[i], g')
    {
      AgreementSurvives(states[i], id, g, g');
    }
  }

  lemma ShelfSurvives(id: string, shelf: Shelf, shelf': Shelf, ids: set<string>)
    requires OthersKept(id, shelf, shelf') && OwnersRun(shelf, ids) && id != "broker" && id in ids
    ensures OwnersRun(shelf', ids) && BrokerOwn(shelf') == BrokerOwn(shelf)
  {
  }

  lemma ShelfSurvivesStop(id: string, shelf: Shelf, ids: set<string>)
    requires OwnersRun(shelf, ids) && forall n :: n in shelf ==> shelf[n].owner != id
    ensures OwnersRun(shelf, ids - {id})
  {
  }

  lemma GatewaySurvives(own: Shelf, g: Gateway, g': Gateway, states: map<string, State>, id: string)
    requires Shared(own, g, states) && id in states && id != "broker" && OnlyOf(id, g, g')
    ensures OwnersRun(g'.tools, states.Keys) && OwnersRun(g'.prompts, states.Keys)
    ensures BrokerOwn(g'.tools) == own && BrokerOwn(g'.prompts) == map[]
  {
    ShelfSurvives(id, g.tools, g'.tools, states.Keys);
    ShelfSurvives(id, g.prompts, g'.prompts, states.Keys);
  }

  /** What SoundOutcome says, split up. */
  lemma OutcomeMeans(m: State, g: Gateway, o: Outcome)
    requires SoundOutcome(m, g, o)
    ensures AllLabelled(o.gateway) && InAgreement(o.state, o.gateway) && OnlyOf(m.owner.id, g, o.gateway) && o.state.owner == m.owner
  {
  }

  lemma OutcomeKeepsShared(own: Shelf, g: Gateway, states: map<string, State>, id: string, o: Outcome)
    requires Shared(own, g, states) && id in states && id != "broker"
    requires forall i :: i in states ==> states[i].owner.id == i
    requires SoundOutcome(states[id], g, o)
    ensures Shared(own, o.gateway, states[id := o.state])
  {
    OutcomeMeans(states[id], g, o);
    OthersSurvive(states, id, g, o.gateway);
    GatewaySurvives(own, g, o.gateway, states, id);
    assert states[id := o.state].Keys == states.Keys;
    assert forall i :: i in states && i != id ==> states[id := o.state][i] == (states - {id})[i];
  }

  lemma PassKeepsShared(w: World, id: string, p: Pass, d: Diffs)
    requires Staffed(w) && Shared(w.own, w.gateway, w.states) && id in w.states && DiffsOk(w.states[id], p, d)
    ensures var o := AfterPass(w.states[id], w.gateway, p, d);
            Staffed(Passed(w, id, o)) && Shared(w.own, o.gateway, w.states[id := o.state])
  {
    PassIsSound(w.states[id], w.gateway, p, d);
    PassKeepsHealthy(w.states[id], w.gateway, p, d);
    PassKeepsConfig(w.states[id], w.gateway, p, d);
    OutcomeKeepsShared(w.own, w.gateway, w.states, id, AfterPass(w.states[id], w.gateway, p, d));
  }

  lemma PassKeepsConfig(m: State, g: Gateway, p: Pass, d: Diffs)
    ensures var o := AfterPass(m, g, p, d).state; o.owner == m.owner && o.userSpecific == m.userSpecific && o.rejectInvalid == m.rejectInvalid
  {
  }

  lemma StopKeepsShared(own: Shelf, g: Gateway, states: map<string, State>, id: string)
    requires Shared(own, g, states) && id in states && id != "broker"
    requires forall i :: i in states ==> states[i].owner.id == i
    ensures Shared(own, WithdrawAll(states[id], g).gateway, states - {id})
  {
    var o := WithdrawAll(states[id], g);
    WithdrawIsSound(states[id], g);
    OutcomeMeans(states[id], g, o);
    NothingPublished(o.state, o.gateway);
    OthersSurvive(states, id, g, o.gateway);
    GatewaySurvives(own, g, o.gateway, states, id);
    ShelfSurvivesStop(id, o.gateway.tools, states.Keys);
    ShelfSurvivesStop(id, o.gateway.prompts, states.Keys);
    assert (states - {id}).Keys == states.Keys - {id};
  }

  /** A new manager has nothing, and nothing on the gateway carries its id. */
  lemma FreshAgrees(g: Gateway, ids: set<string>, id: string, cfg: MCPServer, reject: bool)
    requires OwnersRun(g.tools, ids) && OwnersRun(g.prompts, ids) && id !in ids && id != "broker"
    ensures InAgreement(FreshFor(id, cfg, reject), g)
  {
  }

  lemma StartKeepsShared(w: World)
    requires OnTrack(w.life) && Staffed(w) && Shared(w.own, w.gateway, w.states) && CanStart(w.life)
    ensures var w' := StartedAll(w); Staffed(w') && Shared(w.own, w.gateway, w'.states)
  {
    var w' := StartedAll(w);
    var servers := w.life.phase.servers;
    StartMissingMeans(w.life.running, servers, w.life.ca);
    forall id | id in w'.states
      ensures id != "broker" && Configured(id, w'.life.running[id].cfg, w'.states[id], w.reject) && InAgreement(w'.states[id], w.gateway)
    {
      StartedAgrees(w, servers, w'.life.running, id);
    }
    OwnersStillRun(w.gateway.tools, w.states.Keys, w'.states.Keys);
    OwnersStillRun(w.gateway.prompts, w.states.Keys, w'.states.Keys);
  }

  lemma OwnersStillRun(shelf: Shelf, ids: set<string>, ids': set<string>)
    requires OwnersRun(shelf, ids) && ids <= ids'
    ensures OwnersRun(shelf, ids')
  {
  }

  lemma StartedAgrees(w: World, servers: seq<MCPServer>, after: Handles, id: string)
    requires Staffed(w) && AllInAgreement(w.states, w.gateway)
    requires OwnersRun(w.gateway.tools, w.states.Keys) && OwnersRun(w.gateway.prompts, w.states.Keys)
    requires StartsFrom(w.life.running, servers, w.life.ca, after) && id in after
    ensures var m := if id in w.states then w.states[id] else FreshFor(id, after[id].cfg, w.reject);
            id != "broker" && Configured(id, after[id].cfg, m, w.reject) && InAgreement(m, w.gateway)
  {
    if id !in w.states {
      IdIsNotBroker(after[id].cfg);
      FreshAgrees(w.gateway, w.states.Keys, id, after[id].cfg, w.reject);
    }
  }

  // ---- the table ----

  ghost predicate TableFresh(w: World) {
    w.life.phase.Idle? ==> Routing.IsTable(w.table, Running(w))
  }

  lemma RunningIsWired(w: World)
    requires OnTrack(w.life) && Staffed(w) && Shared(w.own, w.gateway, w.states)
    ensures Routing.Wired(Running(w), w.gateway) && Running(w).Keys == w.states.Keys
  {
    forall id | id in Running(w)
      ensures Routing.WiredTo(id, Running(w)[id], w.gateway)
    {
      assert InAgreement(w.states[id], w.gateway);
    }
  }

  /** A pass that asked the gateway for nothing left it as it was. */
  lemma UntouchedMeansUnchanged(m: State, g: Gateway, p: Pass, d: Diffs)
    requires !AfterPass(m, g, p, d).touched
    ensures AfterPass(m, g, p, d).gateway == g
  {
    assert Take(g.tools, []) == g.tools && Take(g.prompts, []) == g.prompts;
    assert Names([]) == [];
  }

  lemma SameOffers(a: Servers, b: Servers, g: Gateway, id: string)
    requires Routing.Wired(a, g) && Routing.Wired(b, g) && id in a && id in b
    ensures Routing.Tools(a[id]) == Routing.Tools(b[id]) && Routing.Prompts(a[id]) == Routing.Prompts(b[id])
  {
    forall n
      ensures n in Routing.Tools(a[id]) <==> n in Routing.Tools(b[id])
      ensures n in Routing.Prompts(a[id]) <==> n in Routing.Prompts(b[id])
    {
      Routing.OfferedMeansOwned(a, g, id, n);
      Routing.OfferedMeansOwned(b, g, id, n);
    }
  }

  lemma SameRoutes(t: map<string, Routing.Route>, a: Servers, b: Servers, offers: Routing.Server -> set<string>)
    requires Routing.IsRoutes(t, a, offers) && a.Keys == b.Keys
    requires forall id :: id in a ==> a[id].cfg == b[id].cfg && offers(a[id]) == offers(b[id])
    ensures Routing.IsRoutes(t, b, offers)
  {
    forall n | n in t
      ensures exists id :: id in b && n in offers(b[id]) && t[n] == Routing.RouteOf(b[id].cfg)
    {
      var id :| id in a && n in offers(a[id]) && t[n] == Routing.RouteOf(a[id].cfg);
      assert id in b && n in offers(b[id]);
    }
  }

  ghost predicate SameServers(a: Servers, b: Servers, g: Gateway) {
    && Routing.Wired(a, g) && Routing.Wired(b, g) && a.Keys == b.Keys
    && forall id :: id in a ==> a[id].cfg == b[id].cfg
  }

  lemma SameToolRoutes(t: map<string, Routing.Route>, a: Servers, b: Servers, g: Gateway)
    requires Routing.IsRoutes(t, a, Routing.Tools) && SameServers(a, b, g)
    ensures Routing.IsRoutes(t, b, Routing.Tools)
  {
    forall id | id in a
      ensures Routing.Tools(a[id]) == Routing.Tools(b[id])
    {
      SameOffers(a, b, g, id);
    }
    SameRoutes(t, a, b, Routing.Tools);
  }

  lemma SamePromptRoutes(t: map<string, Routing.Route>, a: Servers, b: Servers, g: Gateway)
    requires Routing.IsRoutes(t, a, Routing.Prompts) && SameServers(a, b, g)
    ensures Routing.IsRoutes(t, b, Routing.Prompts)
  {
    forall id | id in a
      ensures Routing.Prompts(a[id]) == Routing.Prompts(b[id])
    {
      SameOffers(a, b, g, id);
    }
    SameRoutes(t, a, b, Routing.Prompts);
  }

  lemma SameTable(t: Table, a: Servers, b: Servers, g: Gateway)
    requires Routing.IsTable(t, a) && SameServers(a, b, g)
    ensures Routing.IsTable(t, b)
  {
    SameToolRoutes(t.tools, a, b, g);
    SamePromptRoutes(t.prompts, a, b, g);
    SameRoutes(t.prefixes, a, b, Routing.Prefixes);
  }

  /** A table rebuilt while no reload is in progress covers all running managers. */
  lemma RebuiltIsFresh(w: World, t: Table)
    requires Routing.IsTable(t, Routing.Restrict(Running(w), w.life.registered)) && w.life.registered == w.life.running.Keys
    ensures Routing.IsTable(t, Running(w))
  {
    assert Routing.Restrict(Running(w), w.life.registered) == Running(w);
  }

  // ---- over whole runs ----

  ghost predicate Sound(w: World) {
    OnTrack(w.life) && Staffed(w) && Shared(w.own, w.gateway, w.states)
  }

  ghost predicate Inv(w: World) {
    Sound(w) && TableFresh(w)
  }

  lemma TableIsAside(w: World, t: Table)
    requires Sound(w)
    ensures Sound(w.(table := t)) && Running(w.(table := t)) == Running(w)
  {
  }

  lemma WithTableKeepsInv(w: World, w': World, touched: bool, t: Table)
    requires Inv(w) && Sound(w') && (!touched ==> TableFresh(w'))
    ensures Inv(WithTable(w, w', touched, t))
  {
    if touched && Routing.IsTable(t, Routing.Restrict(Running(w'), w'.life.registered)) {
      TableIsAside(w', t);
      if w'.life.phase.Idle? {
        RebuiltIsFresh(w', t);
      }
    }
  }

  lemma UntouchedKeepsTable(w: World, w': World)
    requires Inv(w) && Sound(w') && w'.gateway == w.gateway && w'.life == w.life && w'.table == w.table
    ensures TableFresh(w')
  {
    if w.life.phase.Idle? {
      RunningIsWired(w);
      RunningIsWired(w');
      SameTable(w.table, Running(w), Running(w'), w.gateway);
    }
  }

  lemma PassKeepsInv(w: World, id: string, p: Pass, d: Diffs, t: Table)
    requires Inv(w)
    ensures Inv(Apply(w, ManagePass(id, p, d, t)))
  {
    if id in w.states && DiffsOk(w.states[id], p, d) {
      var o := AfterPass(w.states[id], w.gateway, p, d);
      PassKeepsShared(w, id, p, d);
      if !o.touched {
        UntouchedMeansUnchanged(w.states[id], w.gateway, p, d);
        UntouchedKeepsTable(w, Passed(w, id, o));
      }
      WithTableKeepsInv(w, Passed(w, id, o), o.touched, t);
    }
  }

  lemma StopKeepsStaffed(w: World)
    requires Staffed(w) && CanStop(w.life)
    ensures forall o :: Staffed(StoppedNext(w, o))
  {
  }

  lemma StopKeepsInv(w: World, t: Table)
    requires Inv(w)
    ensures Inv(Apply(w, StopNext(t)))
  {
    if CanStop(w.life) && w.life.phase.queue[0] in w.states {
      var o := WithdrawAll(w.states[w.life.phase.queue[0]], w.gateway);
      StopKeepsOnTrack(w.life);
      StopKeepsStaffed(w);
      StopKeepsShared(w.own, w.gateway, w.states, w.life.phase.queue[0]);
      WithTableKeepsInv(w, StoppedNext(w, o), o.touched, t);
    }
  }

  lemma StartKeepsInv(w: World, t: Table)
    requires Inv(w)
    ensures Inv(Apply(w, StartAll(t)))
  {
    if CanStart(w.life) {
      StartKeepsOnTrack(w.life);
      StartKeepsShared(w);
      WithTableKeepsInv(w, StartedAll(w), true, t);
    }
  }

  lemma BeginKeepsInv(w: World, servers: seq<MCPServer>, ca: string, queue: seq<string>)
    requires Inv(w) && CanBegin(w.life, servers, ca, queue)
    ensures Inv(w.(life := Begin(w.life, servers, ca, queue)))
  {
    BeginKeepsOnTrack(w.life, servers, ca, queue);
  }

  lemma ApplyKeepsInv(w: World, e: Event)
    requires Inv(w)
    ensures Inv(Apply(w, e))
  {
    match e
    case ManagePass(id, p, d, t) => PassKeepsInv(w, id, p, d, t);
    case BeginReload(servers, ca, queue) =>
      if CanBegin(w.life, servers, ca, queue) {
        BeginKeepsInv(w, servers, ca, queue);
      }
    case StopNext(t) => StopKeepsInv(w, t);
    case StartAll(t) => StartKeepsInv(w, t);
  }

  lemma InitialHolds(w: World)
    requires Initial(w)
    ensures Inv(w)
  {
    assert BrokerOwn(w.own) == w.own;
    assert Running(w) == map[];
  }

  lemma ApplyKeepsOwn(w: World, e: Event)
    ensures Apply(w, e).own == w.own
  {
  }

  /** After any run: the registry is shared safely, the reload protocol is on track, and with no
      reload in progress the cached routing table is the one the managers describe. */
  lemma {:induction false} RunKeepsInv(w: World, events: seq<Event>)
    requires Initial(w)
    ensures Inv(Exec(w, events)) && Exec(w, events).own == w.own
  {
    if events == [] {
      InitialHolds(w);
    } else {
      RunKeepsInv(w, events[..|events| - 1]);
      ApplyKeepsInv(Exec(w, events[..|events| - 1]), events[|events| - 1]);
      ApplyKeepsOwn(Exec(w, events[..|events| - 1]), events[|events| - 1]);
    }
  }

  /** The names on the gateway with a running server's id are exactly those in its serverTools,
      exactly prefix plus name over its tools, and exactly the keys of its servedToolsMap. */
  lemma GatewayNamesAreTheServers(w: World, events: seq<Event>, id: string, n: string)
    requires Initial(w) && id in Exec(w, events).states
    ensures var v := Exec(w, events); var m := v.states[id]; var own := n in v.gateway.tools && v.gateway.tools[n].owner == id;
            && (own <==> n in Names(m.tools.served))
            && (own <==> exists i :: i in m.tools.items && n == m.owner.prefix + i.name)
            && (own <==> n in m.tools.byServed)
  {
    RunKeepsInv(w, events);
    var v := Exec(w, events);
    NamesInStep(v.states[id].owner, v.states[id].tools, v.gateway.tools, n);
  }

  lemma NamesInStep(o: Owner, c: Catalog, shelf: Shelf, n: string)
    requires Labelled(shelf) && InStep(o, c, shelf)
    ensures n in shelf && shelf[n].owner == o.id <==> n in Names(c.served)
    ensures n in shelf && shelf[n].owner == o.id <==> exists i :: i in c.items && n == o.prefix + i.name
    ensures n in shelf && shelf[n].owner == o.id <==> n in c.byServed
  {
    if n in Names(c.served) {
      var i :| 0 <= i < |c.served| && c.served[i].name == n;
      assert c.served[i] in c.served;
    }
    if n in shelf && shelf[n].owner == o.id {
      var i :| 0 <= i < |c.served| && c.served[i] == shelf[n];
      assert Names(c.served)[i] == n;
    }
  }

  /** The manager a step belongs to. */
  function Actor(w: World, e: Event): Option<string> {
    match e
    case ManagePass(id, _, _, _) => Some(id)
    case StopNext(_) => if CanStop(w.life) then Some(w.life.phase.queue[0]) else None
    case _ => None
  }

  /** No step overwrites, deletes or adds an entry of anyone but its own manager, although deletion
      is by name. */
  lemma NoInterference(w: World, e: Event)
    requires Inv(w)
    ensures Apply(w, e).gateway == w.gateway || (Actor(w, e).Some? && OnlyOf(Actor(w, e).value, w.gateway, Apply(w, e).gateway))
  {
    match e
    case ManagePass(id, p, d, t) => PassTouchesOwn(w, id, p, d, t);
    case StopNext(t) => StopTouchesOwn(w, t);
    case _ =>
  }

  lemma PassTouchesOwn(w: World, id: string, p: Pass, d: Diffs, t: Table)
    requires Inv(w)
    ensures var g := Apply(w, ManagePass(id, p, d, t)).gateway; g == w.gateway || OnlyOf(id, w.gateway, g)
  {
    if id in w.states && DiffsOk(w.states[id], p, d) {
      var o := AfterPass(w.states[id], w.gateway, p, d);
      PassOnlyOwn(w.states[id], w.gateway, p, d);
      assert WithTable(w, Passed(w, id, o), o.touched, t).gateway in {w.gateway, o.gateway};
    }
  }

  lemma PassOnlyOwn(m: State, g: Gateway, p: Pass, d: Diffs)
    requires AllLabelled(g) && InAgreement(m, g) && DiffsOk(m, p, d)
    ensures OnlyOf(m.owner.id, g, AfterPass(m, g, p, d).gateway)
  {
    PassIsSound(m, g, p, d);
    OutcomeMeans(m, g, AfterPass(m, g, p, d));
  }

  lemma StopTouchesOwn(w: World, t: Table)
    requires Inv(w)
    ensures var g := Apply(w, StopNext(t)).gateway;
            g == w.gateway || (CanStop(w.life) && OnlyOf(w.life.phase.queue[0], w.gateway, g))
  {
    if CanStop(w.life) && w.life.phase.queue[0] in w.states {
      var m := w.states[w.life.phase.queue[0]];
      WithdrawIsSound(m, w.gateway);
      OutcomeMeans(m, w.gateway, WithdrawAll(m, w.gateway));
    }
  }

  /** The broker's own tools are on the gateway, unchanged, after any run. */
  lemma BrokerToolsSurvive(w: World, events: seq<Event>, n: string)
    requires Initial(w) && n in w.own
    ensures n in Exec(w, events).gateway.tools && Exec(w, events).gateway.tools[n] == w.own[n]
  {
    RunKeepsInv(w, events);
    assert n in BrokerOwn(Exec(w, events).gateway.tools);
  }

  /** What the latest reload to begin was given. */
  datatype Given = Given(servers: seq<MCPServer>, ca: string)

  ghost function Latest(w: World, events: seq<Event>): Given {
    if events == [] then Given([], "")
    else
      var init, e := events[..|events| - 1], events[|events| - 1];
      if e.BeginReload? && CanBegin(Exec(w, init).life, e.servers, e.ca, e.queue) then Given(e.servers, e.ca) else Latest(w, init)
  }

  ghost predicate CarriesOut(l: Life, latest: Given) {
    l.ca == latest.ca && latest.servers == if l.phase.Idle? then l.configured else l.phase.servers
  }

  lemma {:induction false} RunCarriesOut(w: World, events: seq<Event>)
    requires Initial(w)
    ensures CarriesOut(Exec(w, events).life, Latest(w, events))
  {
    if events != [] {
      var init, e := events[..|events| - 1], events[|events| - 1];
      RunCarriesOut(w, init);
      StepCarriesOut(Exec(w, init), e);
    }
  }

  lemma StepCarriesOut(w: World, e: Event)
    ensures var l, l' := w.life, Apply(w, e).life;
            if e.BeginReload? && CanBegin(l, e.servers, e.ca, e.queue) then CarriesOut(l', Given(e.servers, e.ca))
            else forall latest :: CarriesOut(l, latest) ==> CarriesOut(l', latest)
  {
  }

  /** With no reload in progress, against the configuration of the latest reload: the managed ids are
      the configured ids, with unique ids every manager runs the configured server's record but for
      auth, the spelling of its state and the order of its tags, and every https manager was built
      with the CA bundle of that reload. */
  lemma ReloadsConverge(w: World, events: seq<Event>)
    requires Initial(w) && Exec(w, events).life.phase.Idle?
    ensures var l, latest := Exec(w, events).life, Latest(w, events);
            && l.running.Keys == l.registered == Ids(latest.servers)
            && (UniqueIds(latest.servers) ==> forall s :: s in latest.servers ==> SameServer(s, l.running[ID(s)].cfg))
            && (forall id :: id in l.running && "https://" <= l.running[id].cfg.url ==> l.running[id].builtWith == latest.ca)
  {
    RunKeepsInv(w, events);
    RunCarriesOut(w, events);
  }

  /** Over any run, per id: starts and stops alternate, so a dropped manager is stopped exactly once
      and before any replacement with its id starts; what is started and not stopped is running. */
  lemma StopsPrecedeStarts(w: World, events: seq<Event>)
    requires Initial(w)
    ensures var l := Exec(w, events).life; Alternates(l.actions) && Live(l.actions) == l.running.Keys
  {
    RunKeepsInv(w, events);
  }

  /** After any run a manager with three or more consecutive failures has nothing on the gateway, and
      a Ready one reports the lengths of its current lists. */
  lemma StatusIsTruthfulInRuns(w: World, events: seq<Event>, id: string)
    requires Initial(w) && id in Exec(w, events).states
    ensures var v := Exec(w, events); var m := v.states[id];
            && (m.failures >= 3 ==>
                  && (forall n :: n in v.gateway.tools ==> v.gateway.tools[n].owner != id)
                  && (forall n :: n in v.gateway.prompts ==> v.gateway.prompts[n].owner != id))
            && (m.status.ready ==> m.failures == 0 && m.status.totalTools == |m.tools.items| && m.status.totalPrompts == |m.prompts.items|)
  {
    RunKeepsInv(w, events);
    var v := Exec(w, events);
    if v.states[id].failures >= MAX_CONSECUTIVE_FAILURES {
      NothingPublished(v.states[id], v.gateway);
    }
  }

  /** With no reload in progress, a name on the gateway is routed to the one server that listed it,
      under the name it listed, by the table and by GetServerInfo alike. */
  lemma ServedToolsAreRouted(w: World, events: seq<Event>, n: string, info: Option<MCPServer>)
    requires Initial(w) && Exec(w, events).life.phase.Idle? && Routing.IsServerInfo(Running(Exec(w, events)), n, info)
    requires n in Exec(w, events).gateway.tools && Exec(w, events).gateway.tools[n].owner != "broker"
    ensures var v := Exec(w, events); var id := v.gateway.tools[n].owner; var servers := Running(v);
            && id in servers && info == Some(servers[id].cfg)
            && n in v.table.tools && Routing.Describes(v.table.tools[n], servers[id].cfg)
            && exists i :: i in servers[id].m.tools.items && i.name == CutPrefix(n, v.table.tools[n].prefix)
  {
    RunKeepsInv(w, events);
    var v := Exec(w, events);
    RunningIsWired(v);
    Routing.LookupsAgreeOnServedNames(Running(v), v.gateway, v.table, n, info);
  }

  /** With no reload in progress, a call of a broker tool reaches the broker exactly when no server
      has published a tool of that name and no user-specific server's prefix begins it; for the tools
      the broker registered itself only the prefixes matter. */
  lemma BrokerToolsAreReachedIff(w: World, events: seq<Event>, n: string)
    requires Initial(w) && Exec(w, events).life.phase.Idle? && n in Routing.BROKER_TOOLS
    ensures var v := Exec(w, events);
            Routing.GoesToBroker(v.table, n) <==>
              && (n in v.gateway.tools ==> v.gateway.tools[n].owner == "broker")
              && forall id :: id in Running(v) ==> !Routing.Matches(Running(v)[id], n)
    ensures n in w.own ==> n in Exec(w, events).gateway.tools && Exec(w, events).gateway.tools[n].owner == "broker"
  {
    RunKeepsInv(w, events);
    var v := Exec(w, events);
    RunningIsWired(v);
    Routing.BrokerToolIsReachedIff(Running(v), v.gateway, v.table, n);
    assert "broker" !in v.states;
    if n in w.own {
      BrokerToolsSurvive(w, events, n);
    }
  }

  /** With no reload in progress the two prefix fallbacks agree exactly when the user-specific
      prefixes are apart. */
  lemma FallbacksAgreeIff(w: World, events: seq<Event>)
    requires Initial(w) && Exec(w, events).life.phase.Idle?
    ensures var v := Running(Exec(w, events));
            (forall n :: !Routing.Served(v, n) ==> Routing.FallbacksAgree(v, Exec(w, events).table, n)) <==> Routing.PrefixesApart(v)
  {
    RunKeepsInv(w, events);
    var v := Exec(w, events);
    RunningIsWired(v);
    Routing.FallbacksAgreeIffPrefixesApart(Running(v), v.gateway, v.table);
  }
}
