/** internal/broker/routing_table.go, internal/routing/mem_table.go, GetServerInfo of
    internal/broker/broker.go and the lookup of routeToolCall in internal/routing/router_202511.go:
    two independent answers to "which server has this tool", and when they agree. */
module Routing {

  import opened Text
  import opened Config
  import opened Registry
  import opened Manager

  /** A running manager: its configuration and its state. */
  datatype Server = Server(cfg: MCPServer, m: State)

  type Servers = map<string, Server>

  datatype Route = Route(name: string, host: string, prefix: string, url: string, userSpecificList: bool,
                         tokenURLElicitation: Option<string>)

  function RouteOf(cfg: MCPServer): Route {
    Route(cfg.name, cfg.hostname, cfg.prefix, cfg.url, cfg.userSpecificList, cfg.tokenURLElicitation)
  }

  /** The route carries this configuration's name, host, prefix, url, list kind and token URL. */
  predicate Describes(r: Route, cfg: MCPServer) {
    && r.name == cfg.name && r.host == cfg.hostname && r.prefix == cfg.prefix && r.url == cfg.url
    && r.userSpecificList == cfg.userSpecificList && r.tokenURLElicitation == cfg.tokenURLElicitation
  }

  datatype Table = Table(tools: map<string, Route>, prompts: map<string, Route>, prefixes: map<string, Route>,
                         brokerTools: set<string>)

  const BROKER_TOOLS := {"discover_tools", "select_tools", "list_tags", "filter_tools_by_tags"}

  // ---- the table ----

  function Tools(sv: Server): set<string> {
    ByServed(Owner(ID(sv.cfg), sv.cfg.prefix), sv.m.tools.items).Keys
  }

  function Prompts(sv: Server): set<string> {
    ByServed(Owner(ID(sv.cfg), sv.cfg.prefix), sv.m.prompts.items).Keys
  }

  function Prefixes(sv: Server): set<string> {
    if sv.cfg.userSpecificList && sv.cfg.prefix != "" then {sv.cfg.prefix} else {}
  }

  /** t maps exactly the names some server offers, each to a server that offers it. Which one, when
      there are several, is up to map iteration. */
  ghost predicate IsRoutes(t: map<string, Route>, servers: Servers, offers: Server -> set<string>) {
    && (forall n :: n in t ==> exists id :: id in servers && n in offers(servers[id]) && t[n] == RouteOf(servers[id].cfg))
    && (forall id :: id in servers ==> forall n :: n in offers(servers[id]) ==> n in t)
  }

  ghost predicate IsTable(t: Table, servers: Servers) {
    && IsRoutes(t.tools, servers, Tools)
    && IsRoutes(t.prompts, servers, Prompts)
    && IsRoutes(t.prefixes, servers, Prefixes)
    && t.brokerTools == BROKER_TOOLS
  }

  /** AddTool or AddPrompt for every listed item of one server. */
  method AddItems(t: map<string, Route>, o: Owner, items: seq<Item>, route: Route) returns (t': map<string, Route>)
    ensures forall n :: n in t' <==> n in t || n in ByServed(o, items)
    ensures forall n :: n in t' ==> t'[n] == if n in ByServed(o, items) then route else t[n]
  {
    t' := t;
    for i := 0 to |items|
      invariant forall n :: n in t' <==> n in t || n in ByServed(o, items[..i])
      invariant forall n :: n in t' ==> t'[n] == if n in ByServed(o, items[..i]) then route else t[n]
    {
      assert items[..i + 1][..i] == items[..i];
      t' := t'[o.prefix + items[i].name := route];
    }
    assert items[..|items|] == items;
  }

  /** One more server's offers entered over a table of the others. */
  lemma RoutesGrow(t: map<string, Route>, t': map<string, Route>, servers: Servers, offers: Server -> set<string>,
                   id: string, sv: Server)
    requires IsRoutes(t, servers, offers) && id !in servers
    requires forall n :: n in t' <==> n in t || n in offers(sv)
    requires forall n :: n in t' ==> t'[n] == if n in offers(sv) then RouteOf(sv.cfg) else t[n]
    ensures IsRoutes(t', servers[id := sv], offers)
  {
    var all := servers[id := sv];
    forall n | n in t'
      ensures exists i :: i in all && n in offers(all[i]) && t'[n] == RouteOf(all[i].cfg)
    {
      if n in offers(sv) {
        assert all[id] == sv;
      } else {
        var i :| i in servers && n in offers(servers[i]) && t[n] == RouteOf(servers[i].cfg);
        assert all[i] == servers[i];
      }
    }
  }

  function Restrict(servers: Servers, ids: set<string>): Servers {
    map id | id in servers && id in ids :: servers[id]
  }

  method BuildRoutingTable(servers: Servers) returns (t: Table)
    ensures IsTable(t, servers)
  {
    var tools, prompts, prefixes := map[], map[], map[];
    var ids := servers.Keys;
    ghost var done: set<string> := {};
    while ids != {}
      invariant ids <= servers.Keys && ids !! done && ids + done == servers.Keys
      invariant IsRoutes(tools, Restrict(servers, done), Tools)
      invariant IsRoutes(prompts, Restrict(servers, done), Prompts)
      invariant IsRoutes(prefixes, Restrict(servers, done), Prefixes)
      decreases ids
    {
      var id :| id in ids;
      tools, prompts, prefixes := AddServer(tools, prompts, prefixes, servers, done, id);
      ids, done := ids - {id}, done + {id};
    }
    assert Restrict(servers, done) == servers;
    t := Table(tools, prompts, prefixes, BROKER_TOOLS);
  }

  method AddServer(tools: map<string, Route>, prompts: map<string, Route>, prefixes: map<string, Route>, servers: Servers,
                   ghost done: set<string>, id: string)
    returns (tools': map<string, Route>, prompts': map<string, Route>, prefixes': map<string, Route>)
    requires id in servers && id !in done
    requires IsRoutes(tools, Restrict(servers, done), Tools)
    requires IsRoutes(prompts, Restrict(servers, done), Prompts)
    requires IsRoutes(prefixes, Restrict(servers, done), Prefixes)
    ensures IsRoutes(tools', Restrict(servers, done + {id}), Tools)
    ensures IsRoutes(prompts', Restrict(servers, done + {id}), Prompts)
    ensures IsRoutes(prefixes', Restrict(servers, done + {id}), Prefixes)
  {
    var sv := servers[id];
    var route, o := RouteOf(sv.cfg), Owner(ID(sv.cfg), sv.cfg.prefix);
    prefixes' := prefixes;
    if sv.cfg.userSpecificList && sv.cfg.prefix != "" {
      prefixes' := prefixes'[sv.cfg.prefix := route];
    }
    tools' := AddItems(tools, o, sv.m.tools.items, route);
    prompts' := AddItems(prompts, o, sv.m.prompts.items, route);
    assert Restrict(servers, done + {id}) == Restrict(servers, done)[id := sv];
    RoutesGrow(tools, tools', Restrict(servers, done), Tools, id, sv);
    RoutesGrow(prompts, prompts', Restrict(servers, done), Prompts, id, sv);
    RoutesGrow(prefixes, prefixes', Restrict(servers, done), Prefixes, id, sv);
  }

  // ---- the lookups ----

  /** What LookupPrefix may answer: any registered prefix of the name. */
  ghost predicate IsPrefixRoute(t: Table, n: string, r: Option<Route>) {
    match r
    case Some(route) => exists p :: p in t.prefixes && p <= n && t.prefixes[p] == route
    case None => forall p :: p in t.prefixes ==> !(p <= n)
  }

  method LookupPrefix(t: Table, n: string) returns (r: Option<Route>)
    ensures IsPrefixRoute(t, n, r)
  {
    var prefixes := t.prefixes.Keys;
    while prefixes != {}
      invariant prefixes <= t.prefixes.Keys
      invariant forall p :: p in t.prefixes && p !in prefixes ==> !(p <= n)
      decreases prefixes
    {
      var p :| p in prefixes;
      if p <= n {
        return Some(t.prefixes[p]);
      }
      prefixes := prefixes - {p};
    }
    return None;
  }

  predicate Matches(sv: Server, n: string) {
    sv.cfg.userSpecificList && sv.cfg.prefix != "" && sv.cfg.prefix <= n
  }

  /** What GetServerInfo may answer: a server serving the name, else a user-specific server with the
      longest matching prefix, else nothing. */
  ghost predicate IsServerInfo(servers: Servers, n: string, r: Option<MCPServer>) {
    if exists id :: id in servers && n in servers[id].m.tools.byServed then
      exists id :: id in servers && n in servers[id].m.tools.byServed && r == Some(servers[id].cfg)
    else if exists id :: id in servers && Matches(servers[id], n) then
      exists id :: id in servers && IsLongest(servers, n, id) && r == Some(servers[id].cfg)
    else
      r == None
  }

  ghost predicate IsLongest(servers: Servers, n: string, id: string) {
    && id in servers
    && Matches(servers[id], n)
    && forall i :: i in servers && Matches(servers[i], n) ==> |servers[i].cfg.prefix| <= |servers[id].cfg.prefix|
  }

  method GetServerInfo(servers: Servers, n: string) returns (r: Option<MCPServer>)
    ensures IsServerInfo(servers, n, r)
  {
    var ids := servers.Keys;
    while ids != {}
      invariant ids <= servers.Keys
      invariant forall id :: id in servers && id !in ids ==> n !in servers[id].m.tools.byServed
      decreases ids
    {
      var id :| id in ids;
      if n in servers[id].m.tools.byServed {
        return Some(servers[id].cfg);
      }
      ids := ids - {id};
    }
    r := LongestPrefixMatch(servers, n);
  }

  method LongestPrefixMatch(servers: Servers, n: string) returns (r: Option<MCPServer>)
    ensures r == None ==> forall id :: id in servers ==> !Matches(servers[id], n)
    ensures r.Some? ==> exists id :: id in servers && IsLongest(servers, n, id) && r == Some(servers[id].cfg)
  {
    r := None;
    var ids := servers.Keys;
    ghost var best := "";
    while ids != {}
      invariant ids <= servers.Keys
      invariant r == None ==> forall id :: id in servers && id !in ids ==> !Matches(servers[id], n)
      invariant r.Some? ==> best in servers && Matches(servers[best], n) && r.value == servers[best].cfg
      invariant r.Some? ==> forall id :: id in servers && id !in ids && Matches(servers[id], n) ==> |servers[id].cfg.prefix| <= |r.value.prefix|
      decreases ids
    {
      var id :| id in ids;
      ids := ids - {id};
      var cfg := servers[id].cfg;
      if cfg.userSpecificList && cfg.prefix != "" && cfg.prefix <= n {
        if r == None || |cfg.prefix| > |r.value.prefix| {
          r, best := Some(cfg), id;
        }
      }
    }
    assert r.Some? ==> IsLongest(servers, n, best);
  }

  datatype Destination = Upstream(route: Route, tool: string) | Broker | NotFound

  /** Where a tool call may go: tools first, prefixes next, the broker's own tools last; an upstream
      gets the name without its prefix. */
  ghost predicate IsDestination(t: Table, n: string, d: Destination) {
    && (n in t.tools ==> d == Upstream(t.tools[n], CutPrefix(n, t.tools[n].prefix)))
    && (n !in t.tools && d.Upstream? ==> IsPrefixRoute(t, n, Some(d.route)) && d.tool == CutPrefix(n, d.route.prefix))
    && (n !in t.tools && !d.Upstream? ==> IsPrefixRoute(t, n, None))
    && (d.Broker? ==> n in t.brokerTools)
    && (d.NotFound? ==> n !in t.brokerTools)
  }

  method ResolveTool(t: Table, n: string) returns (d: Destination)
    ensures IsDestination(t, n, d)
  {
    var route := if n in t.tools then Some(t.tools[n]) else None;
    if route == None {
      route := LookupPrefix(t, n);
    }
    if route == None {
      return if n in t.brokerTools then Broker else NotFound;
    }
    return Upstream(route.value, CutPrefix(n, route.value.prefix));
  }

  // ---- agreement ----

  ghost predicate WiredTo(id: string, sv: Server, g: Gateway) {
    && ID(sv.cfg) == id
    && sv.m.owner == Owner(id, sv.cfg.prefix)
    && InAgreement(sv.m, g)
  }

  ghost predicate Wired(servers: Servers, g: Gateway) {
    forall id :: id in servers ==> WiredTo(id, servers[id], g)
  }

  /** A name is offered by the one server the gateway has it under, and by no other. */
  lemma OfferedMeansOwned(servers: Servers, g: Gateway, id: string, n: string)
    requires Wired(servers, g) && id in servers
    ensures n in Tools(servers[id]) <==> n in g.tools && g.tools[n].owner == id
    ensures n in servers[id].m.tools.byServed <==> n in g.tools && g.tools[n].owner == id
    ensures n in Prompts(servers[id]) <==> n in g.prompts && g.prompts[n].owner == id
  {
    assert WiredTo(id, servers[id], g);
  }

  lemma ToolRoutesMirror(servers: Servers, g: Gateway, t: map<string, Route>, n: string)
    requires Wired(servers, g) && IsRoutes(t, servers, Tools)
    ensures n in t <==> n in g.tools && g.tools[n].owner in servers
    ensures n in t ==> t[n] == RouteOf(servers[g.tools[n].owner].cfg)
  {
    if n in t {
      var id :| id in servers && n in Tools(servers[id]) && t[n] == RouteOf(servers[id].cfg);
      OfferedMeansOwned(servers, g, id, n);
    } else if n in g.tools && g.tools[n].owner in servers {
      OfferedMeansOwned(servers, g, g.tools[n].owner, n);
    }
  }

  lemma PromptRoutesMirror(servers: Servers, g: Gateway, t: map<string, Route>, n: string)
    requires Wired(servers, g) && IsRoutes(t, servers, Prompts)
    ensures n in t <==> n in g.prompts && g.prompts[n].owner in servers
    ensures n in t ==> t[n] == RouteOf(servers[g.prompts[n].owner].cfg)
  {
    if n in t {
      var id :| id in servers && n in Prompts(servers[id]) && t[n] == RouteOf(servers[id].cfg);
      OfferedMeansOwned(servers, g, id, n);
    } else if n in g.prompts && g.prompts[n].owner in servers {
      OfferedMeansOwned(servers, g, g.prompts[n].owner, n);
    }
  }

  /** The table is a function of the gateway's registry: exactly the names published by a registered
      server, each routed to its owner. */
  lemma TableMirrorsGateway(servers: Servers, g: Gateway, t: Table, n: string)
    requires Wired(servers, g) && IsTable(t, servers)
    ensures n in t.tools <==> n in g.tools && g.tools[n].owner in servers
    ensures n in t.tools ==> Describes(t.tools[n], servers[g.tools[n].owner].cfg)
    ensures n in t.prompts <==> n in g.prompts && g.prompts[n].owner in servers
    ensures n in t.prompts ==> Describes(t.prompts[n], servers[g.prompts[n].owner].cfg)
  {
    ToolRoutesMirror(servers, g, t.tools, n);
    PromptRoutesMirror(servers, g, t.prompts, n);
  }

  /** A served name: the table and GetServerInfo give the one owner, and stripping that owner's prefix
      gives back the name the owner lists. */
  lemma LookupsAgreeOnServedNames(servers: Servers, g: Gateway, t: Table, n: string, info: Option<MCPServer>)
    requires Wired(servers, g) && IsTable(t, servers) && IsServerInfo(servers, n, info)
    requires n in g.tools && g.tools[n].owner in servers
    ensures var owner := servers[g.tools[n].owner];
            && info == Some(owner.cfg)
            && n in t.tools && Describes(t.tools[n], owner.cfg)
            && exists i :: i in owner.m.tools.items && i.name == CutPrefix(n, owner.cfg.prefix) && n == owner.cfg.prefix + i.name
  {
    ToolRoutesMirror(servers, g, t.tools, n);
    InfoIsOwner(servers, g, n, info);
    StrippedNameIsListed(servers, g, n);
  }

  lemma InfoIsOwner(servers: Servers, g: Gateway, n: string, info: Option<MCPServer>)
    requires Wired(servers, g) && IsServerInfo(servers, n, info) && n in g.tools && g.tools[n].owner in servers
    ensures info == Some(servers[g.tools[n].owner].cfg)
  {
    forall i | i in servers
      ensures n in servers[i].m.tools.byServed <==> i == g.tools[n].owner
    {
      OfferedMeansOwned(servers, g, i, n);
    }
  }

  lemma StrippedNameIsListed(servers: Servers, g: Gateway, n: string)
    requires Wired(servers, g) && n in g.tools && g.tools[n].owner in servers
    ensures var owner := servers[g.tools[n].owner];
            exists i :: i in owner.m.tools.items && i.name == CutPrefix(n, owner.cfg.prefix) && n == owner.cfg.prefix + i.name
  {
    OfferedMeansOwned(servers, g, g.tools[n].owner, n);
    var sv := servers[g.tools[n].owner];
    var x := ByServed(Owner(ID(sv.cfg), sv.cfg.prefix), sv.m.tools.items)[n];
    assert sv.cfg.prefix <= n;
    PrefixInjective(sv.cfg.prefix, x.name, CutPrefix(n, sv.cfg.prefix));
  }

  /** Every call of this tool goes to the broker. */
  ghost predicate GoesToBroker(t: Table, n: string) {
    forall d :: IsDestination(t, n, d) ==> d == Broker
  }

  lemma BrokerComesLast(t: Table, n: string)
    requires n in t.brokerTools
    ensures GoesToBroker(t, n) <==> n !in t.tools && forall p :: p in t.prefixes ==> !(p <= n)
  {
    if n in t.tools {
      assert IsDestination(t, n, Upstream(t.tools[n], CutPrefix(n, t.tools[n].prefix)));
    } else if p :| p in t.prefixes && p <= n {
      assert IsPrefixRoute(t, n, Some(t.prefixes[p]));
      assert IsDestination(t, n, Upstream(t.prefixes[p], CutPrefix(n, t.prefixes[p].prefix)));
    }
  }

  lemma PrefixBeginsIff(servers: Servers, prefixes: map<string, Route>, n: string)
    requires IsRoutes(prefixes, servers, Prefixes)
    ensures (exists p :: p in prefixes && p <= n) <==> exists id :: id in servers && Matches(servers[id], n)
  {
    if p :| p in prefixes && p <= n {
      var id :| id in servers && p in Prefixes(servers[id]) && prefixes[p] == RouteOf(servers[id].cfg);
      assert Matches(servers[id], n);
    }
    if id :| id in servers && Matches(servers[id], n) {
      assert servers[id].cfg.prefix in Prefixes(servers[id]);
    }
  }

  /** The broker's own tools come last: a call of one reaches the broker exactly when no server offers
      a tool of that name and no registered prefix begins it. */
  lemma BrokerToolIsReachedIff(servers: Servers, g: Gateway, t: Table, n: string)
    requires Wired(servers, g) && IsTable(t, servers) && n in BROKER_TOOLS
    ensures GoesToBroker(t, n) <==>
              && !(n in g.tools && g.tools[n].owner in servers)
              && forall id :: id in servers ==> !Matches(servers[id], n)
  {
    ToolRoutesMirror(servers, g, t.tools, n);
    PrefixBeginsIff(servers, t.prefixes, n);
    BrokerComesLast(t, n);
  }

  /** For a name nobody serves: every answer LookupPrefix may give matches every answer GetServerInfo
      may give. */
  ghost predicate FallbacksAgree(servers: Servers, t: Table, n: string) {
    forall route, info :: IsPrefixRoute(t, n, route) && IsServerInfo(servers, n, info) ==>
      if info == None then route == None else route == Some(RouteOf(info.value))
  }

  ghost predicate Served(servers: Servers, n: string) {
    exists id :: id in servers && n in servers[id].m.tools.byServed
  }

  predicate UserSpecific(sv: Server) {
    sv.cfg.userSpecificList && sv.cfg.prefix != ""
  }

  predicate Overlap(x: Server, y: Server) {
    UserSpecific(x) && UserSpecific(y) && x.cfg.prefix <= y.cfg.prefix
  }

  /** No user-specific server's prefix is a prefix of another's, or the same. */
  ghost predicate PrefixesApart(servers: Servers) {
    forall a, b :: a in servers && b in servers && Overlap(servers[a], servers[b]) ==> a == b
  }

  lemma PrefixMeansMatch(servers: Servers, t: Table, n: string, p: string) returns (id: string)
    requires IsRoutes(t.prefixes, servers, Prefixes) && p in t.prefixes && p <= n
    ensures id in servers && Matches(servers[id], n) && servers[id].cfg.prefix == p && t.prefixes[p] == RouteOf(servers[id].cfg)
  {
    id :| id in servers && p in Prefixes(servers[id]) && t.prefixes[p] == RouteOf(servers[id].cfg);
  }

  /** With the prefixes apart, only one user-specific server matches a name. */
  lemma OneMatch(servers: Servers, n: string, a: string, b: string)
    requires PrefixesApart(servers) && a in servers && b in servers && Matches(servers[a], n) && Matches(servers[b], n)
    ensures a == b
  {
    var p, q := servers[a].cfg.prefix, servers[b].cfg.prefix;
    assert p <= q || q <= p;
    assert Overlap(servers[a], servers[b]) || Overlap(servers[b], servers[a]);
  }

  lemma ApartMeansAgreement(servers: Servers, t: Table, n: string)
    requires IsTable(t, servers) && PrefixesApart(servers) && !Served(servers, n)
    ensures FallbacksAgree(servers, t, n)
  {
    forall route, info | IsPrefixRoute(t, n, route) && IsServerInfo(servers, n, info)
      ensures if info == None then route == None else route == Some(RouteOf(info.value))
    {
      FallbackAgrees(servers, t, n, route, info);
    }
  }

  lemma FallbackAgrees(servers: Servers, t: Table, n: string, route: Option<Route>, info: Option<MCPServer>)
    requires IsRoutes(t.prefixes, servers, Prefixes) && PrefixesApart(servers) && !Served(servers, n)
    requires IsPrefixRoute(t, n, route) && IsServerInfo(servers, n, info)
    ensures if info == None then route == None else route == Some(RouteOf(info.value))
  {
    if p :| p in t.prefixes && p <= n {
      var id := PrefixMeansMatch(servers, t, n, p);
      forall p' | p' in t.prefixes && p' <= n
        ensures t.prefixes[p'] == RouteOf(servers[id].cfg)
      {
        var id' := PrefixMeansMatch(servers, t, n, p');
        OneMatch(servers, n, id, id');
      }
      var b :| b in servers && IsLongest(servers, n, b) && info == Some(servers[b].cfg);
      OneMatch(servers, n, id, b);
    } else {
      forall id | id in servers
        ensures !Matches(servers[id], n)
      {
        assert servers[id].cfg.prefix in Prefixes(servers[id]) ==> servers[id].cfg.prefix in t.prefixes;
      }
    }
  }

  /** Some name longer than every served one starts with p. */
  lemma FreshName(servers: Servers, p: string) returns (n: string)
    ensures p <= n && !Served(servers, n)
  {
    var names := set id, k | id in servers && k in servers[id].m.tools.byServed :: k;
    n := Longer(names, p);
    assert forall id, k :: id in servers && k in servers[id].m.tools.byServed ==> k in names;
  }

  lemma Longer(names: set<string>, p: string) returns (n: string)
    ensures p <= n && forall k :: k in names ==> |k| < |n|
  {
    if names == {} {
      n := p + "x";
    } else {
      var k :| k in names;
      var n' := Longer(names - {k}, p);
      n := n' + k + "x";
    }
  }

  /** The two fallbacks agree on every name, whatever the map iteration order, exactly when the
      user-specific prefixes are apart. */
  lemma FallbacksAgreeIffPrefixesApart(servers: Servers, g: Gateway, t: Table)
    requires Wired(servers, g) && IsTable(t, servers)
    ensures (forall n :: !Served(servers, n) ==> FallbacksAgree(servers, t, n)) <==> PrefixesApart(servers)
  {
    if PrefixesApart(servers) {
      forall n | !Served(servers, n)
        ensures FallbacksAgree(servers, t, n)
      {
        ApartMeansAgreement(servers, t, n);
      }
    } else {
      var a, b :| a in servers && b in servers && Overlap(servers[a], servers[b]) && a != b;
      OverlapMeansDisagreement(servers, g, t, a, b);
    }
  }

  lemma OverlapMeansDisagreement(servers: Servers, g: Gateway, t: Table, a: string, b: string)
    requires Wired(servers, g) && IsTable(t, servers) && a in servers && b in servers && a != b
    requires Overlap(servers[a], servers[b])
    ensures exists n :: !Served(servers, n) && !FallbacksAgree(servers, t, n)
  {
    var p, q := servers[a].cfg.prefix, servers[b].cfg.prefix;
    var n := FreshName(servers, q);
    assert WiredTo(a, servers[a], g) && WiredTo(b, servers[b], g);
    assert p in Prefixes(servers[a]) && p in t.prefixes && p <= n;
    var id := PrefixMeansMatch(servers, t, n, p);
    if p == q {
      SharedPrefixDisagrees(servers, t, n, a, b, Some(t.prefixes[p]));
    } else {
      ShorterPrefixDisagrees(servers, t, n, b, Some(t.prefixes[p]));
    }
  }

  lemma ShorterPrefixDisagrees(servers: Servers, t: Table, n: string, b: string, route: Option<Route>)
    requires b in servers && !Served(servers, n) && IsPrefixRoute(t, n, route) && route.Some?
    requires Matches(servers[b], n) && |route.value.prefix| < |servers[b].cfg.prefix|
    ensures !FallbacksAgree(servers, t, n)
  {
    var c := LongestExists(servers, n, b);
    assert IsServerInfo(servers, n, Some(servers[c].cfg));
  }

  lemma LongestExists(servers: Servers, n: string, b: string) returns (c: string)
    requires b in servers && Matches(servers[b], n)
    ensures IsLongest(servers, n, c) && |servers[c].cfg.prefix| >= |servers[b].cfg.prefix|
    decreases |n| - |servers[b].cfg.prefix|
  {
    if i :| i in servers && Matches(servers[i], n) && |servers[i].cfg.prefix| > |servers[b].cfg.prefix| {
      c := LongestExists(servers, n, i);
    } else {
      c := b;
    }
  }

  lemma SharedPrefixDisagrees(servers: Servers, t: Table, n: string, a: string, b: string, route: Option<Route>)
    requires a in servers && b in servers && a != b && !Served(servers, n) && IsPrefixRoute(t, n, route) && route.Some?
    requires ID(servers[a].cfg) == a && ID(servers[b].cfg) == b && servers[a].cfg.prefix == servers[b].cfg.prefix
    requires Matches(servers[a], n) && Matches(servers[b], n) && route.value.prefix == servers[a].cfg.prefix
    ensures !FallbacksAgree(servers, t, n)
  {
    var c := LongestExists(servers, n, a);
    assert IsServerInfo(servers, n, Some(servers[c].cfg));
    if |servers[c].cfg.prefix| == |servers[a].cfg.prefix| {
      assert IsLongest(servers, n, a) && IsLongest(servers, n, b);
      assert IsServerInfo(servers, n, Some(servers[a].cfg)) && IsServerInfo(servers, n, Some(servers[b].cfg));
      assert RouteOf(servers[a].cfg) != RouteOf(servers[b].cfg);
    }
  }
}
