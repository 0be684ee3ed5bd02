/** MCPManager of internal/broker/upstream/manager.go: one manage pass, and the failure counter and
    status it maintains. */
module Manager {

  import opened Text
  import opened Registry

  const MAX_CONSECUTIVE_FAILURES := 3

  datatype Status = Status(ready: bool, totalTools: nat, totalPrompts: nat)

  /** A manager's fields; the server's configuration fixes the first three. */
  datatype State = State(owner: Owner, userSpecific: bool, rejectInvalid: bool,
                         tools: Catalog, prompts: Catalog, failures: nat, status: Status)

  function Fresh(owner: Owner, userSpecific: bool, rejectInvalid: bool): State {
    State(owner, userSpecific, rejectInvalid, NOTHING, NOTHING, 0, Status(false, 0, 0))
  }

  datatype Gateway = Gateway(tools: Shelf, prompts: Shelf)

  datatype EventKind = Timer | ToolNotification | PromptNotification

  /** What the upstream answered, after validation: the valid items and the number of invalid ones. */
  datatype Listing = ListFailed | Listed(valid: seq<Item>, invalid: nat)

  /** One manage pass as the outside world determines it. */
  datatype Pass = Pass(event: EventKind, enabled: bool, connects: bool, pings: bool,
                       tools: Listing, supportsPrompts: bool, prompts: Listing)

  /** The diffs the pass computed; only their order is free. */
  datatype Diffs = Diffs(tools: Diff, prompts: Diff)

  predicate FetchesTools(p: Pass) {
    p.event != PromptNotification
  }

  predicate FetchesPrompts(p: Pass) {
    p.supportsPrompts && p.event != ToolNotification
  }

  // ---- one kind of item ----

  /** touched: the gateway was asked to add or delete something, which rebuilds the routing table. */
  datatype Change = Change(catalog: Catalog, shelf: Shelf, ok: bool, touched: bool)

  function RemoveAll(c: Catalog, shelf: Shelf, ok: bool): Change {
    Change(NOTHING, Take(shelf, Names(c.served)), ok, c.served != [])
  }

  function Sync(o: Owner, c: Catalog, shelf: Shelf, l: Listing, reject: bool, d: Diff): Change {
    match l
    case ListFailed => Change(c, shelf, false, false)
    case Listed(valid, invalid) =>
      if Rejected(l, reject) then RemoveAll(c, shelf, false)
      else if Conflicts(shelf, o.id, d.added) then Change(c, shelf, false, false)
      else Change(Relisted(o, c, valid, d), Put(Take(shelf, d.removed), d.added), true, d.added != [] || d.removed != [])
  }

  predicate Rejected(l: Listing, reject: bool) {
    l.Listed? && l.invalid > 0 && reject
  }

  ghost predicate DiffOk(o: Owner, c: Catalog, l: Listing, reject: bool, d: Diff) {
    l.Listed? && !Rejected(l, reject) ==> IsDiff(o, c.items, l.valid, d)
  }

  /** One kind's share of a pass that got through to the upstream. */
  function Visit(fetches: bool, o: Owner, c: Catalog, shelf: Shelf, l: Listing, reject: bool, d: Diff): Change {
    if fetches then Sync(o, c, shelf, l, reject, d) else Change(c, shelf, true, false)
  }

  /** The catalog and the shelf agree after the change, and only this owner's entries changed. */
  ghost predicate Sound(o: Owner, shelf: Shelf, catalog': Catalog, shelf': Shelf) {
    Labelled(shelf') && InStep(o, catalog', shelf') && OthersKept(o.id, shelf, shelf')
  }

  lemma VisitIsSound(fetches: bool, o: Owner, c: Catalog, shelf: Shelf, l: Listing, reject: bool, d: Diff)
    requires Labelled(shelf) && InStep(o, c, shelf) && (fetches ==> DiffOk(o, c, l, reject, d))
    ensures var r := Visit(fetches, o, c, shelf, l, reject, d); Sound(o, shelf, r.catalog, r.shelf)
  {
    if fetches && l.Listed? {
      if Rejected(l, reject) {
        RemoveAllKeepsStep(o, c, shelf);
      } else if !Conflicts(shelf, o.id, d.added) {
        RelistKeepsStep(o, c, shelf, l.valid, d);
      }
    }
  }

  // ---- one pass ----

  datatype Outcome = Outcome(state: State, gateway: Gateway, touched: bool)

  function WithdrawAll(m: State, g: Gateway): Outcome {
    var t, p := RemoveAll(m.tools, g.tools, true), RemoveAll(m.prompts, g.prompts, true);
    Outcome(m.(tools := t.catalog, prompts := p.catalog), Gateway(t.shelf, p.shelf), t.touched || p.touched)
  }

  function Unready(o: Outcome, failures: nat): Outcome {
    o.(state := o.state.(failures := failures, status := o.state.status.(ready := false)))
  }

  /** Connecting or pinging failed once more. */
  function Fail(m: State, g: Gateway): Outcome {
    Unready(if m.failures + 1 >= MAX_CONSECUTIVE_FAILURES then WithdrawAll(m, g) else Outcome(m, g, false), m.failures + 1)
  }

  /** The upstream answered: list, diff, check for conflicts, publish. */
  function Refresh(m: State, g: Gateway, p: Pass, d: Diffs): Outcome {
    var t := Visit(FetchesTools(p), m.owner, m.tools, g.tools, p.tools, m.rejectInvalid, d.tools);
    var q := Visit(FetchesPrompts(p), m.owner, m.prompts, g.prompts, p.prompts, false, d.prompts);
    var status := if t.ok && q.ok then Status(true, |t.catalog.items|, |q.catalog.items|) else m.status.(ready := false);
    Outcome(m.(tools := t.catalog, prompts := q.catalog, failures := 0, status := status), Gateway(t.shelf, q.shelf),
            t.touched || q.touched)
  }

  function AfterPass(m: State, g: Gateway, p: Pass, d: Diffs): Outcome {
    if !p.enabled then Unready(WithdrawAll(m, g), 0)
    else if !p.connects || !p.pings then Fail(m, g)
    else if m.userSpecific then Outcome(m.(failures := 0, status := m.status.(ready := true)), g, false)
    else Refresh(m, g, p, d)
  }

  /** The pass gets as far as listing. */
  predicate Lists(m: State, p: Pass) {
    p.enabled && p.connects && p.pings && !m.userSpecific
  }

  /** The diffs are ones this pass can compute. */
  ghost predicate DiffsOk(m: State, p: Pass, d: Diffs) {
    Lists(m, p) ==>
      && (FetchesTools(p) ==> DiffOk(m.owner, m.tools, p.tools, m.rejectInvalid, d.tools))
      && (FetchesPrompts(p) ==> DiffOk(m.owner, m.prompts, p.prompts, false, d.prompts))
  }

  /** The manager and the gateway agree on what this server publishes. */
  ghost predicate InAgreement(m: State, g: Gateway) {
    InStep(m.owner, m.tools, g.tools) && InStep(m.owner, m.prompts, g.prompts)
  }

  ghost predicate AllLabelled(g: Gateway) {
    Labelled(g.tools) && Labelled(g.prompts)
  }

  ghost predicate SoundOutcome(m: State, g: Gateway, o: Outcome) {
    && o.state.owner == m.owner
    && Sound(m.owner, g.tools, o.state.tools, o.gateway.tools)
    && Sound(m.owner, g.prompts, o.state.prompts, o.gateway.prompts)
  }

  lemma WithdrawIsSound(m: State, g: Gateway)
    requires AllLabelled(g) && InAgreement(m, g)
    ensures SoundOutcome(m, g, WithdrawAll(m, g))
  {
    RemoveAllKeepsStep(m.owner, m.tools, g.tools);
    RemoveAllKeepsStep(m.owner, m.prompts, g.prompts);
  }

  lemma RefreshIsSound(m: State, g: Gateway, p: Pass, d: Diffs)
    requires AllLabelled(g) && InAgreement(m, g) && Lists(m, p) && DiffsOk(m, p, d)
    ensures SoundOutcome(m, g, Refresh(m, g, p, d))
  {
    VisitIsSound(FetchesTools(p), m.owner, m.tools, g.tools, p.tools, m.rejectInvalid, d.tools);
    VisitIsSound(FetchesPrompts(p), m.owner, m.prompts, g.prompts, p.prompts, false, d.prompts);
  }

  /** One pass, whatever the upstream does: the manager and the gateway stay in agreement, and no
      entry of any other server or of the broker itself is overwritten, deleted or added. */
  lemma PassIsSound(m: State, g: Gateway, p: Pass, d: Diffs)
    requires AllLabelled(g) && InAgreement(m, g) && DiffsOk(m, p, d)
    ensures SoundOutcome(m, g, AfterPass(m, g, p, d))
  {
    if !p.enabled {
      WithdrawIsSound(m, g);
    } else if !p.connects || !p.pings {
      WithdrawIsSound(m, g);
      assert SoundOutcome(m, g, Outcome(m, g, false));
    } else if m.userSpecific {
      assert SoundOutcome(m, g, Outcome(m, g, false));
    } else {
      RefreshIsSound(m, g, p, d);
    }
  }

  // ---- what a pass achieves ----

  /** A name listed for the first time is held by another owner. */
  predicate Clashes(o: Owner, c: Catalog, shelf: Shelf, valid: seq<Item>) {
    exists n :: n in ByName(valid) && n !in ByName(c.items) && o.prefix + n in shelf && shelf[o.prefix + n].owner != o.id
  }

  /** The listing of one kind can be published. */
  predicate Publishable(o: Owner, c: Catalog, shelf: Shelf, l: Listing, reject: bool) {
    l.Listed? && (reject ==> l.invalid == 0) && !Clashes(o, c, shelf, l.valid)
  }

  lemma ConflictIsClash(o: Owner, c: Catalog, shelf: Shelf, valid: seq<Item>, d: Diff)
    requires IsDiff(o, c.items, valid, d)
    ensures Conflicts(shelf, o.id, d.added) <==> Clashes(o, c, shelf, valid)
  {
    if i :| 0 <= i < |d.added| && d.added[i].name in shelf && shelf[d.added[i].name].owner != o.id {
      assert d.added[i] in d.added;
      var n :| n in ByName(valid) && n !in ByName(c.items) && d.added[i] == Publish(o, ByName(valid)[n]);
    }
    if n :| n in ByName(valid) && n !in ByName(c.items) && o.prefix + n in shelf && shelf[o.prefix + n].owner != o.id {
      assert Publish(o, ByName(valid)[n]) in d.added;
    }
  }

  lemma VisitSucceedsIff(fetches: bool, o: Owner, c: Catalog, shelf: Shelf, l: Listing, reject: bool, d: Diff)
    requires fetches ==> DiffOk(o, c, l, reject, d)
    ensures var r := Visit(fetches, o, c, shelf, l, reject, d);
            && (r.ok <==> !fetches || Publishable(o, c, shelf, l, reject))
            && (fetches && r.ok ==> r.catalog.items == l.valid)
  {
    if fetches && l.Listed? && !Rejected(l, reject) {
      ConflictIsClash(o, c, shelf, l.valid, d);
    }
  }

  /** A pass ends Ready exactly when the upstream is reachable and everything it was asked to list can
      be published. */
  lemma ReadyIff(m: State, g: Gateway, p: Pass, d: Diffs)
    requires DiffsOk(m, p, d)
    ensures AfterPass(m, g, p, d).state.status.ready <==>
              && p.enabled && p.connects && p.pings
              && (m.userSpecific
                  || ((p.event != PromptNotification ==> Publishable(m.owner, m.tools, g.tools, p.tools, m.rejectInvalid))
                      && (p.supportsPrompts && p.event != ToolNotification ==>
                            Publishable(m.owner, m.prompts, g.prompts, p.prompts, false))))
  {
    if Lists(m, p) {
      VisitSucceedsIff(FetchesTools(p), m.owner, m.tools, g.tools, p.tools, m.rejectInvalid, d.tools);
      VisitSucceedsIff(FetchesPrompts(p), m.owner, m.prompts, g.prompts, p.prompts, false, d.prompts);
    }
  }

  /** After a pass that listed and ended Ready, the gateway serves for this server exactly the tools the
      upstream listed, unless only prompts were to be listed, and exactly the prompts it listed, unless
      it has none or only tools were to be listed; what was not to be listed is left as it was. */
  lemma ReadyServesTheListing(m: State, g: Gateway, p: Pass, d: Diffs, n: string)
    requires AllLabelled(g) && InAgreement(m, g) && DiffsOk(m, p, d)
    requires Lists(m, p) && AfterPass(m, g, p, d).state.status.ready
    ensures var g' := AfterPass(m, g, p, d).gateway;
            if p.event == PromptNotification then g'.tools == g.tools
            else
              && p.tools.Listed?
              && (n in g'.tools && g'.tools[n].owner == m.owner.id <==> exists i :: i in p.tools.valid && n == m.owner.prefix + i.name)
    ensures var g' := AfterPass(m, g, p, d).gateway;
            if p.event == ToolNotification || !p.supportsPrompts then g'.prompts == g.prompts
            else
              && p.prompts.Listed?
              && (n in g'.prompts && g'.prompts[n].owner == m.owner.id <==> exists i :: i in p.prompts.valid && n == m.owner.prefix + i.name)
  {
    PassIsSound(m, g, p, d);
    VisitSucceedsIff(FetchesTools(p), m.owner, m.tools, g.tools, p.tools, m.rejectInvalid, d.tools);
    VisitSucceedsIff(FetchesPrompts(p), m.owner, m.prompts, g.prompts, p.prompts, false, d.prompts);
  }

  /** What one kind's listing does to the shelf: a failed or clashing one nothing, a rejected one takes
      away everything of this owner, and any other leaves this owner exactly what is listed. */
  predicate ListingDecides(o: Owner, c: Catalog, before: Shelf, after: Shelf, l: Listing, reject: bool, n: string) {
    var own := n in after && after[n].owner == o.id;
    match l
    case ListFailed => after == before
    case Listed(valid, invalid) =>
      if reject && invalid > 0 then !own
      else if Clashes(o, c, before, valid) then after == before
      else own <==> exists i :: i in valid && n == o.prefix + i.name
  }

  lemma VisitDecides(o: Owner, c: Catalog, shelf: Shelf, l: Listing, reject: bool, d: Diff, n: string)
    requires Labelled(shelf) && InStep(o, c, shelf) && DiffOk(o, c, l, reject, d)
    ensures ListingDecides(o, c, shelf, Visit(true, o, c, shelf, l, reject, d).shelf, l, reject, n)
  {
    VisitIsSound(true, o, c, shelf, l, reject, d);
    if l.Listed? && !Rejected(l, reject) {
      ConflictIsClash(o, c, shelf, l.valid, d);
    }
  }

  /** Every pass that gets through to listing, Ready or not, for tools and prompts separately. */
  lemma PassDecides(m: State, g: Gateway, p: Pass, d: Diffs, n: string)
    requires AllLabelled(g) && InAgreement(m, g) && DiffsOk(m, p, d) && Lists(m, p)
    ensures var g' := AfterPass(m, g, p, d).gateway;
            if p.event == PromptNotification then g'.tools == g.tools
            else ListingDecides(m.owner, m.tools, g.tools, g'.tools, p.tools, m.rejectInvalid, n)
    ensures var g' := AfterPass(m, g, p, d).gateway;
            if p.event == ToolNotification || !p.supportsPrompts then g'.prompts == g.prompts
            else ListingDecides(m.owner, m.prompts, g.prompts, g'.prompts, p.prompts, false, n)
  {
    if FetchesTools(p) {
      VisitDecides(m.owner, m.tools, g.tools, p.tools, m.rejectInvalid, d.tools, n);
    }
    if FetchesPrompts(p) {
      VisitDecides(m.owner, m.prompts, g.prompts, p.prompts, false, d.prompts, n);
    }
  }

  lemma VisitTouches(fetches: bool, o: Owner, c: Catalog, shelf: Shelf, l: Listing, reject: bool, d: Diff)
    requires Labelled(shelf) && InStep(o, c, shelf) && (fetches ==> DiffOk(o, c, l, reject, d))
    ensures var r := Visit(fetches, o, c, shelf, l, reject, d); r.touched <==> r.shelf != shelf
  {
    if fetches && l.Listed? {
      if Rejected(l, reject) {
        RemovalTouches(o, c, shelf, false);
      } else if !Conflicts(shelf, o.id, d.added) {
        RelistTouches(o, c, shelf, l.valid, d);
      }
    }
  }

  lemma RemovalTouches(o: Owner, c: Catalog, shelf: Shelf, ok: bool)
    requires InStep(o, c, shelf)
    ensures var r := RemoveAll(c, shelf, ok); r.touched <==> r.shelf != shelf
  {
    if c.served != [] {
      assert c.served[0] in c.served && Names(c.served)[0] == c.served[0].name;
    }
  }

  lemma RelistTouches(o: Owner, c: Catalog, shelf: Shelf, valid: seq<Item>, d: Diff)
    requires InStep(o, c, shelf) && IsDiff(o, c.items, valid, d) && !Conflicts(shelf, o.id, d.added)
    ensures d.added != [] || d.removed != [] <==> Put(Take(shelf, d.removed), d.added) != shelf
  {
    AddedIsFresh(o, c, shelf, valid, d);
    RemovedIsOwn(o, c, shelf, valid, d);
    var after := Put(Take(shelf, d.removed), d.added);
    if d.added != [] {
      assert d.added[0].name in after;
    } else if d.removed != [] {
      assert d.removed[0] in d.removed && d.removed[0] !in after;
    }
  }

  /** The routing table is rebuilt by exactly those passes that change what the gateway serves. */
  lemma TouchedIff(m: State, g: Gateway, p: Pass, d: Diffs)
    requires AllLabelled(g) && InAgreement(m, g) && DiffsOk(m, p, d)
    ensures var o := AfterPass(m, g, p, d); o.touched <==> o.gateway != g
  {
    RemovalTouches(m.owner, m.tools, g.tools, true);
    RemovalTouches(m.owner, m.prompts, g.prompts, true);
    if Lists(m, p) {
      VisitTouches(FetchesTools(p), m.owner, m.tools, g.tools, p.tools, m.rejectInvalid, d.tools);
      VisitTouches(FetchesPrompts(p), m.owner, m.prompts, g.prompts, p.prompts, false, d.prompts);
    }
  }

  // ---- failures and status ----

  /** What holds of the failure counter and the status between passes. */
  ghost predicate Healthy(m: State) {
    && (m.failures >= MAX_CONSECUTIVE_FAILURES ==> m.tools == NOTHING && m.prompts == NOTHING)
    && (m.status.ready ==> m.failures == 0 && m.status.totalTools == |m.tools.items| && m.status.totalPrompts == |m.prompts.items|)
    && (m.userSpecific ==> m.tools == NOTHING && m.prompts == NOTHING && m.status.totalTools == 0 && m.status.totalPrompts == 0)
  }

  lemma PassKeepsHealthy(m: State, g: Gateway, p: Pass, d: Diffs)
    requires Healthy(m)
    ensures Healthy(AfterPass(m, g, p, d).state)
  {
  }

  predicate ConnectionFails(p: Pass) {
    p.enabled && !(p.connects && p.pings)
  }

  /** A pass with the diffs it computed. */
  datatype Step = Step(pass: Pass, diffs: Diffs)

  function RunPasses(m: State, g: Gateway, steps: seq<Step>): Outcome
    decreases |steps|
  {
    if steps == [] then Outcome(m, g, false)
    else
      var o, last := RunPasses(m, g, steps[..|steps| - 1]), steps[|steps| - 1];
      AfterPass(o.state, o.gateway, last.pass, last.diffs)
  }

  /** How many passes at the end of a trace failed to connect, in a row. */
  function TrailingFailures(steps: seq<Step>): nat {
    if steps == [] || !ConnectionFails(steps[|steps| - 1].pass) then 0
    else 1 + TrailingFailures(steps[..|steps| - 1])
  }

  /** Over any trace from a new manager: the counter is the number of failures in a row, three or
      more of them mean nothing is published, and Ready means that the last pass reached the server and
      that the totals match the lists. */
  lemma {:induction false} StatusIsTruthful(owner: Owner, userSpecific: bool, reject: bool, g: Gateway, steps: seq<Step>)
    ensures var o := RunPasses(Fresh(owner, userSpecific, reject), g, steps).state;
            && o.owner == owner && o.failures == TrailingFailures(steps)
            && (o.failures >= 3 ==> o.tools == NOTHING && o.prompts == NOTHING)
            && (o.status.ready ==>
                  && steps != [] && steps[|steps| - 1].pass.enabled && !ConnectionFails(steps[|steps| - 1].pass)
                  && o.status.totalTools == |o.tools.items| && o.status.totalPrompts == |o.prompts.items|)
            && Healthy(o)
    decreases |steps|
  {
    if steps != [] {
      var o, last := RunPasses(Fresh(owner, userSpecific, reject), g, steps[..|steps| - 1]), steps[|steps| - 1];
      StatusIsTruthful(owner, userSpecific, reject, g, steps[..|steps| - 1]);
      PassKeepsHealthy(o.state, o.gateway, last.pass, last.diffs);
      PassCounts(o.state, o.gateway, last.pass, last.diffs);
    }
  }

  lemma PassCounts(m: State, g: Gateway, p: Pass, d: Diffs)
    ensures AfterPass(m, g, p, d).state.failures == if ConnectionFails(p) then m.failures + 1 else 0
  {
  }

  /** A burst of connection failures: what is published survives it untouched while fewer than three
      have accumulated, and is all withdrawn from the third on. */
  lemma {:induction false} FailureBurst(m: State, g: Gateway, steps: seq<Step>)
    requires Healthy(m) && forall i :: 0 <= i < |steps| ==> ConnectionFails(steps[i].pass)
    ensures var o := RunPasses(m, g, steps);
            && o.state.failures == m.failures + |steps|
            && (o.state.failures < 3 ==> o.state.tools == m.tools && o.state.prompts == m.prompts && o.gateway == g)
            && (o.state.failures >= 3 ==> o.state.tools == NOTHING && o.state.prompts == NOTHING)
            && (steps != [] ==> !o.state.status.ready)
    decreases |steps|
  {
    if steps != [] {
      FailureBurst(m, g, steps[..|steps| - 1]);
    }
  }

  /** Nothing in the catalogs means nothing of this server on the gateway. */
  lemma NothingPublished(m: State, g: Gateway)
    requires InAgreement(m, g) && m.tools == NOTHING && m.prompts == NOTHING
    ensures forall n :: n in g.tools ==> g.tools[n].owner != m.owner.id
    ensures forall n :: n in g.prompts ==> g.prompts[n].owner != m.owner.id
  {
    assert forall n :: n !in m.tools.byServed && n !in m.prompts.byServed;
  }

  // ---- the objects ----

  /** signalled: onTableChange was called, which rebuilds the routing table. */
  class GatewayServer {
    var tools: Shelf
    var prompts: Shelf
    var signalled: bool

    function View(): Gateway
      reads this
    {
      Gateway(tools, prompts)
    }

    method AddTools(added: seq<Published>)
      modifies this`tools, this`signalled
      ensures tools == Put(old(tools), added) && signalled == (old(signalled) || added != [])
    {
      if |added| == 0 {
        return;
      }
      for i := 0 to |added|
        invariant tools == Put(old(tools), added[..i]) && signalled == old(signalled)
      {
        assert added[..i + 1][..i] == added[..i];
        tools := tools[added[i].name := added[i]];
      }
      assert added[..|added|] == added;
      signalled := true;
    }

    method DeleteTools(names: seq<string>)
      modifies this`tools, this`signalled
      ensures tools == Take(old(tools), names) && signalled == (old(signalled) || names != [])
    {
      if |names| == 0 {
        return;
      }
      for i := 0 to |names|
        invariant tools == Take(old(tools), names[..i]) && signalled == old(signalled)
      {
        assert names[..i + 1] == names[..i] + [names[i]];
        tools := tools - {names[i]};
      }
      assert names[..|names|] == names;
      signalled := true;
    }

    method AddPrompts(added: seq<Published>)
      modifies this`prompts, this`signalled
      ensures prompts == Put(old(prompts), added) && signalled == (old(signalled) || added != [])
    {
      if |added| == 0 {
        return;
      }
      for i := 0 to |added|
        invariant prompts == Put(old(prompts), added[..i]) && signalled == old(signalled)
      {
        assert added[..i + 1][..i] == added[..i];
        prompts := prompts[added[i].name := added[i]];
      }
      assert added[..|added|] == added;
      signalled := true;
    }

    method DeletePrompts(names: seq<string>)
      modifies this`prompts, this`signalled
      ensures prompts == Take(old(prompts), names) && signalled == (old(signalled) || names != [])
    {
      if |names| == 0 {
        return;
      }
      for i := 0 to |names|
        invariant prompts == Take(old(prompts), names[..i]) && signalled == old(signalled)
      {
        assert names[..i + 1] == names[..i] + [names[i]];
        prompts := prompts - {names[i]};
      }
      assert names[..|names|] == names;
      signalled := true;
    }
  }

  class MCPManager {
    const owner: Owner
    const userSpecific: bool
    const rejectInvalid: bool
    const gateway: GatewayServer
    var tools: seq<Item>
    var serverTools: seq<Published>
    var toolsMap: map<string, Item>
    var servedToolsMap: map<string, Item>
    var prompts: seq<Item>
    var serverPrompts: seq<Published>
    var promptsMap: map<string, Item>
    var servedPromptsMap: map<string, Item>
    var consecutiveFailures: nat
    var status: Status

    function Tools(): Catalog
      reads this`tools, this`serverTools, this`toolsMap, this`servedToolsMap
    {
      Catalog(tools, serverTools, toolsMap, servedToolsMap)
    }

    function Prompts(): Catalog
      reads this`prompts, this`serverPrompts, this`promptsMap, this`servedPromptsMap
    {
      Catalog(prompts, serverPrompts, promptsMap, servedPromptsMap)
    }

    function View(): State
      reads this
    {
      State(owner, userSpecific, rejectInvalid, Tools(), Prompts(), consecutiveFailures, status)
    }

    constructor (owner: Owner, userSpecific: bool, rejectInvalid: bool, gateway: GatewayServer)
      ensures View() == Fresh(owner, userSpecific, rejectInvalid) && this.gateway == gateway
    {
      this.owner, this.userSpecific, this.rejectInvalid, this.gateway := owner, userSpecific, rejectInvalid, gateway;
      tools, serverTools, toolsMap, servedToolsMap := [], [], map[], map[];
      prompts, serverPrompts, promptsMap, servedPromptsMap := [], [], map[], map[];
      consecutiveFailures := 0;
      status := Status(false, 0, 0);
    }

    method RemoveAllTools()
      modifies this`tools, this`serverTools, this`toolsMap, this`servedToolsMap, gateway`tools, gateway`signalled
      ensures var r := RemoveAll(old(Tools()), old(gateway.tools), true);
              Tools() == r.catalog && gateway.tools == r.shelf && gateway.signalled == (old(gateway.signalled) || r.touched)
    {
      var names := ServedNames(serverTools);
      serverTools, tools, toolsMap, servedToolsMap := [], [], map[], map[];
      gateway.DeleteTools(names);
    }

    method RemoveAllPrompts()
      modifies this`prompts, this`serverPrompts, this`promptsMap, this`servedPromptsMap, gateway`prompts, gateway`signalled
      ensures var r := RemoveAll(old(Prompts()), old(gateway.prompts), true);
              Prompts() == r.catalog && gateway.prompts == r.shelf && gateway.signalled == (old(gateway.signalled) || r.touched)
    {
      var names := ServedNames(serverPrompts);
      serverPrompts, prompts, promptsMap, servedPromptsMap := [], [], map[], map[];
      gateway.DeletePrompts(names);
    }

    method PublishTools(valid: seq<Item>, added: seq<Published>, removed: seq<string>)
      modifies this`tools, this`serverTools, this`toolsMap, this`servedToolsMap, gateway`tools, gateway`signalled
      ensures Tools() == Relisted(owner, old(Tools()), valid, Diff(added, removed))
      ensures gateway.tools == Put(Take(old(gateway.tools), removed), added)
      ensures gateway.signalled == (old(gateway.signalled) || added != [] || removed != [])
    {
      tools := valid;
      toolsMap := IndexItems(valid);
      servedToolsMap := IndexServed(owner, valid);
      var kept := DeleteServed(serverTools, removed);
      serverTools := kept + added;
      assert Take(gateway.tools, []) == gateway.tools;
      if |removed| > 0 {
        gateway.DeleteTools(removed);
      }
      if |added| > 0 {
        gateway.AddTools(added);
      }
    }

    method SyncTools(l: Listing) returns (ok: bool, ghost d: Diff)
      modifies this`tools, this`serverTools, this`toolsMap, this`servedToolsMap, gateway`tools, gateway`signalled
      ensures DiffOk(owner, old(Tools()), l, rejectInvalid, d)
      ensures var r := Sync(owner, old(Tools()), old(gateway.tools), l, rejectInvalid, d);
              Tools() == r.catalog && gateway.tools == r.shelf && ok == r.ok && gateway.signalled == (old(gateway.signalled) || r.touched)
    {
      ok, d := false, Diff([], []);
      if l.ListFailed? {
        return;
      }
      if l.invalid > 0 && rejectInvalid {
        RemoveAllTools();
        return;
      }
      var added, removed := DiffItems(owner, tools, l.valid);
      d := Diff(added, removed);
      var conflict := FindConflicts(gateway.tools, owner.id, added);
      if conflict {
        return;
      }
      PublishTools(l.valid, added, removed);
      ok := true;
    }

    method PublishPrompts(valid: seq<Item>, added: seq<Published>, removed: seq<string>)
      modifies this`prompts, this`serverPrompts, this`promptsMap, this`servedPromptsMap, gateway`prompts, gateway`signalled
      ensures Prompts() == Relisted(owner, old(Prompts()), valid, Diff(added, removed))
      ensures gateway.prompts == Put(Take(old(gateway.prompts), removed), added)
      ensures gateway.signalled == (old(gateway.signalled) || added != [] || removed != [])
    {
      prompts := valid;
      promptsMap := IndexItems(valid);
      servedPromptsMap := IndexServed(owner, valid);
      var kept := DeleteServed(serverPrompts, removed);
      serverPrompts := kept + added;
      assert Take(gateway.prompts, []) == gateway.prompts;
      if |removed| > 0 {
        gateway.DeletePrompts(removed);
      }
      if |added| > 0 {
        gateway.AddPrompts(added);
      }
    }

    method SyncPrompts(l: Listing) returns (ok: bool, ghost d: Diff)
      modifies this`prompts, this`serverPrompts, this`promptsMap, this`servedPromptsMap, gateway`prompts, gateway`signalled
      ensures DiffOk(owner, old(Prompts()), l, false, d)
      ensures var r := Sync(owner, old(Prompts()), old(gateway.prompts), l, false, d);
              Prompts() == r.catalog && gateway.prompts == r.shelf && ok == r.ok && gateway.signalled == (old(gateway.signalled) || r.touched)
    {
      ok, d := false, Diff([], []);
      if l.ListFailed? {
        return;
      }
      var added, removed := DiffItems(owner, prompts, l.valid);
      d := Diff(added, removed);
      var conflict := FindConflicts(gateway.prompts, owner.id, added);
      if conflict {
        return;
      }
      PublishPrompts(l.valid, added, removed);
      ok := true;
    }

    method SetStatus(ok: bool, toolCount: nat, promptCount: nat)
      modifies this`status
      ensures status == if ok then Status(true, toolCount, promptCount) else old(status).(ready := false)
    {
      if !ok {
        status := status.(ready := false);
      } else {
        status := Status(true, toolCount, promptCount);
      }
    }

    method HandleConnectionFailure(toolCount: nat, promptCount: nat)
      modifies this, gateway
      ensures var o := Fail(old(View()), old(gateway.View()));
              View() == o.state && gateway.View() == o.gateway && gateway.signalled == (old(gateway.signalled) || o.touched)
    {
      consecutiveFailures := consecutiveFailures + 1;
      if consecutiveFailures >= MAX_CONSECUTIVE_FAILURES {
        RemoveAllTools();
        RemoveAllPrompts();
      }
      SetStatus(false, toolCount, promptCount);
    }

    /** manage: p holds what the upstream answers on the way. */
    method Manage(p: Pass) returns (ghost d: Diffs)
      modifies this, gateway
      ensures DiffsOk(old(View()), p, d)
      ensures var o := AfterPass(old(View()), old(gateway.View()), p, d);
              View() == o.state && gateway.View() == o.gateway && gateway.signalled == (old(gateway.signalled) || o.touched)
    {
      d := Diffs(Diff([], []), Diff([], []));
      if !p.enabled {
        RemoveAllTools();
        RemoveAllPrompts();
        consecutiveFailures := 0;
        SetStatus(false, 0, 0);
        return;
      }
      var toolCount, promptCount := |tools|, |prompts|;
      if !p.connects {
        HandleConnectionFailure(toolCount, promptCount);
        return;
      }
      if !p.pings {
        HandleConnectionFailure(toolCount, promptCount);
        return;
      }
      consecutiveFailures := 0;
      if userSpecific {
        status := status.(ready := true);
        return;
      }
      d := RefreshLists(p, toolCount, promptCount);
    }

    method RefreshLists(p: Pass, toolCount: nat, promptCount: nat) returns (ghost d: Diffs)
      requires toolCount == |tools| && promptCount == |prompts| && consecutiveFailures == 0
      modifies this`tools, this`serverTools, this`toolsMap, this`servedToolsMap, this`prompts, this`serverPrompts,
               this`promptsMap, this`servedPromptsMap, this`status, gateway
      ensures FetchesTools(p) ==> DiffOk(owner, old(Tools()), p.tools, rejectInvalid, d.tools)
      ensures FetchesPrompts(p) ==> DiffOk(owner, old(Prompts()), p.prompts, false, d.prompts)
      ensures var o := Refresh(old(View()), old(gateway.View()), p, d);
              View() == o.state && gateway.View() == o.gateway && gateway.signalled == (old(gateway.signalled) || o.touched)
    {
      var toolTotal, promptTotal := toolCount, promptCount;
      var toolsOk, promptsOk := true, true;
      ghost var td, pd := Diff([], []), Diff([], []);
      if FetchesTools(p) {
        toolsOk, td := SyncTools(p.tools);
        toolTotal := if toolsOk then |p.tools.valid| else toolCount;
      }
      if FetchesPrompts(p) {
        promptsOk, pd := SyncPrompts(p.prompts);
        promptTotal := if promptsOk then |p.prompts.valid| else promptCount;
      }
      d := Diffs(td, pd);
      SetStatus(toolsOk && promptsOk, toolTotal, promptTotal);
    }
  }
}
