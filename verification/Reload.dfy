/** OnConfigChange of internal/broker/broker.go: a reload drops the managers that are gone or out of
    date, stops them one after another, and only then starts replacements. */
module Reload {

  import opened Text
  import opened Config

  const HTTPS := "https://"

  /** A running manager as the broker sees it: its configuration and the CA bundle it was built with. */
  datatype Handle = Handle(cfg: MCPServer, builtWith: string)

  type Handles = map<string, Handle>

  datatype Phase = Idle | Stopping(queue: seq<string>, servers: seq<MCPServer>)

  datatype Action = Started(id: string) | Stopped(id: string)

  /** running: the managers whose loops run; registered: those of them in mcpServers. */
  datatype Life = Life(running: Handles, registered: set<string>, ca: string, configured: seq<MCPServer>, phase: Phase,
                       actions: seq<Action>)

  const NEW := Life(map[], {}, "", [], Idle, [])

  function Ids(servers: seq<MCPServer>): set<string> {
    set s | s in servers :: ID(s)
  }

  // ---- the phases ----

  predicate Outdated(s: MCPServer, running: MCPServer, caChanged: bool) {
    (caChanged && HTTPS <= s.url) || !SameServer(s, running)
  }

  predicate Stale(id: string, running: MCPServer, servers: seq<MCPServer>, caChanged: bool) {
    || id !in Ids(servers)
    || exists s :: s in servers && ID(s) == id && Outdated(s, running, caChanged)
  }

  ghost predicate NoRepeats(q: seq<string>) {
    forall i, j :: 0 <= i < j < |q| ==> q[i] != q[j]
  }

  /** queue lists the stale registered managers once each, in some order. */
  ghost predicate IsStopList(running: Handles, registered: set<string>, servers: seq<MCPServer>, caChanged: bool, queue: seq<string>) {
    && NoRepeats(queue)
    && forall id :: id in queue <==> id in registered && id in running && Stale(id, running[id].cfg, servers, caChanged)
  }

  ghost predicate CanBegin(l: Life, servers: seq<MCPServer>, ca: string, queue: seq<string>) {
    l.phase.Idle? && IsStopList(l.running, l.registered, servers, l.ca != ca, queue)
  }

  function Begin(l: Life, servers: seq<MCPServer>, ca: string, queue: seq<string>): Life {
    l.(ca := ca, registered := l.registered - (set id | id in queue), phase := Stopping(queue, servers))
  }

  predicate CanStop(l: Life) {
    l.phase.Stopping? && l.phase.queue != []
  }

  function Stop(l: Life): Life
    requires CanStop(l)
  {
    var id := l.phase.queue[0];
    l.(running := l.running - {id}, actions := l.actions + [Stopped(id)], phase := Stopping(l.phase.queue[1..], l.phase.servers))
  }

  predicate CanStart(l: Life) {
    l.phase.Stopping? && l.phase.queue == []
  }

  function StartMissing(running: Handles, servers: seq<MCPServer>, ca: string): Handles {
    if servers == [] then running
    else
      var before, last := StartMissing(running, servers[..|servers| - 1], ca), servers[|servers| - 1];
      if ID(last) in before then before else before[ID(last) := Handle(last, ca)]
  }

  function StartActions(running: Handles, servers: seq<MCPServer>, ca: string): seq<Action> {
    if servers == [] then []
    else
      var before, last := servers[..|servers| - 1], servers[|servers| - 1];
      StartActions(running, before, ca) + if ID(last) in StartMissing(running, before, ca) then [] else [Started(ID(last))]
  }

  function Start(l: Life): Life
    requires CanStart(l)
  {
    var running := StartMissing(l.running, l.phase.servers, l.ca);
    l.(running := running, registered := running.Keys, configured := l.phase.servers, phase := Idle,
       actions := l.actions + StartActions(l.running, l.phase.servers, l.ca))
  }

  // ---- what every phase keeps ----

  ghost predicate UniqueIds(servers: seq<MCPServer>) {
    forall i, j :: 0 <= i < j < |servers| ==> ID(servers[i]) != ID(servers[j])
  }

  ghost predicate Named(running: Handles) {
    forall id :: id in running ==> ID(running[id].cfg) == id
  }

  ghost predicate QueueOk(l: Life) {
    match l.phase
    case Idle => l.registered == l.running.Keys
    case Stopping(queue, _) =>
      && NoRepeats(queue)
      && (forall id :: id in l.running <==> id in l.registered || id in queue)
      && (forall id :: id in queue ==> id !in l.registered)
  }

  ghost predicate Matches(running: Handles, ids: set<string>, servers: seq<MCPServer>) {
    forall s :: s in servers && ID(s) in ids && ID(s) in running ==> SameServer(s, running[ID(s)].cfg)
  }

  ghost predicate UpToDate(l: Life) {
    match l.phase
    case Idle => l.registered == Ids(l.configured) && (UniqueIds(l.configured) ==> Matches(l.running, l.registered, l.configured))
    case Stopping(_, servers) => l.registered <= Ids(servers) && Matches(l.running, l.registered, servers)
  }

  ghost predicate TrustOk(l: Life) {
    forall id :: id in l.registered && id in l.running && HTTPS <= l.running[id].cfg.url ==> l.running[id].builtWith == l.ca
  }

  /** The ids started and not yet stopped. */
  function Live(actions: seq<Action>): set<string> {
    if actions == [] then {}
    else
      var live := Live(actions[..|actions| - 1]);
      match actions[|actions| - 1]
      case Started(id) => live + {id}
      case Stopped(id) => live - {id}
  }

  /** Per id, starts and stops alternate, a start first. */
  predicate Alternates(actions: seq<Action>) {
    actions == [] ||
    var live := Live(actions[..|actions| - 1]);
    && Alternates(actions[..|actions| - 1])
    && match actions[|actions| - 1]
       case Started(id) => id !in live
       case Stopped(id) => id in live
  }

  ghost predicate Ordered(actions: seq<Action>, running: Handles) {
    Alternates(actions) && Live(actions) == running.Keys
  }

  ghost predicate OnTrack(l: Life) {
    Named(l.running) && QueueOk(l) && UpToDate(l) && TrustOk(l) && Ordered(l.actions, l.running)
  }

  lemma BeginKeepsOnTrack(l: Life, servers: seq<MCPServer>, ca: string, queue: seq<string>)
    requires OnTrack(l) && CanBegin(l, servers, ca, queue)
    ensures OnTrack(Begin(l, servers, ca, queue))
  {
    var kept := Begin(l, servers, ca, queue).registered;
    forall id | id in kept
      ensures id in Ids(servers) && (HTTPS <= l.running[id].cfg.url ==> l.running[id].builtWith == ca)
    {
      assert id !in queue && !Stale(id, l.running[id].cfg, servers, l.ca != ca);
      var s :| s in servers && ID(s) == id;
      assert !Outdated(s, l.running[id].cfg, l.ca != ca);
    }
    forall s | s in servers && ID(s) in kept
      ensures SameServer(s, l.running[ID(s)].cfg)
    {
      assert !Stale(ID(s), l.running[ID(s)].cfg, servers, l.ca != ca);
      assert !Outdated(s, l.running[ID(s)].cfg, l.ca != ca);
    }
  }

  lemma StopKeepsOrder(actions: seq<Action>, running: Handles, id: string)
    requires Ordered(actions, running) && id in running
    ensures Ordered(actions + [Stopped(id)], running - {id})
  {
    assert (actions + [Stopped(id)])[..|actions|] == actions;
  }

  lemma StopKeepsOnTrack(l: Life)
    requires OnTrack(l) && CanStop(l)
    ensures OnTrack(Stop(l))
  {
    var queue := l.phase.queue;
    assert queue[0] in queue;
    assert forall i :: i in queue <==> i == queue[0] || i in queue[1..];
    StopKeepsOrder(l.actions, l.running, queue[0]);
  }

  /** Starting leaves running managers alone, and covers every configured id. */
  ghost predicate StartsFrom(running: Handles, servers: seq<MCPServer>, ca: string, after: Handles) {
    && (forall id :: id in after <==> id in running || id in Ids(servers))
    && (forall id :: id in running ==> after[id] == running[id])
    && (forall id :: id in after && id !in running ==> after[id].builtWith == ca && after[id].cfg in servers && ID(after[id].cfg) == id)
  }

  lemma {:induction false} StartMissingMeans(running: Handles, servers: seq<MCPServer>, ca: string)
    ensures StartsFrom(running, servers, ca, StartMissing(running, servers, ca))
    decreases |servers|
  {
    if servers != [] {
      var before, last := servers[..|servers| - 1], servers[|servers| - 1];
      StartMissingMeans(running, before, ca);
      assert forall s :: s in servers <==> s == last || s in before;
      assert Ids(servers) == Ids(before) + {ID(last)};
    }
  }

  lemma StartKeepsOrder(actions: seq<Action>, running: Handles, id: string, h: Handle)
    requires Ordered(actions, running) && id !in running
    ensures Ordered(actions + [Started(id)], running[id := h])
  {
    assert (actions + [Started(id)])[..|actions|] == actions;
  }

  lemma {:induction false} StartActionsKeepOrder(actions: seq<Action>, running: Handles, servers: seq<MCPServer>, ca: string)
    requires Ordered(actions, running)
    ensures Ordered(actions + StartActions(running, servers, ca), StartMissing(running, servers, ca))
    decreases |servers|
  {
    if servers == [] {
      assert actions + [] == actions;
    } else {
      var before, last := servers[..|servers| - 1], servers[|servers| - 1];
      StartActionsKeepOrder(actions, running, before, ca);
      var so, up := actions + StartActions(running, before, ca), StartMissing(running, before, ca);
      if ID(last) in up {
        assert actions + StartActions(running, servers, ca) == so;
      } else {
        assert actions + StartActions(running, servers, ca) == so + [Started(ID(last))];
        StartKeepsOrder(so, up, ID(last), Handle(last, ca));
      }
    }
  }

  lemma StartKeepsOnTrack(l: Life)
    requires OnTrack(l) && CanStart(l)
    ensures OnTrack(Start(l))
  {
    var servers := l.phase.servers;
    var after := StartMissing(l.running, servers, l.ca);
    StartMissingMeans(l.running, servers, l.ca);
    StartActionsKeepOrder(l.actions, l.running, servers, l.ca);
    assert after.Keys == Ids(servers);
    if UniqueIds(servers) {
      forall s | s in servers && ID(s) in after
        ensures SameServer(s, after[ID(s)].cfg)
      {
        StartedMatches(l.running, after, servers, l.ca, s);
      }
    }
  }

  lemma StartedMatches(running: Handles, after: Handles, servers: seq<MCPServer>, ca: string, s: MCPServer)
    requires UniqueIds(servers) && s in servers && StartsFrom(running, servers, ca, after) && ID(s) in after
    requires ID(s) in running ==> SameServer(s, running[ID(s)].cfg)
    ensures SameServer(s, after[ID(s)].cfg)
  {
    if ID(s) !in running {
      var i :| 0 <= i < |servers| && servers[i] == s;
      var j :| 0 <= j < |servers| && servers[j] == after[ID(s)].cfg;
      assert !(i < j) && !(j < i);
    }
  }

  // ---- the object ----

  class Broker {
    var mcpServers: Handles
    var gatewayCACertPEM: string

    /** deregisterStaleManagers: the stale managers leave mcpServers and are returned for stopping. */
    method DeregisterStaleManagers(servers: seq<MCPServer>, ca: string) returns (toStop: seq<string>)
      modifies this
      ensures gatewayCACertPEM == ca
      ensures IsStopList(old(mcpServers), old(mcpServers).Keys, servers, old(gatewayCACertPEM) != ca, toStop)
      ensures mcpServers == old(mcpServers) - set id | id in toStop
    {
      var caChanged := gatewayCACertPEM != ca;
      if caChanged {
        gatewayCACertPEM := ca;
      }
      var missing := DropMissing(servers);
      toStop := DropOutdated(old(mcpServers), servers, caChanged, missing);
      forall id | id in old(mcpServers)
        ensures Dropped(id, old(mcpServers)[id].cfg, servers, |servers|, caChanged) <==> Stale(id, old(mcpServers)[id].cfg, servers, caChanged)
      {
        DroppedIsStale(id, old(mcpServers)[id].cfg, servers, caChanged);
      }
    }

    method DropOutdated(ghost was: Handles, servers: seq<MCPServer>, caChanged: bool, missing: seq<string>) returns (toStop: seq<string>)
      requires IsDropped(was, servers, 0, caChanged, missing) && mcpServers == was - set id | id in missing
      modifies this`mcpServers
      ensures IsDropped(was, servers, |servers|, caChanged, toStop) && mcpServers == was - set id | id in toStop
    {
      toStop := missing;
      for i := 0 to |servers|
        invariant IsDropped(was, servers, i, caChanged, toStop) && mcpServers == was - set id | id in toStop
      {
        var s := servers[i];
        ghost var before := toStop;
        if ID(s) in mcpServers {
          if (caChanged && HTTPS <= s.url) || ConfigChanged(s, mcpServers[ID(s)].cfg) {
            toStop := toStop + [ID(s)];
            mcpServers := mcpServers - {ID(s)};
          }
        }
        UnchangedMeans(s, if ID(s) in was then was[ID(s)].cfg else s);
        DropNext(was, servers, i, caChanged, before, toStop);
      }
    }

    method DropMissing(servers: seq<MCPServer>) returns (toStop: seq<string>)
      modifies this`mcpServers
      ensures NoRepeats(toStop) && forall id :: id in toStop <==> id in old(mcpServers) && id !in Ids(servers)
      ensures mcpServers == old(mcpServers) - set id | id in toStop
    {
      toStop := [];
      var ids := mcpServers.Keys;
      while ids != {}
        invariant ids <= mcpServers.Keys && NoRepeats(toStop)
        invariant forall id :: id in toStop <==> id in old(mcpServers) && id !in ids && id !in Ids(servers)
        invariant mcpServers == old(mcpServers) - set id | id in toStop
        decreases ids
      {
        var id :| id in ids;
        ids := ids - {id};
        if !exists s :: s in servers && ID(s) == id {
          toStop := toStop + [id];
          mcpServers := mcpServers - {id};
        }
      }
    }

    /** The loop of startManagers. */
    method StartManagers(servers: seq<MCPServer>) returns (actions: seq<Action>)
      modifies this`mcpServers
      ensures mcpServers == StartMissing(old(mcpServers), servers, gatewayCACertPEM)
      ensures actions == StartActions(old(mcpServers), servers, gatewayCACertPEM)
    {
      actions := [];
      for i := 0 to |servers|
        invariant mcpServers == StartMissing(old(mcpServers), servers[..i], gatewayCACertPEM)
        invariant actions == StartActions(old(mcpServers), servers[..i], gatewayCACertPEM)
      {
        assert servers[..i + 1][..i] == servers[..i];
        var s := servers[i];
        if ID(s) !in mcpServers {
          mcpServers := mcpServers[ID(s) := Handle(s, gatewayCACertPEM)];
          actions := actions + [Started(ID(s))];
        }
      }
      assert servers[..|servers|] == servers;
    }
  }

  /** Stale as far as the first i servers show. */
  predicate Dropped(id: string, running: MCPServer, servers: seq<MCPServer>, i: nat, caChanged: bool)
    requires i <= |servers|
  {
    || id !in Ids(servers)
    || exists k :: 0 <= k < i && ID(servers[k]) == id && Outdated(servers[k], running, caChanged)
  }

  ghost predicate IsDropped(was: Handles, servers: seq<MCPServer>, i: nat, caChanged: bool, toStop: seq<string>)
    requires i <= |servers|
  {
    && NoRepeats(toStop)
    && forall id :: id in toStop <==> id in was && Dropped(id, was[id].cfg, servers, i, caChanged)
  }

  lemma DropNext(was: Handles, servers: seq<MCPServer>, i: nat, caChanged: bool, before: seq<string>, after: seq<string>)
    requires i < |servers| && IsDropped(was, servers, i, caChanged, before)
    requires var id := ID(servers[i]);
             after == if id in was && id !in before && Outdated(servers[i], was[id].cfg, caChanged) then before + [id] else before
    ensures IsDropped(was, servers, i + 1, caChanged, after)
  {
    forall id | id in was
      ensures Dropped(id, was[id].cfg, servers, i + 1, caChanged) <==>
              Dropped(id, was[id].cfg, servers, i, caChanged) || (ID(servers[i]) == id && Outdated(servers[i], was[id].cfg, caChanged))
    {
    }
  }

  lemma DroppedIsStale(id: string, running: MCPServer, servers: seq<MCPServer>, caChanged: bool)
    ensures Dropped(id, running, servers, |servers|, caChanged) <==> Stale(id, running, servers, caChanged)
  {
    if k :| 0 <= k < |servers| && ID(servers[k]) == id && Outdated(servers[k], running, caChanged) {
      assert servers[k] in servers;
    }
    if s :| s in servers && ID(s) == id && Outdated(s, running, caChanged) {
      var k :| 0 <= k < |servers| && servers[k] == s;
    }
  }
}
