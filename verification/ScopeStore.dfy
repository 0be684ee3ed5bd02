/** internal/broker/discovery_scope.go: the capped, expiring store of per-session tool scopes. */
module ScopeStore {

  import opened Text

  datatype Scope = All | Filtered(tools: set<string>)

  datatype Entry = Entry(scope: Scope, expireAt: int)

  datatype Limits = Limits(ttl: int, maxSize: nat)

  type Scopes = map<string, Entry>

  /** The entry with the earliest expiry; which one of several is up to map iteration order. */
  predicate IsOldest(scopes: Scopes, id: string) {
    id in scopes && forall k :: k in scopes ==> scopes[id].expireAt <= scopes[k].expireAt
  }

  /** What a lookup at time now returns; None is scopeUnset. */
  function Get(scopes: Scopes, session: string, now: int): Option<Scope> {
    if session in scopes && now <= scopes[session].expireAt then Some(scopes[session].scope) else None
  }

  class Store {
    var scopes: Scopes
    const limits: Limits

    constructor (limits: Limits)
      ensures this.limits == limits && scopes == map[]
    {
      this.limits, scopes := limits, map[];
    }

    method EvictOldest() returns (ghost victim: string)
      modifies this
      ensures old(scopes) == map[] ==> scopes == map[]
      ensures old(scopes) != map[] ==> IsOldest(old(scopes), victim) && scopes == old(scopes) - {victim}
    {
      victim := "";
      var oldestID, oldestTime, first := "", 0, true;
      var ids := scopes.Keys;
      while ids != {}
        invariant ids <= scopes.Keys && scopes == old(scopes)
        invariant first <==> ids == scopes.Keys
        invariant !first ==> oldestID in scopes && oldestTime == scopes[oldestID].expireAt
        invariant !first ==> forall k :: k in scopes && k !in ids ==> oldestTime <= scopes[k].expireAt
        decreases ids
      {
        var id :| id in ids;
        if first || scopes[id].expireAt < oldestTime {
          oldestID, oldestTime, first := id, scopes[id].expireAt, false;
        }
        ids := ids - {id};
      }
      if !first {
        victim := oldestID;
        scopes := scopes - {oldestID};
      }
    }

    method SetScope(session: string, tools: seq<string>, now: int) returns (ghost victim: string)
      modifies this
      ensures Possible(limits, old(scopes), Set(session, tools, now, victim))
      ensures scopes == Apply(limits, old(scopes), Set(session, tools, now, victim))
    {
      victim := "";
      if |scopes| >= limits.maxSize {
        victim := EvictOldest();
      }
      var toolSet := {};
      for i := 0 to |tools|
        invariant toolSet == Elements(tools[..i])
        invariant scopes == Evicted(old(scopes), |old(scopes)| >= limits.maxSize, victim)
      {
        toolSet := toolSet + {tools[i]};
        assert tools[..i + 1] == tools[..i] + [tools[i]];
      }
      assert tools[..|tools|] == tools;
      scopes := scopes[session := Entry(Filtered(toolSet), now + limits.ttl)];
    }

    method ResetScope(session: string, now: int) returns (ghost victim: string)
      modifies this
      ensures Possible(limits, old(scopes), Reset(session, now, victim))
      ensures scopes == Apply(limits, old(scopes), Reset(session, now, victim))
    {
      victim := "";
      if session !in scopes && |scopes| >= limits.maxSize {
        victim := EvictOldest();
      }
      scopes := scopes[session := Entry(All, now + limits.ttl)];
    }

    method DeleteScope(session: string, now: int)
      modifies this
      ensures scopes == Apply(limits, old(scopes), Delete(session, now))
    {
      scopes := scopes - {session};
    }

    method EvictExpired(now: int)
      modifies this
      ensures scopes == Apply(limits, old(scopes), Sweep(now))
    {
      var ids := scopes.Keys;
      while ids != {}
        invariant ids <= old(scopes).Keys
        invariant forall k :: k in scopes <==> k in old(scopes) && (k in ids || now <= old(scopes)[k].expireAt)
        invariant forall k :: k in scopes ==> scopes[k] == old(scopes)[k]
        decreases ids
      {
        var id :| id in ids;
        if now > scopes[id].expireAt {
          scopes := scopes - {id};
        }
        ids := ids - {id};
      }
    }
  }

  // ---- runs ----

  datatype Event =
    | Set(session: string, tools: seq<string>, at: int, victim: string)
    | Reset(session: string, at: int, victim: string)
    | Delete(session: string, at: int)
    | Sweep(at: int)

  function Elements(tools: seq<string>): set<string> {
    set t | t in tools
  }

  /** Whether the event has to make room first. */
  predicate Evicts(limits: Limits, s: Scopes, e: Event) {
    match e
    case Set(_, _, _, _) => |s| >= limits.maxSize && s != map[]
    case Reset(session, _, _) => session !in s && |s| >= limits.maxSize && s != map[]
    case Delete(_, _) => false
    case Sweep(_) => false
  }

  predicate Possible(limits: Limits, s: Scopes, e: Event) {
    Evicts(limits, s, e) ==> IsOldest(s, e.victim)
  }

  function Evicted(s: Scopes, evict: bool, victim: string): Scopes {
    if evict then s - {victim} else s
  }

  function Apply(limits: Limits, s: Scopes, e: Event): Scopes {
    match e
    case Set(session, tools, at, victim) =>
      Evicted(s, Evicts(limits, s, e), victim)[session := Entry(Filtered(Elements(tools)), at + limits.ttl)]
    case Reset(session, at, victim) =>
      Evicted(s, Evicts(limits, s, e), victim)[session := Entry(All, at + limits.ttl)]
    case Delete(session, _) => s - {session}
    case Sweep(at) => map k | k in s && at <= s[k].expireAt :: s[k]
  }

  function Exec(limits: Limits, es: seq<Event>): Scopes {
    if es == [] then map[] else Apply(limits, Exec(limits, es[..|es| - 1]), es[|es| - 1])
  }

  ghost predicate IsRun(limits: Limits, es: seq<Event>) {
    forall i :: 0 <= i < |es| ==> Possible(limits, Exec(limits, es[..i]), es[i])
  }

  // ---- the store as a function of history ----

  datatype Write = Write(scope: Scope, at: int)

  /** The latest write for a session that no later delete undid. */
  function LastWrite(es: seq<Event>, session: string): Option<Write> {
    if es == [] then None
    else
      var e := es[|es| - 1];
      match e
      case Set(s, tools, at, _) =>
        if s == session then Some(Write(Filtered(Elements(tools)), at)) else LastWrite(es[..|es| - 1], session)
      case Reset(s, at, _) =>
        if s == session then Some(Write(All, at)) else LastWrite(es[..|es| - 1], session)
      case Delete(s, _) => if s == session then None else LastWrite(es[..|es| - 1], session)
      case Sweep(_) => LastWrite(es[..|es| - 1], session)
  }

  /** Every entry is the latest write of its session. */
  lemma {:induction false} EntriesAreLatestWrites(limits: Limits, es: seq<Event>)
    ensures forall s :: s in Exec(limits, es) ==>
              LastWrite(es, s).Some? && Exec(limits, es)[s] == Entry(LastWrite(es, s).value.scope, LastWrite(es, s).value.at + limits.ttl)
    decreases |es|
  {
    if es != [] {
      EntriesAreLatestWrites(limits, es[..|es| - 1]);
    }
  }

  /** A lookup returns unset or exactly the latest unexpired set or reset of that session. */
  lemma GetIsLatestOrUnset(limits: Limits, es: seq<Event>, session: string, now: int)
    ensures var r := Get(Exec(limits, es), session, now); var w := LastWrite(es, session);
            r.Some? ==> w.Some? && r.value == w.value.scope && now <= w.value.at + limits.ttl
  {
    EntriesAreLatestWrites(limits, es);
  }

  /** A write always leaves its own entry, so a cap of zero counts as one. */
  function Cap(limits: Limits): nat {
    if limits.maxSize > 0 then limits.maxSize else 1
  }

  /** The store never outgrows its cap. */
  lemma {:induction false} SizeIsCapped(limits: Limits, es: seq<Event>)
    requires IsRun(limits, es)
    ensures |Exec(limits, es)| <= if limits.maxSize == 0 then 1 else limits.maxSize
    decreases |es|
  {
    if es != [] {
      var init, e := es[..|es| - 1], es[|es| - 1];
      assert forall i :: 0 <= i < |init| ==> init[..i] == es[..i];
      SizeIsCapped(limits, init);
      StepSize(limits, Exec(limits, init), e);
    }
  }

  lemma StepSize(limits: Limits, s: Scopes, e: Event)
    requires |s| <= Cap(limits) && Possible(limits, s, e)
    ensures |Apply(limits, s, e)| <= Cap(limits)
  {
    match e
    case Set(session, tools, at, victim) =>
      PutSize(Cap(limits), s, Evicts(limits, s, e), victim, session, Entry(Filtered(Elements(tools)), at + limits.ttl));
    case Reset(session, at, victim) =>
      PutSize(Cap(limits), s, Evicts(limits, s, e), victim, session, Entry(All, at + limits.ttl));
    case Delete(session, _) =>
      SubsetSize(Apply(limits, s, e).Keys, s.Keys);
    case Sweep(_) =>
      SubsetSize(Apply(limits, s, e).Keys, s.Keys);
  }

  lemma PutSize(n: nat, s: Scopes, evict: bool, victim: string, session: string, entry: Entry)
    requires n > 0 && |s| <= n
    requires if evict then victim in s else |s| < n || session in s || s == map[]
    ensures |Evicted(s, evict, victim)[session := entry]| <= n
  {
    var mid := Evicted(s, evict, victim);
    assert mid.Keys == if evict then s.Keys - {victim} else s.Keys;
    var t := mid[session := entry];
    if session in mid {
      assert t.Keys == mid.Keys;
    } else {
      assert t.Keys == mid.Keys + {session};
    }
  }

  lemma {:induction false} SubsetSize(a: set<string>, b: set<string>)
    requires a <= b
    ensures |a| <= |b|
  {
    assert b == a + (b - a);
  }

  /** A cap eviction always removes a least recently written entry. */
  lemma EvictionIsLeastRecentlyWritten(limits: Limits, es: seq<Event>, e: Event, other: string)
    requires Evicts(limits, Exec(limits, es), e) && Possible(limits, Exec(limits, es), e)
    requires other in Exec(limits, es)
    ensures LastWrite(es, e.victim).Some? && LastWrite(es, other).Some?
    ensures LastWrite(es, e.victim).value.at <= LastWrite(es, other).value.at
    ensures e.victim !in Apply(limits, Exec(limits, es), e) || e.victim == e.session
  {
    EntriesAreLatestWrites(limits, es);
  }

  /** A set, or a reset of a session not stored, with the store at its cap. */
  predicate MakesRoom(limits: Limits, s: Scopes, e: Event) {
    |s| >= limits.maxSize && (e.Set? || (e.Reset? && e.session !in s))
  }

  /** The n-th event dropped the session: it swept it after expiry, or evicted it to make room. */
  ghost predicate DroppedAt(limits: Limits, es: seq<Event>, n: nat, session: string)
    requires n < |es|
  {
    var s := Exec(limits, es[..n]);
    session in s && (
      || (es[n].Sweep? && es[n].at > s[session].expireAt)
      || (MakesRoom(limits, s, es[n]) && es[n].victim == session))
  }

  /** Nothing else is forgotten: a session with a write on record that is no longer stored was swept
      after expiry or evicted to make room. */
  lemma {:induction false} OnlySweptOrEvictedIsForgotten(limits: Limits, es: seq<Event>, session: string)
    requires LastWrite(es, session).Some? && session !in Exec(limits, es)
    ensures exists n :: 0 <= n < |es| && DroppedAt(limits, es, n, session)
    decreases |es|
  {
    var init, e := es[..|es| - 1], es[|es| - 1];
    if session !in Exec(limits, init) {
      OnlySweptOrEvictedIsForgotten(limits, init, session);
      var n :| 0 <= n < |init| && DroppedAt(limits, init, n, session);
      DroppedStays(limits, es, n, session);
    } else {
      DroppedNow(limits, Exec(limits, init), e, session);
      assert DroppedAt(limits, es, |es| - 1, session);
    }
  }

  lemma DroppedStays(limits: Limits, es: seq<Event>, n: nat, session: string)
    requires n < |es| - 1 && DroppedAt(limits, es[..|es| - 1], n, session)
    ensures DroppedAt(limits, es, n, session)
  {
    assert es[..|es| - 1][..n] == es[..n];
  }

  lemma DroppedNow(limits: Limits, s: Scopes, e: Event, session: string)
    requires session in s && session !in Apply(limits, s, e) && !(e.Delete? && e.session == session)
    ensures (e.Sweep? && e.at > s[session].expireAt) || (MakesRoom(limits, s, e) && e.victim == session)
  {
  }

  /** Whatever entry the call picks to evict, no lookup of another session, now or later, is answered
      differently for it. */
  ghost predicate CostsNobody(limits: Limits, s: Scopes, e: Event)
    requires e.Set? || e.Reset?
  {
    forall victim, k, now :: IsOldest(s, victim) && k != e.session && e.at <= now ==>
      Get(Apply(limits, s, e.(victim := victim)), k, now) == Get(s, k, now)
  }

  /** At the cap, setting the scope of a session that already has one still evicts: it is sure to cost
      no other session its scope exactly when every other entry of earliest expiry has expired.
      Resetting never costs anybody anything. */
  lemma OverwritingAtCap(limits: Limits, s: Scopes, session: string, tools: seq<string>, at: int)
    requires session in s && |s| >= limits.maxSize
    ensures CostsNobody(limits, s, Set(session, tools, at, ""))
       <==> forall k :: IsOldest(s, k) && k != session ==> s[k].expireAt < at
    ensures CostsNobody(limits, s, Reset(session, at, ""))
  {
    if k :| IsOldest(s, k) && k != session && at <= s[k].expireAt {
      assert Get(Apply(limits, s, Set(session, tools, at, k)), k, at) != Get(s, k, at);
    }
  }

  /** k is stored and was last written no later than any other stored session. */
  ghost predicate LeastRecent(limits: Limits, es: seq<Event>, k: string) {
    k in Exec(limits, es) && LastWrite(es, k).Some?
    && forall j :: j in Exec(limits, es) ==> LastWrite(es, j).Some? && LastWrite(es, k).value.at <= LastWrite(es, j).value.at
  }

  /** In terms of a run: at the cap, setting a stored session's scope again is sure to cost nobody
      theirs exactly when the other least recently written sessions are past their time. */
  lemma OverwritingInRuns(limits: Limits, es: seq<Event>, session: string, tools: seq<string>, at: int)
    requires session in Exec(limits, es) && |Exec(limits, es)| >= limits.maxSize
    ensures CostsNobody(limits, Exec(limits, es), Set(session, tools, at, ""))
       <==> forall k :: LeastRecent(limits, es, k) && k != session ==> LastWrite(es, k).value.at + limits.ttl < at
  {
    var s := Exec(limits, es);
    EntriesAreLatestWrites(limits, es);
    OverwritingAtCap(limits, s, session, tools, at);
    forall k
      ensures IsOldest(s, k) <==> LeastRecent(limits, es, k)
    {
    }
  }
}
