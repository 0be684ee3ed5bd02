/** The pending tools/list_changed claims of internal/broker/gateway_server.go: who is owed the next
    dispatch, as a function of the marks made so far. */
module NotifyWindow {

  import opened Text

  /** notifyWindow, in milliseconds. */
  const WINDOW: int := 5000

  datatype Event =
    | Broadcast(at: int)
    | Target(session: string, at: int)
    | Ask(session: string, at: int)

  /** The fields of gatewayServer guarded by notifyMu; None is the zero time. */
  datatype Claims = Claims(targets: map<string, int>, broadcastUntil: Option<int>)

  const NO_CLAIMS := Claims(map[], None)

  function Pruned(targets: map<string, int>, now: int): map<string, int> {
    map id | id in targets && now <= targets[id] :: targets[id]
  }

  function MarkTarget(c: Claims, session: string, now: int): Claims {
    c.(targets := Pruned(c.targets, now)[session := now + WINDOW])
  }

  predicate Pending(c: Claims, now: int) {
    c.broadcastUntil.Some? && now < c.broadcastUntil.value
  }

  /** A pending broadcast answers before the targets are looked at, so it leaves them unpruned. */
  function AfterAsk(c: Claims, now: int): Claims {
    if Pending(c, now) then c else c.(targets := Pruned(c.targets, now))
  }

  predicate Delivers(c: Claims, session: string, now: int) {
    Pending(c, now) || Pruned(c.targets, now) == map[] || session in Pruned(c.targets, now)
  }

  function Step(c: Claims, e: Event): Claims {
    match e
    case Broadcast(at) => c.(broadcastUntil := Some(at + WINDOW))
    case Target(session, at) => MarkTarget(c, session, at)
    case Ask(_, at) => AfterAsk(c, at)
  }

  class NotifyState {
    var notifyTargets: map<string, int>
    var broadcastUntil: Option<int>

    constructor ()
      ensures Now() == NO_CLAIMS
    {
      notifyTargets, broadcastUntil := map[], None;
    }

    function Now(): Claims
      reads this
    {
      Claims(notifyTargets, broadcastUntil)
    }

    method MarkBroadcast(now: int)
      modifies this
      ensures Now() == Step(old(Now()), Broadcast(now))
    {
      broadcastUntil := Some(now + WINDOW);
    }

    method MarkNotifyTarget(session: string, now: int)
      modifies this
      ensures Now() == Step(old(Now()), Target(session, now))
    {
      var ids := notifyTargets.Keys;
      while ids != {}
        invariant ids <= old(notifyTargets).Keys && broadcastUntil == old(broadcastUntil)
        invariant forall id :: id in notifyTargets <==> id in old(notifyTargets) && (id in ids || now <= old(notifyTargets)[id])
        invariant forall id :: id in notifyTargets ==> notifyTargets[id] == old(notifyTargets)[id]
        decreases ids
      {
        var id :| id in ids;
        if now > notifyTargets[id] {
          notifyTargets := notifyTargets - {id};
        }
        ids := ids - {id};
      }
      assert notifyTargets == Pruned(old(notifyTargets), now);
      notifyTargets := notifyTargets[session := now + WINDOW];
    }

    method ShouldDeliver(session: string, now: int) returns (deliver: bool)
      modifies this
      ensures deliver <==> Delivers(old(Now()), session, now)
      ensures Now() == Step(old(Now()), Ask(session, now))
    {
      if broadcastUntil.Some? && now < broadcastUntil.value {
        return true;
      }
      var live, targeted := false, false;
      var ids := notifyTargets.Keys;
      while ids != {}
        invariant ids <= old(notifyTargets).Keys && broadcastUntil == old(broadcastUntil)
        invariant forall id :: id in notifyTargets <==> id in old(notifyTargets) && (id in ids || now <= old(notifyTargets)[id])
        invariant forall id :: id in notifyTargets ==> notifyTargets[id] == old(notifyTargets)[id]
        invariant live <==> exists id :: id in notifyTargets && id !in ids
        invariant targeted <==> session in notifyTargets && session !in ids
        decreases ids
      {
        var id :| id in ids;
        ids := ids - {id};
        if now > notifyTargets[id] {
          notifyTargets := notifyTargets - {id};
          continue;
        }
        live := true;
        if id == session {
          targeted := true;
        }
      }
      assert notifyTargets == Pruned(old(notifyTargets), now);
      return !live || targeted;
    }
  }

  // ---- the window as a function of history ----

  function Exec(es: seq<Event>): Claims {
    if es == [] then NO_CLAIMS else Step(Exec(es[..|es| - 1]), es[|es| - 1])
  }

  predicate Monotone(es: seq<Event>) {
    forall i, j :: 0 <= i < j < |es| ==> es[i].at <= es[j].at
  }

  /** Some broadcast mark is strictly within the window. */
  ghost predicate BroadcastLive(es: seq<Event>, now: int) {
    exists i :: 0 <= i < |es| && es[i].Broadcast? && now < es[i].at + WINDOW
  }

  /** The session has a target mark within the window. */
  ghost predicate TargetLive(es: seq<Event>, session: string, now: int) {
    exists i :: 0 <= i < |es| && es[i].Target? && es[i].session == session && now <= es[i].at + WINDOW
  }

  ghost predicate UpToDate(es: seq<Event>, c: Claims, now: int) {
    && (Pending(c, now) <==> BroadcastLive(es, now))
    && (forall s :: s in c.targets && now <= c.targets[s] <==> TargetLive(es, s, now))
  }

  /** The last broadcast mark and the last mark of a session, in the order they were made. */
  function LastBroadcast(es: seq<Event>): Option<int> {
    if es == [] then None
    else if es[|es| - 1].Broadcast? then Some(es[|es| - 1].at)
    else LastBroadcast(es[..|es| - 1])
  }

  function LastTarget(es: seq<Event>, session: string): Option<int> {
    if es == [] then None
    else if es[|es| - 1].Target? && es[|es| - 1].session == session then Some(es[|es| - 1].at)
    else LastTarget(es[..|es| - 1], session)
  }

  predicate Within(mark: Option<int>, now: int) {
    mark.Some? && now <= mark.value + WINDOW
  }

  lemma {:induction false} LastBroadcastDecides(es: seq<Event>)
    ensures Exec(es).broadcastUntil == (if LastBroadcast(es).Some? then Some(LastBroadcast(es).value + WINDOW) else None)
  {
    if es != [] {
      LastBroadcastDecides(es[..|es| - 1]);
    }
  }

  /** The j-th event prunes expired targets: a mark always does, an ask unless a broadcast is pending. */
  predicate Sweeps(es: seq<Event>, j: nat)
    requires j < |es|
  {
    es[j].Target? || (es[j].Ask? && !BroadcastSeen(es[..j], es[j].at))
  }

  predicate BroadcastSeen(es: seq<Event>, now: int) {
    LastBroadcast(es).Some? && now < LastBroadcast(es).value + WINDOW
  }

  predicate Marks(e: Event, s: string) {
    e.Target? && e.session == s
  }

  /** The j-th event, its clock past the expiry of the session's last mark so far, prunes that mark. */
  predicate Prunes(es: seq<Event>, j: nat, s: string)
    requires j < |es|
  {
    var mark := LastTarget(es[..j], s);
    mark.Some? && mark.value + WINDOW < es[j].at && Sweeps(es, j) && !Marks(es[j], s)
  }

  /** The session's last mark has been pruned, whatever clock a later ask comes with. */
  ghost predicate Forgotten(es: seq<Event>, s: string) {
    exists j :: 0 <= j < |es| && Prunes(es, j, s) && forall k :: j <= k < |es| ==> !Marks(es[k], s)
  }

  lemma ForgottenNext(es: seq<Event>, s: string)
    requires es != []
    ensures var init, n := es[..|es| - 1], |es| - 1;
            Forgotten(es, s) <==> !Marks(es[n], s) && (Forgotten(init, s) || Prunes(es, n, s))
  {
    var init, n := es[..|es| - 1], |es| - 1;
    if j :| 0 <= j < |es| && Prunes(es, j, s) && forall k :: j <= k < |es| ==> !Marks(es[k], s) {
      if j < n {
        PrunesPrefix(es, j, s);
      }
    }
    if Forgotten(init, s) && !Marks(es[n], s) {
      var j :| 0 <= j < |init| && Prunes(init, j, s) && forall k :: j <= k < |init| ==> !Marks(init[k], s);
      PrunesPrefix(es, j, s);
      assert forall k :: j <= k < |init| ==> es[k] == init[k];
    }
  }

  lemma PrunesPrefix(es: seq<Event>, j: nat, s: string)
    requires j < |es| - 1
    ensures Prunes(es[..|es| - 1], j, s) <==> Prunes(es, j, s)
  {
    assert es[..|es| - 1][..j] == es[..j];
  }

  /** What is stored, for any order of timestamps: a session's claim is its last mark, unless an event
      that came after it with a later clock has pruned it. */
  lemma {:induction false} LastMarkDecides(es: seq<Event>, s: string)
    ensures s in Exec(es).targets <==> LastTarget(es, s).Some? && !Forgotten(es, s)
    ensures s in Exec(es).targets ==> Exec(es).targets[s] == LastTarget(es, s).value + WINDOW
    decreases |es|
  {
    if es != [] {
      LastMarkDecides(es[..|es| - 1], s);
      LastBroadcastDecides(es[..|es| - 1]);
      ForgottenNext(es, s);
    }
  }

  /** The last marks of each kind carry the latest timestamps of that kind that are still live. */
  ghost predicate LastIsLatest(es: seq<Event>, now: int) {
    && (BroadcastLive(es, now) ==> BroadcastSeen(es, now))
    && (forall s :: TargetLive(es, s, now) ==> Within(LastTarget(es, s), now))
  }

  /** No mark that an ask at now would count has been pruned. */
  ghost predicate NoneForgotten(es: seq<Event>, now: int) {
    forall s :: Within(LastTarget(es, s), now) ==> !Forgotten(es, s)
  }

  /** The claims agree with the whole history of marks, at any time and for any order of timestamps,
      iff no older timestamp overwrote a live mark and no later clock pruned one. */
  lemma ClaimsReflectHistoryIff(es: seq<Event>, now: int)
    ensures UpToDate(es, Exec(es), now) <==> LastIsLatest(es, now) && NoneForgotten(es, now)
  {
    LastBroadcastDecides(es);
    LastMarksExist(es, now);
    forall s
      ensures s in Exec(es).targets && now <= Exec(es).targets[s] <==> Within(LastTarget(es, s), now) && !Forgotten(es, s)
    {
      LastMarkDecides(es, s);
    }
  }

  // ---- when the answer is not the one the history owes ----

  /** What the history of marks owes a session that asks at now. */
  ghost predicate Owed(es: seq<Event>, session: string, now: int) {
    BroadcastLive(es, now) || (forall s :: !TargetLive(es, s, now)) || TargetLive(es, session, now)
  }

  /** The session's last mark is live and has not been pruned. */
  ghost predicate Remembered(es: seq<Event>, s: string, now: int) {
    Within(LastTarget(es, s), now) && !Forgotten(es, s)
  }

  lemma DeliversMeans(es: seq<Event>, session: string, now: int)
    ensures Delivers(Exec(es), session, now) <==>
              BroadcastSeen(es, now) || (forall s :: !Remembered(es, s, now)) || Remembered(es, session, now)
  {
    LastBroadcastDecides(es);
    var pruned := Pruned(Exec(es).targets, now);
    forall s
      ensures s in pruned <==> Remembered(es, s, now)
    {
      LastMarkDecides(es, s);
    }
    if pruned != map[] {
      var s :| s in pruned;
    }
  }

  /** A dispatch the history owes a session is withheld exactly when some session's mark is remembered
      but not its own, no broadcast is seen, and a live mark of its own or a live broadcast was
      overwritten or pruned. */
  lemma WithheldIff(es: seq<Event>, session: string, now: int)
    ensures Owed(es, session, now) && !Delivers(Exec(es), session, now) <==>
              && (BroadcastLive(es, now) || TargetLive(es, session, now))
              && !BroadcastSeen(es, now) && !Remembered(es, session, now)
              && exists s :: Remembered(es, s, now)
  {
    DeliversMeans(es, session, now);
    LastMarksExist(es, now);
    if s :| Remembered(es, s, now) {
      assert TargetLive(es, s, now);
    }
  }

  /** A dispatch nothing owes is delivered exactly when every live mark was overwritten or pruned, the
      session had none, and no broadcast was live. */
  lemma SpuriousIff(es: seq<Event>, session: string, now: int)
    ensures Delivers(Exec(es), session, now) && !Owed(es, session, now) <==>
              && !BroadcastLive(es, now) && !TargetLive(es, session, now)
              && (exists s :: TargetLive(es, s, now)) && forall s :: !Remembered(es, s, now)
  {
    DeliversMeans(es, session, now);
    LastMarksExist(es, now);
  }

  /** markBroadcast reads the clock under the lock, so its timestamps are never behind one that landed
      before. */
  predicate BroadcastsInOrder(es: seq<Event>) {
    forall i, j :: 0 <= i < j < |es| && es[j].Broadcast? ==> es[i].at <= es[j].at
  }

  /** Broadcasts are therefore never lost: only a session's own mark can be. */
  lemma {:induction false} BroadcastsAreNeverLost(es: seq<Event>, now: int)
    requires BroadcastsInOrder(es)
    ensures BroadcastLive(es, now) <==> BroadcastSeen(es, now)
    decreases |es|
  {
    if es != [] {
      var init, e := es[..|es| - 1], es[|es| - 1];
      BroadcastsAreNeverLost(init, now);
      HistoryNext(init, e, now);
      assert es == init + [e];
    }
  }

  lemma {:induction false} LastMarksExist(es: seq<Event>, now: int)
    ensures BroadcastSeen(es, now) ==> BroadcastLive(es, now)
    ensures forall s :: Within(LastTarget(es, s), now) ==> TargetLive(es, s, now)
    decreases |es|
  {
    if es != [] {
      LastMarksExist(es[..|es| - 1], now);
      HistoryNext(es[..|es| - 1], es[|es| - 1], now);
      assert es == es[..|es| - 1] + [es[|es| - 1]];
    }
  }

  /** With a monotone clock none ever does. */
  lemma {:induction false} MonotoneLastIsLatest(es: seq<Event>, now: int)
    requires Monotone(es)
    ensures LastIsLatest(es, now)
    decreases |es|
  {
    if es != [] {
      var init, e := es[..|es| - 1], es[|es| - 1];
      MonotoneLastIsLatest(init, now);
      HistoryNext(init, e, now);
      assert es == init + [e];
    }
  }

  lemma HistoryNext(es: seq<Event>, e: Event, now: int)
    ensures BroadcastLive(es + [e], now) <==> BroadcastLive(es, now) || (e.Broadcast? && now < e.at + WINDOW)
    ensures forall s :: TargetLive(es + [e], s, now) <==> TargetLive(es, s, now) || (e.Target? && e.session == s && now <= e.at + WINDOW)
  {
    assert (es + [e])[|es|] == e;
    assert forall i :: 0 <= i < |es| ==> (es + [e])[i] == es[i];
  }

  /** With no clock ahead of the ask's, nothing live has been pruned. */
  lemma NothingPrunedYet(es: seq<Event>, now: int)
    requires forall i :: 0 <= i < |es| ==> es[i].at <= now
    ensures NoneForgotten(es, now)
  {
    forall s | Forgotten(es, s)
      ensures !Within(LastTarget(es, s), now)
    {
      var j :| 0 <= j < |es| && Prunes(es, j, s) && forall k :: j <= k < |es| ==> !Marks(es[k], s);
      SameLastMark(es, j, s);
    }
  }

  lemma {:induction false} SameLastMark(es: seq<Event>, j: nat, s: string)
    requires j <= |es| && forall k :: j <= k < |es| ==> !Marks(es[k], s)
    ensures LastTarget(es, s) == LastTarget(es[..j], s)
    decreases |es|
  {
    if j < |es| {
      SameLastMark(es[..|es| - 1], j, s);
      assert es[..|es| - 1][..j] == es[..j];
    } else {
      assert es[..j] == es;
    }
  }

  /** With a monotone clock a session is notified iff a broadcast mark is live, or no target mark of
      any session is, or one of its own is. */
  lemma DeliveryRefinesHistory(es: seq<Event>, session: string, now: int)
    requires Monotone(es) && forall i :: 0 <= i < |es| ==> es[i].at <= now
    ensures Delivers(Exec(es), session, now) <==> Owed(es, session, now)
  {
    MonotoneLastIsLatest(es, now);
    NothingPrunedYet(es, now);
    DeliversMeans(es, session, now);
    LastMarksExist(es, now);
    assert forall s :: Remembered(es, s, now) <==> TargetLive(es, s, now);
  }

  /** The monotone clock matters: a mark made with an older timestamp than the one before shortens
      the session's claim, and a dispatch the history owes it is withheld. */
  lemma StaleTimestampShortensClaim(a: string, b: string, t: int, d: int)
    requires a != b && 0 < d <= WINDOW
    ensures var es := [Target(b, t), Target(a, t), Target(a, t - d)]; var now := t + WINDOW;
            TargetLive(es, a, now) && !Delivers(Exec(es), a, now)
  {
    var es := [Target(b, t), Target(a, t), Target(a, t - d)];
    var now := t + WINDOW;
    assert es[1] == Target(a, t);
    assert es[..2] == [Target(b, t), Target(a, t)] && es[..2][..1] == [Target(b, t)] && es[..2][..1][..0] == [];
    assert Exec(es[..2][..1]) == Claims(map[b := t + WINDOW], None);
    assert Exec(es[..2]) == Claims(map[b := t + WINDOW, a := t + WINDOW], None);
    assert Exec(es).targets[a] == t - d + WINDOW && Exec(es).targets[b] == t + WINDOW;
    assert b in Pruned(Exec(es).targets, now);
  }

  /** And so does the ask's own clock, which is read before the lock is taken as well: another
      session's mark that landed first, with a clock past this one's expiry, has pruned the claim, with
      no mark out of order. */
  lemma LateMarkPrunesClaim(a: string, b: string, t: int, d: int, now: int)
    requires a != b && 0 < d && now <= t + WINDOW
    ensures var es := [Target(a, t), Target(b, t + WINDOW + d)];
            && Monotone(es) && LastIsLatest(es, now)
            && TargetLive(es, a, now) && !Delivers(Exec(es), a, now)
  {
    var es := [Target(a, t), Target(b, t + WINDOW + d)];
    assert es[..1] == [Target(a, t)] && es[..1][..0] == [];
    assert es[0] == Target(a, t);
    assert Exec(es[..1]) == Claims(map[a := t + WINDOW], None);
    assert Exec(es).targets == map[b := t + WINDOW + d + WINDOW];
    assert b in Pruned(Exec(es).targets, now) && a !in Pruned(Exec(es).targets, now);
    MonotoneLastIsLatest(es, now);
  }

  /** The same by another session's ask. */
  lemma LateAskPrunesClaim(a: string, b: string, t: int, e: int, d: int, now: int)
    requires a != b && 0 < d <= e && now <= t + WINDOW
    ensures var es := [Target(a, t), Target(b, t + e), Ask(b, t + WINDOW + d)];
            LastIsLatest(es, now) && TargetLive(es, a, now) && !Delivers(Exec(es), a, now)
  {
    var es := [Target(a, t), Target(b, t + e), Ask(b, t + WINDOW + d)];
    assert es[0] == Target(a, t) && es[1] == Target(b, t + e);
    assert es[..2] == [Target(a, t), Target(b, t + e)] && es[..2][..1] == [Target(a, t)] && es[..2][..1][..0] == [];
    assert Exec(es[..2][..1]) == Claims(map[a := t + WINDOW], None);
    assert b in Exec(es[..2]).targets && Exec(es[..2]).targets[b] == t + e + WINDOW && Exec(es[..2]).broadcastUntil == None;
    assert a in Exec(es[..2]).targets ==> Exec(es[..2]).targets[a] == t + WINDOW;
    assert a !in Exec(es).targets && b in Exec(es).targets;
    assert b in Pruned(Exec(es).targets, now);
    assert LastTarget(es, a) == LastTarget(es[..2][..1], a) == Some(t);
    assert LastTarget(es, b) == Some(t + e);
  }
}
