/** The session services over their two stores, updated in place. */
module SessionBackend {
  import opened SessionKeys
  import opened SessionWorld
  import opened Windows

  class Backend {
    const minutes: int
    var now: int
    // The session and user collections.
    var store: map<SessionId, Session>
    var memories: seq<Memory>
    // The cached windows and activity markers.
    var windows: map<SessionId, Window>
    var activity: map<SessionId, int>

    ghost function Contents(): World
      reads this
    {
      World(now, store, windows, activity, memories)
    }

    constructor (inactivityMinutes: int)
      ensures minutes == inactivityMinutes && Contents() == World(0, map[], map[], map[], [])
    {
      minutes := inactivityMinutes;
      now, store, memories, windows, activity := 0, map[], [], map[], map[];
    }

    /** `known` says whether the user exists. */
    method CreateSession(id: SessionId, user: UserId, known: bool) returns (created: bool)
      modifies `store
      ensures created <==> known
      ensures store == if known then old(store)[id := Session(user, [], now)] else old(store)
    {
      if !known {
        return false;
      }
      store := store[id := Session(user, [], now)];
      return true;
    }

    method SaveMessage(id: SessionId, m: Message)
      modifies `store
      ensures id !in old(store) ==> store == old(store)
      ensures id in old(store) ==>
        store == old(store)[id := Session(old(store)[id].owner, old(store)[id].messages + [m], m.submittedAt)]
    {
      if id in store {
        store := store[id := store[id].(messages := store[id].messages + [m], updatedAt := m.submittedAt)];
      }
    }

    method UpdateName(id: SessionId)
      modifies `store
      ensures id !in old(store) ==> store == old(store)
      ensures id in old(store) ==> store == old(store)[id := old(store)[id].(updatedAt := now)]
    {
      if id in store {
        store := store[id := store[id].(updatedAt := now)];
      }
    }

    /** Deletes only a session whose second message does not exist. */
    method DeleteSession(id: SessionId)
      modifies `store
      ensures id in old(store) && |old(store)[id].messages| > 1 ==> store == old(store)
      ensures id !in old(store) || |old(store)[id].messages| <= 1 ==> store == old(store) - {id}
    {
      if id in store && |store[id].messages| <= 1 {
        store := store - {id};
      }
    }

    method GetWindow(id: SessionId) returns (window: Option<Window>)
      ensures window == if id in windows && now < windows[id].expiry then Some(windows[id]) else None
    {
      if id in windows && now < windows[id].expiry {
        return Some(windows[id]);
      }
      return None;
    }

    method SetWindow(id: SessionId, user: UserId, messages: seq<Message>)
      modifies `windows
      ensures windows == old(windows)[id := Window(user, messages, now + 2 * minutes * 60 * MICROS_PER_SECOND)]
    {
      windows := windows[id := Window(user, messages, now + WindowTtl(minutes))];
    }

    method SetActivity(id: SessionId, ttlSeconds: int)
      modifies `activity
      ensures activity == old(activity)[id := now + ttlSeconds * MICROS_PER_SECOND]
    {
      activity := activity[id := now + ttlSeconds * MICROS_PER_SECOND];
    }

    method DeleteWindow(id: SessionId)
      modifies `windows
      ensures windows == old(windows) - {id}
    {
      windows := windows - {id};
    }

    /** The cached messages, even of a session that is gone; else the stored ones, if it is not. */
    method ConversationMessages(id: SessionId) returns (history: Option<seq<Message>>)
      ensures id in windows && now < windows[id].expiry && windows[id].messages != [] ==>
        history == Some(windows[id].messages)
      ensures !(id in windows && now < windows[id].expiry && windows[id].messages != []) ==>
        history == if id in store then Some(store[id].messages) else None
    {
      var window := GetWindow(id);
      if window.Some? && window.value.messages != [] {
        return Some(window.value.messages);
      }
      return if id in store then Some(store[id].messages) else None;
    }

    /** Window first, activity after; either access can fail. */
    method RefreshWindow(id: SessionId, user: UserId, history: seq<Message>, m: Message, fault: Fault)
      returns (ok: bool)
      modifies `windows, `activity
      ensures ok <==> !fault.WindowFails? && !fault.ActivityFails?
      ensures windows == if fault.WindowFails? then old(windows)
                         else old(windows)[id := Window(user, history + [m], now + WindowTtl(minutes))]
      ensures activity == if !ok then old(activity) else old(activity)[id := now + Threshold(minutes)]
    {
      if fault.WindowFails? {
        return false;
      }
      SetWindow(id, user, history + [m]);
      if fault.ActivityFails? {
        return false;
      }
      SetActivity(id, minutes * 60);
      return true;
    }

    method Validate(id: SessionId, user: UserId) returns (problem: Option<TurnResult>)
      ensures problem == if id !in store then Some(NoSuchSession)
                         else if |store[id].messages| >= 50 then Some(SessionFull)
                         else if store[id].owner != user then Some(NotTheOwner)
                         else None
    {
      if id !in store {
        return Some(NoSuchSession);
      }
      if |store[id].messages| >= MAX_MESSAGES {
        return Some(SessionFull);
      }
      if store[id].owner != user {
        return Some(NotTheOwner);
      }
      return None;
    }

    /** The steps of one turn on a session that exists or was just created. */
    method TakeTurn(t: Turn) returns (result: TurnResult)
      requires t.idSession.None? ==>
        t.known && SessionOf(t) in store && store[SessionOf(t)] == Session(t.user, [], now)
      modifies `store, `windows, `activity
      ensures var others := if t.idSession.None? then old(store) - {t.freshId} else old(store);
        var w := old(World(now, others, windows, activity, memories));
        && (Refused(w, t).Some? ==> result == Refused(w, t).value && Contents() == old(Contents()))
        && (Refused(w, t).None? ==> Contents() == Accept(w, t, minutes))
        && (Refused(w, t).None? ==> result == if Breaks(t) then TurnFailed else Sent(t.reply.value, HistoryOf(w, t)))
    {
      ghost var others := if t.idSession.None? then store - {t.freshId} else store;
      ghost var w := World(now, others, windows, activity, memories);
      var id := SessionOf(t);
      var problem := Validate(id, t.user);
      if problem.Some? {
        return problem.value;
      }
      if !t.known {
        return NoSuchUser;
      }
      var history := ConversationMessages(id);
      if t.reply.None? {
        return TurnFailed;
      }
      SaveMessage(id, t.reply.value);
      var refreshed := RefreshWindow(id, t.user, history.value, t.reply.value, t.fault);
      if refreshed && t.idSession.None? && !t.fault.NamingFails? {
        UpdateName(id);
      }
      assert store == Accept(w, t, minutes).store;
      if !refreshed || (t.idSession.None? && t.fault.NamingFails?) {
        return TurnFailed;
      }
      return Sent(t.reply.value, history.value);
    }

    /** One turn; a new session is deleted again when its first turn fails, wherever it does. */
    method SendMessage(t: Turn) returns (result: TurnResult)
      requires t.idSession.None? ==> t.freshId !in store
      modifies `store, `windows, `activity
      ensures (Contents(), result) == old(SendTurn(Contents(), t, minutes))
      ensures result.Sent? && t.idSession.Some? ==>
        var id := t.idSession.value;
        && id in old(store)
        && result.history == old(if id in windows && now < windows[id].expiry && windows[id].messages != []
                                 then windows[id].messages else store[id].messages)
        && id in windows && windows[id].messages == result.history + [result.message]
    {
      TurnAnswersFromWindow(Contents(), t, minutes);
      hide Accept, HistoryOf;
      ghost var before := Contents();
      if t.idSession.None? {
        var created := CreateSession(t.freshId, t.user, t.known);
        if !created {
          return NoSuchUser;
        }
        assert store - {t.freshId} == before.store;
      }
      result := TakeTurn(t);
      AcceptedIsStored(before, t, minutes);
      if !result.Sent? && t.idSession.None? && t.rollback {
        DeleteSession(t.freshId);
      }
    }

    method ListExpiredWindows(scan: seq<SessionId>) returns (expired: seq<SessionId>)
      ensures expired == ListExpired(Contents(), scan)
      ensures forall id :: id in expired <==> id in scan && !(id in activity && now < activity[id])
    {
      expired := [];
      for i := 0 to |scan|
        invariant expired == ListExpired(Contents(), scan[..i])
      {
        assert scan[..i + 1][..i] == scan[..i];
        if !(scan[i] in activity && now < activity[scan[i]]) {
          expired := expired + [scan[i]];
        }
      }
      assert scan[..|scan|] == scan;
    }

    /** Stops at the first window whose memory cannot be made, or that cannot be deleted after it. */
    method HarvestExpiredWindows(scan: seq<SessionId>, faults: Faults) returns (completed: bool)
      modifies `windows, `memories
      ensures (Contents(), completed) == old(Harvest(Contents(), ListExpired(Contents(), scan), faults))
    {
      var ids := ListExpiredWindows(scan);
      ghost var before := Contents();
      for i := 0 to |ids|
        invariant Harvest(before, ids, faults) == Harvest(Contents(), ids[i..], faults)
        invariant store == old(store) && activity == old(activity) && now == old(now)
      {
        var id := ids[i];
        ghost var here := Contents();
        assert ids[i..][1..] == ids[i + 1..];
        var window := GetWindow(id);
        if window.Some? && window.value.messages != [] {
          if id in faults.unsummarised {
            return false;
          }
          memories := memories + [Memory(window.value.owner, window.value.messages, now)];
        }
        assert Contents() == Remember(here, id);
        if id in faults.undeleted {
          return false;
        }
        DeleteWindow(id);
        assert Contents() == Visit(here, id);
      }
      return true;
    }

    // Rebuild one session's window from its stored turns; a session without turns is skipped.
    method SyncSession(id: SessionId)
      requires id in store
      modifies `windows, `activity
      ensures store[id].messages == [] ==> Contents() == old(Contents())
      ensures store[id].messages != [] ==>
        && windows == old(windows[id := SyncedWindow(Contents(), id, minutes)])
        && id in windows && windows[id].owner == store[id].owner
        && IsWindow(windows[id].messages, store[id].messages, minutes * 60 * MICROS_PER_SECOND)
        && activity == old(activity[id := SyncedActivity(Contents(), id, minutes)])
    {
      DeriveIsWindow(store[id].messages, Threshold(minutes));
      var window := DeriveWindow(store[id].messages, minutes);
      if window != [] {
        SetWindow(id, store[id].owner, window);
        SetActivity(id, ActivityTtl(store[id].updatedAt, now, minutes));
      }
    }

    /** The refresh can fail at any session, before or after that session's window is set. */
    method SyncRecentSessions(recent: seq<SessionId>, failsAt: Option<nat>, halfway: bool) returns (completed: bool)
      requires forall id :: id in recent <==> IsRecent(Contents(), id, minutes)
      modifies `windows, `activity
      ensures completed <==> failsAt.None? || failsAt.value >= |recent|
      ensures Contents() == if completed then old(Sync(Contents(), minutes))
        else old(PartSync(Contents(), set id | id in recent[..failsAt.value],
                          if halfway then Some(recent[failsAt.value]) else None, minutes))
    {
      hide SyncOf, SyncedWindow, SyncedActivity, IsRecent;
      ghost var before := Contents();
      ghost var synced: set<SessionId> := {};
      SyncNothing(before, minutes);
      TouchedAreRecent(before, minutes);
      for i := 0 to |recent|
        invariant failsAt.Some? ==> i <= failsAt.value
        invariant synced <= store.Keys
        invariant forall id :: id in synced <==> id in recent[..i] && id in Touched(before, minutes)
        invariant Contents() == SyncOf(before, synced, minutes)
      {
        var id := recent[i];
        SyncedDependsOnStore(before, Contents(), id, minutes);
        if failsAt == Some(i) {
          if halfway {
            SyncWindow(id);
          }
          assert synced == (set x | x in recent[..i]) * Touched(before, minutes);
          return false;
        }
        assert recent[..i + 1] == recent[..i] + [id];
        SyncSession(id);
        if store[id].messages != [] {
          SyncOneMore(before, synced, id, minutes);
          synced := synced + {id};
        }
      }
      assert recent[..|recent|] == recent;
      assert synced == Touched(before, minutes);
      return true;
    }

    // The first of the two accesses of a session's refresh.
    method SyncWindow(id: SessionId)
      requires id in store
      modifies `windows
      ensures store[id].messages == [] ==> windows == old(windows)
      ensures store[id].messages != [] ==> windows == old(windows[id := SyncedWindow(Contents(), id, minutes)])
    {
      var window := DeriveWindow(store[id].messages, minutes);
      if window != [] {
        SetWindow(id, store[id].owner, window);
      }
    }

    /** One worker pass: harvest, then refresh what is still in use; it stops at the first failure. */
    method RunPass(scan: seq<SessionId>, unsummarised: set<SessionId>, undeleted: set<SessionId>,
        recent: seq<SessionId>, failsAt: Option<nat>, halfway: bool) returns (completed: bool)
      requires forall id :: id in recent <==> IsRecent(Contents(), id, minutes)
      modifies `windows, `activity, `memories
      ensures var refresh := if failsAt.None? || failsAt.value >= |recent| then Whole
                             else Interrupted(set id | id in recent[..failsAt.value],
                                              if halfway then Some(recent[failsAt.value]) else None);
        (Contents(), completed)
        == old(WorkerPass(Contents(), scan, Faults(unsummarised, undeleted, refresh), minutes))
    {
      hide Harvest, PartSync, Sync;
      var faults := Faults(unsummarised, undeleted, Whole);
      ghost var refresh := if failsAt.None? || failsAt.value >= |recent| then Whole
                           else Interrupted(set id | id in recent[..failsAt.value],
                                            if halfway then Some(recent[failsAt.value]) else None);
      HarvestIgnoresRefresh(Contents(), ListExpired(Contents(), scan), faults, faults.(refresh := refresh));
      completed := HarvestExpiredWindows(scan, faults);
      if completed {
        completed := SyncRecentSessions(recent, failsAt, halfway);
      }
    }
  }

  // A turn that is accepted stores its session with its message.
  lemma AcceptedIsStored(w: World, t: Turn, minutes: int)
    requires t.idSession.None? ==> t.freshId !in w.store
    ensures Refused(w, t).None? && t.idSession.None? ==>
      var after := Accept(w, t, minutes); t.freshId in after.store && |after.store[t.freshId].messages| == 1
  {
  }

  lemma {:induction false} HarvestIgnoresRefresh(w: World, ids: seq<SessionId>, faults: Faults, others: Faults)
    requires faults.unsummarised == others.unsummarised && faults.undeleted == others.undeleted
    ensures Harvest(w, ids, faults) == Harvest(w, ids, others)
    decreases |ids|
  {
    if ids != [] {
      HarvestIgnoresRefresh(Visit(w, ids[0]), ids[1..], faults, others);
    }
  }
}
