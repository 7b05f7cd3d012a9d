/** Exactly which failing turns let a cached window outlive its key between timely passes. */
module SessionLosses {
  import opened SessionKeys
  import opened SessionRuns
  import opened SessionWorld
  import opened Windows

  // A longer possible run, with timely passes and no further turns.
  ghost predicate Continues(es: seq<Event>, all: seq<Event>, minutes: int) {
    && es <= all && PossibleRun(START, all, minutes) && WellSupervised(START, all, minutes)
    && forall i :: |es| <= i < |all| ==> !all[i].TurnTaken?
  }

  ghost predicate Expired(w: World, id: SessionId) {
    id in w.windows && !LiveWindow(w, id)
  }

  // In spite of timely passes, the window's key can expire before its window is read, set or harvested.
  ghost predicate CanExpire(es: seq<Event>, id: SessionId, minutes: int) {
    exists all :: Continues(es, all, minutes) && Expired(Run(START, all, minutes).world, id)
  }

  // ---- A pass that leaves a window alone ----

  lemma {:induction false} FaultlessHarvestCompletes(w: World, ids: seq<SessionId>)
    ensures Harvest(w, ids, FAULTLESS).1
    decreases |ids|
  {
    if ids != [] {
      FaultlessHarvestCompletes(Visit(w, ids[0]), ids[1..]);
    }
  }

  lemma SomeScan(w: World, ids: set<SessionId>) returns (scan: seq<SessionId>)
    ensures forall id :: id in scan <==> id in ids
  {
    if ids == {} {
      scan := [];
    } else {
      var id :| id in ids;
      scan := SomeScan(w, ids - {id});
      scan := scan + [id];
    }
  }

  lemma CompleteScanExists(w: World) returns (scan: seq<SessionId>)
    ensures CompleteScan(w, scan)
  {
    scan := SomeScan(w, set id | id in w.windows && LiveWindow(w, id));
  }

  // The session's window, activity key and stored session.
  ghost predicate Same(v: World, w: World, id: SessionId) {
    && id in v.windows && id in w.windows && w.windows[id] == v.windows[id]
    && id in v.activity && id in w.activity && w.activity[id] == v.activity[id]
    && w.store == v.store
  }

  // Then the session counts as recently updated, and has a message.
  ghost predicate RecentAt(w: World, id: SessionId, at: int, minutes: int) {
    id in w.store && w.store[id].messages != [] && w.store[id].updatedAt >= at - Threshold(minutes)
  }

  lemma PassSkips(w: World, scan: seq<SessionId>, id: SessionId, minutes: int)
    requires id in w.windows && LiveActivity(w, id) && !RecentAt(w, id, w.now, minutes)
    ensures var (after, completed) := WorkerPass(w, scan, FAULTLESS, minutes);
      completed && after.now == w.now && Same(w, after, id)
  {
    hide Harvest, SyncedWindow, SyncedActivity;
    FaultlessHarvestCompletes(w, ListExpired(w, scan));
    HarvestOnlyRemoves(w, ListExpired(w, scan), FAULTLESS);
    var harvested := Harvest(w, ListExpired(w, scan), FAULTLESS).0;
    assert id !in Touched(harvested, minutes);
  }

  // Wait, and pass.
  lemma WaitAndPass(es: seq<Event>, wait: nat, id: SessionId, minutes: int) returns (all: seq<Event>)
    requires PossibleRun(START, es, minutes) && WellSupervised(START, es, minutes) && minutes > 0
    requires var s := Run(START, es, minutes);
      && id in s.world.windows && id in s.world.activity && s.world.now + wait < s.world.activity[id]
      && s.world.now + wait <= s.lastPass + Threshold(minutes)
      && !RecentAt(s.world, id, s.world.now + wait, minutes)
    ensures Continues(es, all, minutes)
    ensures var s, after := Run(START, es, minutes), Run(START, all, minutes);
      && Same(s.world, after.world, id)
      && after.world.now == after.lastPass == s.world.now + wait
  {
    var s := Run(START, es, minutes);
    var waited := s.(world := s.world.(now := s.world.now + wait));
    hide Run, WorkerPass, PossibleRun, WellSupervised;
    Extends(es, TimePassed(wait), minutes);
    var scan := CompleteScanExists(waited.world);
    PassSkips(waited.world, scan, id, minutes);
    Extends(es + [TimePassed(wait)], PassRun(scan, FAULTLESS), minutes);
    all := es + [TimePassed(wait)] + [PassRun(scan, FAULTLESS)];
  }

  lemma ContinuesFurther(es: seq<Event>, mid: seq<Event>, all: seq<Event>, minutes: int)
    requires Continues(es, mid, minutes) && Continues(mid, all, minutes)
    ensures Continues(es, all, minutes)
  {
  }

  // Passes keep coming just before the activity key dies, and never find the window expired.
  lemma {:induction false} PassesMiss(es: seq<Event>, id: SessionId, minutes: int) returns (all: seq<Event>)
    requires PossibleRun(START, es, minutes) && WellSupervised(START, es, minutes) && minutes > 0
    requires var s := Run(START, es, minutes);
      && s.lastPass == s.world.now && LiveActivity(s.world, id) && LiveWindow(s.world, id)
      && s.world.windows[id].expiry - Threshold(minutes) < s.world.activity[id]
      && !RecentAt(s.world, id, s.world.now, minutes)
    ensures Continues(es, all, minutes) && Expired(Run(START, all, minutes).world, id)
    decreases Run(START, es, minutes).world.windows[id].expiry - Run(START, es, minutes).world.now
  {
    var s := Run(START, es, minutes);
    var now, expiry, period := s.world.now, s.world.windows[id].expiry, Threshold(minutes);
    hide Run, PossibleRun, WellSupervised;
    if now + period >= expiry {
      Extends(es, TimePassed(expiry - now), minutes);
      all := es + [TimePassed(expiry - now)];
    } else {
      var wait := if period < s.world.activity[id] - 1 - now then period else s.world.activity[id] - 1 - now;
      var mid := WaitAndPass(es, wait, id, minutes);
      all := PassesMiss(mid, id, minutes);
      ContinuesFurther(es, mid, all, minutes);
    }
  }

  /** A window that slips does expire in some continuation, however timely its passes are. */
  lemma SlippingWindowExpires(es: seq<Event>, id: SessionId, minutes: int)
    requires PossibleRun(START, es, minutes) && WellSupervised(START, es, minutes) && minutes > 0
    requires var s := Run(START, es, minutes);
      && id in s.world.windows && Slips(s, id, minutes)
      && s.lastPass < s.world.windows[id].expiry - Threshold(minutes)
    ensures CanExpire(es, id, minutes)
  {
    hide Run, PossibleRun;
    var s := Run(START, es, minutes);
    LastState(es, minutes);
    var wait := FirstMiss(s, id, minutes);
    hide WellSupervised, Slips;
    var mid := WaitAndPass(es, wait, id, minutes);
    var all := PassesMiss(mid, id, minutes);
    ContinuesFurther(es, mid, all, minutes);
  }

  lemma LastState(es: seq<Event>, minutes: int)
    requires WellSupervised(START, es, minutes)
    ensures PassedLately(Run(START, es, minutes), minutes)
  {
    assert es[..|es|] == es;
  }

  // The next pass can come when the session is not recent, while its activity key is still live.
  lemma FirstMiss(s: State, id: SessionId, minutes: int) returns (wait: nat)
    requires minutes > 0 && PassedLately(s, minutes) && id in s.world.windows && Slips(s, id, minutes)
    ensures var at := s.world.now + wait;
      at < s.world.activity[id] && at <= s.lastPass + Threshold(minutes) && !RecentAt(s.world, id, at, minutes)
  {
    wait := if RecentAt(s.world, id, s.world.now, minutes)
      then s.world.store[id].updatedAt + Threshold(minutes) + 1 - s.world.now else 0;
  }

  // ---- Exactly when a window can expire ----

  lemma ExposedWindowSlips(s: State, t: Turn, minutes: int)
    requires minutes > 0 && Guarded(s, minutes) && Exposes(s, t, minutes)
    ensures var after, id := Step(s, TurnTaken(t), minutes), SessionOf(t);
      && id in after.world.windows && Slips(after, id, minutes)
      && after.lastPass < after.world.windows[id].expiry - Threshold(minutes)
  {
    hide HistoryOf, StoredBefore;
    assert GuardedWindow(s, SessionOf(t), minutes);
  }

  ghost predicate NothingCanExpire(es: seq<Event>, minutes: int) {
    forall i, id :: 0 <= i <= |es| ==> !CanExpire(es[..i], id, minutes)
  }

  lemma ContinuationNeverExposes(es: seq<Event>, all: seq<Event>, minutes: int)
    requires NeverExposes(es, minutes) && Continues(es, all, minutes)
    ensures NeverExposes(all, minutes)
  {
    hide Exposes, Run;
    forall i | 0 <= i < |all| && all[i].TurnTaken? ensures !Exposes(Run(START, all[..i], minutes), all[i].turn, minutes)
    {
      assert all[..i] == es[..i] && all[i] == es[i];
    }
  }

  lemma UnexposedCannotExpire(es: seq<Event>, id: SessionId, minutes: int)
    requires minutes > 0 && NeverExposes(es, minutes)
    ensures !CanExpire(es, id, minutes)
  {
    hide Run, PossibleRun, WellSupervised, NeverExposes;
    forall all | Continues(es, all, minutes) ensures !Expired(Run(START, all, minutes).world, id) {
      ContinuationNeverExposes(es, all, minutes);
      CachedWindowsAreLive(all, minutes);
    }
  }

  lemma LastExposes(es: seq<Event>, minutes: int)
    requires es != [] && NeverExposes(es[..|es| - 1], minutes) && !NeverExposes(es, minutes)
    ensures var n := |es| - 1; es[n].TurnTaken? && Exposes(Run(START, es[..n], minutes), es[n].turn, minutes)
  {
    hide Exposes, Run;
    var n := |es| - 1;
    forall i | 0 <= i < n ensures es[..n][..i] == es[..i] && es[..n][i] == es[i] {
    }
  }

  lemma ExposedCanExpire(es: seq<Event>, minutes: int)
    requires minutes > 0 && PossibleRun(START, es, minutes) && WellSupervised(START, es, minutes) && es != []
    requires NeverExposes(es[..|es| - 1], minutes) && !NeverExposes(es, minutes)
    ensures exists id :: CanExpire(es, id, minutes)
  {
    var n := |es| - 1;
    hide Exposes, Guarded, Step, CanExpire, Slips, NeverExposes, PossibleRun, WellSupervised;
    LastExposes(es, minutes);
    PrefixIsSupervised(es, n, minutes);
    CachedWindowsAreLive(es[..n], minutes);
    ExposedWindowSlips(Run(START, es[..n], minutes), es[n].turn, minutes);
    SlippingWindowExpires(es, SessionOf(es[n].turn), minutes);
  }

  /**
   * Over whole runs with timely passes: at no moment can a cached window expire before it is set anew
   * or harvested, in any continuation without turns, exactly when no turn exposes a window.
   */
  lemma {:induction false} NothingCanExpireIffNeverExposed(es: seq<Event>, minutes: int)
    requires minutes > 0 && PossibleRun(START, es, minutes) && WellSupervised(START, es, minutes)
    ensures NothingCanExpire(es, minutes) <==> NeverExposes(es, minutes)
  {
    hide Exposes, Run, Possible, PassedLately, CanExpire;
    assert es[..|es|] == es;
    if es == [] {
      forall id ensures !CanExpire([], id, minutes) {
        UnexposedCannotExpire([], id, minutes);
      }
    } else {
      var n := |es| - 1;
      forall i | 0 <= i <= n ensures es[..n][..i] == es[..i] && (i < n ==> es[..n][i] == es[i]) {
      }
      PrefixIsSupervised(es, n, minutes);
      NothingCanExpireIffNeverExposed(es[..n], minutes);
      if NeverExposes(es, minutes) {
        forall id ensures !CanExpire(es, id, minutes) {
          UnexposedCannotExpire(es, id, minutes);
        }
      } else if NeverExposes(es[..n], minutes) {
        ExposedCanExpire(es, minutes);
      }
    }
  }
}
