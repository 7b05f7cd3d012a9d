/** Whole runs of turns and worker passes, each atomic, against a clock that only advances. */
module SessionRuns {
  import opened SessionKeys
  import opened SessionWorld
  import opened Windows

  datatype Event =
    | TurnTaken(turn: Turn)
    | PassRun(scan: seq<SessionId>, faults: Faults)
    | TimePassed(micros: nat)

  // `issued` are the ids that the database ever gave to a session.
  datatype State = State(world: World, lastPass: int, issued: set<SessionId>)

  const EMPTY := World(0, map[], map[], map[], [])

  const START := State(EMPTY, 0, {})

  ghost function Step(s: State, e: Event, minutes: int): State {
    match e
    case TurnTaken(t) =>
      State(SendTurn(s.world, t, minutes).0, s.lastPass, s.issued + if t.idSession.None? then {t.freshId} else {})
    case PassRun(scan, faults) =>
      var (world, completed) := WorkerPass(s.world, scan, faults, minutes);
      State(world, if completed then s.world.now else s.lastPass, s.issued)
    case TimePassed(micros) => s.(world := s.world.(now := s.world.now + micros))
  }

  ghost function Run(s: State, es: seq<Event>, minutes: int): State {
    if es == [] then s else Step(Run(s, es[..|es| - 1], minutes), es[|es| - 1], minutes)
  }

  // What the environment provides: unused ids for new sessions, and scans that miss no live key.
  ghost predicate Possible(s: State, e: Event) {
    match e
    case TurnTaken(t) => t.idSession.None? ==> t.freshId !in s.issued
    case PassRun(scan, _) => CompleteScan(s.world, scan)
    case TimePassed(_) => true
  }

  ghost predicate PossibleRun(s: State, es: seq<Event>, minutes: int) {
    forall i :: 0 <= i < |es| ==> Possible(Run(s, es[..i], minutes), es[i])
  }

  // A pass has completed within the last inactivity period.
  ghost predicate PassedLately(s: State, minutes: int) {
    s.world.now <= s.lastPass + Threshold(minutes)
  }

  ghost predicate WellSupervised(s: State, es: seq<Event>, minutes: int) {
    forall i :: 0 <= i <= |es| ==> PassedLately(Run(s, es[..i], minutes), minutes)
  }

  // ---- The window agrees with the stored history ----

  ghost predicate Fits(window: Window, s: Session, minutes: int) {
    && window.owner == s.owner
    && window.messages != []
    && Suffix(window.messages, s.messages)
    && Suffix(Derive(s.messages, Threshold(minutes)), window.messages)
  }

  // Every live window of a stored session fits it.
  ghost predicate Agrees(w: World, minutes: int) {
    forall id :: id in w.store && LiveWindow(w, id) ==> Fits(w.windows[id], w.store[id], minutes)
  }

  // Whatever is stored or cached was issued, and no empty window is cached.
  ghost predicate Tidy(s: State) {
    && s.world.store.Keys <= s.issued && s.world.windows.Keys <= s.issued
    && forall id :: id in s.world.windows ==> s.world.windows[id].messages != []
  }

  // A turn saves its message and does not get to cache it, past a live window.
  ghost predicate SavesPast(w: World, t: Turn) {
    Refused(w, t).None? && t.fault.WindowFails? && LiveWindow(w, SessionOf(t))
  }

  lemma GrownHistoryFits(history: seq<Message>, stored: seq<Message>, m: Message, threshold: int)
    requires Suffix(history, stored) && Suffix(Derive(stored, threshold), history)
    ensures Suffix(history + [m], stored + [m]) && Suffix(Derive(stored + [m], threshold), history + [m])
  {
    DeriveIsIncremental(stored, m, threshold);
    SuffixGrows(history, stored, m);
    SuffixGrows(Derive(stored, threshold), history, m);
    assert Suffix([m], history + [m]);
  }

  lemma WholeHistoryFits(stored: seq<Message>, threshold: int)
    ensures Suffix(stored, stored) && Suffix(Derive(stored, threshold), stored)
  {
    DeriveIsWindow(stored, threshold);
  }

  lemma HistoryFits(w: World, id: SessionId, stored: seq<Message>, threshold: int)
    requires LiveWindow(w, id) ==>
      Suffix(w.windows[id].messages, stored) && Suffix(Derive(stored, threshold), w.windows[id].messages)
    ensures Suffix(History(w, id, stored), stored) && Suffix(Derive(stored, threshold), History(w, id, stored))
  {
    WholeHistoryFits(stored, threshold);
  }

  lemma CachedHistoryFits(w: World, t: Turn, minutes: int)
    requires Refused(w, t).None? && Agrees(w, minutes)
    requires t.idSession.None? ==> t.freshId !in w.windows
    ensures Suffix(HistoryOf(w, t), StoredBefore(w, t))
    ensures Suffix(Derive(StoredBefore(w, t), Threshold(minutes)), HistoryOf(w, t))
  {
    hide Suffix, Derive;
    HistoryFits(w, SessionOf(t), StoredBefore(w, t), Threshold(minutes));
  }

  lemma AcceptedTurnFits(w: World, t: Turn, minutes: int)
    requires Refused(w, t).None? && !t.fault.WindowFails?
    requires Suffix(HistoryOf(w, t), StoredBefore(w, t))
    requires Suffix(Derive(StoredBefore(w, t), Threshold(minutes)), HistoryOf(w, t))
    ensures Fits(Accept(w, t, minutes).windows[SessionOf(t)], Accept(w, t, minutes).store[SessionOf(t)], minutes)
  {
    hide Suffix, Derive;
    var id, after := SessionOf(t), Accept(w, t, minutes);
    GrownSessionFits(after.windows[id], after.store[id], HistoryOf(w, t), StoredBefore(w, t), t.reply.value, minutes);
  }

  lemma GrownSessionFits(window: Window, s: Session,
      history: seq<Message>, stored: seq<Message>, m: Message, minutes: int)
    requires window.owner == s.owner && window.messages == history + [m] && s.messages == stored + [m]
    requires Suffix(history, stored) && Suffix(Derive(stored, Threshold(minutes)), history)
    ensures Fits(window, s, minutes)
  {
    GrownHistoryFits(history, stored, m, Threshold(minutes));
  }

  lemma TurnKeepsAgreement(s: State, t: Turn, minutes: int)
    requires Agrees(s.world, minutes) && Tidy(s) && Possible(s, TurnTaken(t)) && !SavesPast(s.world, t)
    ensures Agrees(SendTurn(s.world, t, minutes).0, minutes)
  {
    hide Fits, Suffix, Derive, HistoryOf, StoredBefore;
    if Refused(s.world, t).None? && !t.fault.WindowFails? {
      CachedHistoryFits(s.world, t, minutes);
      AcceptedTurnFits(s.world, t, minutes);
    }
  }

  lemma SyncedFits(w: World, id: SessionId, minutes: int)
    requires id in w.store && w.store[id].messages != []
    ensures Fits(SyncedWindow(w, id, minutes), w.store[id], minutes)
  {
    DeriveIsWindow(w.store[id].messages, Threshold(minutes));
  }

  // A refresh, whole or in part: every window is the one before or the one derived now.
  ghost predicate Refreshed(w: World, after: World, minutes: int) {
    && after.now == w.now && after.store == w.store && after.memories == w.memories
    && w.windows.Keys <= after.windows.Keys
    && forall id :: id in after.windows ==>
         || (id in w.windows && after.windows[id] == w.windows[id])
         || (id in Touched(w, minutes) && after.windows[id] == SyncedWindow(w, id, minutes))
  }

  lemma SyncRefreshes(w: World, minutes: int)
    ensures Refreshed(w, Sync(w, minutes), minutes)
    ensures forall done, half :: Refreshed(w, PartSync(w, done, half, minutes), minutes)
  {
    hide SyncedWindow, SyncedActivity, IsRecent;
  }

  lemma RefreshKeepsAgreement(w: World, after: World, minutes: int)
    requires Agrees(w, minutes) && Refreshed(w, after, minutes)
    ensures Agrees(after, minutes)
  {
    hide Fits, SyncedWindow, IsRecent;
    forall id | id in after.store && LiveWindow(after, id) ensures Fits(after.windows[id], after.store[id], minutes) {
      if id in Touched(w, minutes) && after.windows[id] == SyncedWindow(w, id, minutes) {
        SyncedFits(w, id, minutes);
      } else {
        assert LiveWindow(w, id);
      }
    }
  }

  lemma PassKeepsAgreement(w: World, scan: seq<SessionId>, faults: Faults, minutes: int)
    requires Agrees(w, minutes)
    ensures Agrees(WorkerPass(w, scan, faults, minutes).0, minutes)
  {
    hide Fits, Harvest, Sync, PartSync, Refreshed;
    var ids := ListExpired(w, scan);
    HarvestOnlyRemoves(w, ids, faults);
    var harvested := Harvest(w, ids, faults).0;
    assert Agrees(harvested, minutes);
    SyncRefreshes(harvested, minutes);
    RefreshKeepsAgreement(harvested, WorkerPass(w, scan, faults, minutes).0, minutes) by {
      if !Harvest(w, ids, faults).1 {
        NothingRefreshed(harvested, minutes);
      }
    }
  }

  lemma NothingRefreshed(w: World, minutes: int)
    ensures Refreshed(w, w, minutes)
  {
  }

  lemma {:induction false} HarvestOnlyRemoves(w: World, ids: seq<SessionId>, faults: Faults)
    ensures var after := Harvest(w, ids, faults).0;
      && after == w.(windows := after.windows, memories := after.memories)
      && w.memories <= after.memories
      && (forall id :: id in after.windows ==> id in w.windows && after.windows[id] == w.windows[id])
      && (forall id :: id in w.windows && id !in ids ==> id in after.windows)
    decreases |ids|
  {
    if ids != [] {
      HarvestOnlyRemoves(Visit(w, ids[0]), ids[1..], faults);
    }
  }

  ghost predicate AlwaysCaches(es: seq<Event>, minutes: int) {
    forall i :: 0 <= i < |es| && es[i].TurnTaken? ==> !SavesPast(Run(START, es[..i], minutes).world, es[i].turn)
  }

  lemma StepKeepsTidy(s: State, e: Event, minutes: int)
    requires Tidy(s) && Possible(s, e)
    ensures Tidy(Step(s, e, minutes))
  {
    hide Derive, HistoryOf, Harvest, Sync, PartSync, Touched;
    if e.PassRun? {
      var ids := ListExpired(s.world, e.scan);
      HarvestOnlyRemoves(s.world, ids, e.faults);
      var harvested := Harvest(s.world, ids, e.faults).0;
      SyncRefreshes(harvested, minutes);
      RefreshedAreStored(harvested, minutes);
    }
  }

  lemma RefreshedAreStored(w: World, minutes: int)
    ensures forall id :: id in Touched(w, minutes) ==> id in w.store && SyncedWindow(w, id, minutes).messages != []
  {
    forall id | id in Touched(w, minutes) ensures SyncedWindow(w, id, minutes).messages != [] {
      SyncedFits(w, id, minutes);
    }
  }

  lemma {:induction false} EveryRunIsTidy(es: seq<Event>, minutes: int)
    requires PossibleRun(START, es, minutes)
    ensures Tidy(Run(START, es, minutes))
  {
    hide Step, Possible;
    if es != [] {
      PrefixIsPossible(es, |es| - 1, minutes);
      EveryRunIsTidy(es[..|es| - 1], minutes);
      StepKeepsTidy(Run(START, es[..|es| - 1], minutes), es[|es| - 1], minutes);
    }
  }

  lemma PrefixIsPossible(es: seq<Event>, n: nat, minutes: int)
    requires n <= |es| && PossibleRun(START, es, minutes)
    ensures PossibleRun(START, es[..n], minutes)
    ensures n < |es| ==> Possible(Run(START, es[..n], minutes), es[n])
  {
    forall i | 0 <= i < n ensures es[..n][..i] == es[..i] {
    }
  }

  /**
   * In every run in which no turn saves its message past a live window without getting to cache it,
   * whatever the timestamps and wherever turns and passes fail: each live window of a stored session
   * is a suffix of its stored turns and reaches back at least to the window derived from them.
   */
  lemma {:induction false} WindowsAgreeWithHistory(es: seq<Event>, minutes: int)
    requires PossibleRun(START, es, minutes) && AlwaysCaches(es, minutes)
    ensures Agrees(Run(START, es, minutes).world, minutes)
  {
    hide Agrees, Tidy, SendTurn, WorkerPass, SavesPast;
    if es == [] {
      NothingAgrees(minutes);
    } else {
      var n := |es| - 1;
      var before := Run(START, es[..n], minutes);
      forall i | 0 <= i < n ensures es[..n][..i] == es[..i] {
      }
      PrefixIsPossible(es, n, minutes);
      WindowsAgreeWithHistory(es[..n], minutes);
      EveryRunIsTidy(es[..n], minutes);
      match es[n]
      case TurnTaken(t) => TurnKeepsAgreement(before, t, minutes);
      case PassRun(scan, faults) => PassKeepsAgreement(before.world, scan, faults, minutes);
      case TimePassed(micros) => TimeKeepsAgreement(before.world, micros, minutes);
    }
  }

  lemma NothingAgrees(minutes: int)
    ensures Agrees(EMPTY, minutes)
  {
  }

  lemma TimeKeepsAgreement(w: World, micros: nat, minutes: int)
    requires Agrees(w, minutes)
    ensures Agrees(w.(now := w.now + micros), minutes)
  {
    hide Fits;
    var after := w.(now := w.now + micros);
    forall id | id in after.store && LiveWindow(after, id) ensures Fits(after.windows[id], after.store[id], minutes) {
      assert LiveWindow(w, id);
    }
  }

  /** Such a turn leaves a window that is still a suffix exactly when the window held no other message. */
  lemma SavingPastFitsIff(w: World, t: Turn, minutes: int)
    requires SavesPast(w, t) && t.idSession.Some?
    requires Suffix(w.windows[SessionOf(t)].messages, w.store[SessionOf(t)].messages)
    ensures var id, after := SessionOf(t), SendTurn(w, t, minutes).0;
      && LiveWindow(after, id) && id in after.store
      && (Suffix(after.windows[id].messages, after.store[id].messages)
          <==> forall x :: x in w.windows[id].messages ==> x == t.reply.value)
  {
    hide Suffix;
    SuffixPastOneMore(w.windows[SessionOf(t)].messages, w.store[SessionOf(t)].messages, t.reply.value);
  }

  lemma PastIsNoFit(w: seq<Message>, ms: seq<Message>, m: Message, threshold: int)
    requires threshold > 0 && w != [] && Suffix(w, ms) && Suffix(w, ms + [m])
    ensures !Suffix(Derive(ms + [m], threshold), w)
  {
    SuffixPastOneMore(w, ms, m);
    DeriveIsWindow(ms + [m], threshold);
    var k := |ms| - |w|;
    assert (ms + [m])[k..] == w + [m];
    forall i | 0 <= i < |w + [m]| ensures (w + [m])[i] == m {
      assert i < |w| ==> w[i] in w;
    }
    assert IsRun(w + [m], threshold);
  }

  lemma SavingPastBreaksAgreement(s: State, t: Turn, minutes: int)
    requires minutes > 0 && Agrees(s.world, minutes) && Tidy(s) && Possible(s, TurnTaken(t)) && SavesPast(s.world, t)
    ensures !Agrees(SendTurn(s.world, t, minutes).0, minutes)
  {
    hide Suffix, Derive;
    var id, after := SessionOf(t), SendTurn(s.world, t, minutes).0;
    assert t.idSession.Some? && Fits(s.world.windows[id], s.world.store[id], minutes);
    var window, stored, m := s.world.windows[id].messages, s.world.store[id].messages, t.reply.value;
    if Suffix(window, stored + [m]) {
      PastIsNoFit(window, stored, m, Threshold(minutes));
    }
    assert LiveWindow(after, id) && !Fits(after.windows[id], after.store[id], minutes);
  }

  ghost predicate AlwaysAgrees(es: seq<Event>, minutes: int) {
    forall i :: 0 <= i <= |es| ==> Agrees(Run(START, es[..i], minutes).world, minutes)
  }

  /** Over whole runs, wherever turns and passes fail: windows always agree exactly when no turn does that. */
  lemma {:induction false} AgreementIffAlwaysCached(es: seq<Event>, minutes: int)
    requires minutes > 0 && PossibleRun(START, es, minutes)
    ensures AlwaysAgrees(es, minutes) <==> AlwaysCaches(es, minutes)
  {
    hide Agrees, Tidy, Step, SavesPast, Possible;
    assert es[..|es|] == es;
    if es == [] {
      NothingAgrees(minutes);
    } else {
      var n := |es| - 1;
      forall i | 0 <= i <= n ensures es[..n][..i] == es[..i] && (i < n ==> es[..n][i] == es[i]) {
      }
      PrefixIsPossible(es, n, minutes);
      AgreementIffAlwaysCached(es[..n], minutes);
      if AlwaysCaches(es, minutes) {
        WindowsAgreeWithHistory(es, minutes);
      } else if AlwaysCaches(es[..n], minutes) {
        EveryRunIsTidy(es[..n], minutes);
        SavingPastBreaksAgreement(Run(START, es[..n], minutes), es[n].turn, minutes) by {
          assert Agrees(Run(START, es[..n], minutes).world, minutes);
        }
        StepOfTurn(Run(START, es[..n], minutes), es[n].turn, minutes);
      }
    }
  }

  lemma StepOfTurn(s: State, t: Turn, minutes: int)
    ensures Step(s, TurnTaken(t), minutes).world == SendTurn(s.world, t, minutes).0
  {
  }

  // A lifetime, in microseconds: the whole seconds of what remains, but at least one.
  ghost predicate LastsWholeSeconds(lifetime: int, remaining: int) {
    && lifetime % 1_000_000 == 0 && lifetime >= 1_000_000 && remaining < lifetime + 1_000_000
    && (lifetime == 1_000_000 || lifetime <= remaining)
  }

  /** Right after a pass, a recently updated session's window is the one derived from its history. */
  lemma PassRefreshesRecentWindows(w: World, scan: seq<SessionId>, faults: Faults, minutes: int, id: SessionId)
    requires WorkerPass(w, scan, faults, minutes).1
    requires minutes > 0
    requires IsRecent(w, id, minutes) && w.store[id].messages != []
    ensures var after := WorkerPass(w, scan, faults, minutes).0;
      && LiveWindow(after, id) && LiveActivity(after, id)
      && after.store == w.store
      && after.windows[id].messages == Derive(w.store[id].messages, Threshold(minutes))
      && after.windows[id].owner == w.store[id].owner
      && after.windows[id].expiry == w.now + 2 * minutes * 60 * 1_000_000
      && LastsWholeSeconds(after.activity[id] - w.now, w.store[id].updatedAt + Threshold(minutes) - w.now)
  {
    hide Derive;
    HarvestOnlyRemoves(w, ListExpired(w, scan), faults);
    ActivityTtlIsWholeSeconds(w.store[id].updatedAt, w.now, minutes);
  }

  // ---- No window is lost to its TTL ----

  // The last completed pass left each window at least a full period to live, no activity key
  // outlives its window, and no window can slip between the passes.
  ghost predicate Guarded(s: State, minutes: int) {
    && s.lastPass <= s.world.now
    && (forall id :: id in s.world.windows ==> GuardedWindow(s, id, minutes))
    && (forall id :: LiveActivity(s.world, id) ==> id in s.world.windows)
  }

  ghost predicate GuardedWindow(s: State, id: SessionId, minutes: int)
    requires id in s.world.windows
  {
    && s.lastPass < s.world.windows[id].expiry - Threshold(minutes) <= s.world.now + Threshold(minutes)
    && !Slips(s, id, minutes)
  }

  // The activity key will hold off the harvest until the window has less than a period to live,
  // although the session will not count as recently updated until then, and not at the next pass.
  ghost predicate Slips(s: State, id: SessionId, minutes: int)
    requires id in s.world.windows
  {
    && LiveActivity(s.world, id)
    && s.world.windows[id].expiry - Threshold(minutes) < s.world.activity[id]
    && (id in s.world.store && s.world.store[id].messages != [] ==>
          && s.world.store[id].updatedAt + Threshold(minutes) + 1 < s.world.activity[id]
          && s.world.store[id].updatedAt < s.lastPass)
  }

  // A turn saves a message dated before the last completed pass, fails to renew the activity key, and
  // leaves a live one that lasts past a period after that date, and to within a period of the
  // window's expiry.
  predicate Exposes(s: State, t: Turn, minutes: int) {
    var w, id := s.world, SessionOf(t);
    && Refused(w, t).None? && t.idSession.Some? && (t.fault.WindowFails? || t.fault.ActivityFails?)
    && LiveActivity(w, id) && id in w.windows
    && t.reply.value.submittedAt < s.lastPass
    && t.reply.value.submittedAt + Threshold(minutes) + 1 < w.activity[id]
    && (if t.fault.WindowFails? then w.windows[id].expiry - Threshold(minutes) else w.now + Threshold(minutes))
       < w.activity[id]
  }

  ghost predicate NeverExposes(es: seq<Event>, minutes: int) {
    forall i :: 0 <= i < |es| && es[i].TurnTaken? ==> !Exposes(Run(START, es[..i], minutes), es[i].turn, minutes)
  }

  ghost predicate AlwaysGuarded(es: seq<Event>, minutes: int) {
    forall i :: 0 <= i <= |es| ==> Guarded(Run(START, es[..i], minutes), minutes)
  }

  /** Only a turn that moves its session's modification time back exposes a window. */
  lemma ExposingMovesBack(s: State, t: Turn, minutes: int)
    requires Guarded(s, minutes) && Exposes(s, t, minutes)
    ensures SessionOf(t) in s.world.store && t.reply.value.submittedAt < s.world.store[SessionOf(t)].updatedAt
  {
    assert GuardedWindow(s, SessionOf(t), minutes);
  }

  lemma ActivityDiesInTime(updatedAt: int, now: int, minutes: int)
    requires minutes > 0
    ensures var activity := now + ActivityTtl(updatedAt, now, minutes) * MICROS_PER_SECOND;
      activity <= now + Threshold(minutes) || activity <= updatedAt + Threshold(minutes)
  {
  }

  /** The lifetime of an activity key is the remaining whole seconds of the period, but at least one. */
  lemma ActivityTtlIsWholeSeconds(updatedAt: int, now: int, minutes: int)
    ensures var ttl, remaining := ActivityTtl(updatedAt, now, minutes), updatedAt + Threshold(minutes) - now;
      && ttl >= 1 && remaining < (ttl + 1) * MICROS_PER_SECOND
      && (ttl == 1 || ttl * MICROS_PER_SECOND <= remaining)
  {
  }

  // The activity keys after a refresh, whole or in part: those before, and new ones for new windows.
  ghost predicate ActivityRefreshed(w: World, after: World, minutes: int) {
    && (forall id :: id in after.activity ==>
          || (id in w.activity && after.activity[id] == w.activity[id])
          || (id in Touched(w, minutes) && id in after.windows && after.windows[id] == SyncedWindow(w, id, minutes)
              && after.activity[id] == SyncedActivity(w, id, minutes)))
    && (forall id :: id in w.activity ==> id in after.activity)
  }

  lemma SyncRefreshesActivity(w: World, minutes: int)
    ensures ActivityRefreshed(w, Sync(w, minutes), minutes)
    ensures forall done, half :: ActivityRefreshed(w, PartSync(w, done, half, minutes), minutes)
  {
    hide SyncedWindow, SyncedActivity, IsRecent;
  }

  lemma RefreshKeepsGuard(s: State, after: World, minutes: int)
    requires minutes > 0 && Guarded(s, minutes)
    requires Refreshed(s.world, after, minutes) && ActivityRefreshed(s.world, after, minutes)
    ensures Guarded(State(after, s.lastPass, s.issued), minutes)
  {
    hide Derive, ActivityTtl, Refreshed, ActivityRefreshed, GuardedWindow;
    var next := State(after, s.lastPass, s.issued);
    forall id | id in after.windows ensures GuardedWindow(next, id, minutes) {
      RefreshKeepsWindowGuard(s, after, minutes, id);
    }
    ActivityStaysCovered(s, after, minutes);
  }

  lemma ActivityStaysCovered(s: State, after: World, minutes: int)
    requires Guarded(s, minutes) && Refreshed(s.world, after, minutes) && ActivityRefreshed(s.world, after, minutes)
    ensures forall id :: LiveActivity(after, id) ==> id in after.windows
    ensures after.now == s.world.now
  {
    hide SyncedWindow, SyncedActivity, IsRecent;
    forall id | LiveActivity(after, id) ensures id in after.windows {
      if id in s.world.activity && after.activity[id] == s.world.activity[id] {
        assert LiveActivity(s.world, id);
      }
    }
  }

  lemma RefreshKeepsWindowGuard(s: State, after: World, minutes: int, id: SessionId)
    requires minutes > 0 && Guarded(s, minutes) && id in after.windows
    requires Refreshed(s.world, after, minutes) && ActivityRefreshed(s.world, after, minutes)
    ensures GuardedWindow(State(after, s.lastPass, s.issued), id, minutes)
  {
    hide Derive, ActivityTtl;
    if id in Touched(s.world, minutes) && after.windows[id] == SyncedWindow(s.world, id, minutes) {
      ActivityDiesInTime(s.world.store[id].updatedAt, s.world.now, minutes);
      if id in s.world.windows {
        assert GuardedWindow(s, id, minutes);
      } else {
        assert !LiveActivity(s.world, id);
      }
    } else {
      assert GuardedWindow(s, id, minutes);
    }
  }

  // A whole refresh after a completed harvest: all windows left have a period to live from now.
  lemma SyncAdvancesGuard(s: State, minutes: int)
    requires minutes > 0 && Guarded(s, minutes) && PassedLately(s, minutes)
    requires forall id :: id in s.world.windows ==> LiveActivity(s.world, id)
    ensures Guarded(State(Sync(s.world, minutes), s.world.now, s.issued), minutes)
  {
    hide Sync, Refreshed, ActivityRefreshed, GuardedWindow;
    SyncRefreshes(s.world, minutes);
    SyncRefreshesActivity(s.world, minutes);
    ActivityStaysCovered(s, Sync(s.world, minutes), minutes);
    var after := State(Sync(s.world, minutes), s.world.now, s.issued);
    forall id | id in after.world.windows ensures GuardedWindow(after, id, minutes) {
      SyncAdvancesWindowGuard(s, minutes, id);
    }
  }

  lemma SyncAdvancesWindowGuard(s: State, minutes: int, id: SessionId)
    requires minutes > 0 && Guarded(s, minutes) && PassedLately(s, minutes)
    requires forall id :: id in s.world.windows ==> LiveActivity(s.world, id)
    requires id in Sync(s.world, minutes).windows
    ensures GuardedWindow(State(Sync(s.world, minutes), s.world.now, s.issued), id, minutes)
  {
    hide Derive, ActivityTtl;
    if id in Touched(s.world, minutes) {
      ActivityDiesInTime(s.world.store[id].updatedAt, s.world.now, minutes);
    } else {
      assert id in s.world.windows && GuardedWindow(s, id, minutes);
    }
  }

  lemma HarvestKeepsGuard(s: State, scan: seq<SessionId>, faults: Faults, minutes: int)
    requires Guarded(s, minutes)
    ensures Guarded(s.(world := Harvest(s.world, ListExpired(s.world, scan), faults).0), minutes)
  {
    hide Harvest;
    var ids := ListExpired(s.world, scan);
    HarvestOnlyRemoves(s.world, ids, faults);
    var after := s.(world := Harvest(s.world, ids, faults).0);
    forall id | id in after.world.windows ensures GuardedWindow(after, id, minutes) {
      assert GuardedWindow(s, id, minutes);
    }
    forall id | LiveActivity(after.world, id) ensures id in after.world.windows {
      assert LiveActivity(s.world, id) && id !in ids;
    }
  }

  lemma PassKeepsGuard(s: State, scan: seq<SessionId>, faults: Faults, minutes: int)
    requires minutes > 0 && Guarded(s, minutes) && PassedLately(s, minutes)
    requires CompleteScan(s.world, scan)
    ensures Guarded(Step(s, PassRun(scan, faults), minutes), minutes)
  {
    hide Harvest, Sync, PartSync, Guarded, Refreshed, ActivityRefreshed;
    HarvestKeepsGuard(s, scan, faults, minutes);
    var (harvested, completed) := Harvest(s.world, ListExpired(s.world, scan), faults);
    var left := s.(world := harvested);
    HarvestOnlyRemoves(s.world, ListExpired(s.world, scan), faults);
    if completed {
      match faults.refresh
      case Whole =>
        HarvestLeavesActive(s, scan, faults, minutes);
        SyncAdvancesGuard(left, minutes);
      case Interrupted(done, half) =>
        SyncRefreshes(harvested, minutes);
        SyncRefreshesActivity(harvested, minutes);
        RefreshKeepsGuard(left, PartSync(harvested, done, half, minutes), minutes);
    }
  }

  lemma HarvestLeavesActive(s: State, scan: seq<SessionId>, faults: Faults, minutes: int)
    requires minutes > 0 && Guarded(s, minutes) && PassedLately(s, minutes) && CompleteScan(s.world, scan)
    requires Harvest(s.world, ListExpired(s.world, scan), faults).1
    ensures var left := Harvest(s.world, ListExpired(s.world, scan), faults).0;
      forall id :: id in left.windows ==> LiveActivity(left, id)
  {
    hide Harvest;
    var _ := HarvestPassIsExact(s.world, scan, faults);
    forall id | id in s.world.windows ensures LiveWindow(s.world, id) {
      assert GuardedWindow(s, id, minutes);
    }
  }

  lemma TurnKeepsGuardIff(s: State, t: Turn, minutes: int)
    requires minutes > 0 && Guarded(s, minutes) && Tidy(s) && Possible(s, TurnTaken(t))
    ensures Guarded(Step(s, TurnTaken(t), minutes), minutes) <==> !Exposes(s, t, minutes)
  {
    hide HistoryOf, StoredBefore, GuardedWindow, Tidy, Exposes;
    var after := Step(s, TurnTaken(t), minutes);
    forall id | id in after.world.windows
      ensures GuardedWindow(after, id, minutes) <==> !(Exposes(s, t, minutes) && id == SessionOf(t))
    {
      TurnKeepsWindowGuardIff(s, t, minutes, id);
    }
    ExposedIsCached(s, t, minutes);
    forall id | LiveActivity(after.world, id) ensures id in after.world.windows {
      assert LiveActivity(s.world, id) || (Refused(s.world, t).None? && id == SessionOf(t) && !t.fault.WindowFails?);
    }
  }

  lemma ExposedIsCached(s: State, t: Turn, minutes: int)
    ensures Exposes(s, t, minutes) ==> SessionOf(t) in Step(s, TurnTaken(t), minutes).world.windows
  {
  }

  lemma TurnKeepsWindowGuardIff(s: State, t: Turn, minutes: int, id: SessionId)
    requires minutes > 0 && Guarded(s, minutes) && Tidy(s) && Possible(s, TurnTaken(t))
    requires id in Step(s, TurnTaken(t), minutes).world.windows
    ensures GuardedWindow(Step(s, TurnTaken(t), minutes), id, minutes)
      <==> !(Exposes(s, t, minutes) && id == SessionOf(t))
  {
    hide HistoryOf, StoredBefore, Exposes, GuardedWindow;
    if id != SessionOf(t) {
      OtherTurnKeepsWindowGuard(s, t, minutes, id);
    } else if t.idSession.None? {
      FirstTurnKeepsWindowGuard(s, t, minutes);
    } else {
      OwnTurnKeepsWindowGuardIff(s, t, minutes);
    }
  }

  lemma OtherTurnKeepsWindowGuard(s: State, t: Turn, minutes: int, id: SessionId)
    requires Guarded(s, minutes) && id != SessionOf(t)
    requires id in Step(s, TurnTaken(t), minutes).world.windows
    ensures GuardedWindow(Step(s, TurnTaken(t), minutes), id, minutes)
  {
    hide HistoryOf, StoredBefore;
    assert GuardedWindow(s, id, minutes);
  }

  lemma FirstTurnKeepsWindowGuard(s: State, t: Turn, minutes: int)
    requires minutes > 0 && Guarded(s, minutes) && Tidy(s) && Possible(s, TurnTaken(t)) && t.idSession.None?
    requires SessionOf(t) in Step(s, TurnTaken(t), minutes).world.windows
    ensures GuardedWindow(Step(s, TurnTaken(t), minutes), SessionOf(t), minutes) && !Exposes(s, t, minutes)
  {
    hide HistoryOf, StoredBefore;
    assert !LiveActivity(s.world, SessionOf(t));
  }

  lemma OwnTurnKeepsWindowGuardIff(s: State, t: Turn, minutes: int)
    requires minutes > 0 && Guarded(s, minutes) && t.idSession.Some?
    requires SessionOf(t) in Step(s, TurnTaken(t), minutes).world.windows
    ensures GuardedWindow(Step(s, TurnTaken(t), minutes), SessionOf(t), minutes) <==> !Exposes(s, t, minutes)
  {
    hide HistoryOf, StoredBefore;
    var id := SessionOf(t);
    if id in s.world.windows {
      assert GuardedWindow(s, id, minutes);
    } else {
      assert !LiveActivity(s.world, id);
    }
  }

  /** One turn or pass, with any failures, keeps the guard exactly when it is no turn that exposes a window. */
  lemma StepKeepsGuardIff(s: State, e: Event, minutes: int)
    requires minutes > 0 && Guarded(s, minutes) && Tidy(s)
    requires Possible(s, e) && PassedLately(s, minutes)
    ensures Guarded(Step(s, e, minutes), minutes) <==> !(e.TurnTaken? && Exposes(s, e.turn, minutes))
  {
    hide SendTurn, WorkerPass, Tidy, Exposes;
    match e
    case TurnTaken(t) => TurnKeepsGuardIff(s, t, minutes);
    case PassRun(scan, faults) => PassKeepsGuard(s, scan, faults, minutes);
    case TimePassed(micros) => TimeKeepsGuard(s, micros, minutes);
  }

  lemma TimeKeepsGuard(s: State, micros: nat, minutes: int)
    requires Guarded(s, minutes)
    ensures Guarded(Step(s, TimePassed(micros), minutes), minutes)
  {
    var after := Step(s, TimePassed(micros), minutes);
    forall id | id in after.world.windows ensures GuardedWindow(after, id, minutes) {
      assert GuardedWindow(s, id, minutes);
    }
    forall id | LiveActivity(after.world, id) ensures id in after.world.windows {
      assert LiveActivity(s.world, id);
    }
  }

  /** Over whole runs: the guard always holds exactly when no turn exposes a window. */
  lemma {:induction false} GuardedIffNeverExposed(es: seq<Event>, minutes: int)
    requires minutes > 0 && PossibleRun(START, es, minutes) && WellSupervised(START, es, minutes)
    ensures AlwaysGuarded(es, minutes) <==> NeverExposes(es, minutes)
  {
    hide Step, Possible, Guarded, Tidy, Exposes;
    assert es[..|es|] == es;
    if es == [] {
      NothingToGuard(minutes);
    } else {
      var n := |es| - 1;
      forall i | 0 <= i <= n ensures es[..n][..i] == es[..i] && (i < n ==> es[..n][i] == es[i]) {
      }
      PrefixIsSupervised(es, n, minutes);
      GuardedIffNeverExposed(es[..n], minutes);
      if AlwaysGuarded(es[..n], minutes) {
        LastStepKeepsGuardIff(es, minutes);
      }
    }
  }

  lemma LastStepKeepsGuardIff(es: seq<Event>, minutes: int)
    requires minutes > 0 && PossibleRun(START, es, minutes) && WellSupervised(START, es, minutes)
    requires es != [] && Guarded(Run(START, es[..|es| - 1], minutes), minutes)
    ensures var n := |es| - 1;
      Guarded(Run(START, es, minutes), minutes)
      <==> !(es[n].TurnTaken? && Exposes(Run(START, es[..n], minutes), es[n].turn, minutes))
  {
    hide Step, Possible, Guarded, Tidy, Exposes;
    var n := |es| - 1;
    PrefixIsPossible(es, n, minutes);
    EveryRunIsTidy(es[..n], minutes);
    assert PassedLately(Run(START, es[..n], minutes), minutes);
    StepKeepsGuardIff(Run(START, es[..n], minutes), es[n], minutes);
  }

  /** While passes keep coming, no cached window has outlived its TTL: every one is still readable. */
  lemma CachedWindowsAreLive(es: seq<Event>, minutes: int)
    requires minutes > 0
    requires PossibleRun(START, es, minutes) && WellSupervised(START, es, minutes) && NeverExposes(es, minutes)
    ensures var s := Run(START, es, minutes);
      && Guarded(s, minutes)
      && forall id :: id in s.world.windows ==> LiveWindow(s.world, id)
  {
    hide Run, Guarded, NeverExposes, PossibleRun;
    assert es[..|es|] == es;
    GuardedIffNeverExposed(es, minutes);
    GuardedAreLive(Run(START, es, minutes), minutes);
  }

  lemma NothingToGuard(minutes: int)
    ensures Guarded(START, minutes)
  {
  }

  lemma GuardedAreLive(s: State, minutes: int)
    requires Guarded(s, minutes) && PassedLately(s, minutes)
    ensures forall id :: id in s.world.windows ==> LiveWindow(s.world, id)
  {
    forall id | id in s.world.windows ensures LiveWindow(s.world, id) {
      assert GuardedWindow(s, id, minutes);
    }
  }

  // The event gives session `id` a new window value.
  ghost predicate Overwrites(s: State, e: Event, id: SessionId, minutes: int) {
    match e
    case TurnTaken(t) => Refused(s.world, t).None? && !t.fault.WindowFails? && SessionOf(t) == id
    case PassRun(scan, faults) =>
      var (harvested, completed) := Harvest(s.world, ListExpired(s.world, scan), faults);
      && completed && id in Touched(harvested, minutes)
      && (faults.refresh.Whole? || id in faults.refresh.done || faults.refresh.half == Some(id))
    case TimePassed(_) => false
  }

  ghost predicate OverwrittenDuring(s: State, es: seq<Event>, start: nat, id: SessionId, minutes: int) {
    exists k :: start <= k < |es| && Overwrites(Run(s, es[..k], minutes), es[k], id, minutes)
  }

  // Since `seen`, a memory of this very window was written, before the window's key expired.
  ghost predicate RememberedSince(seen: World, w: World, window: Window) {
    exists i :: |seen.memories| <= i < |w.memories|
      && w.memories[i].owner == window.owner
      && w.memories[i].source == window.messages
      && seen.now <= w.memories[i].at < window.expiry
  }

  lemma {:induction false} HarvestKeepsOrRemembers(
      w: World, ids: seq<SessionId>, faults: Faults, id: SessionId)
    requires Harvestable(w, id)
    ensures var after := Harvest(w, ids, faults).0;
      || (id in after.windows && after.windows[id] == w.windows[id])
      || RememberedSince(w, after, w.windows[id])
    decreases |ids|
  {
    if ids != [] && !(Harvestable(w, ids[0]) && ids[0] in faults.unsummarised) && ids[0] !in faults.undeleted {
      var next, after := Visit(w, ids[0]), Harvest(w, ids, faults).0;
      HarvestOnlyRemoves(next, ids[1..], faults);
      if ids[0] == id {
        assert after.memories[|w.memories|] == next.memories[|w.memories|] == MemoryOf(w, id);
      } else {
        HarvestKeepsOrRemembers(next, ids[1..], faults, id);
      }
    }
  }

  /** One event leaves a live window in place, overwrites it, or makes a memory of it in time. */
  lemma StepKeepsOrRemembers(s: State, e: Event, minutes: int, id: SessionId)
    requires Harvestable(s.world, id)
    ensures var after := Step(s, e, minutes).world;
      || (id in after.windows && after.windows[id] == s.world.windows[id])
      || Overwrites(s, e, id, minutes)
      || RememberedSince(s.world, after, s.world.windows[id])
  {
    if e.PassRun? {
      hide Harvest, SyncedWindow, SyncedActivity;
      HarvestKeepsOrRemembers(s.world, ListExpired(s.world, e.scan), e.faults, id);
      HarvestOnlyRemoves(s.world, ListExpired(s.world, e.scan), e.faults);
    }
  }

  // The window of `id` in `seen` is cached unchanged in `w`, or became a memory in between.
  ghost predicate Preserved(seen: World, w: World, id: SessionId)
    requires id in seen.windows
  {
    || (id in w.windows && w.windows[id] == seen.windows[id])
    || RememberedSince(seen, w, seen.windows[id])
  }

  ghost predicate Later(v: World, w: World) {
    v.memories <= w.memories && v.now <= w.now
  }

  lemma StepIsLater(s: State, e: Event, minutes: int)
    ensures Later(s.world, Step(s, e, minutes).world)
  {
    if e.PassRun? {
      HarvestOnlyRemoves(s.world, ListExpired(s.world, e.scan), e.faults);
    }
  }

  lemma RememberedSinceEarlier(seen: World, v: World, w: World, window: Window)
    requires Later(seen, v) && Later(v, w)
    ensures RememberedSince(seen, v, window) ==> RememberedSince(seen, w, window)
    ensures RememberedSince(v, w, window) ==> RememberedSince(seen, w, window)
  {
    if RememberedSince(seen, v, window) {
      var i :| |seen.memories| <= i < |v.memories| && v.memories[i].owner == window.owner
        && v.memories[i].source == window.messages && seen.now <= v.memories[i].at < window.expiry;
      assert w.memories[i] == v.memories[i];
    }
  }

  lemma StepPreserves(seen: World, s: State, e: Event, minutes: int, id: SessionId)
    requires id in seen.windows && Preserved(seen, s.world, id) && Later(seen, s.world)
    requires id in s.world.windows ==> Harvestable(s.world, id)
    ensures Overwrites(s, e, id, minutes) || Preserved(seen, Step(s, e, minutes).world, id)
  {
    StepIsLater(s, e, minutes);
    RememberedSinceEarlier(seen, s.world, Step(s, e, minutes).world, seen.windows[id]);
    if id in s.world.windows && s.world.windows[id] == seen.windows[id] {
      StepKeepsOrRemembers(s, e, minutes, id);
    }
  }

  lemma {:induction false} WindowsArePreserved(es: seq<Event>, start: nat, id: SessionId, minutes: int)
    requires minutes > 0 && start <= |es|
    requires PossibleRun(START, es, minutes) && WellSupervised(START, es, minutes) && NeverExposes(es, minutes)
    requires id in Run(START, es[..start], minutes).world.windows
    ensures Later(Run(START, es[..start], minutes).world, Run(START, es, minutes).world)
    ensures OverwrittenDuring(START, es, start, id, minutes)
      || Preserved(Run(START, es[..start], minutes).world, Run(START, es, minutes).world, id)
  {
    hide Step, Run, Overwrites, OverwrittenDuring, RememberedSince, PossibleRun, WellSupervised, NeverExposes;
    if start == |es| {
      assert es[..start] == es;
    } else {
      var n := |es| - 1;
      PrefixIsSupervised(es, n, minutes);
      assert es[..n][..start] == es[..start];
      WindowsArePreserved(es[..n], start, id, minutes);
      CachedWindowsAreNotEmpty(es[..n], id, minutes);
      LastEventPreserves(Run(START, es[..start], minutes).world, es, start, id, minutes);
    }
  }

  lemma LastEventPreserves(seen: World, es: seq<Event>, start: nat, id: SessionId, minutes: int)
    requires start < |es| && id in seen.windows
    requires var w := Run(START, es[..|es| - 1], minutes).world;
      && Later(seen, w)
      && (id in w.windows ==> Harvestable(w, id))
      && (OverwrittenDuring(START, es[..|es| - 1], start, id, minutes) || Preserved(seen, w, id))
    ensures var w := Run(START, es, minutes).world;
      && Later(seen, w)
      && (OverwrittenDuring(START, es, start, id, minutes) || Preserved(seen, w, id))
  {
    var n := |es| - 1;
    var before := Run(START, es[..n], minutes);
    hide Step, Overwrites;
    StepIsLater(before, es[n], minutes);
    if OverwrittenDuring(START, es[..n], start, id, minutes) {
      OverwrittenInPrefix(es, n, start, id, minutes);
    } else {
      StepPreserves(seen, before, es[n], minutes, id);
    }
  }

  lemma OverwrittenInPrefix(es: seq<Event>, n: nat, start: nat, id: SessionId, minutes: int)
    requires n <= |es| && OverwrittenDuring(START, es[..n], start, id, minutes)
    ensures OverwrittenDuring(START, es, start, id, minutes)
  {
    hide Overwrites, Run;
    var k :| start <= k < n && Overwrites(Run(START, es[..n][..k], minutes), es[..n][k], id, minutes);
    assert es[..n][..k] == es[..k];
  }

  lemma CachedWindowsAreNotEmpty(es: seq<Event>, id: SessionId, minutes: int)
    requires minutes > 0
    requires PossibleRun(START, es, minutes) && WellSupervised(START, es, minutes) && NeverExposes(es, minutes)
    ensures var w := Run(START, es, minutes).world; id in w.windows ==> Harvestable(w, id)
  {
    hide Run;
    CachedWindowsAreLive(es, minutes);
    EveryRunIsTidy(es, minutes);
  }

  lemma PrefixIsSupervised(es: seq<Event>, n: nat, minutes: int)
    requires n <= |es| && PossibleRun(START, es, minutes) && WellSupervised(START, es, minutes)
    ensures PossibleRun(START, es[..n], minutes) && WellSupervised(START, es[..n], minutes)
    ensures NeverExposes(es, minutes) ==> NeverExposes(es[..n], minutes)
  {
    hide Run, Exposes, Possible;
    forall i | 0 <= i <= n ensures es[..n][..i] == es[..i] {
    }
  }

  /**
   * No window is lost to its TTL. While completed passes are at most one inactivity period apart,
   * wherever turns and passes fail, as long as no failing turn exposes a window: a window value seen at any
   * moment is, at any later moment, still cached and readable, or has been overwritten, or has become
   * a memory strictly before its key expired.
   */
  lemma NoWindowIsLost(es: seq<Event>, start: nat, id: SessionId, minutes: int)
    requires minutes > 0 && start <= |es|
    requires PossibleRun(START, es, minutes) && WellSupervised(START, es, minutes) && NeverExposes(es, minutes)
    requires id in Run(START, es[..start], minutes).world.windows
    ensures var seen := Run(START, es[..start], minutes).world;
      var w := Run(START, es, minutes).world;
      || (LiveWindow(w, id) && w.windows[id] == seen.windows[id])
      || OverwrittenDuring(START, es, start, id, minutes)
      || RememberedSince(seen, w, seen.windows[id])
  {
    WindowsArePreserved(es, start, id, minutes);
    CachedWindowsAreLive(es, minutes);
  }

  lemma RunExtends(s: State, es: seq<Event>, e: Event, minutes: int)
    ensures Run(s, es + [e], minutes) == Step(Run(s, es, minutes), e, minutes)
  {
    assert (es + [e])[..|es|] == es;
  }

  lemma RunOfFive(s: State, a: Event, b: Event, c: Event, d: Event, e: Event, minutes: int)
    ensures var es := [a, b, c, d, e];
      && Run(s, es[..0], minutes) == s
      && Run(s, es[..1], minutes) == Step(s, a, minutes)
      && Run(s, es[..2], minutes) == Step(Run(s, es[..1], minutes), b, minutes)
      && Run(s, es[..3], minutes) == Step(Run(s, es[..2], minutes), c, minutes)
      && Run(s, es[..4], minutes) == Step(Run(s, es[..3], minutes), d, minutes)
      && Run(s, es[..5], minutes) == Run(s, es, minutes) == Step(Run(s, es[..4], minutes), e, minutes)
  {
    hide Step;
    var es := [a, b, c, d, e];
    assert es[..1] == [] + [a] && es[..2] == es[..1] + [b] && es[..3] == es[..2] + [c];
    assert es[..4] == es[..3] + [d] && es[..5] == es[..4] + [e] == es;
    RunExtends(s, [], a, minutes);
    RunExtends(s, es[..1], b, minutes);
    RunExtends(s, es[..2], c, minutes);
    RunExtends(s, es[..3], d, minutes);
    RunExtends(s, es[..4], e, minutes);
  }

  // Two turns at time zero, the second with any date.
  lemma DatedTurns(minutes: int, id: SessionId, user: UserId, date: int) returns (first: Turn, second: Turn)
    requires minutes > 0
    ensures first.idSession.None? && first.freshId == id && second.idSession == Some(id)
    ensures first.fault.NoFault? && second.fault.NoFault?
    ensures var w := SendTurn(SendTurn(EMPTY, first, minutes).0, second, minutes).0;
      && w.now == 0 && w.memories == []
      && w.store.Keys == {id} && w.store[id].updatedAt == date && w.store[id].owner == user
      && |w.store[id].messages| == 2
      && w.windows.Keys == {id} && w.windows[id].expiry == WindowTtl(minutes) && w.windows[id].messages != []
      && w.activity.Keys == {id} && w.activity[id] == Threshold(minutes)
  {
    first := Turn(None, id, user, true, Some(Message("", "", 0)), NoFault, true);
    second := Turn(Some(id), id, user, true, Some(Message("", "", date)), NoFault, true);
    var w := SendTurn(EMPTY, first, minutes).0;
    assert w.store == map[id := Session(user, w.store[id].messages, 0)] && |w.store[id].messages| == 1;
  }

  /**
   * One microsecond more between passes is too much: a turn whose timestamp lies a period back is
   * kept but not renewed by a pass just before its activity key dies, and the next pass is late.
   */
  lemma LongerSpacingLosesAWindow(minutes: int, id: SessionId, user: UserId) returns (es: seq<Event>)
    requires minutes > 0
    ensures PossibleRun(START, es, minutes) && NeverExposes(es, minutes) && AlwaysCaches(es, minutes)
    ensures forall i :: 0 <= i <= |es| ==>
      var s := Run(START, es[..i], minutes); s.world.now <= s.lastPass + Threshold(minutes) + 1
    ensures var w := Run(START, es, minutes).world;
      id in w.windows && w.windows[id].messages != [] && !LiveWindow(w, id) && w.memories == []
  {
    hide Run, SendTurn, WorkerPass;
    var period := Threshold(minutes);
    var first, second := DatedTurns(minutes, id, user, -period);
    var wait, pass, late := TimePassed(period - 1), PassRun([id], FAULTLESS), TimePassed(period + 1);
    es := [TurnTaken(first), TurnTaken(second), wait, pass, late];
    RunOfFive(START, TurnTaken(first), TurnTaken(second), wait, pass, late, minutes);
    var before := Run(START, es[..3], minutes);
    PassKeepsUntouchedWindow(before.world, id, minutes);
    TurnTakesNoTime(EMPTY, first, minutes);
  }

  lemma TurnTakesNoTime(w: World, t: Turn, minutes: int)
    ensures SendTurn(w, t, minutes).0.now == w.now
  {
  }

  lemma PassKeepsUntouchedWindow(w: World, id: SessionId, minutes: int)
    requires w.windows.Keys == {id} && LiveWindow(w, id) && LiveActivity(w, id)
    requires w.store.Keys == {id} && !IsRecent(w, id, minutes)
    ensures CompleteScan(w, [id])
    ensures var after := WorkerPass(w, [id], FAULTLESS, minutes);
      after.1 && after.0.windows == w.windows && after.0.memories == w.memories && after.0.now == w.now
  {
    assert ListExpired(w, [id]) == [] by {
      assert [id][..0] == [];
    }
    assert Touched(w, minutes) == {};
  }

  lemma Extends(es: seq<Event>, e: Event, minutes: int)
    requires PossibleRun(START, es, minutes) && WellSupervised(START, es, minutes)
    requires Possible(Run(START, es, minutes), e) && PassedLately(Step(Run(START, es, minutes), e, minutes), minutes)
    ensures PossibleRun(START, es + [e], minutes) && WellSupervised(START, es + [e], minutes)
    ensures Run(START, es + [e], minutes) == Step(Run(START, es, minutes), e, minutes)
  {
    hide Step, Run, Possible, PassedLately;
    RunExtends(START, es, e, minutes);
    var all := es + [e];
    forall i | 0 <= i <= |es| ensures all[..i] == es[..i] {
    }
    assert es[..|es|] == es && all[..|all|] == all;
  }

  // A pass at time zero keeps the activity key of a session dated two periods ahead for three periods.
  lemma PassOnFutureSession(w: World, id: SessionId, minutes: int)
    requires minutes > 0 && w.now == 0 && w.store.Keys == {id} && w.windows.Keys == {id} && w.activity.Keys == {id}
    requires w.activity[id] > 0 && w.windows[id].expiry > 0
    requires w.store[id].updatedAt == 2 * Threshold(minutes) && w.store[id].messages != []
    ensures CompleteScan(w, [id])
    ensures var (after, completed) := WorkerPass(w, [id], FAULTLESS, minutes);
      && completed && after.now == 0 && after.store == w.store && after.memories == w.memories
      && after.windows.Keys == {id} && after.windows[id] == SyncedWindow(w, id, minutes)
      && after.activity.Keys == {id} && after.activity[id] == 3 * Threshold(minutes)
  {
    NothingExpires(w, id, minutes);
    FutureActivity(w, id, minutes);
    SyncOfOne(w, id, minutes);
    hide WorkerPass, Sync, SyncedWindow, SyncedActivity;
  }

  lemma NothingExpires(w: World, id: SessionId, minutes: int)
    requires w.windows.Keys == {id} && LiveWindow(w, id) && LiveActivity(w, id)
    ensures CompleteScan(w, [id]) && WorkerPass(w, [id], FAULTLESS, minutes) == (Sync(w, minutes), true)
  {
    hide Sync;
    assert [id][..0] == [] && ListExpired(w, [id]) == [];
  }

  lemma FutureActivity(w: World, id: SessionId, minutes: int)
    requires minutes > 0 && w.now == 0 && id in w.store && w.store[id].updatedAt == 2 * Threshold(minutes)
    ensures SyncedActivity(w, id, minutes) == 3 * Threshold(minutes) && IsRecent(w, id, minutes)
  {
  }

  lemma SyncOfOne(w: World, id: SessionId, minutes: int)
    requires w.store.Keys == {id} && w.windows.Keys == {id} && w.activity.Keys == {id}
    requires IsRecent(w, id, minutes) && w.store[id].messages != []
    ensures Sync(w, minutes)
      == w.(windows := map[id := SyncedWindow(w, id, minutes)], activity := map[id := SyncedActivity(w, id, minutes)])
  {
    hide SyncedWindow, SyncedActivity, IsRecent;
    assert Touched(w, minutes) == {id};
    assert Sync(w, minutes).windows == map[id := SyncedWindow(w, id, minutes)];
    assert Sync(w, minutes).activity == map[id := SyncedActivity(w, id, minutes)];
  }

  // A turn dated before time zero saves its message, and fails to cache it.
  lemma LateDatedFailure(w: World, id: SessionId, user: UserId, minutes: int) returns (t: Turn)
    requires id in w.store && w.store[id].owner == user && |w.store[id].messages| == 2
    ensures t.idSession == Some(id) && SavesUncached(w, t, minutes)
    ensures SendTurn(w, t, minutes).0 == w.(store := w.store[id := SendTurn(w, t, minutes).0.store[id]])
    ensures SendTurn(w, t, minutes).0.store[id].updatedAt == -1
  {
    t := Turn(Some(id), id, user, true, Some(Message("", "", -1)), WindowFails, true);
  }

  ghost predicate SavesUncached(w: World, t: Turn, minutes: int) {
    Refused(w, t).None? && t.fault.WindowFails?
  }

  /**
   * With such a turn a window can be lost: after a pass saw its session dated ahead, the activity key
   * outlives the window, and no later pass counts the session as recent or its window as expired.
   */
  lemma FailingTurnLosesAWindow(minutes: int, id: SessionId, user: UserId) returns (es: seq<Event>)
    requires minutes > 0
    ensures PossibleRun(START, es, minutes) && WellSupervised(START, es, minutes)
    ensures var w := Run(START, es, minutes).world;
      id in w.windows && w.windows[id].messages != [] && !LiveWindow(w, id) && w.memories == []
  {
    hide Run, SendTurn, WorkerPass, PossibleRun, WellSupervised;
    var period := Threshold(minutes);
    var first, second := DatedTurns(minutes, id, user, 2 * period);
    var pass, wait := PassRun([id], FAULTLESS), TimePassed(period);
    TurnTakesNoTime(EMPTY, first, minutes);
    NothingRun(minutes);
    Extends([], TurnTaken(first), minutes);
    var es1 := [] + [TurnTaken(first)];
    Extends(es1, TurnTaken(second), minutes);
    var es2 := es1 + [TurnTaken(second)];
    var w2 := Run(START, es2, minutes).world;
    PassOnFutureSession(w2, id, minutes);
    Extends(es2, pass, minutes);
    var w3 := Run(START, es2 + [pass], minutes).world;
    SyncedFits(w2, id, minutes);
    var third := LateDatedFailure(w3, id, user, minutes);
    Extends(es2 + [pass], TurnTaken(third), minutes);
    var es4 := es2 + [pass] + [TurnTaken(third)];
    Extends(es4, wait, minutes);
    var w5 := Run(START, es4 + [wait], minutes).world;
    PassKeepsUntouchedWindow(w5, id, minutes);
    Extends(es4 + [wait], pass, minutes);
    Extends(es4 + [wait] + [pass], wait, minutes);
    es := es4 + [wait] + [pass] + [wait];
  }

  lemma NothingRun(minutes: int)
    requires minutes > 0
    ensures Run(START, [], minutes) == START && PossibleRun(START, [], minutes) && WellSupervised(START, [], minutes)
  {
  }
}
