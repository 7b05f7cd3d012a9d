/** The stored sessions and the cached windows, with the effect of a turn and of a worker pass. */
module SessionWorld {
  import opened SessionKeys
  import opened Windows

  // Database identifiers; `SessionKeys` relates them to the Redis key names.
  datatype SessionId = SessionId(text: string)
  datatype UserId = UserId(text: string)

  datatype Session = Session(owner: UserId, messages: seq<Message>, updatedAt: int)

  // A cached window; like every Redis key it is readable strictly before `expiry`.
  datatype Window = Window(owner: UserId, messages: seq<Message>, expiry: int)

  // A harvested memory: whose it is, the turns it summarises, and when it was written.
  datatype Memory = Memory(owner: UserId, source: seq<Message>, at: int)

  datatype World = World(
    now: int,
    store: map<SessionId, Session>,
    windows: map<SessionId, Window>,
    activity: map<SessionId, int>,
    memories: seq<Memory>)

  // Which access after the save fails, if any. Only a new session is named.
  datatype Fault = NoFault | WindowFails | ActivityFails | NamingFails

  // One call of `send_message`, without a session id for a new one. `freshId` is the id the database
  // would give to a new session, and `known` says whether the user exists. `reply` is the approved
  // turn, or nothing when any step up to the save fails; `rollback` says whether the deletion that
  // follows the failure of a new session's turn gets through.
  datatype Turn = Turn(
    idSession: Option<SessionId>, freshId: SessionId, user: UserId, known: bool,
    reply: Option<Message>, fault: Fault, rollback: bool)

  datatype TurnResult =
    | Sent(message: Message, history: seq<Message>)
    | NoSuchUser
    | NoSuchSession
    | SessionFull
    | NotTheOwner
    | TurnFailed

  const MAX_MESSAGES := 50

  function WindowTtl(minutes: int): int {
    Threshold(minutes) + Threshold(minutes)
  }

  // Python's `int()` on a number of seconds given in microseconds.
  function TruncatedSeconds(micros: int): int {
    if micros >= 0 then micros / MICROS_PER_SECOND else -((-micros) / MICROS_PER_SECOND)
  }

  function ActivityTtl(updatedAt: int, now: int, minutes: int): int {
    var remaining := TruncatedSeconds(Threshold(minutes) - (now - updatedAt));
    if remaining < 1 then 1 else remaining
  }

  predicate LiveWindow(w: World, id: SessionId) {
    id in w.windows && w.now < w.windows[id].expiry
  }

  predicate LiveActivity(w: World, id: SessionId) {
    id in w.activity && w.now < w.activity[id]
  }

  predicate IsExpired(w: World, id: SessionId) {
    LiveWindow(w, id) && !LiveActivity(w, id)
  }

  // ---- Turns ----

  function History(w: World, id: SessionId, stored: seq<Message>): seq<Message> {
    if LiveWindow(w, id) && w.windows[id].messages != [] then w.windows[id].messages else stored
  }

  function Refused(w: World, t: Turn): Option<TurnResult> {
    match t.idSession
    case None =>
      if !t.known then Some(NoSuchUser)
      else if t.reply.None? then Some(TurnFailed)
      else None
    case Some(id) =>
      if id !in w.store then Some(NoSuchSession)
      else if |w.store[id].messages| >= MAX_MESSAGES then Some(SessionFull)
      else if w.store[id].owner != t.user then Some(NotTheOwner)
      else if !t.known then Some(NoSuchUser)
      else if t.reply.None? then Some(TurnFailed)
      else None
  }

  function SessionOf(t: Turn): SessionId {
    if t.idSession.None? then t.freshId else t.idSession.value
  }

  function StoredBefore(w: World, t: Turn): seq<Message>
    requires Refused(w, t).None?
  {
    if t.idSession.None? then [] else w.store[t.idSession.value].messages
  }

  function HistoryOf(w: World, t: Turn): seq<Message>
    requires Refused(w, t).None?
  {
    History(w, SessionOf(t), StoredBefore(w, t))
  }

  // The message is saved, but an access after that fails.
  predicate Breaks(t: Turn) {
    t.fault.WindowFails? || t.fault.ActivityFails? || (t.fault.NamingFails? && t.idSession.None?)
  }

  // All accesses of an accepted turn, up to the one that fails.
  function Accept(w: World, t: Turn, minutes: int): World
    requires Refused(w, t).None?
  {
    var id, m := SessionOf(t), t.reply.value;
    // Naming a new session also moves its modification time to now.
    var updatedAt := if t.idSession.None? && !Breaks(t) then w.now else m.submittedAt;
    World(
      w.now,
      w.store[id := Session(t.user, StoredBefore(w, t) + [m], updatedAt)],
      if t.fault.WindowFails? then w.windows
      else w.windows[id := Window(t.user, HistoryOf(w, t) + [m], w.now + WindowTtl(minutes))],
      if t.fault.WindowFails? || t.fault.ActivityFails? then w.activity
      else w.activity[id := w.now + Threshold(minutes)],
      w.memories)
  }

  // A failed turn on a new session deletes it again, if the deletion gets through.
  function RolledBack(w: World, t: Turn): World {
    if t.idSession.None? && t.rollback then w.(store := w.store - {t.freshId}) else w
  }

  // What is left of a turn that is refused: a new session was created first.
  function Turned(w: World, t: Turn): World {
    if t.idSession.None? && t.known && !t.rollback then w.(store := w.store[t.freshId := Session(t.user, [], w.now)])
    else w
  }

  function SendTurn(w: World, t: Turn, minutes: int): (World, TurnResult) {
    var refused := Refused(w, t);
    if refused.Some? then (Turned(w, t), refused.value)
    else if Breaks(t) then (RolledBack(Accept(w, t, minutes), t), TurnFailed)
    else (Accept(w, t, minutes), Sent(t.reply.value, HistoryOf(w, t)))
  }

  /**
   * What a turn does, told by its fields. It is answered exactly when the user exists, a named session
   * is there, holds fewer than 50 messages and is the user's, and nothing fails. It answers from the
   * cached window as it stands whenever that is live and not empty, else from all stored messages, and
   * caches what it answered from with the reply.
   */
  lemma TurnAnswersFromWindow(w: World, t: Turn, minutes: int)
    ensures SendTurn(w, t, minutes).1.Sent?
      <==> && t.known && t.reply.Some? && !t.fault.WindowFails? && !t.fault.ActivityFails?
           && match t.idSession
              case None => !t.fault.NamingFails?
              case Some(id) => id in w.store && |w.store[id].messages| < 50 && w.store[id].owner == t.user
    ensures SendTurn(w, t, minutes).1.Sent? ==>
      var (after, result) := SendTurn(w, t, minutes);
      var period := minutes * 60 * 1_000_000;
      var id := if t.idSession.Some? then t.idSession.value else t.freshId;
      var stored := if t.idSession.Some? then w.store[id].messages else [];
      var cached := id in w.windows && w.now < w.windows[id].expiry && w.windows[id].messages != [];
      && result.history == (if cached then w.windows[id].messages else stored)
      && result.message == t.reply.value
      && after.windows == w.windows[id := Window(t.user, result.history + [t.reply.value], w.now + 2 * period)]
      && after.activity == w.activity[id := w.now + period]
      && after.store == w.store[id := Session(t.user, stored + [t.reply.value],
           if t.idSession.Some? then t.reply.value.submittedAt else w.now)]
      && after.memories == w.memories && after.now == w.now
  {
  }

  /**
   * A turn on a stored session that is saved and then fails leaves the message and its date behind,
   * and of the two keys just those set before the failure; one that is refused leaves everything.
   */
  lemma FailedTurnLeavesMessage(w: World, t: Turn, minutes: int)
    requires t.idSession.Some? && !SendTurn(w, t, minutes).1.Sent?
    ensures var (after, result), id := SendTurn(w, t, minutes), t.idSession.value;
      if result.TurnFailed? && t.reply.Some? then
        && id in w.store
        && id in after.store && after.store == w.store[id := after.store[id]]
        && after.store[id] == Session(t.user, w.store[id].messages + [t.reply.value], t.reply.value.submittedAt)
        && after.activity == w.activity && after.memories == w.memories && after.now == w.now
        && (t.fault.WindowFails? ==> after.windows == w.windows)
        && (!t.fault.WindowFails? ==> id in after.windows && after.windows == w.windows[id := after.windows[id]])
      else after == w
  {
  }

  /**
   * A first turn that fails anywhere, and whose rollback gets through, leaves the stored sessions as
   * they were; its window stays behind exactly when it was cached before the failure.
   */
  lemma FailedFirstTurnLeavesStore(w: World, t: Turn, minutes: int)
    requires t.idSession.None? && t.rollback && t.freshId !in w.store && t.freshId !in w.windows
    requires !SendTurn(w, t, minutes).1.Sent?
    ensures var after := SendTurn(w, t, minutes).0;
      && after.store == w.store && after.memories == w.memories && after.now == w.now
      && (t.freshId in after.windows
          <==> t.known && t.reply.Some? && (t.fault.ActivityFails? || t.fault.NamingFails?))
      && after.windows - {t.freshId} == w.windows
  {
    var after := SendTurn(w, t, minutes).0;
    if Refused(w, t).None? {
      assert Accept(w, t, minutes).store - {t.freshId} == w.store;
    }
    assert after.windows - {t.freshId} == w.windows;
  }

  /** When the rollback does not get through, the new session stays, with the message if that was saved. */
  lemma UnrolledSessionStays(w: World, t: Turn, minutes: int)
    requires t.idSession.None? && t.known && !t.rollback && !SendTurn(w, t, minutes).1.Sent?
    ensures var after := SendTurn(w, t, minutes).0;
      && t.freshId in after.store && after.store == w.store[t.freshId := after.store[t.freshId]]
      && after.store[t.freshId].owner == t.user
      && after.store[t.freshId].messages == if t.reply.Some? then [t.reply.value] else []
  {
    if t.reply.Some? {
      assert [] + [t.reply.value] == [t.reply.value];
    }
  }

  // ---- Worker passes ----

  // A key scan returns every live window at least once and may repeat itself.
  ghost predicate CompleteScan(w: World, scan: seq<SessionId>) {
    forall id :: id in scan <==> LiveWindow(w, id)
  }

  function ListExpired(w: World, scan: seq<SessionId>): (expired: seq<SessionId>)
    ensures forall id :: id in expired <==> id in scan && !LiveActivity(w, id)
  {
    if scan == [] then [] else
    var id := scan[|scan| - 1];
    var before := ListExpired(w, scan[..|scan| - 1]);
    assert scan == scan[..|scan| - 1] + [id];
    if LiveActivity(w, id) then before else before + [id]
  }

  predicate Harvestable(w: World, id: SessionId) {
    LiveWindow(w, id) && w.windows[id].messages != []
  }

  function MemoryOf(w: World, id: SessionId): Memory
    requires id in w.windows
  {
    Memory(w.windows[id].owner, w.windows[id].messages, w.now)
  }

  function MemoriesOf(w: World, ids: seq<SessionId>): seq<Memory>
    requires forall id :: id in ids ==> id in w.windows
  {
    seq(|ids|, i requires 0 <= i < |ids| => MemoryOf(w, ids[i]))
  }

  // Where a pass fails, if it does: at the windows whose memory cannot be made, at those that cannot
  // be deleted after that, or while it refreshes the sessions in use.
  datatype Faults = Faults(unsummarised: set<SessionId>, undeleted: set<SessionId>, refresh: Refresh)

  // An interrupted refresh got through for the sessions in `done`, and for `half` to its window alone.
  datatype Refresh = Whole | Interrupted(done: set<SessionId>, half: Option<SessionId>)

  const FAULTLESS := Faults({}, {}, Whole)

  function Remember(w: World, id: SessionId): World {
    w.(memories := w.memories + if Harvestable(w, id) then [MemoryOf(w, id)] else [])
  }

  // Look at one listed id: summarise its window if there is one to summarise, then delete it.
  function Visit(w: World, id: SessionId): World {
    w.(windows := w.windows - {id},
       memories := w.memories + if Harvestable(w, id) then [MemoryOf(w, id)] else [])
  }

  // Visit the ids in order; the pass stops at the first failure.
  function Harvest(w: World, ids: seq<SessionId>, faults: Faults): (World, bool)
    decreases |ids|
  {
    if ids == [] then (w, true)
    else if Harvestable(w, ids[0]) && ids[0] in faults.unsummarised then (w, false)
    else if ids[0] in faults.undeleted then (Remember(w, ids[0]), false)
    else Harvest(Visit(w, ids[0]), ids[1..], faults)
  }

  // The sessions a sync touches: recently updated, and holding a turn.
  ghost predicate IsRecent(w: World, id: SessionId, minutes: int) {
    id in w.store && w.store[id].updatedAt >= w.now - Threshold(minutes)
  }

  function SyncedWindow(w: World, id: SessionId, minutes: int): Window
    requires id in w.store
  {
    var s := w.store[id];
    Window(s.owner, Derive(s.messages, Threshold(minutes)), w.now + WindowTtl(minutes))
  }

  function SyncedActivity(w: World, id: SessionId, minutes: int): int
    requires id in w.store
  {
    w.now + ActivityTtl(w.store[id].updatedAt, w.now, minutes) * MICROS_PER_SECOND
  }

  ghost function Touched(w: World, minutes: int): set<SessionId> {
    set id | id in w.store && IsRecent(w, id, minutes) && w.store[id].messages != []
  }

  ghost function SyncOf(w: World, ids: set<SessionId>, minutes: int): World
    requires ids <= w.store.Keys
  {
    w.(windows := map id | id in w.windows.Keys + ids ::
         if id in ids then SyncedWindow(w, id, minutes) else w.windows[id],
       activity := map id | id in w.activity.Keys + ids ::
         if id in ids then SyncedActivity(w, id, minutes) else w.activity[id])
  }

  ghost function Sync(w: World, minutes: int): World {
    SyncOf(w, Touched(w, minutes), minutes)
  }

  lemma SyncedDependsOnStore(v: World, w: World, id: SessionId, minutes: int)
    requires v.now == w.now && v.store == w.store && id in v.store
    ensures SyncedWindow(v, id, minutes) == SyncedWindow(w, id, minutes)
    ensures SyncedActivity(v, id, minutes) == SyncedActivity(w, id, minutes)
  {
  }

  lemma TouchedAreRecent(w: World, minutes: int)
    ensures forall id :: IsRecent(w, id, minutes) ==> id in w.store
    ensures forall id :: id in Touched(w, minutes) <==> IsRecent(w, id, minutes) && w.store[id].messages != []
  {
  }

  lemma SyncNothing(w: World, minutes: int)
    ensures SyncOf(w, {}, minutes) == w
  {
    assert SyncOf(w, {}, minutes).windows == w.windows;
    assert SyncOf(w, {}, minutes).activity == w.activity;
  }

  lemma SyncOneMore(w: World, ids: set<SessionId>, id: SessionId, minutes: int)
    requires ids <= w.store.Keys && id in w.store
    ensures var before := SyncOf(w, ids, minutes);
      SyncOf(w, ids + {id}, minutes)
      == World(w.now, w.store, before.windows[id := SyncedWindow(w, id, minutes)],
               before.activity[id := SyncedActivity(w, id, minutes)], w.memories)
  {
    hide SyncedWindow, SyncedActivity;
    var before := SyncOf(w, ids, minutes);
    assert SyncOf(w, ids + {id}, minutes).windows == before.windows[id := SyncedWindow(w, id, minutes)];
    assert SyncOf(w, ids + {id}, minutes).activity == before.activity[id := SyncedActivity(w, id, minutes)];
  }

  ghost function PartSync(w: World, done: set<SessionId>, half: Option<SessionId>, minutes: int): World {
    var part := SyncOf(w, done * Touched(w, minutes), minutes);
    if half.Some? && half.value in Touched(w, minutes) then
      part.(windows := part.windows[half.value := SyncedWindow(w, half.value, minutes)])
    else part
  }

  ghost function WorkerPass(w: World, scan: seq<SessionId>, faults: Faults, minutes: int): (World, bool) {
    var (harvested, completed) := Harvest(w, ListExpired(w, scan), faults);
    if !completed then (harvested, false)
    else
      match faults.refresh
      case Whole => (Sync(harvested, minutes), true)
      case Interrupted(done, half) => (PartSync(harvested, done, half, minutes), false)
  }

  // ---- What a harvest does ----

  // The ids a fault-free harvest turns into memories, in order.
  function Harvested(w: World, ids: seq<SessionId>): seq<SessionId>
    decreases |ids|
  {
    if ids == [] then []
    else (if Harvestable(w, ids[0]) then [ids[0]] else []) + Harvested(Visit(w, ids[0]), ids[1..])
  }

  predicate Distinct<T(==)>(s: seq<T>) {
    forall i, j :: 0 <= i < j < |s| ==> s[i] != s[j]
  }

  /** Exactly the harvestable ids are harvested, each once, however often the scan repeats them. */
  lemma {:induction false} HarvestedOnce(w: World, ids: seq<SessionId>)
    ensures Distinct(Harvested(w, ids))
    ensures forall id :: id in Harvested(w, ids) <==> id in ids && Harvestable(w, id)
    decreases |ids|
  {
    if ids != [] {
      var rest := Visit(w, ids[0]);
      HarvestedOnce(rest, ids[1..]);
      forall id ensures Harvestable(rest, id) <==> id != ids[0] && Harvestable(w, id) {
      }
    }
  }

  /** A pass that gets through its list removes the listed windows and no other. */
  lemma {:induction false} HarvestRemoves(w: World, ids: seq<SessionId>, faults: Faults)
    requires Harvest(w, ids, faults).1
    ensures Harvest(w, ids, faults).0
      == w.(windows := w.windows - (set id | id in ids), memories := Harvest(w, ids, faults).0.memories)
    decreases |ids|
  {
    if ids == [] {
      assert w.windows - (set id | id in ids) == w.windows;
    } else {
      var next := Visit(w, ids[0]);
      HarvestRemoves(next, ids[1..], faults);
      assert ids == [ids[0]] + ids[1..];
      assert next.windows - (set id | id in ids[1..]) == w.windows - (set id | id in ids);
    }
  }

  /** It writes one memory per harvested window, with that window's owner and turns. */
  lemma {:induction false} HarvestRemembers(w: World, ids: seq<SessionId>, faults: Faults)
    requires Harvest(w, ids, faults).1
    requires forall id :: id in Harvested(w, ids) ==> id in w.windows
    ensures Harvest(w, ids, faults).0.memories == w.memories + MemoriesOf(w, Harvested(w, ids))
    decreases |ids|
  {
    if ids != [] {
      var id, next := ids[0], Visit(w, ids[0]);
      var rest := Harvested(next, ids[1..]);
      HarvestedOnce(next, ids[1..]);
      HarvestRemembers(next, ids[1..], faults);
      MemoriesSurviveVisit(w, id, rest);
    }
  }

  lemma MemoriesSurviveVisit(w: World, id: SessionId, rest: seq<SessionId>)
    requires forall other :: other in rest ==> other in Visit(w, id).windows
    ensures Visit(w, id).memories + MemoriesOf(Visit(w, id), rest)
      == w.memories + MemoriesOf(w, (if Harvestable(w, id) then [id] else []) + rest)
  {
    assert MemoriesOf(Visit(w, id), rest) == MemoriesOf(w, rest);
    if Harvestable(w, id) {
      assert MemoriesOf(w, [id] + rest) == [MemoryOf(w, id)] + MemoriesOf(w, rest);
    } else {
      assert [] + rest == rest;
    }
  }

  /**
   * A pass that fails has done precisely what a fault-free pass over the ids before the failing one
   * does, and at most written the memory of the failing one; that window is still cached, and with it
   * every window not visited before.
   */
  lemma {:induction false} HarvestStopsAtFailure(w: World, ids: seq<SessionId>, faults: Faults)
    returns (n: nat)
    requires !Harvest(w, ids, faults).1
    ensures n < |ids| && ids[n] !in ids[..n]
    ensures var (before, completed) := Harvest(w, ids[..n], faults);
      && completed
      && ((Harvestable(w, ids[n]) && ids[n] in faults.unsummarised && Harvest(w, ids, faults).0 == before)
          || (ids[n] in faults.undeleted && Harvest(w, ids, faults).0 == Remember(before, ids[n])))
    ensures forall id :: id in w.windows && id !in ids[..n] ==>
      id in Harvest(w, ids, faults).0.windows && Harvest(w, ids, faults).0.windows[id] == w.windows[id]
    decreases |ids|
  {
    if (Harvestable(w, ids[0]) && ids[0] in faults.unsummarised) || ids[0] in faults.undeleted {
      n := 0;
    } else {
      n := HarvestStopsAtFailure(Visit(w, ids[0]), ids[1..], faults);
      assert ids[..n + 1] == [ids[0]] + ids[1..][..n];
      assert ids[..n + 1][1..] == ids[1..][..n];
      n := n + 1;
    }
  }

  /** The law of a complete pass: every expired non-empty window, and only those, becomes a memory. */
  lemma HarvestPassIsExact(w: World, scan: seq<SessionId>, faults: Faults) returns (order: seq<SessionId>)
    requires CompleteScan(w, scan)
    requires Harvest(w, ListExpired(w, scan), faults).1
    ensures Distinct(order)
    ensures forall id :: id in order <==> IsExpired(w, id) && w.windows[id].messages != []
    ensures var after := Harvest(w, ListExpired(w, scan), faults).0;
      && |after.memories| == |w.memories| + |order|
      && after.memories[..|w.memories|] == w.memories
      && (forall i :: 0 <= i < |order| ==> order[i] in w.windows)
      && after.memories[|w.memories|..] == MemoriesOf(w, order)
      && (forall id :: id in after.windows <==> id in w.windows && !IsExpired(w, id))
      && (forall id :: id in after.windows ==> after.windows[id] == w.windows[id])
      && after.store == w.store && after.activity == w.activity && after.now == w.now
  {
    var ids := ListExpired(w, scan);
    order := Harvested(w, ids);
    HarvestedOnce(w, ids);
    HarvestRemoves(w, ids, faults);
    HarvestRemembers(w, ids, faults);
  }
}
