/** Turns and passes of single accesses that nothing interrupts are the whole turns and passes. */
module TurnAtomic {
  import opened SessionKeys
  import opened SessionWorld
  import opened TurnLimits
  import opened TurnProtocol
  import opened Windows

  // The single accesses see the live keys, and no dates.
  ghost predicate Mirrors(s: State, w: World) {
    && s.store.Keys == w.store.Keys
    && (forall id :: id in s.store ==> s.store[id] == Doc(w.store[id].owner, w.store[id].messages))
    && (forall id :: id in s.windows <==> LiveWindow(w, id))
    && (forall id :: id in s.windows ==> s.windows[id] == Excerpt(id, w.windows[id].owner, w.windows[id].messages))
    && (forall id :: id in s.activity <==> LiveActivity(w, id))
    && |s.memories| == |w.memories|
    && (forall i :: 0 <= i < |s.memories| ==>
          s.memories[i].owner == w.memories[i].owner && s.memories[i].messages == w.memories[i].source)
  }

  function Repeat(e: Event, n: nat): (es: seq<Event>)
    ensures |es| == n && forall i :: 0 <= i < n ==> es[i] == e
  {
    if n == 0 then [] else Repeat(e, n - 1) + [e]
  }

  function Repeated(s: State, e: Event, n: nat, minutes: int): State
    decreases n
  {
    if n == 0 then s else Repeated(Step(s, e, minutes), e, n - 1, minutes)
  }

  lemma {:induction false} RepeatedRuns(s: State, e: Event, n: nat, minutes: int)
    ensures Run(s, Repeat(e, n), minutes) == Repeated(s, e, n, minutes)
    decreases n
  {
    hide Step;
    if n > 0 {
      RepeatedRuns(Step(s, e, minutes), e, n - 1, minutes);
      assert Repeat(e, n) == [e] + Repeat(e, n - 1);
      RunStarts(s, e, Repeat(e, n - 1), minutes);
    }
  }

  // ---- Turns ----

  // A whole turn: it is created, and makes all its accesses.
  function WholeTurn(t: nat, turn: Turn): seq<Event>
    requires turn.reply.Some?
  {
    var open := if turn.idSession.Some? then OpenTurn(t, turn.idSession.value, turn.user)
                else OpenNewSession(t, turn.freshId, turn.user);
    [open] + Repeat(NextAccess(t, turn.reply.value), 8)
  }

  lemma OverIsOver(s: State, t: nat, m: Message, n: nat, minutes: int)
    requires t !in s.turns
    ensures Repeated(s, NextAccess(t, m), n, minutes) == s
  {
  }

  function InPhase(s: State, t: nat, flight: Flight, phase: Phase): State {
    s.(turns := s.turns[t := flight.(phase := phase)])
  }

  // One access of a turn, wherever it stands.
  lemma OneAccess(s: State, t: nat, flight: Flight, phase: Phase, m: Message, minutes: int)
    requires t !in s.turns
    ensures var (next, write) := NextPhase(s, flight.(phase := phase), m);
      var id := flight.session;
      Step(InPhase(s, t, flight, phase), NextAccess(t, m), minutes)
      == State(StoreAfter(s, id, write), s.issued,
               if write.SetWindow? then s.windows[id := write.window] else s.windows,
               if write.SetActivity? then s.activity + {id} else s.activity, s.memories,
               if next.Some? then InPhase(s, t, flight, next.value).turns else s.turns, s.jobs)
  {
    hide NextPhase;
    var before := InPhase(s, t, flight, phase);
    SamePhase(s, before, flight.(phase := phase), m);
    assert before.turns - {t} == s.turns;
    var (next, write) := NextPhase(s, flight.(phase := phase), m);
    assert next.Some? ==>
      before.turns[t := flight.(phase := next.value)] == s.turns[t := flight.(phase := next.value)];
  }

  lemma SamePhase(s: State, before: State, flight: Flight, m: Message)
    requires before.store == s.store && before.windows == s.windows
    ensures NextPhase(before, flight, m) == NextPhase(s, flight, m)
  {
  }

  // The part of a turn after it has read its history.
  lemma TurnFromHistory(s: State, t: nat, flight: Flight, history: seq<Message>, m: Message, minutes: int)
    requires t !in s.turns && flight.session in s.store
    ensures var id := flight.session;
      Repeated(InPhase(s, t, flight, Answering(history)), NextAccess(t, m), 4, minutes)
      == s.(store := s.store[id := Doc(s.store[id].owner, s.store[id].messages + [m])],
            windows := s.windows[id := Excerpt(id, flight.user, history + [m])],
            activity := s.activity + {id})
  {
    hide Step, InPhase;
    var id := flight.session;
    OneAccess(s, t, flight, Answering(history), m, minutes);
    var s1 := s.(store := s.store[id := Doc(s.store[id].owner, s.store[id].messages + [m])]);
    InPhaseOf(s, s1, t, flight, Saved(history, m));
    OneAccess(s1, t, flight, Saved(history, m), m, minutes);
    var s2 := s1.(windows := s.windows[id := Excerpt(id, flight.user, history + [m])]);
    InPhaseOf(s1, s2, t, flight, TurnProtocol.Cached);
    OneAccess(s2, t, flight, TurnProtocol.Cached, m, minutes);
    var s3 := s2.(activity := s.activity + {id});
    InPhaseOf(s2, s3, t, flight, Marked);
    OneAccess(s3, t, flight, Marked, m, minutes);
    RepeatedFour(InPhase(s, t, flight, Answering(history)), NextAccess(t, m), minutes);
  }

  lemma InPhaseOf(s: State, after: State, t: nat, flight: Flight, phase: Phase)
    requires after.turns == s.turns
    ensures InPhase(after, t, flight, phase) == after.(turns := InPhase(s, t, flight, phase).turns)
  {
  }

  lemma RepeatedFour(s: State, e: Event, minutes: int)
    ensures Repeated(s, e, 4, minutes)
      == Step(Step(Step(Step(s, e, minutes), e, minutes), e, minutes), e, minutes)
  {
    hide Step;
    var s1 := Step(s, e, minutes);
    var s2 := Step(s1, e, minutes);
    var s3 := Step(s2, e, minutes);
    assert Repeated(s3, e, 1, minutes) == Repeated(Step(s3, e, minutes), e, 0, minutes);
    assert Repeated(s2, e, 2, minutes) == Repeated(s3, e, 1, minutes);
  }

  lemma {:induction false} RepeatedSplits(s: State, e: Event, n: nat, k: nat, minutes: int)
    ensures Repeated(s, e, n + k, minutes) == Repeated(Repeated(s, e, n, minutes), e, k, minutes)
    decreases n
  {
    hide Step;
    if n > 0 {
      RepeatedSplits(Step(s, e, minutes), e, n - 1, k, minutes);
    }
  }

  // The part up to there: two checks, then the window, or the stored messages without one.
  lemma TurnToHistory(s: State, t: nat, flight: Flight, m: Message, minutes: int) returns (n: nat)
    requires t !in s.turns && flight.session in s.store
    requires |s.store[flight.session].messages| < 50 && s.store[flight.session].owner == flight.user
    ensures n <= 4
    ensures var id := flight.session;
      var history := if id in s.windows && s.windows[id].messages != [] then s.windows[id].messages
                     else s.store[id].messages;
      Repeated(InPhase(s, t, flight, Opened), NextAccess(t, m), n, minutes)
      == InPhase(s, t, flight, Answering(history))
  {
    hide Step;
    var id := flight.session;
    OneAccess(s, t, flight, Opened, m, minutes);
    OneAccess(s, t, flight, Counted, m, minutes);
    OneAccess(s, t, flight, Allowed, m, minutes);
    OneAccess(s, t, flight, TurnProtocol.Uncached, m, minutes);
    RepeatedUpToFour(InPhase(s, t, flight, Opened), NextAccess(t, m), minutes);
    n := if id in s.windows && s.windows[id].messages != [] then 3 else 4;
  }

  lemma RepeatedUpToFour(s: State, e: Event, minutes: int)
    ensures Repeated(s, e, 3, minutes) == Step(Step(Step(s, e, minutes), e, minutes), e, minutes)
    ensures Repeated(s, e, 4, minutes) == Step(Repeated(s, e, 3, minutes), e, minutes)
  {
    hide Step;
    RepeatedFour(s, e, minutes);
    var s1 := Step(s, e, minutes);
    var s2 := Step(s1, e, minutes);
    assert Repeated(s2, e, 1, minutes) == Repeated(Step(s2, e, minutes), e, 0, minutes);
    assert Repeated(s1, e, 2, minutes) == Repeated(s2, e, 1, minutes);
  }

  lemma AcceptedTurn(s: State, t: nat, flight: Flight, m: Message, minutes: int)
    requires t !in s.turns && flight.session in s.store
    requires |s.store[flight.session].messages| < 50 && s.store[flight.session].owner == flight.user
    ensures var id := flight.session;
      var history := if id in s.windows && s.windows[id].messages != [] then s.windows[id].messages
                     else s.store[id].messages;
      Repeated(InPhase(s, t, flight, Opened), NextAccess(t, m), 8, minutes)
      == s.(store := s.store[id := Doc(flight.user, s.store[id].messages + [m])],
            windows := s.windows[id := Excerpt(id, flight.user, history + [m])],
            activity := s.activity + {id})
  {
    hide Step, Repeated, InPhase;
    var id, next := flight.session, NextAccess(t, m);
    var s0 := InPhase(s, t, flight, Opened);
    var n := TurnToHistory(s, t, flight, m, minutes);
    var history := if id in s.windows && s.windows[id].messages != [] then s.windows[id].messages
                   else s.store[id].messages;
    TurnFromHistory(s, t, flight, history, m, minutes);
    RepeatedSplits(s0, next, n, 4, minutes);
    var done := Repeated(s0, next, n + 4, minutes);
    RepeatedSplits(s0, next, n + 4, 4 - n, minutes);
    OverIsOver(done, t, m, 4 - n, minutes);
  }

  // A turn on a session that is gone, full or another user's ends at its checks.
  lemma RefusedTurn(s: State, t: nat, flight: Flight, m: Message, minutes: int)
    requires t !in s.turns && !flight.isNew
    requires var id := flight.session;
      id !in s.store || |s.store[id].messages| >= 50 || s.store[id].owner != flight.user
    ensures Repeated(InPhase(s, t, flight, Opened), NextAccess(t, m), 8, minutes) == s
  {
    hide Step;
    var next := NextAccess(t, m);
    OneAccess(s, t, flight, Opened, m, minutes);
    OneAccess(s, t, flight, Counted, m, minutes);
    OverIsOver(s, t, m, 1, minutes);
    OverIsOver(s, t, m, 6, minutes);
    RepeatedTwo(InPhase(s, t, flight, Opened), next, minutes);
    RepeatedSplits(InPhase(s, t, flight, Opened), next, 2, 6, minutes);
  }

  lemma RepeatedTwo(s: State, e: Event, minutes: int)
    ensures Repeated(s, e, 2, minutes) == Step(Step(s, e, minutes), e, minutes)
  {
    hide Step;
    var s1 := Step(s, e, minutes);
    assert Repeated(s1, e, 1, minutes) == Repeated(Step(s1, e, minutes), e, 0, minutes);
  }

  // What a turn of single accesses comes to when it is let through.
  lemma MirroredTurn(s: State, w: World, turn: Turn, minutes: int)
    requires minutes > 0 && Mirrors(s, w) && SendTurn(w, turn, minutes).1.Sent?
    requires turn.idSession.None? ==> turn.freshId !in s.windows
    ensures var id := SessionOf(turn);
      var stored := if turn.idSession.Some? then s.store[id].messages else [];
      var history := if id in s.windows && s.windows[id].messages != [] then s.windows[id].messages else stored;
      Mirrors(s.(store := s.store[id := Doc(turn.user, stored + [turn.reply.value])],
                 windows := s.windows[id := Excerpt(id, turn.user, history + [turn.reply.value])],
                 activity := s.activity + {id}),
              SendTurn(w, turn, minutes).0)
  {
    TurnAnswersFromWindow(w, turn, minutes);
    hide SendTurn;
  }

  /** A turn whose accesses nothing interrupts, and in which none fails, is the whole turn, refused or not. */
  lemma UninterruptedTurnIsWhole(s: State, w: World, t: nat, turn: Turn, minutes: int)
    requires minutes > 0 && Mirrors(s, w) && t !in s.turns
    requires turn.known && turn.reply.Some? && turn.fault.NoFault?
    requires turn.idSession.None? ==>
      turn.freshId !in s.issued && turn.freshId !in s.store && turn.freshId !in s.windows
    ensures var after := Run(s, WholeTurn(t, turn), minutes);
      Mirrors(after, SendTurn(w, turn, minutes).0) && after.turns == s.turns && after.jobs == s.jobs
  {
    hide Repeated, SendTurn, Mirrors;
    var m := turn.reply.value;
    var es := WholeTurn(t, turn);
    RunStarts(s, es[0], Repeat(NextAccess(t, m), 8), minutes);
    RepeatedRuns(Step(s, es[0], minutes), NextAccess(t, m), 8, minutes);
    hide Run;
    WhenSent(w, turn, minutes);
    match turn.idSession
    case None =>
      var created := s.(store := s.store[turn.freshId := Doc(turn.user, [])], issued := s.issued + {turn.freshId});
      AcceptedTurn(created, t, Flight(turn.freshId, turn.user, true, Opened), m, minutes);
      MirroredTurn(s, w, turn, minutes);
      assert [] + [m] == [m];
      NewSessionMirrors(s, created, w, turn, minutes);
    case Some(id) =>
      MirroredSession(s, w, id);
      if SendTurn(w, turn, minutes).1.Sent? {
        AcceptedTurn(s, t, Flight(id, turn.user, false, Opened), m, minutes);
        MirroredTurn(s, w, turn, minutes);
      } else {
        RefusedTurn(s, t, Flight(id, turn.user, false, Opened), m, minutes);
        FailedTurnLeavesMessage(w, turn, minutes);
      }
  }

  lemma MirroredSession(s: State, w: World, id: SessionId)
    requires Mirrors(s, w)
    ensures id in s.store <==> id in w.store
    ensures id in s.store ==> s.store[id] == Doc(w.store[id].owner, w.store[id].messages)
  {
  }

  lemma WhenSent(w: World, turn: Turn, minutes: int)
    requires turn.known && turn.reply.Some? && turn.fault.NoFault?
    ensures SendTurn(w, turn, minutes).1.Sent?
      <==> (turn.idSession.None?
            || (turn.idSession.value in w.store && |w.store[turn.idSession.value].messages| < 50
                && w.store[turn.idSession.value].owner == turn.user))
    ensures SendTurn(w, turn, minutes).1 != TurnFailed
  {
    TurnAnswersFromWindow(w, turn, minutes);
  }

  lemma NewSessionMirrors(s: State, created: State, w: World, turn: Turn, minutes: int)
    requires turn.idSession.None? && turn.reply.Some?
    requires created == s.(store := s.store[turn.freshId := Doc(turn.user, [])], issued := s.issued + {turn.freshId})
    requires var id, m := turn.freshId, turn.reply.value;
      Mirrors(s.(store := s.store[id := Doc(turn.user, [m])], windows := s.windows[id := Excerpt(id, turn.user, [m])],
                 activity := s.activity + {id}),
              SendTurn(w, turn, minutes).0)
    ensures var id, m := turn.freshId, turn.reply.value;
      Mirrors(created.(store := created.store[id := Doc(turn.user, [m])],
                      windows := s.windows[id := Excerpt(id, turn.user, [m])], activity := s.activity + {id}),
              SendTurn(w, turn, minutes).0)
  {
    assert created.store[turn.freshId := Doc(turn.user, [turn.reply.value])]
      == s.store[turn.freshId := Doc(turn.user, [turn.reply.value])];
  }

  // ---- Passes ----

  /** A harvesting job that nothing interrupts does one visit of the pass: memory first, then no window. */
  lemma UninterruptedHarvestIsVisit(s: State, w: World, j: nat, id: SessionId, minutes: int)
    requires Mirrors(s, w) && j !in s.jobs && IsExpired(w, id)
    ensures var after := Run(s, [ListExpiredWindow(j, id)] + Repeat(NextJobAccess(j), 3), minutes);
      Mirrors(after, Visit(w, id)) && after.turns == s.turns && after.jobs == s.jobs
  {
    hide Mirrors, Visit, Step, Run, Repeated;
    var list, next := ListExpiredWindow(j, id), NextJobAccess(j);
    RunStarts(s, list, Repeat(next, 3), minutes);
    RepeatedRuns(Step(s, list, minutes), next, 3, minutes);
    RepeatedUpToFour(Step(s, list, minutes), next, minutes);
    ExpiredIsListed(s, w, id);
    HarvestSteps(s, j, id, minutes);
    VisitMirrors(s, w, id);
  }

  lemma HarvestSteps(s: State, j: nat, id: SessionId, minutes: int)
    requires j !in s.jobs && id in s.windows && id !in s.activity && s.windows[id].session == id
    ensures var next := NextJobAccess(j);
      Step(Step(Step(Step(s, ListExpiredWindow(j, id), minutes), next, minutes), next, minutes), next, minutes)
      == s.(windows := s.windows - {id},
            memories := s.memories + if s.windows[id].messages != [] then [s.windows[id]] else [])
  {
    var list, next := ListExpiredWindow(j, id), NextJobAccess(j);
    var s0 := Step(s, list, minutes);
    assert s0 == s.(jobs := s.jobs[j := Listed(id)]);
    var s1 := Step(s0, next, minutes);
    var s2 := Step(s1, next, minutes);
    var s3 := Step(s2, next, minutes);
    var memories := s.memories + if s.windows[id].messages != [] then [s.windows[id]] else [];
    if s.windows[id].messages != [] {
      assert s1 == s.(jobs := s.jobs[j := Summarising(s.windows[id])]);
      assert s2 == s.(memories := memories, jobs := s.jobs[j := Remembered(id)]);
      assert s2.jobs - {j} == s.jobs;
    } else {
      assert s1 == s.(jobs := s.jobs[j := Remembered(id)]);
      assert s1.jobs - {j} == s.jobs;
    }
    assert s3 == s.(windows := s.windows - {id}, memories := memories);
  }

  lemma ExpiredIsListed(s: State, w: World, id: SessionId)
    requires Mirrors(s, w) && IsExpired(w, id)
    ensures id in s.windows && id !in s.activity && s.windows[id].session == id
  {
  }

  lemma VisitMirrors(s: State, w: World, id: SessionId)
    requires Mirrors(s, w) && IsExpired(w, id) && id in s.windows
    ensures Mirrors(s.(windows := s.windows - {id},
                       memories := s.memories + if s.windows[id].messages != [] then [s.windows[id]] else []),
                    Visit(w, id))
  {
  }

  /** A refreshing job that nothing interrupts sets the derived window and the activity key, as the pass does. */
  lemma UninterruptedRefreshIsSync(s: State, w: World, j: nat, id: SessionId, minutes: int)
    requires minutes > 0 && Mirrors(s, w) && j !in s.jobs && id in w.store && w.store[id].messages != []
    ensures var after := Run(s, [ListRecentSession(j, id)] + Repeat(NextJobAccess(j), 3), minutes);
      && Mirrors(after, w.(windows := w.windows[id := SyncedWindow(w, id, minutes)],
                           activity := w.activity[id := SyncedActivity(w, id, minutes)]))
      && after.turns == s.turns && after.jobs == s.jobs
  {
    hide Mirrors, Step, Run, Repeated;
    var list, next := ListRecentSession(j, id), NextJobAccess(j);
    RunStarts(s, list, Repeat(next, 3), minutes);
    RepeatedRuns(Step(s, list, minutes), next, 3, minutes);
    RepeatedUpToFour(Step(s, list, minutes), next, minutes);
    MirroredSession(s, w, id);
    RefreshSteps(s, j, id, minutes);
    SyncMirrors(s, w, id, minutes);
  }

  lemma RefreshSteps(s: State, j: nat, id: SessionId, minutes: int)
    requires j !in s.jobs && id in s.store && s.store[id].messages != []
    ensures var next := NextJobAccess(j);
      var window := Excerpt(id, s.store[id].owner, Derive(s.store[id].messages, Threshold(minutes)));
      Step(Step(Step(Step(s, ListRecentSession(j, id), minutes), next, minutes), next, minutes), next, minutes)
      == s.(windows := s.windows[id := window], activity := s.activity + {id})
  {
    hide Derive;
    var list, next := ListRecentSession(j, id), NextJobAccess(j);
    DeriveIsWindow(s.store[id].messages, Threshold(minutes));
    var window := Excerpt(id, s.store[id].owner, Derive(s.store[id].messages, Threshold(minutes)));
    var s0 := Step(s, list, minutes);
    assert s0 == s.(jobs := s.jobs[j := Recent(id)]);
    var s1 := Step(s0, next, minutes);
    assert s1 == s.(jobs := s.jobs[j := Derived(window)]);
    var s2 := Step(s1, next, minutes);
    assert s2 == s.(windows := s.windows[id := window], jobs := s.jobs[j := TurnProtocol.Refreshed(id)]);
    var s3 := Step(s2, next, minutes);
    assert s2.jobs - {j} == s.jobs;
    assert s3 == s.(windows := s.windows[id := window], activity := s.activity + {id});
  }

  lemma SyncMirrors(s: State, w: World, id: SessionId, minutes: int)
    requires minutes > 0 && Mirrors(s, w) && id in w.store
    ensures Mirrors(
      s.(windows := s.windows[id := Excerpt(id, w.store[id].owner, Derive(w.store[id].messages, Threshold(minutes)))],
         activity := s.activity + {id}),
      w.(windows := w.windows[id := SyncedWindow(w, id, minutes)],
         activity := w.activity[id := SyncedActivity(w, id, minutes)]))
  {
    hide Derive;
  }
}
