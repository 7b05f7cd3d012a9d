/** What the interleaved turns do to the size and the life of a session, and what they do not promise. */
module TurnLimits {
  import opened SessionKeys
  import opened SessionWorld
  import opened TurnProtocol
  import opened Windows

  // ---- The size limit ----

  ghost function Flying(s: State, id: SessionId): set<nat> {
    set t | t in s.turns && s.turns[t].session == id
  }

  // Turns that have counted the messages and not yet saved theirs.
  predicate AwaitsSave(phase: Phase) {
    phase.Counted? || phase.Allowed? || phase.Uncached? || phase.Answering?
  }

  ghost function Awaiting(s: State, id: SessionId): set<nat> {
    set t | t in s.turns && s.turns[t].session == id && AwaitsSave(s.turns[t].phase)
  }

  ghost predicate Capped(s: State, id: SessionId, k: nat) {
    && s.store.Keys <= s.issued
    && (id in s.store ==> |s.store[id].messages| + |Awaiting(s, id)| < MAX_MESSAGES + k)
    && (id !in s.issued ==> Awaiting(s, id) == {})
  }

  lemma SubsetIsSmaller(a: set<nat>, b: set<nat>)
    requires a <= b
    ensures |a| <= |b|
  {
    assert b == a + (b - a);
  }

  lemma TurnKeepsCap(s: State, t: nat, next: Option<Phase>, write: Write, id: SessionId, k: nat)
    requires Capped(s, id, k) && t in s.turns
    requires write.AppendMessage? ==> s.turns[t].phase.Answering? && next.Some? && !AwaitsSave(next.value)
    requires next.Some? && AwaitsSave(next.value) ==>
      || AwaitsSave(s.turns[t].phase)
      || (s.turns[t].session in s.store && |s.store[s.turns[t].session].messages| < MAX_MESSAGES)
    requires |Flying(Perform(s, t, next, write), id)| <= k
    ensures Capped(Perform(s, t, next, write), id, k)
  {
    var after := Perform(s, t, next, write);
    var was, now := Awaiting(s, id), Awaiting(after, id);
    SubsetIsSmaller(now, Flying(after, id));
    if write.AppendMessage? && s.turns[t].session == id {
      assert now == was - {t};
    } else if !(next.Some? && AwaitsSave(next.value) && !AwaitsSave(s.turns[t].phase) && s.turns[t].session == id) {
      assert now <= was;
      SubsetIsSmaller(now, was);
    }
  }

  lemma NextPhaseIsBounded(s: State, flight: Flight, reply: Message)
    ensures var (next, write) := NextPhase(s, flight, reply);
      && (write.AppendMessage? ==> flight.phase.Answering? && next.Some? && !AwaitsSave(next.value))
      && (next.Some? && AwaitsSave(next.value) ==>
            || AwaitsSave(flight.phase)
            || (flight.session in s.store && |s.store[flight.session].messages| < MAX_MESSAGES))
  {
  }

  lemma StepKeepsCap(s: State, e: Event, minutes: int, id: SessionId, k: nat)
    requires Capped(s, id, k) && |Flying(Step(s, e, minutes), id)| <= k
    ensures Capped(Step(s, e, minutes), id, k)
  {
    hide Perform, NextPhase, AdvanceJob, Capped, Flying;
    match e
    case NextAccess(t, reply) =>
      if t in s.turns {
        NextPhaseIsBounded(s, s.turns[t], reply);
        var (next, write) := NextPhase(s, s.turns[t], reply);
        TurnKeepsCap(s, t, next, write, id, k);
      }
    case FailTurn(t) => if t in s.turns { TurnKeepsCap(s, t, Abandoned(s.turns[t]), NoWrite, id, k); }
    case OpenTurn(_, _, _) => OpeningKeepsCap(s, e, minutes, id, k);
    case OpenNewSession(_, _, _) => OpeningKeepsCap(s, e, minutes, id, k);
    case NextJobAccess(j) =>
      if j in s.jobs {
        JobOnStore(s, j, minutes);
        CapDependsOnTurns(s, AdvanceJob(s, j, minutes), id, k);
      }
    case _ => CapDependsOnTurns(s, Step(s, e, minutes), id, k);
  }

  lemma CapDependsOnTurns(s: State, after: State, id: SessionId, k: nat)
    requires Capped(s, id, k)
    requires after.store == s.store && after.issued == s.issued && after.turns == s.turns
    ensures Capped(after, id, k)
  {
    assert Awaiting(after, id) == Awaiting(s, id);
  }

  lemma OpeningKeepsCap(s: State, e: Event, minutes: int, id: SessionId, k: nat)
    requires Capped(s, id, k) && (e.OpenTurn? || e.OpenNewSession?)
    ensures Capped(Step(s, e, minutes), id, k)
  {
    assert Awaiting(Step(s, e, minutes), id) == Awaiting(s, id);
  }

  ghost predicate AtMostInFlight(es: seq<Event>, minutes: int, id: SessionId, k: nat) {
    forall i :: 0 <= i <= |es| ==> |Flying(Run(INITIAL, es[..i], minutes), id)| <= k
  }

  /** With at most k turns in flight on a session, its stored length never exceeds 49 + k. */
  lemma {:induction false} SessionSizeIsCapped(es: seq<Event>, minutes: int, id: SessionId, k: nat)
    requires AtMostInFlight(es, minutes, id, k)
    ensures var s := Run(INITIAL, es, minutes);
      && Capped(s, id, k)
      && (id in s.store ==> |s.store[id].messages| <= 49 + k)
  {
    hide Step, Flying;
    if es != [] {
      var n := |es| - 1;
      forall i | 0 <= i <= n ensures es[..n][..i] == es[..i] {
      }
      assert es[..|es|] == es;
      SessionSizeIsCapped(es[..n], minutes, id, k);
      assert |Flying(Run(INITIAL, es, minutes), id)| <= k;
      StepKeepsCap(Run(INITIAL, es[..n], minutes), es[n], minutes, id, k);
    }
  }

  // ---- History is never deleted ----

  ghost predicate KeepsHistory(s: State, after: State, id: SessionId) {
    id in s.store && |s.store[id].messages| >= 2 ==>
      id in after.store && s.store[id].messages <= after.store[id].messages
  }

  lemma StepKeepsHistory(s: State, e: Event, minutes: int, id: SessionId)
    requires s.store.Keys <= s.issued
    ensures KeepsHistory(s, Step(s, e, minutes), id)
  {
    hide NextPhase, AdvanceJob;
    if e.NextJobAccess? && e.job in s.jobs {
      JobOnStore(s, e.job, minutes);
    }
  }

  /** Whatever is interleaved, a session that ever held two messages stays, and only gains messages. */
  lemma {:induction false} HistoryIsNeverDeleted(es: seq<Event>, i: nat, minutes: int, id: SessionId)
    requires i <= |es|
    ensures KeepsHistory(Run(INITIAL, es[..i], minutes), Run(INITIAL, es, minutes), id)
  {
    hide Step;
    if i == |es| {
      assert es[..i] == es;
    } else {
      var n := |es| - 1;
      assert es[..n][..i] == es[..i];
      HistoryIsNeverDeleted(es[..n], i, minutes, id);
      EveryInterleavingIsTruthful(es[..n], minutes);
      StepKeepsHistory(Run(INITIAL, es[..n], minutes), es[n], minutes, id);
    }
  }

  // ---- What a failure can leave behind ----

  lemma {:induction false} RunContinues(s: State, first: seq<Event>, second: seq<Event>, minutes: int)
    ensures Run(s, first + second, minutes) == Run(Run(s, first, minutes), second, minutes)
  {
    hide Step;
    if second == [] {
      assert first + second == first;
    } else {
      var n := |second| - 1;
      RunContinues(s, first, second[..n], minutes);
      assert (first + second)[..|first| + n] == first + second[..n];
    }
  }

  lemma RunStarts(s: State, e: Event, es: seq<Event>, minutes: int)
    ensures Run(s, [e] + es, minutes) == Run(Step(s, e, minutes), es, minutes)
  {
    hide Step;
    assert [e][..0] == [];
    RunContinues(s, [e], es, minutes);
  }

  // A new session with the first `n` accesses of its first turn.
  function FirstAccesses(t: nat, id: SessionId, user: UserId, m: Message, n: nat): (es: seq<Event>)
    ensures forall i :: 0 <= i < |es| ==> es[i].OpenNewSession? || es[i].NextAccess?
  {
    if n == 0 then [OpenNewSession(t, id, user)] else FirstAccesses(t, id, user, m, n - 1) + [NextAccess(t, m)]
  }

  function PhaseAfter(m: Message, n: nat): Phase
    requires n <= 7
  {
    match n
    case 0 => Opened
    case 1 => Counted
    case 2 => Allowed
    case 3 => Uncached
    case 4 => Answering([])
    case 5 => Saved([], m)
    case 6 => Cached
    case 7 => Marked
  }

  function AfterAccesses(s: State, t: nat, id: SessionId, user: UserId, m: Message, n: nat): State
    requires n <= 7
  {
    State(
      s.store[id := Doc(user, if n >= 5 then [m] else [])],
      s.issued + {id},
      if n >= 6 then s.windows[id := Excerpt(id, user, [m])] else s.windows,
      if n >= 7 then s.activity + {id} else s.activity,
      s.memories,
      s.turns[t := Flight(id, user, true, PhaseAfter(m, n))],
      s.jobs)
  }

  // A session and a turn that do not exist yet.
  ghost predicate Unused(s: State, t: nat, id: SessionId) {
    t !in s.turns && id !in s.issued && id !in s.store && id !in s.windows
  }

  lemma AccessAdvances(s: State, t: nat, id: SessionId, user: UserId, m: Message, n: nat, minutes: int)
    requires Unused(s, t, id) && n < 7
    ensures Step(AfterAccesses(s, t, id, user, m, n), NextAccess(t, m), minutes)
      == AfterAccesses(s, t, id, user, m, n + 1)
  {
    var before, after := AfterAccesses(s, t, id, user, m, n), AfterAccesses(s, t, id, user, m, n + 1);
    assert before.turns[t := after.turns[t]] == after.turns;
    assert [] + [m] == [m];
    assert before.store[id := after.store[id]] == after.store;
  }

  lemma {:induction false} FirstTurnRuns(s: State, t: nat, id: SessionId, user: UserId,
      m: Message, n: nat, minutes: int)
    requires Unused(s, t, id) && n <= 7
    ensures Run(s, FirstAccesses(t, id, user, m, n), minutes) == AfterAccesses(s, t, id, user, m, n)
  {
    var es := FirstAccesses(t, id, user, m, n);
    if n == 0 {
      assert es[..0] == [];
    } else {
      hide Step, AfterAccesses;
      FirstTurnRuns(s, t, id, user, m, n - 1, minutes);
      assert es[..|es| - 1] == FirstAccesses(t, id, user, m, n - 1);
      AccessAdvances(s, t, id, user, m, n - 1, minutes);
    }
  }

  // The turn fails, and its rollback gets through.
  function Rollback(t: nat, m: Message): seq<Event> {
    [FailTurn(t), NextAccess(t, m)]
  }

  lemma RollbackUndoes(s: State, t: nat, id: SessionId, user: UserId, m: Message, n: nat, minutes: int)
    requires Unused(s, t, id) && n <= 7
    ensures var was := AfterAccesses(s, t, id, user, m, n);
      Step(Step(was, FailTurn(t), minutes), NextAccess(t, m), minutes)
      == State(s.store, was.issued, was.windows, was.activity, s.memories, s.turns, s.jobs)
  {
    var was := AfterAccesses(s, t, id, user, m, n);
    var failed := Step(was, FailTurn(t), minutes);
    assert failed.turns == s.turns[t := Flight(id, user, true, RollingBack)];
    assert was.store - {id} == s.store && failed.turns - {t} == s.turns;
  }

  /**
   * A first turn that fails after any number of its accesses, and whose rollback gets through, leaves
   * the stored sessions exactly as they were. What it leaves in the cache is told by how far it came:
   * its window exactly when it got to cache it, and its activity key exactly when it got to set it.
   */
  lemma RollbackLeavesWindowIff(s: State, t: nat, id: SessionId, user: UserId, m: Message, n: nat, minutes: int)
    requires Unused(s, t, id) && n <= 7
    ensures var after := Run(s, FirstAccesses(t, id, user, m, n) + Rollback(t, m), minutes);
      && after.store == s.store && after.turns == s.turns && after.memories == s.memories && after.jobs == s.jobs
      && (id in after.windows <==> n >= 6)
      && after.windows == (if n >= 6 then s.windows[id := Excerpt(id, user, [m])] else s.windows)
      && after.activity == (if n >= 7 then s.activity + {id} else s.activity)
  {
    hide Step, AfterAccesses;
    FirstTurnRuns(s, t, id, user, m, n, minutes);
    RunTwoMore(s, FirstAccesses(t, id, user, m, n), FailTurn(t), NextAccess(t, m), minutes);
    RollbackUndoes(s, t, id, user, m, n, minutes);
    CacheAfter(s, t, id, user, m, n);
  }

  lemma CacheAfter(s: State, t: nat, id: SessionId, user: UserId, m: Message, n: nat)
    requires Unused(s, t, id) && n <= 7
    ensures var was := AfterAccesses(s, t, id, user, m, n);
      && was.windows == (if n >= 6 then s.windows[id := Excerpt(id, user, [m])] else s.windows)
      && was.activity == (if n >= 7 then s.activity + {id} else s.activity)
  {
  }

  lemma RunTwoMore(s: State, es: seq<Event>, a: Event, b: Event, minutes: int)
    ensures Run(s, es + [a, b], minutes) == Step(Step(Run(s, es, minutes), a, minutes), b, minutes)
  {
    hide Step;
    var all := es + [a, b];
    assert all[..|all| - 1] == es + [a];
    assert (es + [a])[..|es|] == es;
  }

  /** After any run, an id that was never issued and an idle turn are such. */
  lemma UnissuedIsUnused(es: seq<Event>, t: nat, id: SessionId, minutes: int)
    requires t !in Run(INITIAL, es, minutes).turns && id !in Run(INITIAL, es, minutes).issued
    ensures Unused(Run(INITIAL, es, minutes), t, id)
  {
    var s := Run(INITIAL, es, minutes);
    EveryInterleavingIsTruthful(es, minutes);
    assert id in s.windows ==> Grounded(s, s.windows[id]);
  }

  /** So rolling a new session back can leave its window. */
  lemma RollbackCanLeaveTheWindow(t: nat, id: SessionId, user: UserId, m: Message, minutes: int)
    returns (es: seq<Event>)
    ensures var s := Run(INITIAL, es, minutes);
      id !in s.store && id in s.windows && s.windows[id].messages == [m] && t !in s.turns
  {
    hide Run;
    es := FirstAccesses(t, id, user, m, 6) + Rollback(t, m);
    RollbackLeavesWindowIff(INITIAL, t, id, user, m, 6, minutes);
  }

  lemma RunNothing(s: State, minutes: int)
    ensures Run(s, [], minutes) == s
  {
  }

  // A turn on a cached session, up to and including the access that saves its message.
  lemma SaveOnCachedSession(s: State, t: nat, id: SessionId, user: UserId, m: Message, minutes: int)
    returns (es: seq<Event>)
    requires t !in s.turns && id in s.store && s.store[id].owner == user && |s.store[id].messages| < MAX_MESSAGES
    requires id in s.windows && s.windows[id].messages != []
    ensures forall i :: 0 <= i < |es| ==> es[i].OpenTurn? || es[i].NextAccess?
    ensures Run(s, es, minutes) == s.(
      store := s.store[id := Doc(user, s.store[id].messages + [m])],
      turns := s.turns[t := Flight(id, user, false, Saved(s.windows[id].messages, m))])
  {
    hide Run;
    var open, next := OpenTurn(t, id, user), NextAccess(t, m);
    es := [open] + ([next] + ([next] + ([next] + ([next] + []))));
    var s0 := Step(s, open, minutes);
    var s1 := Step(s0, next, minutes);
    var s2 := Step(s1, next, minutes);
    var s3 := Step(s2, next, minutes);
    assert s3.turns[t].phase == Answering(s.windows[id].messages);
    var s4 := Step(s3, next, minutes);
    RunStarts(s, open, [next] + ([next] + ([next] + ([next] + []))), minutes);
    RunStarts(s0, next, [next] + ([next] + ([next] + [])), minutes);
    RunStarts(s1, next, [next] + ([next] + []), minutes);
    RunStarts(s2, next, [next] + [], minutes);
    RunStarts(s3, next, [], minutes);
    RunNothing(s4, minutes);
    assert s4.turns == s.turns[t := Flight(id, user, false, Saved(s.windows[id].messages, m))];
  }

  // A session with one stored and cached message, whose first turn is not over.
  lemma FirstTurn(id: SessionId, user: UserId, a: Message, minutes: int) returns (es: seq<Event>)
    ensures forall i :: 0 <= i < |es| ==> es[i].OpenNewSession? || es[i].NextAccess?
    ensures Run(INITIAL, es, minutes)
      == State(map[id := Doc(user, [a])], {id}, map[id := Excerpt(id, user, [a])], {}, [],
           map[0 := Flight(id, user, true, Cached)], map[])
  {
    es := FirstAccesses(0, id, user, a, 6);
    FirstTurnRuns(INITIAL, 0, id, user, a, 6, minutes);
  }

  /** A failure between saving a message and caching it leaves a window with a hole in it. */
  lemma WindowCanSkipASavedMessage(id: SessionId, user: UserId, a: Message, b: Message, c: Message, minutes: int)
    returns (es: seq<Event>)
    requires a != b
    ensures var s := Run(INITIAL, es, minutes);
      && id in s.store && s.store[id].messages == [a, b, c]
      && id in s.windows && s.windows[id].messages == [a, c]
      && !Suffix(s.windows[id].messages, s.store[id].messages)
  {
    hide Run;
    var first := FirstTurn(id, user, a, minutes);
    var s0 := Run(INITIAL, first, minutes);
    var second := SaveOnCachedSession(s0, 1, id, user, b, minutes);
    var s1 := Run(s0, second, minutes);
    var failed := Step(s1, FailTurn(1), minutes);
    assert [a] + [b] == [a, b];
    var third := SaveOnCachedSession(failed, 2, id, user, c, minutes);
    var s2 := Run(failed, third, minutes);
    var last := Step(s2, NextAccess(2, c), minutes);
    assert [a, b] + [c] == [a, b, c] && [a] + [c] == [a, c];
    es := first + (second + ([FailTurn(1)] + (third + ([NextAccess(2, c)] + []))));
    RunContinues(INITIAL, first, second + ([FailTurn(1)] + (third + ([NextAccess(2, c)] + []))), minutes);
    RunContinues(s0, second, [FailTurn(1)] + (third + ([NextAccess(2, c)] + [])), minutes);
    RunStarts(s1, FailTurn(1), third + ([NextAccess(2, c)] + []), minutes);
    RunContinues(failed, third, [NextAccess(2, c)] + [], minutes);
    RunStarts(s2, NextAccess(2, c), [], minutes);
    RunNothing(last, minutes);
    assert [a, b, c][1..] == [b, c] && [b, c][0] != [a, c][0];
  }

  lemma LaterCachingWins(s: State, id: SessionId, user: UserId, history: seq<Message>,
      b: Message, c: Message, minutes: int)
    requires 1 in s.turns && s.turns[1] == Flight(id, user, false, Saved(history, b))
    requires 2 in s.turns && s.turns[2] == Flight(id, user, false, Saved(history, c))
    ensures var after := Step(Step(s, NextAccess(1, b), minutes), NextAccess(2, c), minutes);
      after.store == s.store && id in after.windows && after.windows[id].messages == history + [c]
  {
  }

  /** So do two turns that overlap, without any failure: both read the window before either caches its own. */
  lemma OverlappingTurnsSkipASavedMessage(id: SessionId, user: UserId, a: Message, b: Message, c: Message, minutes: int)
    returns (es: seq<Event>)
    requires a != b
    ensures forall i :: 0 <= i < |es| ==> es[i].OpenNewSession? || es[i].OpenTurn? || es[i].NextAccess?
    ensures var s := Run(INITIAL, es, minutes);
      && id in s.store && s.store[id].messages == [a, b, c]
      && id in s.windows && s.windows[id].messages == [a, c]
      && !Suffix(s.windows[id].messages, s.store[id].messages)
  {
    hide Run, Step;
    var first := FirstTurn(id, user, a, minutes);
    var s0 := Run(INITIAL, first, minutes);
    var second := SaveOnCachedSession(s0, 1, id, user, b, minutes);
    var s1 := Run(s0, second, minutes);
    assert [a] + [b] == [a, b];
    var third := SaveOnCachedSession(s1, 2, id, user, c, minutes);
    var s2 := Run(s1, third, minutes);
    assert [a, b] + [c] == [a, b, c] && [a] + [c] == [a, c];
    LaterCachingWins(s2, id, user, [a], b, c, minutes);
    es := first + (second + (third + [NextAccess(1, b), NextAccess(2, c)]));
    RunContinues(INITIAL, first, second + (third + [NextAccess(1, b), NextAccess(2, c)]), minutes);
    RunContinues(s0, second, third + [NextAccess(1, b), NextAccess(2, c)], minutes);
    RunTwoMore(s1, third, NextAccess(1, b), NextAccess(2, c), minutes);
    assert [a, b, c][1..] == [b, c] && [b, c][0] != [a, c][0];
  }
}
