/** When the cached window of an interleaved session is a suffix of its stored messages. */
module TurnWindows {
  import opened SessionKeys
  import opened SessionWorld
  import opened TurnProtocol
  import opened Windows

  // ---- One access ----

  ghost predicate WindowFits(s: State, id: SessionId) {
    id in s.store && id in s.windows ==> Suffix(s.windows[id].messages, s.store[id].messages)
  }

  // Turn `t` is working on the session.
  predicate On(s: State, t: nat, id: SessionId) {
    t in s.turns && s.turns[t].session == id
  }

  // A turn saves its message past a cached window that holds any other message.
  ghost predicate SavesPast(s: State, e: Event, id: SessionId) {
    && e.NextAccess? && On(s, e.turn, id) && s.turns[e.turn].phase.Answering?
    && id in s.windows && exists x :: x in s.windows[id].messages && x != e.reply
  }

  // A turn caches its history and its message although they are not what is stored last.
  ghost predicate CachesPast(s: State, e: Event, id: SessionId)
    requires id in s.store
  {
    && e.NextAccess? && On(s, e.turn, id) && s.turns[e.turn].phase.Saved?
    && !Suffix(Held(s.turns[e.turn]).messages, s.store[id].messages)
  }

  // A pass caches a derived window although it is no longer what is stored last.
  ghost predicate RefreshesPast(s: State, e: Event, id: SessionId)
    requires id in s.store
  {
    && e.NextJobAccess? && e.job in s.jobs && s.jobs[e.job].Derived? && s.jobs[e.job].excerpt.session == id
    && !Suffix(s.jobs[e.job].excerpt.messages, s.store[id].messages)
  }

  /**
   * From a state whose cached window is a suffix of the stored messages, one access of any turn or
   * pass keeps it one exactly when it is none of the three that write past each other.
   */
  lemma StepKeepsFitIff(s: State, e: Event, minutes: int, id: SessionId)
    requires WindowFits(s, id) && s.store.Keys <= s.issued && id in s.store
    ensures WindowFits(Step(s, e, minutes), id) <==>
      id !in Step(s, e, minutes).store || (!SavesPast(s, e, id) && !CachesPast(s, e, id) && !RefreshesPast(s, e, id))
  {
    hide Derive, Suffix, NextPhase, Perform;
    match e
    case NextAccess(t, reply) => if t in s.turns { TurnKeepsFitIff(s, t, reply, minutes, id); }
    case NextJobAccess(j) => if j in s.jobs { JobOnStore(s, j, minutes); }
    case FailTurn(t) => if t in s.turns { FailureKeepsFit(s, t, id); }
    case _ =>
  }

  lemma FailureKeepsFit(s: State, t: nat, id: SessionId)
    requires t in s.turns && WindowFits(s, id)
    ensures WindowFits(Perform(s, t, Abandoned(s.turns[t]), NoWrite), id)
  {
  }

  lemma TurnKeepsFitIff(s: State, t: nat, reply: Message, minutes: int, id: SessionId)
    requires WindowFits(s, id) && id in s.store && t in s.turns
    ensures var e, after := NextAccess(t, reply), AdvanceTurn(s, t, reply);
      WindowFits(after, id) <==> id !in after.store || (!SavesPast(s, e, id) && !CachesPast(s, e, id))
  {
    hide Suffix;
    if s.turns[t].session == id && s.turns[t].phase.Answering? && id in s.windows {
      SuffixPastOneMore(s.windows[id].messages, s.store[id].messages, reply);
    }
  }

  // ---- What a turn caches, by the saves since it read its history ----

  /** A history and a message end what is stored exactly when they end the history and the saves after it. */
  lemma SuffixIffSaves(history: seq<Message>, stored: seq<Message>, saves: seq<Message>, m: Message)
    requires Suffix(history, stored) && saves != []
    ensures Suffix(history + [m], stored + saves) <==> Suffix(history + [m], history + saves)
  {
    var before := stored[..|stored| - |history|];
    assert stored + saves == before + (history + saves);
    var n := |history| + 1;
    assert (stored + saves)[|stored + saves| - n..] == (history + saves)[|history + saves| - n..];
  }

  /**
   * The turn's own save alone is always fine. With messages all different nothing else is, unless
   * the history was empty and the turn's save is the last.
   */
  lemma OnlyOwnSaveFits(history: seq<Message>, before: seq<Message>, m: Message, after: seq<Message>)
    requires Distinct(history + (before + [m] + after))
    ensures Suffix(history + [m], history + (before + [m] + after)) <==> after == [] && (before == [] || history == [])
  {
    var saves := before + [m] + after;
    var all := history + saves;
    if after != [] {
      assert all[|all| - 1] == after[|after| - 1] && all[|history| + |before|] == m;
      assert (history + [m])[|history|] == m;
    } else if before != [] && history != [] {
      assert all[|all| - 2] == before[|before| - 1] && all[|history| - 1] == history[|history| - 1];
      assert all[|all| - |history| - 1..][|history| - 1] == all[|all| - 2];
    } else if before == [] {
      assert all == history + [m];
    } else {
      assert all[|all| - 1..] == [m];
    }
  }

  // From state `i` on, turn `t` has read this history and has not cached a window yet.
  ghost predicate StillRelies(es: seq<Event>, i: nat, t: nat, id: SessionId, history: seq<Message>, minutes: int) {
    && ReliesOn(Run(INITIAL, es, minutes), t, id, history)
    && forall k :: i <= k <= |es| ==> ReliesOn(Run(INITIAL, es[..k], minutes), t, id, history)
  }

  ghost predicate ReliesOn(s: State, t: nat, id: SessionId, history: seq<Message>) {
    && id in s.store && On(s, t, id)
    && (s.turns[t].phase == Answering(history) || (s.turns[t].phase.Saved? && s.turns[t].phase.history == history))
  }

  lemma SaveIsStored(s: State, e: Event, minutes: int, t: nat, id: SessionId)
    requires On(s, t, id) && s.turns[t].phase.Answering? && s.store.Keys <= s.issued && id in s.store
    requires var after := Step(s, e, minutes); On(after, t, id) && after.turns[t].phase.Saved? && id in after.store
    ensures |Step(s, e, minutes).store[id].messages| > |s.store[id].messages|
  {
    hide AdvanceJob;
    if e.NextJobAccess? && e.job in s.jobs {
      JobOnStore(s, e.job, minutes);
    }
  }

  // Since it read its history, the stored messages only grew, and its own is among the new ones.
  lemma {:induction false} SavesSinceRead(es: seq<Event>, i: nat, t: nat, id: SessionId,
      history: seq<Message>, minutes: int)
    requires i <= |es| && StillRelies(es, i, t, id, history, minutes)
    requires Run(INITIAL, es[..i], minutes).turns[t].phase.Answering?
    ensures var was, now := Run(INITIAL, es[..i], minutes).store[id].messages,
                        Run(INITIAL, es, minutes).store[id].messages;
      was <= now && (Run(INITIAL, es, minutes).turns[t].phase.Saved? ==> |now| > |was|)
  {
    hide Step, Truthful;
    assert es[..|es|] == es;
    if i < |es| {
      var n := |es| - 1;
      forall k | 0 <= k <= n ensures es[..n][..k] == es[..k] {
      }
      assert ReliesOn(Run(INITIAL, es[..n], minutes), t, id, history);
      SavesSinceRead(es[..n], i, t, id, history, minutes);
      var s := Run(INITIAL, es[..n], minutes);
      StoreIsIssued(es[..n], minutes);
      StepGrows(s, es[n], minutes);
      if s.turns[t].phase.Answering? && Run(INITIAL, es, minutes).turns[t].phase.Saved? {
        SaveIsStored(s, es[n], minutes, t, id);
      }
    }
  }

  lemma StoreIsIssued(es: seq<Event>, minutes: int)
    ensures Run(INITIAL, es, minutes).store.Keys <= Run(INITIAL, es, minutes).issued
  {
    EveryInterleavingIsTruthful(es, minutes);
  }

  /**
   * In any interleaving: the window a turn caches is a suffix of what is stored exactly when its
   * history and message end its history and the messages saved since it read that history.
   */
  lemma CachedWindowFitsIffSaves(es: seq<Event>, i: nat, t: nat, id: SessionId, history: seq<Message>,
      reply: Message, minutes: int)
    requires i <= |es| && StillRelies(es, i, t, id, history, minutes)
    requires var s := Run(INITIAL, es[..i], minutes);
      s.turns[t].phase.Answering? && Suffix(history, s.store[id].messages)
    requires Run(INITIAL, es, minutes).turns[t].phase.Saved?
    ensures var s := Run(INITIAL, es, minutes);
      var was, now := Run(INITIAL, es[..i], minutes).store[id].messages, s.store[id].messages;
      var m, after := s.turns[t].phase.message, Step(s, NextAccess(t, reply), minutes);
      && was <= now && id in after.windows && after.windows[id].messages == history + [m]
      && (Suffix(after.windows[id].messages, after.store[id].messages)
          <==> Suffix(history + [m], history + now[|was|..]))
  {
    hide Run, Suffix;
    SavesSinceRead(es, i, t, id, history, minutes);
    var s := Run(INITIAL, es, minutes);
    assert es[..|es|] == es;
    var was, now := Run(INITIAL, es[..i], minutes).store[id].messages, s.store[id].messages;
    SuffixIffSaves(history, was, now[|was|..], s.turns[t].phase.message);
    assert was + now[|was|..] == now;
  }

  // ---- Turns and refreshes that do not overlap ----

  // The turn has read a history and has not cached its window yet.
  ghost predicate Relies(s: State, t: nat, id: SessionId) {
    On(s, t, id) && (s.turns[t].phase.Answering? || s.turns[t].phase.Saved?)
  }

  // The pass has read the stored messages and has not cached the window it derived.
  ghost predicate Rebuilds(s: State, j: nat, id: SessionId) {
    j in s.jobs && s.jobs[j].Derived? && s.jobs[j].excerpt.session == id
  }

  ghost predicate Uncached(s: State, t: nat, id: SessionId) {
    On(s, t, id) && s.turns[t].phase.Saved?
  }

  // Between their reads and their writes, a turn is alone on its session.
  ghost predicate Alone(s: State, id: SessionId) {
    && (forall t, u :: Relies(s, t, id) && Relies(s, u, id) ==> t == u)
    && (forall t, j :: Relies(s, t, id) ==> !Rebuilds(s, j, id))
  }

  // A turn dies between its save and its caching, and leaves an older window behind.
  ghost predicate LeavesOldWindow(s: State, e: Event, id: SessionId) {
    e.FailTurn? && Uncached(s, e.turn, id) && id in s.windows
  }

  // What was read is a suffix of what is stored, and so is the cached window but for a save not cached yet.
  ghost predicate Fresh(s: State, id: SessionId) {
    id in s.store ==>
      && (forall t :: Relies(s, t, id) ==> Suffix(Held(s.turns[t]).messages, s.store[id].messages))
      && (forall j :: Rebuilds(s, j, id) ==> Suffix(s.jobs[j].excerpt.messages, s.store[id].messages))
      && ((forall t :: !Uncached(s, t, id)) ==> WindowFits(s, id))
  }

  // What no step of another session, and no step that reads or writes nothing of this one, can change.
  lemma FreshIgnores(s: State, after: State, id: SessionId)
    requires Fresh(s, id)
    requires id in after.store ==> id in s.store && after.store[id].messages == s.store[id].messages
    requires id in after.windows ==> id in s.windows && after.windows[id] == s.windows[id]
    requires forall t :: Relies(after, t, id) ==> Relies(s, t, id) && Held(after.turns[t]) == Held(s.turns[t])
    requires forall t :: Uncached(s, t, id) ==> Uncached(after, t, id) || id !in after.windows
    requires forall j :: Rebuilds(after, j, id) ==> Rebuilds(s, j, id) && after.jobs[j] == s.jobs[j]
    ensures Fresh(after, id)
  {
    hide Suffix, Held;
    if id in after.store && id in after.windows {
      if t :| Uncached(s, t, id) {
        assert Uncached(after, t, id);
      }
    }
  }

  // ---- Each access keeps it ----

  lemma ReadKeepsFresh(s: State, t: nat, reply: Message, id: SessionId)
    requires Fresh(s, id) && On(s, t, id) && (s.turns[t].phase.Allowed? || s.turns[t].phase.Uncached?)
    requires Alone(AdvanceTurn(s, t, reply), id)
    ensures Fresh(AdvanceTurn(s, t, reply), id)
  {
    hide Suffix;
    var after := AdvanceTurn(s, t, reply);
    if Relies(after, t, id) {
      forall u ensures !Uncached(s, u, id) {
        assert Uncached(s, u, id) ==> u != t && Relies(after, u, id);
      }
      if id in s.store {
        WholeIsSuffix(s, id);
      }
      assert Held(after.turns[t]).messages == after.turns[t].phase.history;
    }
    forall u | Relies(after, u, id) && u != t ensures Relies(s, u, id) && after.turns[u] == s.turns[u] {
    }
    forall u | Uncached(s, u, id) ensures Uncached(after, u, id) {
    }
  }

  lemma WholeIsSuffix(s: State, id: SessionId)
    requires id in s.store
    ensures Suffix(s.store[id].messages, s.store[id].messages)
  {
  }

  lemma SaveKeepsFresh(s: State, t: nat, reply: Message, id: SessionId)
    requires Fresh(s, id) && On(s, t, id) && s.turns[t].phase.Answering? && Alone(s, id)
    ensures Fresh(AdvanceTurn(s, t, reply), id)
  {
    var after := AdvanceTurn(s, t, reply);
    assert Relies(s, t, id) && Uncached(after, t, id);
    if id in s.store {
      SuffixGrows(Held(s.turns[t]).messages, s.store[id].messages, reply);
    }
    hide Suffix;
    forall u | Relies(after, u, id) ensures u == t {
      assert u != t ==> Relies(s, u, id);
    }
    forall j ensures !Rebuilds(after, j, id) {
      assert Rebuilds(after, j, id) ==> Rebuilds(s, j, id);
    }
  }

  lemma CacheKeepsFresh(s: State, t: nat, reply: Message, id: SessionId)
    requires Fresh(s, id) && On(s, t, id) && s.turns[t].phase.Saved? && Alone(s, id)
    ensures Fresh(AdvanceTurn(s, t, reply), id)
  {
    hide Suffix;
    var after := AdvanceTurn(s, t, reply);
    assert Relies(s, t, id);
    forall u ensures !Relies(after, u, id) {
      assert Relies(after, u, id) ==> u != t && Relies(s, u, id);
    }
  }

  lemma OtherAccessKeepsFresh(s: State, t: nat, reply: Message, id: SessionId)
    requires Fresh(s, id) && t in s.turns
    requires On(s, t, id) ==> !s.turns[t].phase.Allowed? && !s.turns[t].phase.Uncached? && !Relies(s, t, id)
    ensures Fresh(AdvanceTurn(s, t, reply), id)
  {
    hide Suffix, Fresh;
    var after := AdvanceTurn(s, t, reply);
    forall u | Relies(after, u, id) ensures Relies(s, u, id) && Held(after.turns[u]) == Held(s.turns[u]) {
      assert u != t && after.turns[u] == s.turns[u];
    }
    forall u | Uncached(s, u, id) ensures Uncached(after, u, id) {
    }
    FreshIgnores(s, after, id);
  }

  lemma TurnKeepsFresh(s: State, t: nat, reply: Message, id: SessionId)
    requires Fresh(s, id) && t in s.turns && Alone(s, id) && Alone(AdvanceTurn(s, t, reply), id)
    ensures Fresh(AdvanceTurn(s, t, reply), id)
  {
    hide Fresh, Alone, AdvanceTurn;
    if !On(s, t, id) {
      OtherAccessKeepsFresh(s, t, reply, id);
    } else {
      match s.turns[t].phase
      case Allowed => ReadKeepsFresh(s, t, reply, id);
      case Uncached => ReadKeepsFresh(s, t, reply, id);
      case Answering(_) => SaveKeepsFresh(s, t, reply, id);
      case Saved(_, _) => CacheKeepsFresh(s, t, reply, id);
      case _ => OtherAccessKeepsFresh(s, t, reply, id);
    }
  }

  lemma FailureKeepsFresh(s: State, t: nat, id: SessionId)
    requires Fresh(s, id) && t in s.turns && !LeavesOldWindow(s, FailTurn(t), id)
    ensures Fresh(Perform(s, t, Abandoned(s.turns[t]), NoWrite), id)
  {
    hide Suffix, Fresh;
    var after := Perform(s, t, Abandoned(s.turns[t]), NoWrite);
    forall u | Relies(after, u, id) ensures Relies(s, u, id) && Held(after.turns[u]) == Held(s.turns[u]) {
      assert u != t && after.turns[u] == s.turns[u];
    }
    forall u | Uncached(s, u, id) ensures Uncached(after, u, id) || id !in after.windows {
      assert u == t || after.turns[u] == s.turns[u];
    }
    FreshIgnores(s, after, id);
  }

  lemma JobKeepsFresh(s: State, j: nat, minutes: int, id: SessionId)
    requires Fresh(s, id) && j in s.jobs && Alone(s, id) && Alone(AdvanceJob(s, j, minutes), id)
    ensures Fresh(AdvanceJob(s, j, minutes), id)
  {
    hide Suffix, Derive;
    var after := AdvanceJob(s, j, minutes);
    JobOnStore(s, j, minutes);
    forall t ensures (Relies(after, t, id) <==> Relies(s, t, id)) && (Uncached(after, t, id) <==> Uncached(s, t, id)) {
    }
    if Rebuilds(after, j, id) {
      DeriveIsWindow(s.store[id].messages, Threshold(minutes));
    }
    forall k | Rebuilds(after, k, id) && k != j ensures Rebuilds(s, k, id) && after.jobs[k] == s.jobs[k] {
    }
    if s.jobs[j].Derived? && s.jobs[j].excerpt.session == id {
      assert Rebuilds(s, j, id);
      forall t ensures !Uncached(s, t, id) {
        assert Uncached(s, t, id) ==> Relies(s, t, id);
      }
    }
  }

  lemma StepKeepsFresh(s: State, e: Event, minutes: int, id: SessionId)
    requires Truthful(s) && Fresh(s, id) && Alone(s, id) && Alone(Step(s, e, minutes), id)
    requires !LeavesOldWindow(s, e, id)
    ensures Fresh(Step(s, e, minutes), id)
  {
    hide Fresh, Alone, AdvanceTurn, AdvanceJob, Perform, Truthful;
    match e
    case NextAccess(t, reply) => if t in s.turns { TurnKeepsFresh(s, t, reply, id); }
    case FailTurn(t) => if t in s.turns { FailureKeepsFresh(s, t, id); }
    case NextJobAccess(j) => if j in s.jobs { JobKeepsFresh(s, j, minutes, id); }
    case OpenNewSession(_, _, _) => OpeningKeepsFresh(s, e, minutes, id);
    case _ => QuietStepKeepsFresh(s, e, minutes, id);
  }

  lemma OpeningKeepsFresh(s: State, e: Event, minutes: int, id: SessionId)
    requires Truthful(s) && Fresh(s, id) && e.OpenNewSession?
    ensures Fresh(Step(s, e, minutes), id)
  {
    hide Suffix, Subsequence;
    var after := Step(s, e, minutes);
    forall u | Relies(after, u, id) ensures Relies(s, u, id) && after.turns[u] == s.turns[u] {
    }
    forall u | Uncached(s, u, id) ensures Uncached(after, u, id) {
    }
    TouchedIsIssued(s, id);
  }

  // Nothing relies on a session that does not exist yet.
  lemma TouchedIsIssued(s: State, id: SessionId)
    requires Truthful(s)
    ensures forall u :: Relies(s, u, id) ==> id in s.issued
    ensures forall j :: Rebuilds(s, j, id) ==> id in s.issued
    ensures id in s.windows ==> id in s.issued
  {
    hide Subsequence;
    forall u | Relies(s, u, id) ensures id in s.issued {
      assert FlightGrounded(s, s.turns[u]);
    }
    forall j | Rebuilds(s, j, id) ensures id in s.issued {
      assert JobGrounded(s, s.jobs[j]);
    }
    assert id in s.windows ==> Grounded(s, s.windows[id]);
  }

  lemma QuietStepKeepsFresh(s: State, e: Event, minutes: int, id: SessionId)
    requires Fresh(s, id)
    requires !e.NextAccess? && !e.FailTurn? && !e.NextJobAccess? && !e.OpenNewSession?
    ensures Fresh(Step(s, e, minutes), id)
  {
    hide Suffix, Fresh;
    var after := Step(s, e, minutes);
    forall u | Relies(after, u, id) ensures Relies(s, u, id) && after.turns[u] == s.turns[u] {
    }
    forall u | Uncached(s, u, id) ensures Uncached(after, u, id) {
    }
    FreshIgnores(s, after, id);
  }

  // On the session nothing overlaps, and no turn dies leaving an older window than what it saved.
  ghost predicate Undisturbed(es: seq<Event>, minutes: int, id: SessionId) {
    && (forall i :: 0 <= i <= |es| ==> Alone(Run(INITIAL, es[..i], minutes), id))
    && (forall i :: 0 <= i < |es| ==> !LeavesOldWindow(Run(INITIAL, es[..i], minutes), es[i], id))
  }

  lemma {:induction false} UndisturbedIsFresh(es: seq<Event>, minutes: int, id: SessionId)
    requires Undisturbed(es, minutes, id)
    ensures Fresh(Run(INITIAL, es, minutes), id)
  {
    hide Step, Alone, LeavesOldWindow, Truthful;
    assert es[..|es|] == es;
    if es != [] {
      hide Fresh;
      var n := |es| - 1;
      forall i | 0 <= i <= n ensures es[..n][..i] == es[..i] {
      }
      UndisturbedIsFresh(es[..n], minutes, id);
      EveryInterleavingIsTruthful(es[..n], minutes);
      assert Alone(Run(INITIAL, es[..n], minutes), id) && Alone(Run(INITIAL, es, minutes), id);
      StepKeepsFresh(Run(INITIAL, es[..n], minutes), es[n], minutes, id);
    }
  }

  /**
   * In any interleaving in which, on one session, no turn overlaps another turn or a refresh between
   * its read and its caching, and none dies between its save and its caching while an older window
   * is cached: that session's cached window is a suffix of its stored messages, whenever no turn
   * stands between its save and its caching.
   */
  lemma UndisturbedWindowIsSuffix(es: seq<Event>, minutes: int, id: SessionId)
    requires Undisturbed(es, minutes, id)
    requires forall t :: !Uncached(Run(INITIAL, es, minutes), t, id)
    ensures var s := Run(INITIAL, es, minutes);
      id in s.store && id in s.windows ==> Suffix(s.windows[id].messages, s.store[id].messages)
  {
    hide Run, Suffix;
    UndisturbedIsFresh(es, minutes, id);
  }

  /**
   * A turn that dies between its save and its caching leaves a suffix behind exactly when the window
   * held no other message.
   */
  lemma DeathLeavesFitIff(s: State, t: nat, id: SessionId, stored: seq<Message>, minutes: int)
    requires Uncached(s, t, id) && id in s.windows && id in s.store && s.store.Keys <= s.issued
    requires s.store[id].messages == stored + [s.turns[t].phase.message] && Suffix(s.windows[id].messages, stored)
    ensures var after := Step(s, FailTurn(t), minutes);
      && id in after.store && id in after.windows
      && (Suffix(after.windows[id].messages, after.store[id].messages)
          <==> forall x :: x in s.windows[id].messages ==> x == s.turns[t].phase.message)
  {
    SuffixPastOneMore(s.windows[id].messages, stored, s.turns[t].phase.message);
  }
}
