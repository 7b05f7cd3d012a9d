/** Which keepers are told to end: the closing events that are set before loops are stopped, over whole runs. */
module McpClosing {
  import opened McpSession
  import opened SessionKeys

  // Event `j`: thread `t` takes the published session, whose closing event is that of generation `c`.
  ghost predicate Takes(es: seq<Event>, j: nat, t: nat, gen: nat, c: nat) {
    && j < |es| && es[j] == EnterClose(t)
    && Run(es[..j]).loop == Some(gen) && Run(es[..j]).closing == Some(c)
    && Run(es[..j]).lock.None? && t in Run(es[..j]).threads && Run(es[..j]).threads[t].WantsClose?
  }

  // Event `k`: thread `t` sets the closing event of generation `c`.
  ghost predicate Sets(es: seq<Event>, k: nat, t: nat, c: nat) {
    && k < |es| && es[k] == SignalKeeper(t)
    && Run(es[..k + 1]).signalled == Run(es[..k]).signalled + [c]
  }

  // A thread that is closing took the session, and set its event before it waits to stop its loop.
  ghost predicate Traced(es: seq<Event>, t: nat, at: Thread) {
    && (at.Closing? ==> at.signal.Some? && exists j :: Takes(es, j, t, at.gen, at.signal.value))
    && (at.AwaitingKeeper? ==>
          exists j: nat, k, c :: j < k && Takes(es, j, t, at.gen, c) && Sets(es, k, t, c))
  }

  ghost predicate AllTraced(es: seq<Event>) {
    forall t :: t in Run(es).threads ==> Traced(es, t, Run(es).threads[t])
  }

  lemma PrefixTakes(es: seq<Event>, n: nat, j: nat, t: nat, gen: nat, c: nat)
    requires n <= |es| && Takes(es[..n], j, t, gen, c)
    ensures Takes(es, j, t, gen, c)
  {
    assert es[..n][..j] == es[..j];
  }

  lemma PrefixSets(es: seq<Event>, n: nat, k: nat, t: nat, c: nat)
    requires n <= |es| && Sets(es[..n], k, t, c)
    ensures Sets(es, k, t, c)
  {
    assert es[..n][..k] == es[..k] && es[..n][..k + 1] == es[..k + 1];
  }

  lemma TracedSurvives(es: seq<Event>, n: nat, t: nat, at: Thread)
    requires n <= |es| && Traced(es[..n], t, at)
    ensures Traced(es, t, at)
  {
    hide Takes, Sets;
    if at.Closing? {
      var j :| Takes(es[..n], j, t, at.gen, at.signal.value);
      PrefixTakes(es, n, j, t, at.gen, at.signal.value);
    } else if at.AwaitingKeeper? {
      var j: nat, k, c :| j < k && Takes(es[..n], j, t, at.gen, c) && Sets(es[..n], k, t, c);
      PrefixTakes(es, n, j, t, at.gen, c);
      PrefixSets(es, n, k, t, c);
    }
  }

  // The two steps that start a close, and set its event.
  lemma StepIntoClosing(s: State, e: Event, t: nat)
    requires t in Step(s, e).threads && !(t in s.threads && Step(s, e).threads[t] == s.threads[t])
    ensures var at := Step(s, e).threads[t];
      && (at.Closing? ==>
            && e == EnterClose(t) && s.lock.None? && s.loop == Some(at.gen) && at.signal == s.closing
            && t in s.threads && s.threads[t].WantsClose?)
      && (at.AwaitingKeeper? ==>
            && e == SignalKeeper(t) && t in s.threads && s.threads[t].Closing? && s.threads[t].gen == at.gen
            && (s.threads[t].signal.Some? ==> Step(s, e).signalled == s.signalled + [s.threads[t].signal.value]))
  {
  }

  lemma PublishedHasClosing(es: seq<Event>)
    ensures Run(es).loop.Some? ==> Run(es).closing.Some?
  {
    EveryRunIsOrderly(es);
    if Run(es).loop.Some? {
      assert Current(Run(es), Run(es).loop.value);
    }
  }

  lemma {:induction false} EveryCloserIsTraced(es: seq<Event>)
    ensures AllTraced(es)
  {
    hide Step, Traced;
    if es != [] {
      var n := |es| - 1;
      EveryCloserIsTraced(es[..n]);
      forall t | t in Run(es).threads ensures Traced(es, t, Run(es).threads[t]) {
        if t in Run(es[..n]).threads && Run(es).threads[t] == Run(es[..n]).threads[t] {
          TracedSurvives(es, n, t, Run(es).threads[t]);
        } else {
          NewCloserIsTraced(es, t);
        }
      }
    }
  }

  lemma NewCloserIsTraced(es: seq<Event>, t: nat)
    requires es != [] && AllTraced(es[..|es| - 1]) && t in Run(es).threads
    requires !(t in Run(es[..|es| - 1]).threads && Run(es).threads[t] == Run(es[..|es| - 1]).threads[t])
    ensures Traced(es, t, Run(es).threads[t])
  {
    hide Step;
    var n := |es| - 1;
    var at := Run(es).threads[t];
    StepIntoClosing(Run(es[..n]), es[n], t);
    PublishedHasClosing(es[..n]);
    assert es[..n + 1] == es;
    if at.Closing? {
      assert Takes(es, n, t, at.gen, at.signal.value);
    } else if at.AwaitingKeeper? {
      var was := Run(es[..n]).threads[t];
      assert Traced(es[..n], t, was);
      var j :| Takes(es[..n], j, t, was.gen, was.signal.value);
      PrefixTakes(es, n, j, t, at.gen, was.signal.value);
      assert Sets(es, n, t, was.signal.value);
    }
  }

  /**
   * In any interleaving: before a closer stops a loop, it took that loop while it was published, and
   * set the closing event that was published with it. That is the loop's own event, so its own keeper
   * is told to end, exactly when no other keeper had begun after its own by then.
   */
  lemma StoppedLoopsWereSignalled(es: seq<Event>, i: nat, t: nat) returns (j: nat, k: nat, began: nat, c: nat)
    requires i < |es| && es[i] == StopLoop(t)
    requires t in Run(es[..i]).threads && Run(es[..i]).threads[t].AwaitingKeeper?
    ensures var gen := Run(es[..i]).threads[t].gen;
      && j < k < i && Takes(es, j, t, gen, c) && Sets(es, k, t, c)
      && began < j && TakesEffect(es[..j], began) && es[began].gen == gen
      && (c == gen <==> forall later: nat :: began < later ==> !TakesEffect(es[..j], later))
  {
    var gen := Run(es[..i]).threads[t].gen;
    EveryCloserIsTraced(es[..i]);
    assert Traced(es[..i], t, Run(es[..i]).threads[t]);
    j, k, c :| j < k && Takes(es[..i], j, t, gen, c) && Sets(es[..i], k, t, c);
    PrefixTakes(es, i, j, t, gen, c);
    PrefixSets(es, i, k, t, c);
    hide Run, Step, TakesEffect;
    began := ClosingMatchesIfKeeperWasLast(es[..j], gen);
    EffectIsInside(es[..j], began);
  }

  lemma EffectIsInside(es: seq<Event>, i: nat)
    requires TakesEffect(es, i)
    ensures i < |es| && es[i].KeeperBegins?
  {
  }

  lemma KeepersInPrefixBeginInTime(es: seq<Event>, n: nat)
    requires n <= |es| && KeepersBeginInTime(es)
    ensures KeepersBeginInTime(es[..n])
  {
    hide Run;
    forall i | 0 <= i < n && es[..n][i].KeeperBegins?
      ensures exists t :: Holds(Run(es[..n][..i]), es[..n][i].gen, Starter(t))
    {
      assert es[..n][..i] == es[..i];
    }
  }

  /** When every keeper begins in time, every loop a closer stops has had its own keeper told to end first. */
  lemma TimelyKeepersAreTold(es: seq<Event>, i: nat, t: nat) returns (k: nat)
    requires KeepersBeginInTime(es) && i < |es| && es[i] == StopLoop(t)
    requires t in Run(es[..i]).threads && Run(es[..i]).threads[t].AwaitingKeeper?
    ensures k < i && Sets(es, k, t, Run(es[..i]).threads[t].gen)
  {
    hide Run, Step, KeepersBeginInTime, TakesEffect;
    var j, setAt, began, c := StoppedLoopsWereSignalled(es, i, t);
    KeepersInPrefixBeginInTime(es, j);
    TimelyKeepersMatch(es[..j]);
    k := setAt;
  }

  // ---- Nobody else is told ----

  // Event `k` sets the event that thread `t` took from a published session before.
  ghost predicate SetsWhatWasTaken(es: seq<Event>, k: nat, c: nat) {
    exists j: nat, t, gen :: j < k && Takes(es, j, t, gen, c) && Sets(es, k, t, c)
  }

  lemma StepSignals(s: State, e: Event)
    ensures Step(s, e).signalled == s.signalled
      || (e.SignalKeeper? && e.t in s.threads && s.threads[e.t].Closing?
          && Step(s, e).signalled
             == s.signalled + if s.threads[e.t].signal.Some? then [s.threads[e.t].signal.value] else [])
  {
  }

  /** Every closing event that was ever set was set by a closer that took it, with a loop, from the session. */
  lemma {:induction false} OnlyTakenEventsAreSet(es: seq<Event>, c: nat)
    requires c in Run(es).signalled
    ensures exists k :: SetsWhatWasTaken(es, k, c)
  {
    hide Step, Takes, Sets;
    var n := |es| - 1;
    StepSignals(Run(es[..n]), es[n]);
    if c in Run(es[..n]).signalled {
      OnlyTakenEventsAreSet(es[..n], c);
      var k :| SetsWhatWasTaken(es[..n], k, c);
      SetInPrefix(es, n, k, c);
    } else {
      LastEventSets(es, c);
    }
  }

  lemma SetInPrefix(es: seq<Event>, n: nat, k: nat, c: nat)
    requires n <= |es| && SetsWhatWasTaken(es[..n], k, c)
    ensures SetsWhatWasTaken(es, k, c)
  {
    hide Takes, Sets;
    var j: nat, t, gen :| j < k && Takes(es[..n], j, t, gen, c) && Sets(es[..n], k, t, c);
    PrefixTakes(es, n, j, t, gen, c);
    PrefixSets(es, n, k, t, c);
  }

  lemma LastEventSets(es: seq<Event>, c: nat)
    requires es != [] && c in Run(es).signalled && c !in Run(es[..|es| - 1]).signalled
    ensures SetsWhatWasTaken(es, |es| - 1, c)
  {
    hide Step, Takes;
    var n := |es| - 1;
    StepSignals(Run(es[..n]), es[n]);
    EveryCloserIsTraced(es[..n]);
    var t := es[n].t;
    var at := Run(es[..n]).threads[t];
    assert Traced(es[..n], t, at);
    var j :| Takes(es[..n], j, t, at.gen, at.signal.value);
    PrefixTakes(es, n, j, t, at.gen, c);
    assert es[..n + 1] == es;
    assert Sets(es, n, t, c);
  }

  /**
   * When every keeper begins in time, no keeper is told to end but that of a session that was
   * published and taken.
   */
  lemma OnlyTakenKeepersAreTold(es: seq<Event>, c: nat) returns (j: nat, t: nat)
    requires KeepersBeginInTime(es) && c in Run(es).signalled
    ensures Takes(es, j, t, c, c)
  {
    hide Run, Step, KeepersBeginInTime;
    OnlyTakenEventsAreSet(es, c);
    var k :| SetsWhatWasTaken(es, k, c);
    var gen: nat;
    j, t, gen :| j < k && Takes(es, j, t, gen, c) && Sets(es, k, t, c);
    KeepersInPrefixBeginInTime(es, j);
    TimelyKeepersMatch(es[..j]);
    assert gen == c;
  }

  // ---- The keeper that is not told ----

  lemma CloseWithWrongEvent(s: State)
    requires s.loop == Some(1) && s.closing == Some(0) && s.lock.None? && s.signalled == [] && s.stops == [1, 0]
    requires 0 in s.threads && s.threads[0].Finished?
    ensures var after := Step(Step(Step(Step(s, Begin(0, ToClose)), EnterClose(0)), SignalKeeper(0)), StopLoop(0));
      after.signalled == [0] && after.stops == [1, 1]
  {
    var s1 := Step(s, Begin(0, ToClose));
    assert s1.threads[0] == WantsClose(ToClose, Asked);
    var s2 := Step(s1, EnterClose(0));
    assert s2.threads[0] == Closing(ToClose, Asked, 1, Some(0));
    var s3 := Step(s2, SignalKeeper(0));
    assert s3.threads[0] == AwaitingKeeper(ToClose, Asked, 1);
  }

  /** After a late keeper took over the closing event, the close stops a loop whose own keeper is never told. */
  lemma LateKeeperIsToldInstead() returns (es: seq<Event>)
    ensures Run(es).stops == [1, 1] && Run(es).signalled == [0]
  {
    hide Run, Step;
    es := LateKeeperTakesOverClosing();
    CloseWithWrongEvent(Run(es));
    RunExtendsByThree(es, Begin(0, ToClose), EnterClose(0), SignalKeeper(0));
    RunExtends(es + [Begin(0, ToClose), EnterClose(0), SignalKeeper(0)], StopLoop(0));
    es := es + [Begin(0, ToClose), EnterClose(0), SignalKeeper(0)] + [StopLoop(0)];
  }
}
