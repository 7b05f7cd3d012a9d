/**
 * The shared MCP session: any number of threads call, start and close it, while the loop thread
 * of every session ever started runs on its own. A generation is one start: its event loop,
 * loop thread, tools, keeper task and closing event all carry its number.
 */
module McpSession {
  import opened SessionKeys

  // Why a thread closes the session, and so what it does next.
  datatype Reason = Asked | CallFailed | CallTimedOut

  datatype Purpose =
    | ToStart
    | ToClose
    | ToCall(attempt: nat, invocations: nat)

  datatype Outcome = Answer | Failure | SessionError | Timeout

  datatype Result = Returned | Raised | Done

  datatype Thread =
    | WantsStart(purpose: Purpose)                              // waits for the lock in _ensure_started
    | Starting(purpose: Purpose, gen: nat)                      // holds the lock, waits until ready
    | Submitting(purpose: Purpose, toolGen: nat)                // resolved a tool, will read _loop
    | Waiting(purpose: Purpose, toolGen: nat, loopGen: nat)     // waits for the tool's answer
    | WantsClose(purpose: Purpose, reason: Reason)              // waits for the lock in close
    | Closing(purpose: Purpose, reason: Reason, gen: nat, signal: Option<nat>)   // took the fields
    | AwaitingKeeper(purpose: Purpose, reason: Reason, gen: nat)  // signalled, will stop the loop
    | Finished(purpose: Purpose, result: Result)

  datatype State = State(
    lock: Option<nat>,
    loop: Option<nat>,
    thread: Option<nat>,
    tools: Option<nat>,
    keeper: Option<nat>,
    closing: Option<nat>,
    stops: seq<nat>,             // one entry per generation: how often its loop was told to stop
    signalled: seq<nat>,         // the closing events that were set, in order
    begun: seq<nat>,             // the keepers that have begun, in order
    ready: set<nat>,             // the generations whose tools are loaded
    threads: map<nat, Thread>)

  const INITIAL := State(None, None, None, None, None, None, [], [], [], {}, map[])

  datatype Event =
    | Begin(t: nat, purpose: Purpose)
    | EnterStart(t: nat, clientBuilt: bool, toolKnown: bool)
    | StartSucceeds(t: nat, toolKnown: bool)
    | StartFails(t: nat)                          // the keeper raised, or the start timed out
    | Submit(t: nat)
    | Settle(t: nat, outcome: Outcome)
    | EnterClose(t: nat)
    | SignalKeeper(t: nat)
    | StopLoop(t: nat)
    | KeeperBegins(gen: nat)                      // publishes its closing event, without the lock
    | KeeperReady(gen: nat)

  function Moved(s: State, t: nat, to: Thread): State {
    s.(threads := s.threads[t := to])
  }

  // What a thread does once the session is started.
  function AfterStart(purpose: Purpose, gen: nat, toolKnown: bool): Thread {
    if !purpose.ToCall? then Finished(purpose, Done)
    else if toolKnown then Submitting(purpose, gen) else Finished(purpose, Raised)
  }

  // What it does once the session is closed: the first failed attempt is retried.
  function AfterClose(purpose: Purpose, reason: Reason): Thread {
    match reason
    case Asked => Finished(purpose, Done)
    case CallTimedOut => Finished(purpose, Raised)
    case CallFailed =>
      if purpose.ToCall? && purpose.attempt == 1 then WantsStart(purpose.(attempt := 2)) else Finished(purpose, Raised)
  }

  function AfterOutcome(purpose: Purpose, outcome: Outcome): Thread {
    match outcome
    case Answer => Finished(purpose, Returned)
    case Failure => WantsClose(purpose, CallFailed)
    case SessionError => Finished(purpose, Raised)
    case Timeout => WantsClose(purpose, CallTimedOut)
  }

  function Stopped(s: State, gen: nat): State {
    if gen < |s.stops| then s.(stops := s.stops[gen := s.stops[gen] + 1]) else s
  }

  function Step(s: State, e: Event): State {
    match e
    case Begin(t, purpose) =>
      if t in s.threads && !s.threads[t].Finished? then s
      else if purpose.ToClose? then Moved(s, t, WantsClose(purpose, Asked))
      else Moved(s, t, WantsStart(if purpose.ToCall? then ToCall(1, 0) else purpose))
    case KeeperBegins(gen) =>
      if gen < |s.stops| && gen !in s.begun then s.(closing := Some(gen), begun := s.begun + [gen]) else s
    case KeeperReady(gen) => if gen in s.begun then s.(ready := s.ready + {gen}) else s
    case _ => if e.t in s.threads then ThreadStep(s, e, s.threads[e.t]) else s
  }

  function ThreadStep(s: State, e: Event, at: Thread): State
    requires !e.Begin? && !e.KeeperBegins? && !e.KeeperReady?
  {
    match (e, at)
    case (EnterStart(t, clientBuilt, toolKnown), WantsStart(purpose)) =>
      if s.lock.Some? then s
      else if s.tools.Some? then Moved(s, t, AfterStart(purpose, s.tools.value, toolKnown))
      else if !clientBuilt then Moved(s, t, Finished(purpose, Raised))
      else Moved(s, t, Starting(purpose, |s.stops|)).(lock := Some(t), stops := s.stops + [0])
    case (StartSucceeds(t, toolKnown), Starting(purpose, gen)) =>
      if gen !in s.ready then s
      else Moved(s, t, AfterStart(purpose, gen, toolKnown)).(
        lock := None, loop := Some(gen), thread := Some(gen), tools := Some(gen), keeper := Some(gen))
    case (StartFails(t), Starting(purpose, gen)) =>
      Moved(Stopped(s, gen), t, Finished(purpose, Raised)).(lock := None)
    case (Submit(t), Submitting(purpose, toolGen)) =>
      if s.loop.None? || !purpose.ToCall? then Moved(s, t, WantsClose(purpose, CallFailed))
      else Moved(s, t, Waiting(purpose.(invocations := purpose.invocations + 1), toolGen, s.loop.value))
    case (Settle(t, outcome), Waiting(purpose, _, _)) => Moved(s, t, AfterOutcome(purpose, outcome))
    case (EnterClose(t), WantsClose(purpose, reason)) =>
      if s.lock.Some? then s else
      Moved(s, t, if s.loop.None? then AfterClose(purpose, reason)
                  else Closing(purpose, reason, s.loop.value, s.closing)).(
        loop := None, thread := None, tools := None, keeper := None, closing := None)
    case (SignalKeeper(t), Closing(purpose, reason, gen, signal)) =>
      Moved(s, t, AwaitingKeeper(purpose, reason, gen)).(
        signalled := s.signalled + if signal.Some? then [signal.value] else [])
    case (StopLoop(t), AwaitingKeeper(purpose, reason, gen)) =>
      Moved(Stopped(s, gen), t, AfterClose(purpose, reason))
    case _ => s
  }

  function Run(es: seq<Event>): State {
    if es == [] then INITIAL else Step(Run(es[..|es| - 1]), es[|es| - 1])
  }

  // ---- Who is responsible for a loop ----

  datatype Holder =
    | Published
    | Starter(t: nat)
    | Closer(t: nat)
    | Nobody                     // told to stop, exactly once

  ghost predicate Holds(s: State, gen: nat, h: Holder) {
    match h
    case Published => s.loop == Some(gen)
    case Starter(t) => t in s.threads && s.threads[t].Starting? && s.threads[t].gen == gen && s.lock == Some(t)
    case Closer(t) =>
      t in s.threads && (s.threads[t].Closing? || s.threads[t].AwaitingKeeper?) && s.threads[t].gen == gen
    case Nobody => gen < |s.stops| && s.stops[gen] == 1
  }

  ghost predicate HeldOnce(s: State, gen: nat) {
    && (exists h :: Holds(s, gen, h))
    && (forall h, k :: Holds(s, gen, h) && Holds(s, gen, k) ==> h == k)
  }

  ghost predicate LoopsHeldOnce(s: State) {
    && (forall gen :: 0 <= gen < |s.stops| ==> HeldOnce(s, gen) && s.stops[gen] <= 1)
    && (forall gen: nat, h :: Holds(s, gen, h) ==> gen < |s.stops|)
  }

  ghost predicate LockMarksStarter(s: State) {
    && (forall t :: t in s.threads && s.threads[t].Starting? ==> s.lock == Some(t))
    && (s.lock.Some? ==> s.lock.value in s.threads && s.threads[s.lock.value].Starting? && s.loop.None?)
  }

  ghost predicate SameGeneration(s: State) {
    s.loop == s.thread == s.tools == s.keeper
  }

  // ---- One call ----

  // How many invocations a thread's call may have behind it where it stands.
  ghost predicate WithinBudget(at: Thread) {
    at.purpose.ToCall? ==>
      && 1 <= at.purpose.attempt <= 2
      && (at.WantsStart? || at.Starting? || at.Submitting? ==> at.purpose.invocations < at.purpose.attempt)
      && at.purpose.invocations <= at.purpose.attempt
  }

  // A tool never runs on a loop older than the tool.
  ghost predicate ToolNotNewer(s: State, at: Thread) {
    && (at.Submitting? ==>
          && at.toolGen < |s.stops|
          && (s.loop.Some? ==> at.toolGen <= s.loop.value)
          && (s.lock.Some? && s.lock.value in s.threads && s.threads[s.lock.value].Starting? ==>
                at.toolGen <= s.threads[s.lock.value].gen))
    && (at.Waiting? ==> at.toolGen <= at.loopGen)
  }

  ghost predicate CallsWithinBudget(s: State) {
    forall t :: t in s.threads ==> WithinBudget(s.threads[t])
  }

  ghost predicate ToolsNotNewer(s: State) {
    forall t :: t in s.threads ==> ToolNotNewer(s, s.threads[t])
  }

  // ---- The closing event ----

  // The generation that is starting or published, if its keeper has begun.
  ghost predicate Current(s: State, gen: nat) {
    && gen in s.begun
    && (s.loop == Some(gen) || exists t :: Holds(s, gen, Starter(t)))
  }

  ghost predicate ClosingIsLatest(s: State) {
    && (s.closing.Some? ==> s.begun != [] && s.closing.value == s.begun[|s.begun| - 1])
    && (forall gen: nat :: Current(s, gen) ==> s.closing.Some?)
    && (s.loop.Some? ==> s.loop.value in s.begun)
    && (forall gen :: gen in s.ready ==> gen in s.begun)
    && (forall gen :: gen in s.begun ==> gen < |s.stops|)
  }

  ghost predicate Orderly(s: State) {
    && LockMarksStarter(s)
    && SameGeneration(s)
    && LoopsHeldOnce(s)
    && CallsWithinBudget(s)
    && ToolsNotNewer(s)
    && ClosingIsLatest(s)
  }

  // ---- Every step keeps the order ----

  // The steps that change who holds a loop.
  predicate Transfers(s: State, e: Event) {
    && !e.Begin? && !e.KeeperBegins? && !e.KeeperReady? && e.t in s.threads
    && var at := s.threads[e.t];
       || (e.EnterStart? && at.WantsStart? && s.lock.None? && s.tools.None? && e.clientBuilt)
       || (e.StartSucceeds? && at.Starting? && at.gen in s.ready)
       || (e.StartFails? && at.Starting?)
       || (e.EnterClose? && at.WantsClose? && s.lock.None? && s.loop.Some?)
       || (e.StopLoop? && at.AwaitingKeeper?)
  }

  // Any other step leaves every loop where it was.
  lemma OtherStepsMoveNoLoop(s: State, e: Event, gen: nat, h: Holder)
    requires !Transfers(s, e) && LockMarksStarter(s) && SameGeneration(s)
    ensures Holds(Step(s, e), gen, h) <==> Holds(s, gen, h)
    ensures Step(s, e).stops == s.stops
  {
  }

  lemma StartTakesNewLoop(s: State, e: Event, gen: nat, h: Holder)
    requires Transfers(s, e) && e.EnterStart? && LockMarksStarter(s)
    ensures Holds(Step(s, e), gen, h) <==> Holds(s, gen, h) || (gen == |s.stops| && h == Starter(e.t))
    ensures Step(s, e).stops == s.stops + [0]
  {
  }

  // The generation a transferring step is about, who held it, and who holds it then.
  function Moving(s: State, e: Event): (nat, Holder, Holder)
    requires Transfers(s, e) && !e.EnterStart?
  {
    match e
    case StartSucceeds(t, _) => (s.threads[t].gen, Starter(t), Published)
    case StartFails(t) => (s.threads[t].gen, Starter(t), Nobody)
    case EnterClose(t) => (s.loop.value, Published, Closer(t))
    case StopLoop(t) => (s.threads[t].gen, Closer(t), Nobody)
  }

  lemma TransferMovesOneLoop(s: State, e: Event, gen: nat, h: Holder)
    requires Transfers(s, e) && !e.EnterStart?
    requires LockMarksStarter(s) && SameGeneration(s) && LoopsHeldOnce(s)
    ensures var (moved, from, to) := Moving(s, e);
      && Holds(s, moved, from) && moved < |s.stops| && (to == Nobody ==> s.stops[moved] == 0)
      && (Holds(Step(s, e), gen, h) <==> if gen == moved then h == to else Holds(s, gen, h))
      && Step(s, e).stops == if to == Nobody then s.stops[moved := 1] else s.stops
  {
    var (moved, from, to) := Moving(s, e);
    assert Holds(s, moved, from);
    assert HeldOnce(s, moved);
    assert Holds(s, moved, h) ==> h == from;
    assert !Holds(s, moved, Nobody);
  }

  lemma LoopsStayHeldOnce(s: State, e: Event)
    requires LockMarksStarter(s) && SameGeneration(s) && LoopsHeldOnce(s)
    ensures LoopsHeldOnce(Step(s, e))
  {
    var after := Step(s, e);
    if !Transfers(s, e) {
      forall gen: nat, h ensures Holds(after, gen, h) <==> Holds(s, gen, h) {
        OtherStepsMoveNoLoop(s, e, gen, h);
      }
      OtherStepsMoveNoLoop(s, e, 0, Nobody);
      HoldingKeptEverywhere(s, after);
    } else if e.EnterStart? {
      forall gen: nat, h ensures Holds(after, gen, h) <==> Holds(s, gen, h) || (gen == |s.stops| && h == Starter(e.t)) {
        StartTakesNewLoop(s, e, gen, h);
      }
      StartTakesNewLoop(s, e, 0, Nobody);
      HoldingExtended(s, after, Starter(e.t));
    } else {
      var (moved, from, to) := Moving(s, e);
      forall gen: nat, h ensures Holds(after, gen, h) <==> if gen == moved then h == to else Holds(s, gen, h) {
        TransferMovesOneLoop(s, e, gen, h);
      }
      TransferMovesOneLoop(s, e, 0, Nobody);
      HoldingMoved(s, after, moved, to);
    }
  }

  lemma HoldingKeptEverywhere(s: State, after: State)
    requires LoopsHeldOnce(s) && after.stops == s.stops
    requires forall gen: nat, h :: Holds(after, gen, h) <==> Holds(s, gen, h)
    ensures LoopsHeldOnce(after)
  {
    hide Holds;
    forall gen | 0 <= gen < |after.stops| ensures HeldOnce(after, gen) {
      assert HeldOnce(s, gen);
      var h :| Holds(s, gen, h);
      assert Holds(after, gen, h);
    }
  }

  lemma HoldingExtended(s: State, after: State, starter: Holder)
    requires LoopsHeldOnce(s) && after.stops == s.stops + [0]
    requires forall gen: nat, h :: Holds(after, gen, h) <==> Holds(s, gen, h) || (gen == |s.stops| && h == starter)
    ensures LoopsHeldOnce(after)
  {
    hide Holds;
    forall gen | 0 <= gen < |after.stops| ensures HeldOnce(after, gen) {
      if gen < |s.stops| {
        assert HeldOnce(s, gen);
        var h :| Holds(s, gen, h);
        assert Holds(after, gen, h);
      } else {
        assert Holds(after, gen, starter);
      }
    }
  }

  lemma HoldingMoved(s: State, after: State, moved: nat, to: Holder)
    requires LoopsHeldOnce(s) && moved < |s.stops|
    requires after.stops == s.stops || after.stops == s.stops[moved := 1]
    requires forall gen: nat, h :: Holds(after, gen, h) <==> if gen == moved then h == to else Holds(s, gen, h)
    ensures LoopsHeldOnce(after)
  {
    hide Holds;
    forall gen | 0 <= gen < |after.stops| ensures HeldOnce(after, gen) {
      if gen == moved {
        assert Holds(after, gen, to);
      } else {
        assert HeldOnce(s, gen);
        var h :| Holds(s, gen, h);
        assert Holds(after, gen, h);
      }
    }
  }

  lemma LockStaysWithStarter(s: State, e: Event)
    requires LockMarksStarter(s) && SameGeneration(s)
    ensures LockMarksStarter(Step(s, e)) && SameGeneration(Step(s, e))
  {
  }

  lemma CallsStayWithinBudget(s: State, e: Event)
    requires CallsWithinBudget(s)
    ensures CallsWithinBudget(Step(s, e))
  {
  }

  // What a step does to the loop and to the generations in existence.
  ghost predicate LoopOnlyAdvances(s: State, after: State)
    requires LockMarksStarter(s) && LockMarksStarter(after)
  {
    && |s.stops| <= |after.stops|
    && (after.loop.Some? ==> after.loop == s.loop || (s.lock.Some? && after.loop.value == s.threads[s.lock.value].gen))
    && (after.lock.Some? && after.lock != s.lock ==> after.threads[after.lock.value].gen == |s.stops|)
    && (after.lock.Some? && after.lock == s.lock ==>
          after.threads[after.lock.value].gen == s.threads[s.lock.value].gen)
  }

  lemma StepsAdvanceLoop(s: State, e: Event)
    requires LockMarksStarter(s) && SameGeneration(s)
    ensures LockMarksStarter(Step(s, e)) && LoopOnlyAdvances(s, Step(s, e))
  {
  }

  lemma ToolStaysNotNewer(s: State, after: State, at: Thread)
    requires LockMarksStarter(s) && LockMarksStarter(after) && LoopOnlyAdvances(s, after) && ToolNotNewer(s, at)
    requires s.lock.Some? ==> s.threads[s.lock.value].gen < |s.stops|
    ensures ToolNotNewer(after, at)
  {
  }

  // The tool a thread has just resolved, or the loop it has just read.
  lemma MovedToolIsNotNewer(s: State, e: Event)
    requires LockMarksStarter(s) && SameGeneration(s) && ToolsNotNewer(s)
    requires forall gen: nat, h :: Holds(s, gen, h) ==> gen < |s.stops|
    requires !e.Begin? && !e.KeeperBegins? && !e.KeeperReady? && e.t in s.threads
    requires Step(s, e).threads[e.t] != s.threads[e.t]
    ensures ToolNotNewer(Step(s, e), Step(s, e).threads[e.t])
  {
    assert ToolNotNewer(s, s.threads[e.t]);
    assert s.loop.Some? ==> Holds(s, s.loop.value, Published);
    if s.lock.Some? {
      assert Holds(s, s.threads[s.lock.value].gen, Starter(s.lock.value));
    }
  }

  lemma StepTouchesOneThread(s: State, e: Event, t: nat)
    requires t in Step(s, e).threads
    ensures (t in s.threads && Step(s, e).threads[t] == s.threads[t])
      || (e.Begin? && e.t == t && (Step(s, e).threads[t].WantsStart? || Step(s, e).threads[t].WantsClose?))
      || (!e.Begin? && !e.KeeperBegins? && !e.KeeperReady? && e.t == t && t in s.threads)
  {
  }

  lemma ToolsStayNotNewer(s: State, e: Event)
    requires LockMarksStarter(s) && SameGeneration(s) && LoopsHeldOnce(s) && ToolsNotNewer(s)
    ensures ToolsNotNewer(Step(s, e))
  {
    hide Step, ToolNotNewer, LoopOnlyAdvances;
    var after := Step(s, e);
    StepsAdvanceLoop(s, e);
    if s.lock.Some? {
      assert Holds(s, s.threads[s.lock.value].gen, Starter(s.lock.value));
    }
    forall t | t in after.threads ensures ToolNotNewer(after, after.threads[t]) {
      StepTouchesOneThread(s, e, t);
      if t in s.threads && after.threads[t] == s.threads[t] {
        ToolStaysNotNewer(s, after, s.threads[t]);
      } else if e.Begin? {
        FreshThreadHasNoTool(after, after.threads[t]);
      } else {
        MovedToolIsNotNewer(s, e);
      }
    }
  }

  lemma FreshThreadHasNoTool(s: State, at: Thread)
    requires at.WantsStart? || at.WantsClose?
    ensures ToolNotNewer(s, at)
  {
  }

  lemma CurrentWasCurrent(s: State, e: Event, gen: nat)
    requires LockMarksStarter(s) && SameGeneration(s) && ClosingIsLatest(s)
    requires Current(Step(s, e), gen) && !e.KeeperBegins?
    ensures Current(s, gen)
  {
    var after := Step(s, e);
    if after.loop != Some(gen) {
      var t :| Holds(after, gen, Starter(t));
      assert gen < |s.stops|;
      assert Holds(s, gen, Starter(t));
    } else if s.loop != Some(gen) {
      assert Holds(s, gen, Starter(e.t));
    }
  }

  lemma CurrentKeepsClosing(s: State, e: Event, gen: nat)
    requires LockMarksStarter(s) && Current(Step(s, e), gen) && !e.KeeperBegins?
    ensures Step(s, e).begun == s.begun && Step(s, e).closing == s.closing
  {
  }

  lemma CurrentStaysSignalled(s: State, e: Event, gen: nat)
    requires LockMarksStarter(s) && SameGeneration(s) && ClosingIsLatest(s) && Current(Step(s, e), gen)
    ensures Step(s, e).closing.Some?
  {
    if e.KeeperBegins? {
      assert Step(s, e) == s || Step(s, e).closing == Some(e.gen);
    } else {
      CurrentWasCurrent(s, e, gen);
      CurrentKeepsClosing(s, e, gen);
    }
  }

  lemma ClosingStaysLatest(s: State, e: Event)
    requires LockMarksStarter(s) && SameGeneration(s) && ClosingIsLatest(s)
    ensures ClosingIsLatest(Step(s, e))
  {
    hide Current, Holds, LockMarksStarter, SameGeneration, AfterStart, AfterClose, AfterOutcome;
    forall gen: nat | Current(Step(s, e), gen) ensures Step(s, e).closing.Some? {
      CurrentStaysSignalled(s, e, gen);
    }
  }

  lemma {:induction false} EveryRunIsOrderly(es: seq<Event>)
    ensures Orderly(Run(es))
  {
    hide Step;
    if es == [] {
    } else {
      var s, e := Run(es[..|es| - 1]), es[|es| - 1];
      EveryRunIsOrderly(es[..|es| - 1]);
      LockStaysWithStarter(s, e);
      LoopsStayHeldOnce(s, e);
      CallsStayWithinBudget(s, e);
      ToolsStayNotNewer(s, e);
      ClosingStaysLatest(s, e);
    }
  }

  // ---- What the order means for callers ----

  /**
   * At any moment of any run, every loop ever created is published, or held by the one starter
   * under the lock, or held by one closer between taking it and stopping it, or was told to stop
   * exactly once; so no loop is stopped while published, and none is stopped twice.
   */
  lemma EveryLoopHasOneHolder(es: seq<Event>, gen: nat)
    requires gen < |Run(es).stops|
    ensures exists h :: Holds(Run(es), gen, h)
    ensures forall h, k :: Holds(Run(es), gen, h) && Holds(Run(es), gen, k) ==> h == k
    ensures Run(es).stops[gen] <= 1
    ensures Run(es).stops[gen] == 0 <==> !Holds(Run(es), gen, Nobody)
    ensures SameGeneration(Run(es))
  {
    EveryRunIsOrderly(es);
    assert HeldOnce(Run(es), gen);
  }

  /** Whenever no thread is inside the session, every loop but the published one was stopped exactly once. */
  lemma QuietSessionLeaksNoLoop(es: seq<Event>, gen: nat)
    requires gen < |Run(es).stops| && forall t :: t in Run(es).threads ==> Run(es).threads[t].Finished?
    ensures Run(es).stops[gen] == if Run(es).loop == Some(gen) then 0 else 1
  {
    hide Run;
    EveryLoopHasOneHolder(es, gen);
    var h :| Holds(Run(es), gen, h);
    assert h == Published || h == Nobody;
    assert Holds(Run(es), gen, Published) <==> Run(es).loop == Some(gen);
    assert Holds(Run(es), gen, Nobody) <==> h == Nobody;
  }

  // Event `e` hands a tool of thread `t` to a loop.
  predicate Invokes(s: State, e: Event, t: nat) {
    e == Submit(t) && t in s.threads && s.threads[t].Submitting? && s.threads[t].purpose.ToCall? && s.loop.Some?
  }

  predicate BeginsAnew(s: State, e: Event, t: nat) {
    e.Begin? && e.t == t && (t !in s.threads || s.threads[t].Finished?)
  }

  // The invocations of a thread in the run since it last began something.
  function Invocations(es: seq<Event>, t: nat): nat {
    if es == [] then 0
    else
      var s, e := Run(es[..|es| - 1]), es[|es| - 1];
      if BeginsAnew(s, e, t) then 0
      else Invocations(es[..|es| - 1], t) + if Invokes(s, e, t) then 1 else 0
  }

  ghost predicate Counts(s: State, t: nat, n: nat) {
    t in s.threads && s.threads[t].purpose.ToCall? ==> s.threads[t].purpose.invocations == n
  }

  lemma StepKeepsCount(s: State, e: Event, t: nat, n: nat)
    requires Counts(s, t, n)
    ensures Counts(Step(s, e), t, if BeginsAnew(s, e, t) then 0 else n + if Invokes(s, e, t) then 1 else 0)
  {
  }

  lemma {:induction false} InvocationsAreCounted(es: seq<Event>, t: nat)
    ensures Counts(Run(es), t, Invocations(es, t))
  {
    if es != [] {
      hide Step, Counts, Invokes, BeginsAnew;
      InvocationsAreCounted(es[..|es| - 1], t);
      StepKeepsCount(Run(es[..|es| - 1]), es[|es| - 1], t, Invocations(es[..|es| - 1], t));
    } else {
      hide Invocations;
    }
  }

  /**
   * One call hands a tool to a loop at most twice in the run, at most once per attempt, and never to
   * a loop older than the tool.
   */
  lemma CallsAreBounded(es: seq<Event>, t: nat)
    requires t in Run(es).threads
    ensures var at := Run(es).threads[t];
      && (at.purpose.ToCall? ==> Invocations(es, t) == at.purpose.invocations <= at.purpose.attempt <= 2)
      && (at.Waiting? ==> at.toolGen <= at.loopGen)
  {
    hide Run, Invocations;
    EveryRunIsOrderly(es);
    InvocationsAreCounted(es, t);
    assert WithinBudget(Run(es).threads[t]) && ToolNotNewer(Run(es), Run(es).threads[t]);
  }

  // The call that timed out with this much behind it has at most its close left to do.
  predicate GivesUp(at: Thread, purpose: Purpose) {
    && at.purpose == purpose
    && (at.WantsClose? || at.Closing? || at.AwaitingKeeper? ==> at.reason == CallTimedOut)
    && (at.WantsClose? || at.Closing? || at.AwaitingKeeper? || (at.Finished? && at.result == Raised))
  }

  /** A timeout is never retried: until the thread makes another call, nothing more is invoked. */
  lemma {:induction false} TimeoutIsFinal(es: seq<Event>, i: nat, t: nat)
    requires i < |es| && es[i] == Settle(t, Timeout)
    requires t in Run(es[..i]).threads && Run(es[..i]).threads[t].Waiting?
    requires forall j :: i < j < |es| ==> !(es[j].Begin? && es[j].t == t)
    ensures t in Run(es).threads && GivesUp(Run(es).threads[t], Run(es[..i]).threads[t].purpose)
  {
    var n := |es| - 1;
    if i < n {
      assert es[..n][..i] == es[..i];
      TimeoutIsFinal(es[..n], i, t);
      GivingUpContinues(Run(es[..n]), es[n], t, Run(es[..i]).threads[t].purpose);
    }
  }

  lemma GivingUpContinues(s: State, e: Event, t: nat, purpose: Purpose)
    requires t in s.threads && GivesUp(s.threads[t], purpose) && !(e.Begin? && e.t == t)
    ensures t in Step(s, e).threads && GivesUp(Step(s, e).threads[t], purpose)
  {
  }

  // Event `i` finds the loop it is for.
  ghost predicate KeeperRuns(es: seq<Event>, i: nat, gen: nat) {
    i < |es| && es[i] == KeeperBegins(gen) && gen < |Run(es[..i]).stops|
  }

  // Event `i` is the first by which some keeper begins.
  ghost predicate TakesEffect(es: seq<Event>, i: nat) {
    i < |es| && es[i].KeeperBegins? && KeeperRuns(es, i, es[i].gen)
    && forall j: nat :: j < i ==> !KeeperRuns(es, j, es[i].gen)
  }

  ghost predicate KeeperRan(es: seq<Event>, gen: nat) {
    exists i: nat :: KeeperRuns(es, i, gen)
  }

  lemma KeeperRanInPrefix(es: seq<Event>, gen: nat)
    requires es != []
    ensures KeeperRan(es, gen) <==> KeeperRan(es[..|es| - 1], gen) || KeeperRuns(es, |es| - 1, gen)
  {
    hide Run;
    var n := |es| - 1;
    forall i: nat | i < n ensures KeeperRuns(es[..n], i, gen) <==> KeeperRuns(es, i, gen) {
      assert es[..n][..i] == es[..i];
    }
    if i: nat :| KeeperRuns(es[..n], i, gen) {
      assert KeeperRuns(es, i, gen);
    }
    if i: nat :| KeeperRuns(es, i, gen) && i != n {
      assert KeeperRuns(es[..n], i, gen);
    }
  }

  lemma {:induction false} BegunHaveRun(es: seq<Event>, gen: nat)
    ensures gen in Run(es).begun <==> KeeperRan(es, gen)
  {
    if es != [] {
      hide KeeperRan;
      BegunHaveRun(es[..|es| - 1], gen);
      KeeperRanInPrefix(es, gen);
      StepBegins(Run(es[..|es| - 1]), es[|es| - 1]);
    }
  }

  lemma StepBegins(s: State, e: Event)
    ensures Step(s, e).begun
      == if e.KeeperBegins? && e.gen < |s.stops| && e.gen !in s.begun then s.begun + [e.gen] else s.begun
    ensures |Step(s, e).stops| >= |s.stops|
  {
  }

  lemma TakesEffectIffNew(es: seq<Event>, i: nat)
    requires i < |es| && es[i].KeeperBegins?
    ensures TakesEffect(es, i) <==> es[i].gen < |Run(es[..i]).stops| && es[i].gen !in Run(es[..i]).begun
  {
    hide Run;
    BegunHaveRun(es[..i], es[i].gen);
    forall j: nat | j < i ensures KeeperRuns(es[..i], j, es[i].gen) <==> KeeperRuns(es, j, es[i].gen) {
      assert es[..i][..j] == es[..j];
    }
  }

  // The last keeper that began, and the event by which it did.
  lemma {:induction false} LastEffect(es: seq<Event>) returns (i: nat)
    requires Run(es).begun != []
    ensures TakesEffect(es, i) && es[i].gen == Run(es).begun[|Run(es).begun| - 1]
    ensures forall j: nat :: i < j ==> !TakesEffect(es, j)
  {
    hide TakesEffect;
    var n := |es| - 1;
    StepBegins(Run(es[..n]), es[n]);
    if es[n].KeeperBegins? {
      TakesEffectIffNew(es, n);
    }
    hide Step, Run;
    NoEffectOutside(es, n);
    if TakesEffect(es, n) {
      i := n;
    } else {
      i := LastEffect(es[..n]);
      EffectsInPrefix(es, n);
    }
  }

  lemma NoEffectOutside(es: seq<Event>, n: nat)
    requires |es| == n + 1
    ensures forall j: nat :: n < j ==> !TakesEffect(es, j)
    ensures TakesEffect(es, n) ==> es[n].KeeperBegins?
  {
  }

  lemma EffectsInPrefix(es: seq<Event>, n: nat)
    requires n <= |es|
    ensures forall i: nat :: i < n ==> (TakesEffect(es[..n], i) <==> TakesEffect(es, i))
    ensures forall i: nat :: n <= i ==> !TakesEffect(es[..n], i)
  {
    hide Run;
    forall i: nat | i < n ensures TakesEffect(es[..n], i) <==> TakesEffect(es, i) {
      forall j: nat, gen | j <= i ensures KeeperRuns(es[..n], j, gen) <==> KeeperRuns(es, j, gen) {
        assert es[..n][..j] == es[..j];
      }
    }
  }

  lemma {:induction false} FirstRun(es: seq<Event>, gen: nat, k: nat) returns (i: nat)
    requires KeeperRuns(es, k, gen)
    ensures TakesEffect(es, i) && es[i].gen == gen
    decreases k
  {
    hide KeeperRuns;
    if j: nat :| j < k && KeeperRuns(es, j, gen) {
      i := FirstRun(es, gen, j);
    } else {
      i := k;
      assert es[k] == KeeperBegins(gen) by { KeeperRunsAt(es, k, gen); }
    }
  }

  lemma KeeperRunsAt(es: seq<Event>, k: nat, gen: nat)
    requires KeeperRuns(es, k, gen)
    ensures k < |es| && es[k] == KeeperBegins(gen)
  {
  }

  /**
   * The published closing event is the published session's own exactly when no other keeper began
   * after its keeper did.
   */
  lemma ClosingMatchesIfKeeperWasLast(es: seq<Event>, gen: nat) returns (i: nat)
    requires Run(es).loop == Some(gen)
    ensures TakesEffect(es, i) && es[i].gen == gen
    ensures Run(es).closing == Some(gen) <==> forall j: nat :: i < j ==> !TakesEffect(es, j)
  {
    ClosingIsLastBegun(es, gen);
    hide Run, TakesEffect, Step;
    BegunHaveRun(es, gen);
    var k: nat :| KeeperRuns(es, k, gen);
    i := FirstRun(es, gen, k);
    var last := LastEffect(es);
    OneEffectEach(es, i, last);
  }

  lemma ClosingIsLastBegun(es: seq<Event>, gen: nat)
    requires Run(es).loop == Some(gen)
    ensures var s := Run(es);
      && gen in s.begun && (s.closing == Some(gen) <==> s.begun[|s.begun| - 1] == gen)
  {
    EveryRunIsOrderly(es);
    assert Current(Run(es), gen);
  }

  lemma OneEffectEach(es: seq<Event>, i: nat, j: nat)
    requires TakesEffect(es, i) && TakesEffect(es, j)
    ensures es[i].gen == es[j].gen ==> i == j
  {
    hide KeeperRuns;
  }

  // Every keeper begins while its own start is still waiting for it.
  ghost predicate KeepersBeginInTime(es: seq<Event>) {
    forall i :: 0 <= i < |es| && es[i].KeeperBegins? ==>
      exists t :: Holds(Run(es[..i]), es[i].gen, Starter(t))
  }

  ghost predicate CurrentBeganLast(s: State) {
    forall gen: nat :: Current(s, gen) ==> s.begun[|s.begun| - 1] == gen
  }

  lemma StarterIsCurrent(s: State, starting: nat, t: nat, gen: nat)
    requires LockMarksStarter(s) && Holds(s, starting, Starter(t)) && Current(s, gen)
    ensures gen == starting
  {
    var u :| Holds(s, gen, Starter(u));
  }

  lemma CurrentStaysLast(s: State, e: Event, gen: nat)
    requires Orderly(s) && CurrentBeganLast(s) && Current(Step(s, e), gen)
    requires e.KeeperBegins? ==> exists t :: Holds(s, e.gen, Starter(t))
    ensures Step(s, e).begun[|Step(s, e).begun| - 1] == gen
  {
    hide ThreadStep, LoopsHeldOnce, CallsWithinBudget, ToolsNotNewer;
    if e.KeeperBegins? {
      var t :| Holds(s, e.gen, Starter(t));
      StarterIsCurrent(Step(s, e), e.gen, t, gen);
      if e.gen in s.begun {
        assert Current(s, gen);
      }
    } else {
      CurrentWasCurrent(s, e, gen);
      CurrentKeepsClosing(s, e, gen);
    }
  }

  /** If no start is abandoned before its keeper begins, the closing event always matches the loop. */
  lemma {:induction false} TimelyKeepersMatch(es: seq<Event>)
    requires KeepersBeginInTime(es)
    ensures CurrentBeganLast(Run(es))
    ensures Run(es).loop.Some? ==> Run(es).closing == Run(es).loop
  {
    hide Step;
    if es != [] {
      var n := |es| - 1;
      forall i | 0 <= i < n ensures es[..n][..i] == es[..i] {
      }
      TimelyKeepersMatch(es[..n]);
      EveryRunIsOrderly(es[..n]);
      forall gen: nat | Current(Run(es), gen) ensures Run(es).begun[|Run(es).begun| - 1] == gen {
        CurrentStaysLast(Run(es[..n]), es[n], gen);
      }
    }
    EveryRunIsOrderly(es);
    if Run(es).loop.Some? {
      assert Current(Run(es), Run(es).loop.value);
      ClosingIsLastBegun(es, Run(es).loop.value);
    }
  }

  lemma RunExtends(es: seq<Event>, e: Event)
    ensures Run(es + [e]) == Step(Run(es), e)
  {
    assert (es + [e])[..|es|] == es;
  }

  lemma RunExtendsByThree(es: seq<Event>, a: Event, b: Event, c: Event)
    ensures Run(es + [a, b, c]) == Step(Step(Step(Run(es), a), b), c)
  {
    hide Step;
    RunExtends(es, a);
    RunExtends(es + [a], b);
    RunExtends(es + [a] + [b], c);
    assert es + [a, b, c] == es + [a] + [b] + [c];
  }

  // One thread starts the session, and gives up before the keeper has begun.
  lemma AbandonedStart()
    ensures Step(Step(Step(INITIAL, Begin(0, ToStart)), EnterStart(0, true, true)), StartFails(0))
      == INITIAL.(stops := [1], threads := map[0 := Finished(ToStart, Raised)])
  {
    var s := Step(Step(Step(INITIAL, Begin(0, ToStart)), EnterStart(0, true, true)), StartFails(0));
    assert s.stops == [1] && s.threads == map[0 := Finished(ToStart, Raised)];
  }

  // It starts again, and the new keeper begins ...
  lemma SecondStart(s: State)
    requires s == INITIAL.(stops := [1], threads := map[0 := Finished(ToStart, Raised)])
    ensures Step(Step(Step(s, Begin(0, ToStart)), EnterStart(0, true, true)), KeeperBegins(1))
      == State(Some(0), None, None, None, None, Some(1), [1, 0], [], [1], {}, map[0 := Starting(ToStart, 1)])
  {
    var after := Step(Step(Step(s, Begin(0, ToStart)), EnterStart(0, true, true)), KeeperBegins(1));
    assert after.stops == [1, 0] && after.begun == [1] && after.threads == map[0 := Starting(ToStart, 1)];
  }

  // ... and gets ready; then the abandoned keeper begins after all.
  lemma LateKeeper(s: State)
    requires s == State(Some(0), None, None, None, None, Some(1), [1, 0], [], [1], {}, map[0 := Starting(ToStart, 1)])
    ensures var after := Step(Step(Step(s, KeeperReady(1)), StartSucceeds(0, true)), KeeperBegins(0));
      && after.loop == Some(1) && after.closing == Some(0) && after.lock.None?
      && after.signalled == [] && after.stops == [1, 0] && after.threads == map[0 := Finished(ToStart, Done)]
  {
    var ready := Step(s, KeeperReady(1));
    assert ready.threads[0 := Finished(ToStart, Done)] == map[0 := Finished(ToStart, Done)];
  }

  /**
   * A start that times out before its keeper began leaves a keeper that can still begin later,
   * and then the next session is published with the abandoned session's closing event.
   */
  lemma LateKeeperTakesOverClosing() returns (es: seq<Event>)
    ensures Run(es).loop == Some(1) && Run(es).closing == Some(0)
    ensures var s := Run(es);
      s.lock.None? && s.signalled == [] && s.stops == [1, 0] && 0 in s.threads && s.threads[0].Finished?
  {
    hide Step;
    RunExtendsByThree([], Begin(0, ToStart), EnterStart(0, true, true), StartFails(0));
    AbandonedStart();
    es := [] + [Begin(0, ToStart), EnterStart(0, true, true), StartFails(0)];
    RunExtendsByThree(es, Begin(0, ToStart), EnterStart(0, true, true), KeeperBegins(1));
    SecondStart(Run(es));
    es := es + [Begin(0, ToStart), EnterStart(0, true, true), KeeperBegins(1)];
    RunExtendsByThree(es, KeeperReady(1), StartSucceeds(0, true), KeeperBegins(0));
    LateKeeper(Run(es));
    es := es + [KeeperReady(1), StartSucceeds(0, true), KeeperBegins(0)];
  }
}
