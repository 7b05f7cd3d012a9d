/**
 * The MCP session as an object: its fields, and the methods of one caller that nothing interrupts.
 * `history` is the run of the shared session that its calls amount to, so what holds of every run
 * holds of the object.
 */
module McpClient {
  import opened McpSession
  import opened SessionKeys

  // How opening the child session goes.
  datatype Opening = ClientFails | KeeperFails | Opens

  // One attempt of a call: how the session opens if it must, whether it has the tool, what the tool answers.
  datatype Attempt = Attempt(opening: Opening, toolKnown: bool, outcome: Outcome)

  // ---- The steps of one caller ----

  lemma EnterStartStep(s: State, t: nat, clientBuilt: bool, toolKnown: bool)
    requires s.lock.None? && t in s.threads && s.threads[t].WantsStart?
    ensures var purpose := s.threads[t].purpose;
      Step(s, EnterStart(t, clientBuilt, toolKnown))
      == if s.tools.Some? then Moved(s, t, AfterStart(purpose, s.tools.value, toolKnown))
         else if !clientBuilt then Moved(s, t, Finished(purpose, Raised))
         else State(Some(t), s.loop, s.thread, s.tools, s.keeper, s.closing, s.stops + [0], s.signalled, s.begun,
                s.ready, s.threads[t := Starting(purpose, |s.stops|)])
  {
  }

  lemma KeeperSteps(s: State, gen: nat)
    requires gen < |s.stops| && gen !in s.begun
    ensures var begun := State(s.lock, s.loop, s.thread, s.tools, s.keeper, Some(gen),
                               s.stops, s.signalled, s.begun + [gen], s.ready, s.threads);
      Step(s, KeeperBegins(gen)) == begun
      && Step(begun, KeeperReady(gen)) == begun.(ready := s.ready + {gen})
  {
  }

  lemma StartEndSteps(s: State, t: nat, purpose: Purpose, gen: nat, toolKnown: bool)
    requires t in s.threads && s.threads[t] == Starting(purpose, gen) && gen < |s.stops|
    ensures gen in s.ready ==>
      Step(s, StartSucceeds(t, toolKnown))
      == State(None, Some(gen), Some(gen), Some(gen), Some(gen), s.closing, s.stops, s.signalled, s.begun, s.ready,
           s.threads[t := AfterStart(purpose, gen, toolKnown)])
    ensures Step(s, StartFails(t))
      == State(None, s.loop, s.thread, s.tools, s.keeper, s.closing, s.stops[gen := s.stops[gen] + 1], s.signalled,
           s.begun, s.ready, s.threads[t := Finished(purpose, Raised)])
  {
  }

  lemma CloseSteps(s: State, t: nat)
    requires s.lock.None? && t in s.threads && s.threads[t].WantsClose?
    ensures var closed := s.threads[t := AfterClose(s.threads[t].purpose, s.threads[t].reason)];
      var taken := Step(s, EnterClose(t));
      var told := Step(taken, SignalKeeper(t));
      var signals := s.signalled + if s.closing.Some? then [s.closing.value] else [];
      if s.loop.None? then
        taken == State(None, None, None, None, None, None, s.stops, s.signalled, s.begun, s.ready, closed)
      else
        && taken.loop.None? && taken.thread.None? && taken.tools.None? && taken.keeper.None? && taken.closing.None?
        && taken.signalled == s.signalled && told.signalled == signals
        && told.loop.None? && told.thread.None? && told.tools.None? && told.keeper.None? && told.closing.None?
        && Step(told, StopLoop(t))
           == State(None, None, None, None, None, None, StopsOf(s.stops, s.loop.value), signals,
                s.begun, s.ready, closed)
  {
  }

  function StopsOf(stops: seq<nat>, gen: nat): seq<nat> {
    if gen < |stops| then stops[gen := stops[gen] + 1] else stops
  }

  lemma RunSteps(s: State, t: nat, outcome: Outcome)
    requires t in s.threads && s.threads[t].Submitting? && s.threads[t].purpose.ToCall?
    ensures var at := s.threads[t];
      var submitted := Step(s, Submit(t));
      if s.loop.None? then submitted == Moved(s, t, WantsClose(at.purpose, CallFailed))
      else
        var purpose := at.purpose.(invocations := at.purpose.invocations + 1);
        && submitted == Moved(s, t, Waiting(purpose, at.toolGen, s.loop.value))
        && Step(submitted, Settle(t, outcome)) == Moved(s, t, AfterOutcome(purpose, outcome))
  {
    var at := s.threads[t];
    if s.loop.Some? {
      var purpose := at.purpose.(invocations := at.purpose.invocations + 1);
      var waiting := Waiting(purpose, at.toolGen, s.loop.value);
      var next := AfterOutcome(purpose, outcome);
      assert s.threads[t := waiting][t := next] == s.threads[t := next];
    }
  }

  function Invoked(purpose: Purpose): Purpose
    requires purpose.ToCall?
  {
    purpose.(invocations := purpose.invocations + 1)
  }

  lemma BeginStep(s: State, t: nat)
    requires t in s.threads ==> s.threads[t].Finished?
    ensures Step(s, Begin(t, ToCall(1, 0))) == Moved(s, t, WantsStart(ToCall(1, 0)))
  {
  }

  datatype Answered = NotRun | Ran(result: Result) | ConnectionFailed

  // How one attempt ends.
  function TryAnswer(open: bool, a: Attempt): Answered {
    if (!open && !a.opening.Opens?) || !a.toolKnown then NotRun
    else if a.outcome.Failure? then ConnectionFailed
    else Ran(if a.outcome.Answer? then Returned else Raised)
  }

  // What the caller sees of a whole call, and how many invocations are behind it.
  function CallAnswer(open: bool, first: Attempt, second: Attempt): (Result, nat) {
    match TryAnswer(open, first)
    case NotRun => (Raised, 0)
    case Ran(result) => (result, 1)
    case ConnectionFailed =>
      match TryAnswer(false, second)
      case NotRun => (Raised, 1)
      case Ran(result) => (result, 2)
      case ConnectionFailed => (Raised, 2)
  }

  // No keeper has begun for a loop that is not created yet.
  ghost predicate NotAhead(begun: seq<nat>, created: nat) {
    forall gen :: gen in begun ==> gen < created
  }

  class PersistentSession {
    var loop: Option<nat>
    var thread: Option<nat>
    var tools: Option<nat>
    var keeper: Option<nat>
    var closing: Option<nat>
    // The number of loops created, and the closing events that were set.
    var created: nat
    var signalled: seq<nat>

    ghost var lock: Option<nat>
    ghost var stops: seq<nat>
    ghost var begun: seq<nat>
    ghost var ready: set<nat>
    ghost var threads: map<nat, Thread>
    ghost var history: seq<Event>

    ghost function Contents(): State
      reads this
    {
      State(lock, loop, thread, tools, keeper, closing, stops, signalled, begun, ready, threads)
    }

    // The object is what its history leads to, and nobody is inside the lock.
    ghost predicate Valid()
      reads this
    {
      && Contents() == Run(history) && lock.None? && SameGeneration(Contents())
      && created == |stops| && NotAhead(begun, created)
      && (loop.Some? ==> closing == loop)
    }

    constructor ()
      ensures Valid() && history == [] && Contents() == INITIAL
    {
      loop, thread, tools, keeper, closing, created, signalled := None, None, None, None, None, 0, [];
      lock, stops, begun, ready, threads, history := None, [], [], {}, map[], [];
    }

    // Adds one event to the history, once the fields are what it leads to.
    ghost method Record(s: State, e: Event)
      requires s == Run(history)
      requires var after := Step(s, e);
        loop == after.loop && thread == after.thread && tools == after.tools
        && keeper == after.keeper && closing == after.closing && signalled == after.signalled
      modifies `lock, `stops, `begun, `ready, `threads, `history
      ensures Contents() == Step(s, e) && history == old(history) + [e] && Contents() == Run(history)
    {
      hide Step;
      var after := Step(s, e);
      RunExtends(history, e);
      lock, stops, begun, ready, threads := after.lock, after.stops, after.begun, after.ready, after.threads;
      history := history + [e];
    }

    /** Takes all fields, then sets the closing event it took and stops the loop it took. */
    method Close(t: nat)
      requires Valid() && t in threads && threads[t].WantsClose?
      modifies this
      ensures Valid() && old(history) <= history && created == old(created)
      ensures loop.None? && closing.None?
      ensures threads == old(threads[t := AfterClose(threads[t].purpose, threads[t].reason)])
      ensures stops == if old(loop).None? then old(stops) else old(StopsOf(stops, loop.value))
      // The loop that is stopped has its own keeper told to end.
      ensures signalled == old(signalled) + if old(loop).Some? then [old(loop).value] else []
    {
      hide Step, Run, AfterClose;
      ghost var s := Contents();
      CloseSteps(s, t);
      var taken, signal := loop, closing;
      loop, thread, tools, closing, keeper := None, None, None, None, None;
      Record(s, EnterClose(t));
      if taken.None? {
        return;
      }
      ghost var silent := Contents();
      if signal.Some? {
        signalled := signalled + [signal.value];
      }
      Record(silent, SignalKeeper(t));
      Record(Contents(), StopLoop(t));
    }

    /** Keeps the session if there is one; otherwise publishes a new loop, or creates none that is not stopped. */
    method EnsureStarted(t: nat, opening: Opening, toolKnown: bool) returns (ok: bool)
      requires Valid() && t in threads && threads[t].WantsStart?
      modifies this
      ensures Valid() && old(history) <= history
      ensures ok <==> old(tools).Some? || opening.Opens?
      ensures ok ==> (tools.Some?
        && threads == old(threads)[t := AfterStart(old(threads[t].purpose), tools.value, toolKnown)])
      ensures !ok ==> threads == old(threads)[t := Finished(old(threads[t].purpose), Raised)] && loop.None?
      ensures old(tools).Some? ==> loop == old(loop) && closing == old(closing) && stops == old(stops)
      ensures signalled == old(signalled)
      ensures old(tools).None? && opening.Opens? ==> loop == Some(old(created)) == closing && stops == old(stops) + [0]
      ensures old(tools).None? && opening.KeeperFails? ==> stops == old(stops) + [1]
      ensures old(tools).None? && opening.ClientFails? ==> stops == old(stops)
    {
      hide Step, Run, AfterStart;
      EnterStartStep(Contents(), t, !opening.ClientFails?, toolKnown);
      ghost var purpose := threads[t].purpose;
      Record(Contents(), EnterStart(t, !opening.ClientFails?, toolKnown));
      if tools.Some? {
        return true;
      }
      if opening.ClientFails? {
        return false;
      }
      ok := OpenSession(t, purpose, opening.Opens?, toolKnown);
    }

    // Inside the lock: the new loop's keeper begins, and gets ready or not.
    method OpenSession(t: nat, ghost purpose: Purpose, opens: bool, toolKnown: bool) returns (ok: bool)
      requires Contents() == Run(history) && |stops| == created + 1 && stops[created] == 0 && NotAhead(begun, created)
      requires loop.None? && thread.None? && tools.None? && keeper.None?
      requires t in threads && threads[t] == Starting(purpose, created)
      modifies this
      ensures Valid() && old(history) <= history
      ensures ok <==> opens
      ensures loop == if ok then Some(old(created)) else None
      ensures stops == if ok then old(stops) else old(stops[created := 1])
      ensures signalled == old(signalled)
      ensures threads
        == old(threads)[t := if ok then AfterStart(purpose, old(created), toolKnown) else Finished(purpose, Raised)]
    {
      hide Step, Run, AfterStart;
      var gen := created;
      OpenLoop(gen);
      StartEndSteps(Contents(), t, purpose, gen, toolKnown);
      if !opens {
        Record(Contents(), StartFails(t));
        return false;
      }
      ReadyStep(Contents(), gen);
      Record(Contents(), KeeperReady(gen));
      StartEndSteps(Contents(), t, purpose, gen, toolKnown);
      ghost var s := Contents();
      loop, thread, tools, keeper := Some(gen), Some(gen), Some(gen), Some(gen);
      Record(s, StartSucceeds(t, toolKnown));
      return true;
    }

    /** Runs a resolved tool on the loop it finds; a timeout closes the session. */
    method RunTool(t: nat, outcome: Outcome) returns (seen: Outcome)
      requires Valid() && t in threads && threads[t].Submitting? && threads[t].purpose.ToCall?
      modifies this
      ensures Valid() && old(history) <= history
      ensures seen == if old(loop).None? then Failure else outcome
      ensures old(loop).None? ==> threads == old(threads[t := WantsClose(threads[t].purpose, CallFailed)])
      ensures old(loop).Some? ==>
        threads == old(threads)[t := if outcome.Timeout? then Finished(old(Invoked(threads[t].purpose)), Raised)
                                     else AfterOutcome(old(Invoked(threads[t].purpose)), outcome)]
      ensures if seen.Timeout? then loop.None? else loop == old(loop)
    {
      hide Step, Run;
      RunSteps(Contents(), t, outcome);
      Record(Contents(), Submit(t));
      if loop.None? {
        return Failure;
      }
      Record(Contents(), Settle(t, outcome));
      if outcome.Timeout? {
        Close(t);
      }
      return outcome;
    }

    // One attempt, up to the close after a failed connection.
    method TryOnce(t: nat, attempt: nat, next: Attempt) returns (answer: Answered)
      requires Valid() && 1 <= attempt <= 2 && t in threads && threads[t] == WantsStart(ToCall(attempt, attempt - 1))
      modifies this
      ensures Valid() && old(history) <= history && t in threads
      ensures answer == TryAnswer(old(tools).Some?, next)
      ensures match answer
              case NotRun => threads[t] == Finished(ToCall(attempt, attempt - 1), Raised)
              case Ran(result) =>
                threads[t] == Finished(ToCall(attempt, attempt), result) && (result.Returned? ==> loop.Some?)
              case ConnectionFailed =>
                && tools.None?
                && threads[t] == if attempt == 1 then WantsStart(ToCall(2, 1)) else Finished(ToCall(2, 2), Raised)
    {
      hide Step, Run;
      var ok := EnsureStarted(t, next.opening, next.toolKnown);
      if !ok || !next.toolKnown {
        return NotRun;
      }
      var seen := RunTool(t, next.outcome);
      match seen {
        case Answer => return Ran(Returned);
        case SessionError => return Ran(Raised);
        case Timeout => return Ran(Raised);
        case Failure => Close(t);
      }
      return ConnectionFailed;
    }

    /**
     * One call of a tool: at most two attempts, the second only after the first failed with its
     * connection, never after a timeout; each on a session that is open at the time.
     */
    method CallTool(t: nat, tries: seq<Attempt>) returns (result: Result, invocations: nat)
      requires Valid() && |tries| == 2 && (t in threads ==> threads[t].Finished?)
      modifies this
      ensures Valid() && old(history) <= history
      ensures (result, invocations) == CallAnswer(old(tools).Some?, tries[0], tries[1])
      // An attempt runs the tool if the session is or gets open and has it; the second comes after the
      // first failed with its connection, and opens the session anew.
      ensures var first := (old(tools).Some? || tries[0].opening.Opens?) && tries[0].toolKnown;
        var second := first && tries[0].outcome.Failure? && tries[1].opening.Opens? && tries[1].toolKnown;
        && invocations == (if first then 1 else 0) + (if second then 1 else 0)
        && (result.Returned? <==> (first && tries[0].outcome.Answer?) || (second && tries[1].outcome.Answer?))
        && !result.Done?
      ensures t in threads && threads[t].Finished? && threads[t].result == result
      ensures threads[t].purpose.ToCall? && threads[t].purpose.invocations == invocations
      ensures result.Returned? ==> loop.Some?
    {
      hide Step, Run;
      BeginStep(Contents(), t);
      Record(Contents(), Begin(t, ToCall(1, 0)));
      var attempt := 1;
      while attempt <= 2
        invariant 1 <= attempt <= 3
        invariant Valid() && old(history) <= history && t in threads
        invariant attempt == 1 ==> tools == old(tools)
        invariant attempt >= 2 ==> tools.None? && TryAnswer(old(tools).Some?, tries[0]).ConnectionFailed?
        invariant attempt == 3 ==> TryAnswer(false, tries[1]).ConnectionFailed?
        invariant threads[t]
          == if attempt <= 2 then WantsStart(ToCall(attempt, attempt - 1)) else Finished(ToCall(2, 2), Raised)
      {
        var answer := TryOnce(t, attempt, tries[attempt - 1]);
        match answer {
          case NotRun => return Raised, attempt - 1;
          case Ran(seen) => return seen, attempt;
          case ConnectionFailed =>
        }
        attempt := attempt + 1;
      }
      return Raised, 2;
    }

    // The keeper of the new loop publishes its closing event.
    method OpenLoop(gen: nat)
      requires Contents() == Run(history) && gen == created && |stops| == created + 1 && NotAhead(begun, created)
      modifies this
      ensures history == old(history) + [KeeperBegins(gen)] && Contents() == Run(history)
      ensures created == old(created) + 1 && NotAhead(begun, created)
      ensures Contents()
        == old(State(lock, loop, thread, tools, keeper, Some(gen), stops, signalled, begun + [gen], ready, threads))
    {
      hide Step, Run;
      KeeperSteps(Contents(), gen);
      created := created + 1;
      ghost var s := Contents();
      closing := Some(gen);
      Record(s, KeeperBegins(gen));
    }
  }

  lemma ReadyStep(s: State, gen: nat)
    requires gen in s.begun
    ensures Step(s, KeeperReady(gen)) == s.(ready := s.ready + {gen})
  {
  }
}
