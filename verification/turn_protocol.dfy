/**
 * Turns and worker passes taken apart into their single store and cache accesses, for any
 * interleaving, any failure, and keys that may expire at any moment.
 */
module TurnProtocol {
  import opened SessionKeys
  import opened SessionWorld
  import opened Windows

  datatype Doc = Doc(owner: UserId, messages: seq<Message>)

  // Messages attributed to a user's session: a cached window, a memory, or a turn's history.
  datatype Excerpt = Excerpt(session: SessionId, owner: UserId, messages: seq<Message>)

  datatype Phase =
    | Opened                                             // next: count the stored messages
    | Counted                                            // next: check the owner
    | Allowed                                            // next: read the window
    | Uncached                                           // next: read the stored messages
    | Answering(history: seq<Message>)                   // next: save the reply
    | Saved(history: seq<Message>, message: Message)     // next: set the window
    | Cached                                             // next: set the activity key
    | Marked                                             // next: name a new session
    | RollingBack                                        // next: delete a new session

  datatype Flight = Flight(session: SessionId, user: UserId, isNew: bool, phase: Phase)

  // A pass handles one session at a time; each job is its work on one session.
  datatype Job =
    | Listed(session: SessionId)                         // next: read the expired window
    | Summarising(excerpt: Excerpt)                      // next: write the memory
    | Remembered(session: SessionId)                     // next: delete the window
    | Recent(session: SessionId)                         // next: read the stored messages
    | Derived(excerpt: Excerpt)                          // next: set the window
    | Refreshed(session: SessionId)                      // next: set the activity key

  datatype State = State(
    store: map<SessionId, Doc>,
    issued: set<SessionId>,
    windows: map<SessionId, Excerpt>,
    activity: set<SessionId>,
    memories: seq<Excerpt>,
    turns: map<nat, Flight>,
    jobs: map<nat, Job>)

  const INITIAL := State(map[], {}, map[], {}, [], map[], map[])

  datatype Event =
    | OpenTurn(turn: nat, session: SessionId, user: UserId)
    | OpenNewSession(turn: nat, session: SessionId, user: UserId)
    | NextAccess(turn: nat, reply: Message)              // `reply` matters to the save alone
    | FailTurn(turn: nat)
    | ListExpiredWindow(job: nat, session: SessionId)
    | ListRecentSession(job: nat, session: SessionId)
    | NextJobAccess(job: nat)
    | FailJob(job: nat)
    | ExpireWindow(session: SessionId)
    | ExpireActivity(session: SessionId)

  function Step(s: State, e: Event, minutes: int): State {
    match e
    case OpenTurn(t, id, user) =>
      if t in s.turns then s else s.(turns := s.turns[t := Flight(id, user, false, Opened)])
    case OpenNewSession(t, id, user) =>
      if t in s.turns || id in s.issued then s
      else s.(store := s.store[id := Doc(user, [])], issued := s.issued + {id},
              turns := s.turns[t := Flight(id, user, true, Opened)])
    case NextAccess(t, reply) => if t in s.turns then AdvanceTurn(s, t, reply) else s
    case FailTurn(t) => if t in s.turns then Perform(s, t, Abandoned(s.turns[t]), NoWrite) else s
    case ListExpiredWindow(j, id) =>
      if j in s.jobs || id !in s.windows || id in s.activity then s else s.(jobs := s.jobs[j := Listed(id)])
    case ListRecentSession(j, id) =>
      if j in s.jobs || id !in s.store then s else s.(jobs := s.jobs[j := Recent(id)])
    case NextJobAccess(j) => if j in s.jobs then AdvanceJob(s, j, minutes) else s
    case FailJob(j) => s.(jobs := s.jobs - {j})
    case ExpireWindow(id) => s.(windows := s.windows - {id})
    case ExpireActivity(id) => s.(activity := s.activity - {id})
  }

  // The write an access makes, if any.
  datatype Write =
    | NoWrite
    | AppendMessage(message: Message)
    | SetWindow(window: Excerpt)
    | SetActivity
    | DeleteSession

  // A raised exception: a turn on a new session goes on to delete it, unless that is what failed.
  function Abandoned(flight: Flight): Option<Phase> {
    if flight.isNew && !flight.phase.RollingBack? then Some(RollingBack) else None
  }

  // Where a turn's next access takes it (nowhere: the turn is over), and what the access writes.
  function NextPhase(s: State, flight: Flight, reply: Message): (Option<Phase>, Write) {
    var id := flight.session;
    match flight.phase
    case Opened =>
      (if id in s.store && |s.store[id].messages| < MAX_MESSAGES then Some(Counted) else Abandoned(flight), NoWrite)
    case Counted =>
      (if id in s.store && s.store[id].owner == flight.user then Some(Allowed) else Abandoned(flight), NoWrite)
    case Allowed =>
      (if id in s.windows && s.windows[id].messages != [] then Some(Answering(s.windows[id].messages))
       else Some(Uncached), NoWrite)
    case Uncached =>
      (if id in s.store then Some(Answering(s.store[id].messages)) else Abandoned(flight), NoWrite)
    case Answering(history) => (Some(Saved(history, reply)), AppendMessage(reply))
    case Saved(history, message) => (Some(Cached), SetWindow(Excerpt(id, flight.user, history + [message])))
    case Cached => (Some(Marked), SetActivity)
    case Marked => (None, NoWrite)
    case RollingBack => (None, DeleteSession)
  }

  // Appending to a session that is gone matches nothing; deleting matches only while there is no
  // second message.
  function StoreAfter(s: State, id: SessionId, write: Write): map<SessionId, Doc> {
    match write
    case AppendMessage(m) =>
      if id in s.store then s.store[id := Doc(s.store[id].owner, s.store[id].messages + [m])] else s.store
    case DeleteSession =>
      if id in s.store && |s.store[id].messages| <= 1 then s.store - {id} else s.store
    case _ => s.store
  }

  function Perform(s: State, t: nat, next: Option<Phase>, write: Write): State
    requires t in s.turns
  {
    var flight := s.turns[t];
    var id := flight.session;
    State(
      StoreAfter(s, id, write),
      s.issued,
      if write.SetWindow? then s.windows[id := write.window] else s.windows,
      if write.SetActivity? then s.activity + {id} else s.activity,
      s.memories,
      if next.Some? then s.turns[t := flight.(phase := next.value)] else s.turns - {t},
      s.jobs)
  }

  function AdvanceTurn(s: State, t: nat, reply: Message): State
    requires t in s.turns
  {
    var (next, write) := NextPhase(s, s.turns[t], reply);
    Perform(s, t, next, write)
  }

  function AdvanceJob(s: State, j: nat, minutes: int): State
    requires j in s.jobs
  {
    match s.jobs[j]
    case Listed(id) =>
      if id in s.windows && s.windows[id].messages != [] then s.(jobs := s.jobs[j := Summarising(s.windows[id])])
      else s.(jobs := s.jobs[j := Remembered(id)])
    case Summarising(excerpt) =>
      s.(memories := s.memories + [excerpt], jobs := s.jobs[j := Remembered(excerpt.session)])
    case Remembered(id) => s.(windows := s.windows - {id}, jobs := s.jobs - {j})
    case Recent(id) =>
      if id !in s.store then s.(jobs := s.jobs - {j}) else
      var window := Derive(s.store[id].messages, Threshold(minutes));
      if window == [] then s.(jobs := s.jobs - {j})
      else s.(jobs := s.jobs[j := Derived(Excerpt(id, s.store[id].owner, window))])
    case Derived(excerpt) =>
      s.(windows := s.windows[excerpt.session := excerpt], jobs := s.jobs[j := Refreshed(excerpt.session)])
    case Refreshed(id) => s.(activity := s.activity + {id}, jobs := s.jobs - {j})
  }

  function Run(s: State, es: seq<Event>, minutes: int): State {
    if es == [] then s else Step(Run(s, es[..|es| - 1], minutes), es[|es| - 1], minutes)
  }

  // ---- Subsequences ----

  // `at` gives for each element of `w` its place in `ms`; later elements come from later places.
  ghost predicate Embeds(w: seq<Message>, ms: seq<Message>, at: seq<nat>) {
    && |at| == |w|
    && (forall i :: 0 <= i < |w| ==> at[i] < |ms| && ms[at[i]] == w[i])
    && (forall i, j :: 0 <= i < j < |w| ==> at[i] < at[j])
  }

  ghost predicate Subsequence(w: seq<Message>, ms: seq<Message>) {
    exists at :: Embeds(w, ms, at)
  }

  lemma SubsequenceOfLonger(w: seq<Message>, ms: seq<Message>, longer: seq<Message>)
    requires Subsequence(w, ms) && ms <= longer
    ensures Subsequence(w, longer)
  {
    var at :| Embeds(w, ms, at);
    assert Embeds(w, longer, at);
  }

  lemma SubsequenceGrows(w: seq<Message>, ms: seq<Message>, m: Message)
    requires Subsequence(w, ms)
    ensures Subsequence(w + [m], ms + [m])
  {
    var at :| Embeds(w, ms, at);
    var last: nat := |ms|;
    assert Embeds(w + [m], ms + [m], at + [last]);
  }

  function Places(skipped: nat, n: nat): (at: seq<nat>)
    ensures |at| == n && forall i :: 0 <= i < n ==> at[i] == skipped + i
  {
    if n == 0 then [] else Places(skipped, n - 1) + [skipped + n - 1]
  }

  lemma SuffixIsSubsequence(w: seq<Message>, ms: seq<Message>)
    requires Suffix(w, ms)
    ensures Subsequence(w, ms)
  {
    assert Embeds(w, ms, Places(|ms| - |w|, |w|));
  }

  // ---- Excerpts stay true to the stored sessions ----

  // While its session is stored, an excerpt is the owner's and a subsequence of what is stored.
  ghost predicate Grounded(s: State, x: Excerpt) {
    && x.session in s.issued
    && (x.session in s.store ==>
          x.owner == s.store[x.session].owner && Subsequence(x.messages, s.store[x.session].messages))
  }

  predicate IsAllowed(phase: Phase) {
    !phase.Opened? && !phase.Counted? && !phase.RollingBack?
  }

  // What a turn past its checks is about to rely on or to cache.
  function Held(flight: Flight): Excerpt {
    Excerpt(flight.session, flight.user,
      match flight.phase
      case Answering(history) => history
      case Saved(history, message) => history + [message]
      case _ => [])
  }

  ghost predicate JobGrounded(s: State, job: Job) {
    match job
    case Summarising(excerpt) => Grounded(s, excerpt)
    case Derived(excerpt) => Grounded(s, excerpt)
    case _ => true
  }

  ghost predicate FlightGrounded(s: State, flight: Flight) {
    && (IsAllowed(flight.phase) ==> Grounded(s, Held(flight)))
    && (flight.phase.Counted? ==> flight.session in s.issued)
  }

  ghost predicate WindowsGrounded(s: State) {
    forall id :: id in s.windows ==> s.windows[id].session == id && Grounded(s, s.windows[id])
  }

  ghost predicate Truthful(s: State) {
    && s.store.Keys <= s.issued
    && WindowsGrounded(s)
    && (forall i :: 0 <= i < |s.memories| ==> Grounded(s, s.memories[i]))
    && (forall t :: t in s.turns ==> FlightGrounded(s, s.turns[t]))
    && (forall j :: j in s.jobs ==> JobGrounded(s, s.jobs[j]))
  }

  // Sessions only gain messages, never change owner, and never come back once deleted.
  ghost predicate Grows(s: State, after: State) {
    && s.issued <= after.issued && after.store.Keys <= after.issued
    && forall id :: id in after.store && id in s.issued ==>
         id in s.store && after.store[id].owner == s.store[id].owner && s.store[id].messages <= after.store[id].messages
  }

  lemma JobOnStore(s: State, j: nat, minutes: int)
    requires j in s.jobs
    ensures AdvanceJob(s, j, minutes).store == s.store && AdvanceJob(s, j, minutes).issued == s.issued
    ensures AdvanceJob(s, j, minutes).turns == s.turns
  {
    hide Derive;
  }

  lemma PerformGrows(s: State, t: nat, next: Option<Phase>, write: Write)
    requires s.store.Keys <= s.issued && t in s.turns
    ensures Grows(s, Perform(s, t, next, write))
  {
  }

  lemma StepGrows(s: State, e: Event, minutes: int)
    requires s.store.Keys <= s.issued
    ensures Grows(s, Step(s, e, minutes))
  {
    hide Perform, AdvanceJob, NextPhase;
    match e
    case NextAccess(t, reply) =>
      if t in s.turns {
        var (next, write) := NextPhase(s, s.turns[t], reply);
        PerformGrows(s, t, next, write);
      }
    case FailTurn(t) => if t in s.turns { PerformGrows(s, t, Abandoned(s.turns[t]), NoWrite); }
    case NextJobAccess(j) => if j in s.jobs { JobOnStore(s, j, minutes); }
    case _ =>
  }

  lemma GroundedSurvives(s: State, after: State, x: Excerpt)
    requires Grounded(s, x) && Grows(s, after)
    ensures Grounded(after, x)
  {
    if x.session in after.store {
      SubsequenceOfLonger(x.messages, s.store[x.session].messages, after.store[x.session].messages);
    }
  }

  lemma TruthSurvives(s: State, after: State)
    requires Truthful(s) && Grows(s, after)
    ensures forall id :: id in s.windows ==> Grounded(after, s.windows[id])
    ensures forall i :: 0 <= i < |s.memories| ==> Grounded(after, s.memories[i])
    ensures forall t :: t in s.turns ==> FlightGrounded(after, s.turns[t])
    ensures forall j :: j in s.jobs ==> JobGrounded(after, s.jobs[j])
  {
    hide Grounded;
    forall x | Grounded(s, x) ensures Grounded(after, x) {
      GroundedSurvives(s, after, x);
    }
    assert forall t :: t in s.turns ==> FlightGrounded(s, s.turns[t]);
    forall t | t in s.turns ensures FlightGrounded(after, s.turns[t]) {
    }
  }

  lemma EmptyIsSubsequence(ms: seq<Message>)
    ensures Subsequence([], ms)
  {
    assert Embeds([], ms, []);
  }

  // The phase a turn enters is grounded, and what it caches is what it held.
  lemma NextPhaseIsGrounded(s: State, flight: Flight, reply: Message)
    requires Truthful(s) && FlightGrounded(s, flight)
    ensures var (next, write) := NextPhase(s, flight, reply);
      && (next.Some? && !write.AppendMessage? ==> FlightGrounded(s, flight.(phase := next.value)))
      && (write.SetWindow? ==> write.window.session == flight.session && Grounded(s, write.window))
  {
    var id := flight.session;
    if id in s.store {
      EmptyIsSubsequence(s.store[id].messages);
      assert s.store[id].messages == s.store[id].messages[0..];
      SuffixIsSubsequence(s.store[id].messages, s.store[id].messages);
    }
    assert flight.phase.Saved? ==> Held(flight.(phase := Cached)).messages == [];
    hide Subsequence;
  }

  lemma SavedReplyIsGrounded(s: State, t: nat, reply: Message)
    requires t in s.turns && s.turns[t].phase.Answering? && FlightGrounded(s, s.turns[t])
    ensures var after := AdvanceTurn(s, t, reply);
      t in after.turns && FlightGrounded(after, after.turns[t])
  {
    var id := s.turns[t].session;
    if id in s.store {
      SubsequenceGrows(s.turns[t].phase.history, s.store[id].messages, reply);
    }
    hide Subsequence;
  }

  lemma PerformStaysTruthful(s: State, t: nat, next: Option<Phase>, write: Write)
    requires Truthful(s) && t in s.turns
    requires next.Some? && !write.AppendMessage? ==> FlightGrounded(s, s.turns[t].(phase := next.value))
    requires next.Some? && write.AppendMessage? ==>
      FlightGrounded(Perform(s, t, next, write), s.turns[t].(phase := next.value))
    requires write.SetWindow? ==> write.window.session == s.turns[t].session && Grounded(s, write.window)
    ensures Truthful(Perform(s, t, next, write))
  {
    var after := Perform(s, t, next, write);
    PerformGrows(s, t, next, write);
    TruthSurvives(s, after);
    if next.Some? && !write.AppendMessage? {
      FlightSurvives(s, after, s.turns[t].(phase := next.value));
    }
    if write.SetWindow? {
      GroundedSurvives(s, after, write.window);
    }
    hide Grounded, FlightGrounded, JobGrounded, StoreAfter;
  }

  lemma FlightSurvives(s: State, after: State, flight: Flight)
    requires FlightGrounded(s, flight) && Grows(s, after)
    ensures FlightGrounded(after, flight)
  {
    if IsAllowed(flight.phase) {
      GroundedSurvives(s, after, Held(flight));
    }
  }

  lemma TurnStaysTruthful(s: State, t: nat, reply: Message)
    requires Truthful(s) && t in s.turns
    ensures Truthful(AdvanceTurn(s, t, reply))
  {
    assert FlightGrounded(s, s.turns[t]);
    NextPhaseIsGrounded(s, s.turns[t], reply);
    if s.turns[t].phase.Answering? {
      SavedReplyIsGrounded(s, t, reply);
    }
    var (next, write) := NextPhase(s, s.turns[t], reply);
    PerformStaysTruthful(s, t, next, write);
    hide Truthful, FlightGrounded, Grounded;
  }

  lemma AdvancedJobIsGrounded(s: State, j: nat, minutes: int)
    requires Truthful(s) && j in s.jobs
    ensures var after := AdvanceJob(s, j, minutes);
      && (j in after.jobs ==> JobGrounded(after, after.jobs[j]))
      && (s.jobs[j].Summarising? || s.jobs[j].Derived? ==> Grounded(s, s.jobs[j].excerpt))
  {
    assert JobGrounded(s, s.jobs[j]);
    if s.jobs[j].Recent? && s.jobs[j].session in s.store {
      var ms := s.store[s.jobs[j].session].messages;
      DeriveIsWindow(ms, Threshold(minutes));
      SuffixIsSubsequence(Derive(ms, Threshold(minutes)), ms);
    }
    hide Derive, Subsequence, Threshold;
  }

  lemma AdvanceTouchesOneJob(s: State, j: nat, minutes: int)
    requires j in s.jobs
    ensures var after := AdvanceJob(s, j, minutes);
      && after.jobs.Keys <= s.jobs.Keys
      && (forall other :: other in after.jobs && other != j ==> after.jobs[other] == s.jobs[other])
  {
    hide Derive;
  }

  lemma JobOnCache(s: State, j: nat, minutes: int)
    requires j in s.jobs
    ensures var after := AdvanceJob(s, j, minutes);
      && after.windows == (match s.jobs[j]
                           case Derived(excerpt) => s.windows[excerpt.session := excerpt]
                           case Remembered(id) => s.windows - {id}
                           case _ => s.windows)
      && after.memories == s.memories + if s.jobs[j].Summarising? then [s.jobs[j].excerpt] else []
  {
    hide Derive;
  }

  lemma JobStaysTruthful(s: State, j: nat, minutes: int)
    requires Truthful(s) && j in s.jobs
    ensures Truthful(AdvanceJob(s, j, minutes))
  {
    var after := AdvanceJob(s, j, minutes);
    JobOnStore(s, j, minutes);
    AdvanceTouchesOneJob(s, j, minutes);
    JobOnCache(s, j, minutes);
    AdvancedJobIsGrounded(s, j, minutes);
    GroundedDependsOnStore(s, after);
    TruthSurvives(s, after);
    hide Grounded, FlightGrounded, JobGrounded, AdvanceJob;
  }

  lemma GroundedDependsOnStore(s: State, after: State)
    requires s.store.Keys <= s.issued && after.store == s.store && after.issued == s.issued
    ensures Grows(s, after)
    ensures forall x :: Grounded(s, x) ==> Grounded(after, x)
  {
  }

  lemma StepStaysTruthful(s: State, e: Event, minutes: int)
    requires Truthful(s)
    ensures Truthful(Step(s, e, minutes))
  {
    match e
    case NextAccess(t, reply) => if t in s.turns { TurnStaysTruthful(s, t, reply); }
    case NextJobAccess(j) => if j in s.jobs { JobStaysTruthful(s, j, minutes); }
    case FailTurn(t) =>
      if t in s.turns {
        PerformStaysTruthful(s, t, Abandoned(s.turns[t]), NoWrite);
      }
    case _ =>
      hide Grounded, AdvanceJob, AdvanceTurn, Perform;
      OtherStepsStayTruthful(s, e, minutes);
  }

  lemma OtherStepsStayTruthful(s: State, e: Event, minutes: int)
    requires Truthful(s) && !e.NextAccess? && !e.NextJobAccess? && !e.FailTurn?
    ensures Truthful(Step(s, e, minutes))
  {
    hide AdvanceJob, AdvanceTurn, Perform, Subsequence;
    StepGrows(s, e, minutes);
    TruthSurvives(s, Step(s, e, minutes));
  }

  /**
   * Under every interleaving and every failure, the cached window, the memories and the history of
   * every turn in flight are, for each session still stored, its owner's and order-preserving
   * subsequences of its stored messages that use each stored place at most once.
   */
  lemma {:induction false} EveryInterleavingIsTruthful(es: seq<Event>, minutes: int)
    ensures Truthful(Run(INITIAL, es, minutes))
  {
    hide Step, Truthful;
    if es == [] {
      InitialIsTruthful();
    } else {
      EveryInterleavingIsTruthful(es[..|es| - 1], minutes);
      StepStaysTruthful(Run(INITIAL, es[..|es| - 1], minutes), es[|es| - 1], minutes);
    }
  }

  lemma InitialIsTruthful()
    ensures Truthful(INITIAL)
  {
  }
}
