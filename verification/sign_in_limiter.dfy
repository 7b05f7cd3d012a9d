/**
 * The sign-in limiter: a counter per email that its first attempt creates with a lifetime and later
 * attempts increment. An attempt is two accesses, and any number of attempts interleave.
 */
module SignInLimiter {
  import opened SessionKeys

  const MICROS_PER_SECOND := 1_000_000

  // The key of an email, trimmed and in lower case.
  datatype Key = Key(email: string)

  // The Redis counter; without an expiry it stays for ever. `life` is its place in `lives`.
  datatype Counter = Counter(value: nat, expiry: Option<int>, life: nat)

  // One counter from its creation to its expiry.
  datatype Life = Life(key: Key, born: int, expiry: Option<int>)

  // What an attempt learned, and when.
  datatype Verdict = Verdict(key: Key, life: nat, count: nat, at: int)

  datatype State = State(
    now: nat,
    counters: map<Key, Counter>,
    pending: map<nat, Key>,        // attempts that found a counter and are about to increment it
    lives: seq<Life>,
    verdicts: seq<Verdict>)

  const INITIAL := State(0, map[], map[], [], [])

  datatype Event =
    | TrySet(t: nat, key: Key)
    | Increment(t: nat)
    | Wait(micros: nat)

  predicate Unexpired(expiry: Option<int>, now: int) {
    expiry.None? || now < expiry.value
  }

  predicate Live(s: State, key: Key) {
    key in s.counters && Unexpired(s.counters[key].expiry, s.now)
  }

  function WindowEnd(now: int, seconds: nat): int {
    now + seconds * MICROS_PER_SECOND
  }

  function Created(s: State, key: Key, expiry: Option<int>, pending: map<nat, Key>): State {
    State(s.now, s.counters[key := Counter(1, expiry, |s.lives|)], pending,
      s.lives + [Life(key, s.now, expiry)], s.verdicts + [Verdict(key, |s.lives|, 1, s.now)])
  }

  function Incremented(s: State, key: Key, pending: map<nat, Key>): State
    requires key in s.counters
  {
    var c := s.counters[key];
    State(s.now, s.counters[key := Counter(c.value + 1, c.expiry, c.life)], pending,
      s.lives, s.verdicts + [Verdict(key, c.life, c.value + 1, s.now)])
  }

  function Step(s: State, e: Event, seconds: nat): State {
    match e
    case TrySet(t, key) =>
      if t in s.pending then s
      else if Live(s, key) then State(s.now, s.counters, s.pending[t := key], s.lives, s.verdicts)
      else Created(s, key, Some(WindowEnd(s.now, seconds)), s.pending)
    case Increment(t) =>
      if t !in s.pending then s
      else if Live(s, s.pending[t]) then Incremented(s, s.pending[t], s.pending - {t})
      else Created(s, s.pending[t], None, s.pending - {t})      // the counter expired in between
    case Wait(micros) => State(s.now + micros, s.counters, s.pending, s.lives, s.verdicts)
  }

  function Run(s: State, es: seq<Event>, seconds: nat): State {
    if es == [] then s else Step(Run(s, es[..|es| - 1], seconds), es[|es| - 1], seconds)
  }

  // ---- Every life counts 1, 2, 3, ... ----

  function CountOf(vs: seq<Verdict>, life: nat): nat {
    if vs == [] then 0
    else CountOf(vs[..|vs| - 1], life) + if vs[|vs| - 1].life == life then 1 else 0
  }

  // How many verdicts of a life have a count in `lo..hi`, both included.
  function Between(vs: seq<Verdict>, life: nat, lo: nat, hi: int): nat {
    if vs == [] then 0
    else
      var v := vs[|vs| - 1];
      Between(vs[..|vs| - 1], life, lo, hi) + if v.life == life && lo <= v.count <= hi then 1 else 0
  }

  ghost predicate CountsRunUp(vs: seq<Verdict>) {
    forall i :: 0 <= i < |vs| ==> vs[i].count == 1 + CountOf(vs[..i], vs[i].life)
  }

  function Overlap(lo: nat, hi: int, n: nat): nat {
    var top := if hi < n then hi else n;
    if lo <= top then top - lo + 1 else 0
  }

  lemma {:induction false} CountsAreUsedOnce(vs: seq<Verdict>, life: nat, lo: nat, hi: int)
    requires lo > 0 && CountsRunUp(vs)
    ensures Between(vs, life, lo, hi) == Overlap(lo, hi, CountOf(vs, life))
  {
    if vs != [] {
      var n := |vs| - 1;
      forall i | 0 <= i < n ensures vs[..n][..i] == vs[..i] {
      }
      CountsAreUsedOnce(vs[..n], life, lo, hi);
    }
  }

  // ---- What every step keeps ----

  ghost predicate CountersMatch(s: State) {
    && (forall k :: k in s.counters ==>
          var c := s.counters[k];
          && c.life < |s.lives| && s.lives[c.life].key == k && s.lives[c.life].expiry == c.expiry
          && c.value == CountOf(s.verdicts, c.life))
    && (forall a :: 0 <= a < |s.lives| ==>
          s.lives[a].key in s.counters && a <= s.counters[s.lives[a].key].life)
  }

  ghost predicate LivesAreSpaced(s: State, seconds: nat) {
    && (forall a :: 0 <= a < |s.lives| ==>
          s.lives[a].born <= s.now
          && (s.lives[a].expiry.Some? ==> s.lives[a].expiry.value == WindowEnd(s.lives[a].born, seconds)))
    && (forall a, b :: 0 <= a < b < |s.lives| && s.lives[a].key == s.lives[b].key ==>
          s.lives[a].expiry.Some? && s.lives[a].expiry.value <= s.lives[b].born)
  }

  ghost predicate VerdictFits(s: State, v: Verdict) {
    && v.life < |s.lives| && s.lives[v.life].key == v.key
    && s.lives[v.life].born <= v.at && Unexpired(s.lives[v.life].expiry, v.at)
    && (v.count == 1 ==> v.at == s.lives[v.life].born)
  }

  ghost predicate VerdictsFit(s: State) {
    forall i :: 0 <= i < |s.verdicts| ==> VerdictFits(s, s.verdicts[i])
  }

  ghost predicate Sane(s: State, seconds: nat) {
    CountersMatch(s) && LivesAreSpaced(s, seconds) && VerdictsFit(s) && CountsRunUp(s.verdicts)
  }

  lemma {:induction false} NewLifeIsUncounted(vs: seq<Verdict>, life: nat)
    requires forall i :: 0 <= i < |vs| ==> vs[i].life < life
    ensures CountOf(vs, life) == 0
  {
    if vs != [] {
      NewLifeIsUncounted(vs[..|vs| - 1], life);
    }
  }

  lemma CountsRunOn(vs: seq<Verdict>, v: Verdict)
    requires CountsRunUp(vs) && v.count == 1 + CountOf(vs, v.life)
    ensures CountsRunUp(vs + [v])
  {
    var all := vs + [v];
    assert all[..|vs|] == vs;
    forall i | 0 <= i < |vs| ensures all[..i] == vs[..i] {
    }
  }

  lemma CreationCounts(s: State, v: Verdict)
    requires VerdictsFit(s) && CountsRunUp(s.verdicts) && v.life == |s.lives| && v.count == 1
    ensures CountOf(s.verdicts + [v], v.life) == 1
    ensures CountsRunUp(s.verdicts + [v])
  {
    hide CountsRunUp;
    forall i | 0 <= i < |s.verdicts| ensures s.verdicts[i].life < |s.lives| {
      assert VerdictFits(s, s.verdicts[i]);
    }
    NewLifeIsUncounted(s.verdicts, |s.lives|);
    CountsRunOn(s.verdicts, v);
    CountsExtend(s.verdicts, v, v.life);
  }

  lemma CreationMatches(s: State, key: Key, expiry: Option<int>, pending: map<nat, Key>)
    requires CountersMatch(s)
    requires CountOf(Created(s, key, expiry, pending).verdicts, |s.lives|) == 1
    ensures CountersMatch(Created(s, key, expiry, pending))
  {
    hide CountOf;
    forall k | k in s.counters
      ensures CountOf(Created(s, key, expiry, pending).verdicts, s.counters[k].life)
        == CountOf(s.verdicts, s.counters[k].life)
    {
      CountsExtend(s.verdicts, Verdict(key, |s.lives|, 1, s.now), s.counters[k].life);
    }
  }

  lemma CountsExtend(vs: seq<Verdict>, v: Verdict, life: nat)
    ensures CountOf(vs + [v], life) == CountOf(vs, life) + if life == v.life then 1 else 0
  {
    assert (vs + [v])[..|vs|] == vs;
  }

  lemma CreationIsSpaced(s: State, key: Key, expiry: Option<int>, pending: map<nat, Key>, seconds: nat)
    requires CountersMatch(s) && LivesAreSpaced(s, seconds) && !Live(s, key)
    requires expiry.None? || expiry == Some(WindowEnd(s.now, seconds))
    ensures LivesAreSpaced(Created(s, key, expiry, pending), seconds)
  {
    hide CountOf;
    forall a | 0 <= a < |s.lives| && s.lives[a].key == key
      ensures s.lives[a].expiry.Some? && s.lives[a].expiry.value <= s.now
    {
      var last := s.counters[key].life;
      assert a == last || s.lives[a].expiry.value <= s.lives[last].born;
    }
  }

  lemma CreationFits(s: State, key: Key, expiry: Option<int>, pending: map<nat, Key>, seconds: nat)
    requires VerdictsFit(s) && seconds > 0
    requires expiry.None? || expiry == Some(WindowEnd(s.now, seconds))
    ensures VerdictsFit(Created(s, key, expiry, pending))
  {
    var after := Created(s, key, expiry, pending);
    forall i | 0 <= i < |s.verdicts| ensures VerdictFits(after, s.verdicts[i]) {
      assert VerdictFits(s, s.verdicts[i]);
    }
  }

  lemma CreationStaysSane(s: State, key: Key, expiry: Option<int>, pending: map<nat, Key>, seconds: nat)
    requires Sane(s, seconds) && !Live(s, key) && seconds > 0
    requires expiry.None? || expiry == Some(WindowEnd(s.now, seconds))
    ensures Sane(Created(s, key, expiry, pending), seconds)
  {
    hide CountersMatch, LivesAreSpaced, VerdictsFit, CountsRunUp;
    CreationCounts(s, Verdict(key, |s.lives|, 1, s.now));
    CreationMatches(s, key, expiry, pending);
    CreationIsSpaced(s, key, expiry, pending, seconds);
    CreationFits(s, key, expiry, pending, seconds);
  }

  lemma IncrementMatches(s: State, key: Key, pending: map<nat, Key>)
    requires CountersMatch(s) && key in s.counters
    ensures CountersMatch(Incremented(s, key, pending))
  {
    hide CountOf;
    var c := s.counters[key];
    forall k | k in s.counters
      ensures CountOf(Incremented(s, key, pending).verdicts, s.counters[k].life)
        == CountOf(s.verdicts, s.counters[k].life) + if k == key then 1 else 0
    {
      CountsExtend(s.verdicts, Verdict(key, c.life, c.value + 1, s.now), s.counters[k].life);
    }
  }

  lemma IncrementStaysSane(s: State, key: Key, pending: map<nat, Key>, seconds: nat)
    requires Sane(s, seconds) && Live(s, key) && s.counters[key].value > 0
    ensures Sane(Incremented(s, key, pending), seconds)
  {
    hide CountOf, CountsRunUp;
    var c := s.counters[key];
    CountsRunOn(s.verdicts, Verdict(key, c.life, c.value + 1, s.now));
    IncrementMatches(s, key, pending);
    IncrementFits(s, key, pending, seconds);
  }

  lemma IncrementFits(s: State, key: Key, pending: map<nat, Key>, seconds: nat)
    requires CountersMatch(s) && LivesAreSpaced(s, seconds) && VerdictsFit(s)
    requires Live(s, key) && s.counters[key].value > 0
    ensures VerdictsFit(Incremented(s, key, pending))
  {
    hide CountOf;
    var after := Incremented(s, key, pending);
    forall i | 0 <= i < |s.verdicts| ensures VerdictFits(after, s.verdicts[i]) {
      assert VerdictFits(s, s.verdicts[i]);
    }
  }

  ghost predicate Counted(s: State) {
    forall k :: k in s.counters ==> s.counters[k].value > 0
  }

  lemma StepStaysSane(s: State, e: Event, seconds: nat)
    requires Sane(s, seconds) && Counted(s) && seconds > 0
    ensures Sane(Step(s, e, seconds), seconds) && Counted(Step(s, e, seconds))
  {
    hide Sane, CountersMatch, LivesAreSpaced, VerdictsFit, CountsRunUp;
    match e {
      case TrySet(t, key) =>
        if t !in s.pending && !Live(s, key) {
          CreationStaysSane(s, key, Some(WindowEnd(s.now, seconds)), s.pending, seconds);
        } else {
          SanityIgnores(s, Step(s, e, seconds), seconds);
        }
      case Increment(t) =>
        if t in s.pending {
          if Live(s, s.pending[t]) {
            IncrementStaysSane(s, s.pending[t], s.pending - {t}, seconds);
          } else {
            CreationStaysSane(s, s.pending[t], None, s.pending - {t}, seconds);
          }
        }
      case Wait(_) =>
        SanityIgnores(s, Step(s, e, seconds), seconds);
    }
  }

  lemma SanityIgnores(s: State, after: State, seconds: nat)
    requires Sane(s, seconds)
    requires after.now >= s.now && after.counters == s.counters
    requires after.lives == s.lives && after.verdicts == s.verdicts
    ensures Sane(after, seconds)
  {
    hide CountOf, CountsRunUp;
    forall i | 0 <= i < |s.verdicts| ensures VerdictFits(after, s.verdicts[i]) {
      assert VerdictFits(s, s.verdicts[i]);
    }
  }

  lemma {:induction false} EveryRunIsSane(es: seq<Event>, seconds: nat)
    requires seconds > 0
    ensures Sane(Run(INITIAL, es, seconds), seconds) && Counted(Run(INITIAL, es, seconds))
  {
    if es != [] {
      EveryRunIsSane(es[..|es| - 1], seconds);
      StepStaysSane(Run(INITIAL, es[..|es| - 1], seconds), es[|es| - 1], seconds);
    }
  }

  // ---- The two caps ----

  predicate Allowed(v: Verdict, cap: int) {
    v.count <= cap
  }

  function AllowedInLife(vs: seq<Verdict>, life: nat, cap: int): nat {
    if vs == [] then 0
    else
      var v := vs[|vs| - 1];
      AllowedInLife(vs[..|vs| - 1], life, cap) + if v.life == life && Allowed(v, cap) then 1 else 0
  }

  // The attempts of a key that are allowed from one time until just before another.
  predicate AllowedWithin(v: Verdict, key: Key, cap: int, from: int, to: int) {
    v.key == key && Allowed(v, cap) && from <= v.at < to
  }

  function AllowedDuring(vs: seq<Verdict>, key: Key, cap: int, from: int, to: int): nat {
    if vs == [] then 0
    else
      AllowedDuring(vs[..|vs| - 1], key, cap, from, to)
      + if AllowedWithin(vs[|vs| - 1], key, cap, from, to) then 1 else 0
  }

  lemma {:induction false} AllowedAreBetween(vs: seq<Verdict>, life: nat, cap: int)
    requires CountsRunUp(vs)
    ensures AllowedInLife(vs, life, cap) == Between(vs, life, 1, cap)
  {
    if vs != [] {
      var n := |vs| - 1;
      forall i | 0 <= i < n ensures vs[..n][..i] == vs[..i] {
      }
      AllowedAreBetween(vs[..n], life, cap);
    }
  }

  /**
   * During one counter's life the first `cap` attempts are allowed and no other, in any interleaving
   * of the two accesses of any number of attempts.
   */
  lemma LifeAllowsCap(es: seq<Event>, seconds: nat, life: nat, cap: nat)
    requires seconds > 0
    ensures var vs := Run(INITIAL, es, seconds).verdicts;
      AllowedInLife(vs, life, cap) == if CountOf(vs, life) < cap then CountOf(vs, life) else cap
  {
    EveryRunIsSane(es, seconds);
    var vs := Run(INITIAL, es, seconds).verdicts;
    AllowedAreBetween(vs, life, cap);
    CountsAreUsedOnce(vs, life, 1, cap);
  }

  // Three lives of one key do not fit in an interval of the window's length.
  lemma ThreeLivesDoNotFit(s: State, i: nat, j: nat, k: nat, from: int, seconds: nat)
    requires Sane(s, seconds) && i < |s.verdicts| && j < |s.verdicts| && k < |s.verdicts|
    requires s.verdicts[i].key == s.verdicts[j].key == s.verdicts[k].key
    requires s.verdicts[i].life < s.verdicts[j].life < s.verdicts[k].life
    requires from <= s.verdicts[i].at
    ensures s.verdicts[k].at >= WindowEnd(from, seconds)
  {
    hide CountersMatch, CountsRunUp;
    assert VerdictFits(s, s.verdicts[i]) && VerdictFits(s, s.verdicts[j]) && VerdictFits(s, s.verdicts[k]);
  }

  // An earlier life with a later one in the same interval began before the interval.
  lemma EarlierLifeStartedBefore(s: State, i: nat, j: nat, from: int, seconds: nat)
    requires Sane(s, seconds) && i < |s.verdicts| && j < |s.verdicts| && s.verdicts[i].key == s.verdicts[j].key
    requires s.verdicts[i].life < s.verdicts[j].life && from <= s.verdicts[i].at
    requires s.verdicts[j].at < WindowEnd(from, seconds)
    ensures s.verdicts[i].count != 1
  {
    hide CountersMatch, CountsRunUp;
    assert VerdictFits(s, s.verdicts[i]) && VerdictFits(s, s.verdicts[j]);
  }

  // Every allowed attempt in the interval is a late one of life `a` or one of life `b`.
  ghost predicate FromTwoLives(vs: seq<Verdict>, key: Key, cap: int, from: int, to: int, a: nat, b: nat) {
    forall i :: 0 <= i < |vs| && AllowedWithin(vs[i], key, cap, from, to) ==>
      (vs[i].life == a && vs[i].count >= 2) || vs[i].life == b
  }

  lemma {:induction false} SplitByLife(vs: seq<Verdict>, key: Key, cap: int, from: int, to: int, a: nat, b: nat)
    requires CountsRunUp(vs) && FromTwoLives(vs, key, cap, from, to, a, b)
    ensures AllowedDuring(vs, key, cap, from, to) <= Between(vs, a, 2, cap) + Between(vs, b, 1, cap)
  {
    if vs != [] {
      var n := |vs| - 1;
      forall i | 0 <= i < n ensures vs[..n][..i] == vs[..i] {
      }
      SplitByLife(vs[..n], key, cap, from, to, a, b);
      assert AllowedWithin(vs[n], key, cap, from, to) ==>
        (vs[n].life == a && vs[n].count >= 2) || vs[n].life == b;
    }
  }

  ghost predicate InRange(vs: seq<Verdict>, i: nat, key: Key, cap: int, from: int, to: int) {
    i < |vs| && AllowedWithin(vs[i], key, cap, from, to)
  }

  lemma LivesInInterval(s: State, key: Key, cap: int, from: int, seconds: nat) returns (a: nat, b: nat)
    requires Sane(s, seconds)
    ensures FromTwoLives(s.verdicts, key, cap, from, WindowEnd(from, seconds), a, b)
  {
    hide Sane, AllowedWithin;
    var vs, to := s.verdicts, WindowEnd(from, seconds);
    if i: nat, j: nat :|
      InRange(vs, i, key, cap, from, to) && InRange(vs, j, key, cap, from, to) && vs[i].life < vs[j].life
    {
      a, b := vs[i].life, vs[j].life;
      forall k | 0 <= k < |vs| && AllowedWithin(vs[k], key, cap, from, to)
        ensures (vs[k].life == a && vs[k].count >= 2) || vs[k].life == b
      {
        TwoLivesCover(s, i, j, k, key, cap, from, seconds);
      }
    } else {
      a := 0;
      if i: nat :| InRange(vs, i, key, cap, from, to) {
        b := vs[i].life;
        forall k | 0 <= k < |vs| && AllowedWithin(vs[k], key, cap, from, to) ensures vs[k].life == b {
          assert InRange(vs, k, key, cap, from, to);
        }
      } else {
        b := 0;
        forall k | 0 <= k < |vs| ensures !AllowedWithin(vs[k], key, cap, from, to) {
          assert !InRange(vs, k, key, cap, from, to);
        }
      }
    }
  }

  lemma TwoLivesCover(s: State, i: nat, j: nat, k: nat, key: Key, cap: int, from: int, seconds: nat)
    requires Sane(s, seconds)
    requires InRange(s.verdicts, i, key, cap, from, WindowEnd(from, seconds))
    requires InRange(s.verdicts, j, key, cap, from, WindowEnd(from, seconds))
    requires InRange(s.verdicts, k, key, cap, from, WindowEnd(from, seconds))
    requires s.verdicts[i].life < s.verdicts[j].life
    ensures s.verdicts[k].life == s.verdicts[j].life
      || (s.verdicts[k].life == s.verdicts[i].life && s.verdicts[k].count >= 2)
  {
    hide CountersMatch, LivesAreSpaced, VerdictsFit;
    var x, y, z := s.verdicts[i].life, s.verdicts[j].life, s.verdicts[k].life;
    if z < x {
      ThreeLivesDoNotFit(s, k, i, j, from, seconds);
    } else if x < z < y {
      ThreeLivesDoNotFit(s, i, k, j, from, seconds);
    } else if z > y {
      ThreeLivesDoNotFit(s, i, j, k, from, seconds);
    } else if z == x {
      EarlierLifeStartedBefore(s, k, j, from, seconds);
      assert s.verdicts[k].count == 1 + CountOf(s.verdicts[..k], z);
    }
  }

  /**
   * In any half-open interval of the window's length fewer than twice the cap are allowed, in any
   * interleaving: where two lives meet in it, the first attempt of the earlier one lies before it.
   */
  lemma IntervalAllowsLessThanTwiceCap(es: seq<Event>, seconds: nat, key: Key, cap: nat, from: int)
    requires seconds > 0 && cap > 0
    ensures AllowedDuring(Run(INITIAL, es, seconds).verdicts, key, cap, from, WindowEnd(from, seconds)) <= 2 * cap - 1
  {
    hide Run, CountersMatch, LivesAreSpaced, VerdictsFit;
    EveryRunIsSane(es, seconds);
    var s := Run(INITIAL, es, seconds);
    var a, b := LivesInInterval(s, key, cap, from, seconds);
    SplitByLife(s.verdicts, key, cap, from, WindowEnd(from, seconds), a, b);
    CountsAreUsedOnce(s.verdicts, a, 2, cap);
    CountsAreUsedOnce(s.verdicts, b, 1, cap);
  }

  // ---- Counters that lost their expiry ----

  // Event `i` increments a counter of the key that expired after its attempt saw it.
  ghost predicate LateIncrement(es: seq<Event>, i: nat, key: Key, seconds: nat) {
    && i < |es| && es[i].Increment?
    && var s := Run(INITIAL, es[..i], seconds);
       es[i].t in s.pending && s.pending[es[i].t] == key && !Live(s, key)
  }

  ghost predicate SomeLate(es: seq<Event>, key: Key, seconds: nat) {
    exists i: nat :: LateIncrement(es, i, key, seconds)
  }

  ghost predicate Immortal(s: State, key: Key) {
    key in s.counters && s.counters[key].expiry.None?
  }

  lemma StepOnImmortality(s: State, e: Event, key: Key, seconds: nat)
    ensures Immortal(Step(s, e, seconds), key)
      <==> Immortal(s, key) || (e.Increment? && e.t in s.pending && s.pending[e.t] == key && !Live(s, key))
  {
  }

  /** A counter loses its expiry exactly when some attempt's increment comes after the counter expired. */
  lemma {:induction false} ImmortalIffLateIncrement(es: seq<Event>, key: Key, seconds: nat)
    ensures Immortal(Run(INITIAL, es, seconds), key) <==> SomeLate(es, key, seconds)
  {
    if es != [] {
      hide Immortal, Step, Live, SomeLate;
      var n := |es| - 1;
      ImmortalIffLateIncrement(es[..n], key, seconds);
      StepOnImmortality(Run(INITIAL, es[..n], seconds), es[n], key, seconds);
      LateInPrefix(es, key, seconds);
    }
  }

  lemma LateInPrefix(es: seq<Event>, key: Key, seconds: nat)
    requires es != []
    ensures SomeLate(es, key, seconds)
      <==> SomeLate(es[..|es| - 1], key, seconds) || LateIncrement(es, |es| - 1, key, seconds)
  {
    hide Run, Live;
    var n := |es| - 1;
    forall i: nat | i < n ensures LateIncrement(es[..n], i, key, seconds) <==> LateIncrement(es, i, key, seconds) {
      assert es[..n][..i] == es[..i];
    }
    if i: nat :| LateIncrement(es[..n], i, key, seconds) {
      assert LateIncrement(es, i, key, seconds);
    }
    if i: nat :| LateIncrement(es, i, key, seconds) && i != n {
      assert LateIncrement(es[..n], i, key, seconds);
    }
  }

  ghost predicate LockedOut(s: State, key: Key, cap: nat) {
    Immortal(s, key) && s.counters[key].value >= cap
  }

  lemma StepKeepsLockout(s: State, e: Event, key: Key, cap: nat, seconds: nat)
    requires LockedOut(s, key, cap)
    ensures LockedOut(Step(s, e, seconds), key, cap)
    ensures s.verdicts <= Step(s, e, seconds).verdicts
    ensures var vs := Step(s, e, seconds).verdicts;
      forall i :: |s.verdicts| <= i < |vs| && vs[i].key == key ==> !Allowed(vs[i], cap)
  {
  }

  /** Once such a counter has reached the cap, its email is refused for ever, however long one waits. */
  lemma {:induction false} LockoutNeverEnds(s: State, es: seq<Event>, key: Key, cap: nat, seconds: nat)
    requires LockedOut(s, key, cap)
    ensures LockedOut(Run(s, es, seconds), key, cap) && s.verdicts <= Run(s, es, seconds).verdicts
    ensures var vs := Run(s, es, seconds).verdicts;
      forall i :: |s.verdicts| <= i < |vs| && vs[i].key == key ==> !Allowed(vs[i], cap)
  {
    if es != [] {
      hide LockedOut, Step, Allowed;
      LockoutNeverEnds(s, es[..|es| - 1], key, cap, seconds);
      StepKeepsLockout(Run(s, es[..|es| - 1], seconds), es[|es| - 1], key, cap, seconds);
    }
  }

  /** Without a late increment nobody waits longer than one window: then the next attempt is the first of a new life. */
  lemma OneWindowAlwaysRecovers(es: seq<Event>, key: Key, t: nat, seconds: nat)
    requires seconds > 0 && t !in Run(INITIAL, es, seconds).pending
    requires !SomeLate(es, key, seconds)
    ensures var waited := Step(Run(INITIAL, es, seconds), Wait(seconds * MICROS_PER_SECOND), seconds);
      var after := Step(waited, TrySet(t, key), seconds);
      after.verdicts == waited.verdicts + [Verdict(key, |waited.lives|, 1, waited.now)]
  {
    hide Run, SomeLate, CountsRunUp, VerdictsFit, CountOf;
    ImmortalIffLateIncrement(es, key, seconds);
    EveryRunIsSane(es, seconds);
  }

  // ---- Attempts that run alone ----

  // Both accesses of an attempt, with nothing in between.
  function Attempt(s: State, t: nat, key: Key, seconds: nat): State {
    Step(Step(s, TrySet(t, key), seconds), Increment(t), seconds)
  }

  function AttemptEvents(key: Key, n: nat): seq<Event> {
    if n == 0 then [] else AttemptEvents(key, n - 1) + [TrySet(0, key), Increment(0)]
  }

  lemma RunTwoMore(s: State, es: seq<Event>, a: Event, b: Event, seconds: nat)
    ensures Run(s, es + [a, b], seconds) == Step(Step(Run(s, es, seconds), a, seconds), b, seconds)
  {
    var all := es + [a, b];
    assert all[..|all| - 1] == es + [a];
    assert (es + [a])[..|es|] == es;
  }

  // `n` attempts on a live counter get the next `n` counts, all at once.
  lemma {:induction false} BurstOnLiveCounter(s: State, key: Key, n: nat, cap: nat, from: int, to: int, seconds: nat)
    requires Live(s, key) && 0 !in s.pending && from <= s.now < to && s.counters[key].value + n <= cap
    ensures var after := Run(s, AttemptEvents(key, n), seconds);
      && after.now == s.now && after.pending == s.pending && key in after.counters
      && after.counters[key] == Counter(s.counters[key].value + n, s.counters[key].expiry, s.counters[key].life)
      && AllowedDuring(after.verdicts, key, cap, from, to) == AllowedDuring(s.verdicts, key, cap, from, to) + n
  {
    if n > 0 {
      hide Step, Run, AllowedDuring;
      BurstOnLiveCounter(s, key, n - 1, cap, from, to, seconds);
      var before := Run(s, AttemptEvents(key, n - 1), seconds);
      RunTwoMore(s, AttemptEvents(key, n - 1), TrySet(0, key), Increment(0), seconds);
      AttemptOnLiveCounter(before, key, cap, from, to, seconds);
    }
  }

  lemma AttemptOnLiveCounter(s: State, key: Key, cap: nat, from: int, to: int, seconds: nat)
    requires Live(s, key) && 0 !in s.pending && from <= s.now < to && s.counters[key].value < cap
    ensures var after := Attempt(s, 0, key, seconds);
      && after.now == s.now && after.pending == s.pending && key in after.counters
      && after.counters[key] == Counter(s.counters[key].value + 1, s.counters[key].expiry, s.counters[key].life)
      && AllowedDuring(after.verdicts, key, cap, from, to) == AllowedDuring(s.verdicts, key, cap, from, to) + 1
  {
    var c := s.counters[key];
    var v := Verdict(key, c.life, c.value + 1, s.now);
    var tried := Step(s, TrySet(0, key), seconds);
    assert Live(tried, key) && tried.pending - {0} == s.pending;
    assert (s.verdicts + [v])[..|s.verdicts|] == s.verdicts;
  }

  lemma {:induction false} RunContinues(s: State, first: seq<Event>, second: seq<Event>, seconds: nat)
    ensures Run(s, first + second, seconds) == Run(Run(s, first, seconds), second, seconds)
  {
    hide Step;
    if second == [] {
      assert first + second == first;
    } else {
      var n := |second| - 1;
      assert (first + second)[..|first| + n] == first + second[..n];
      RunContinues(s, first, second[..n], seconds);
    }
  }

  /** That bound is reached: one early attempt, then bursts just before and just after its counter expires. */
  lemma TwiceCapLessOneIsReached(key: Key, cap: nat, seconds: nat) returns (es: seq<Event>, from: int)
    requires seconds > 0 && cap > 0
    ensures AllowedDuring(Run(INITIAL, es, seconds).verdicts, key, cap, from, WindowEnd(from, seconds)) == 2 * cap - 1
  {
    hide Run, AllowedDuring;
    from := 1;
    var to := WindowEnd(from, seconds);
    var opening := [TrySet(0, key), Wait(seconds * MICROS_PER_SECOND - 1)];
    var s1 := OpeningState(key, cap, seconds);
    var burst := AttemptEvents(key, cap - 1);
    BurstOnLiveCounter(s1, key, cap - 1, cap, from, to, seconds);
    var s2 := Run(s1, burst, seconds);
    var s3 := ReopeningState(s2, key, cap, from, to, seconds);
    BurstOnLiveCounter(s3, key, cap - 1, cap, from, to, seconds);
    es := opening + burst + [Wait(1), TrySet(0, key)] + burst;
    RunContinues(INITIAL, opening, burst, seconds);
    RunTwoMore(INITIAL, opening + burst, Wait(1), TrySet(0, key), seconds);
    RunContinues(INITIAL, opening + burst + [Wait(1), TrySet(0, key)], burst, seconds);
  }

  lemma OpeningState(key: Key, cap: nat, seconds: nat) returns (s: State)
    requires seconds > 0 && cap > 0
    ensures s == Run(INITIAL, [TrySet(0, key), Wait(seconds * MICROS_PER_SECOND - 1)], seconds)
    ensures s.pending == map[] && s.now == seconds * MICROS_PER_SECOND - 1
    ensures s.counters == map[key := Counter(1, Some(s.now + 1), 0)]
    ensures AllowedDuring(s.verdicts, key, cap, 1, WindowEnd(1, seconds)) == 0
  {
    RunTwoMore(INITIAL, [], TrySet(0, key), Wait(seconds * MICROS_PER_SECOND - 1), seconds);
    var wait := Wait(seconds * MICROS_PER_SECOND - 1);
    assert [] + [TrySet(0, key), wait] == [TrySet(0, key), wait];
    s := Run(INITIAL, [TrySet(0, key), Wait(seconds * MICROS_PER_SECOND - 1)], seconds);
    assert s.verdicts == [Verdict(key, 0, 1, 0)];
    assert s.verdicts[..0] == [];
  }

  // One microsecond later the counter has expired, and the next attempt opens a new one.
  lemma ReopeningState(s: State, key: Key, cap: nat, from: int, to: int, seconds: nat) returns (after: State)
    requires seconds > 0 && cap > 0 && 0 !in s.pending && from <= s.now + 1 < to
    requires key in s.counters && s.counters[key].expiry == Some(s.now + 1)
    ensures after == Step(Step(s, Wait(1), seconds), TrySet(0, key), seconds)
    ensures after.pending == s.pending && after.now == s.now + 1
    ensures Live(after, key) && after.counters[key].value == 1
    ensures AllowedDuring(after.verdicts, key, cap, from, to) == AllowedDuring(s.verdicts, key, cap, from, to) + 1
  {
    after := Step(Step(s, Wait(1), seconds), TrySet(0, key), seconds);
    assert after.verdicts[..|s.verdicts|] == s.verdicts;
  }

  /** An email can be locked out for ever, with any cap: two attempts of which one increments a window too late. */
  lemma LockoutCanHappen(key: Key, cap: nat, seconds: nat) returns (es: seq<Event>)
    requires seconds > 0 && cap > 0
    ensures LockedOut(Run(INITIAL, es, seconds), key, cap)
  {
    hide Run;
    var race := [TrySet(0, key), TrySet(1, key), Wait(seconds * MICROS_PER_SECOND), Increment(1)];
    var s := RacedState(key, seconds);
    BurstOnLiveCounter(s, key, cap - 1, cap, s.now, s.now + 1, seconds);
    es := race + AttemptEvents(key, cap - 1);
    RunContinues(INITIAL, race, AttemptEvents(key, cap - 1), seconds);
  }

  lemma RacedState(key: Key, seconds: nat) returns (s: State)
    requires seconds > 0
    ensures s
      == Run(INITIAL, [TrySet(0, key), TrySet(1, key), Wait(seconds * MICROS_PER_SECOND), Increment(1)], seconds)
    ensures s.pending == map[] && key in s.counters && s.counters[key].value == 1 && s.counters[key].expiry.None?
  {
    hide Run, Step;
    var wait := Wait(seconds * MICROS_PER_SECOND);
    RunTwoMore(INITIAL, [], TrySet(0, key), TrySet(1, key), seconds);
    RunTwoMore(INITIAL, [TrySet(0, key), TrySet(1, key)], wait, Increment(1), seconds);
    assert [] + [TrySet(0, key), TrySet(1, key)] == [TrySet(0, key), TrySet(1, key)];
    assert [TrySet(0, key), TrySet(1, key)] + [wait, Increment(1)]
      == [TrySet(0, key), TrySet(1, key), wait, Increment(1)];
    RunNothing(seconds);
    RaceSteps(key, seconds);
    s := Run(INITIAL, [TrySet(0, key), TrySet(1, key), wait, Increment(1)], seconds);
  }

  lemma RunNothing(seconds: nat)
    ensures Run(INITIAL, [], seconds) == INITIAL
  {
  }

  lemma RaceSteps(key: Key, seconds: nat)
    requires seconds > 0
    ensures var raced := Step(Step(INITIAL, TrySet(0, key), seconds), TrySet(1, key), seconds);
      var s := Step(Step(raced, Wait(seconds * MICROS_PER_SECOND), seconds), Increment(1), seconds);
      s.pending == map[] && key in s.counters && s.counters[key].value == 1 && s.counters[key].expiry.None?
  {
  }

  // ---- The limiter over its Redis keys ----

  datatype Entry = Entry(value: nat, expiry: Option<int>)

  class Limiter {
    const seconds: nat
    const cap: int
    var now: nat
    var entries: map<Key, Entry>
    // Which life each key is in, and what happened in it.
    ghost var life: map<Key, nat>
    ghost var lives: seq<Life>
    ghost var verdicts: seq<Verdict>

    ghost predicate Valid()
      reads this
    {
      life.Keys == entries.Keys
    }

    ghost function Contents(): State
      requires Valid()
      reads this
    {
      State(now, map k | k in entries :: Counter(entries[k].value, entries[k].expiry, life[k]), map[], lives, verdicts)
    }

    constructor (windowSeconds: nat, limit: int)
      ensures Valid() && seconds == windowSeconds && cap == limit && Contents() == INITIAL
    {
      seconds, cap := windowSeconds, limit;
      now, entries, life, lives, verdicts := 0, map[], map[], [], [];
    }

    /** SET NX: creates the counter, with its lifetime, unless there is one. */
    method SetIfAbsent(key: Key) returns (created: bool)
      requires Valid()
      modifies this
      ensures Valid()
      ensures created <==> !old(Live(Contents(), key))
      ensures Contents() == if created then old(Created(Contents(), key, Some(WindowEnd(now, seconds)), map[]))
                            else old(Contents())
      ensures created <==> !(key in old(entries)
                             && (old(entries)[key].expiry.None? || now < old(entries)[key].expiry.value))
      ensures entries
        == if created then old(entries)[key := Entry(1, Some(now + seconds * 1_000_000))] else old(entries)
    {
      if key in entries && (entries[key].expiry.None? || now < entries[key].expiry.value) {
        return false;
      }
      entries := entries[key := Entry(1, Some(now + seconds * MICROS_PER_SECOND))];
      life := life[key := |lives|];
      verdicts := verdicts + [Verdict(key, |lives|, 1, now)];
      lives := lives + [Life(key, now, Some(now + seconds * MICROS_PER_SECOND))];
      return true;
    }

    /** INCR: adds one and keeps the lifetime, or creates a counter that has none. */
    method Incr(key: Key) returns (count: nat)
      requires Valid()
      modifies this
      ensures Valid()
      ensures Contents() == if old(Live(Contents(), key)) then old(Incremented(Contents(), key, map[]))
                            else old(Created(Contents(), key, None, map[]))
      ensures |verdicts| == old(|verdicts|) + 1 && verdicts[|verdicts| - 1].count == count
      ensures entries == old(entries)[key :=
          if key in old(entries) && (old(entries)[key].expiry.None? || now < old(entries)[key].expiry.value)
          then Entry(old(entries)[key].value + 1, old(entries)[key].expiry) else Entry(1, None)]
      ensures key in entries && count == entries[key].value
    {
      if key in entries && (entries[key].expiry.None? || now < entries[key].expiry.value) {
        verdicts := verdicts + [Verdict(key, life[key], entries[key].value + 1, now)];
        entries := entries[key := Entry(entries[key].value + 1, entries[key].expiry)];
      } else {
        entries := entries[key := Entry(1, None)];
        life := life[key := |lives|];
        verdicts := verdicts + [Verdict(key, |lives|, 1, now)];
        lives := lives + [Life(key, now, None)];
      }
      return entries[key].value;
    }

    method RecordAttempt(key: Key) returns (count: nat)
      requires Valid()
      modifies this
      ensures Valid() && Contents() == Attempt(old(Contents()), 0, key, seconds)
      ensures |verdicts| == old(|verdicts|) + 1
      ensures verdicts[|verdicts| - 1].key == key && verdicts[|verdicts| - 1].count == count
    {
      AttemptAlone(Contents(), key, seconds);
      var created := SetIfAbsent(key);
      if created {
        return 1;
      }
      count := Incr(key);
    }

    /** Records one attempt; it is refused when it is not among the first `cap` of its counter. */
    method AuthorizeRateLimitExceeded(key: Key) returns (exceeded: bool)
      requires Valid()
      modifies this
      ensures Valid() && Contents() == Attempt(old(Contents()), 0, key, seconds)
      ensures |verdicts| == old(|verdicts|) + 1 && verdicts[|verdicts| - 1].key == key
      ensures exceeded <==> !Allowed(verdicts[|verdicts| - 1], cap)
    {
      var count := RecordAttempt(key);
      return count > cap;
    }
  }

  lemma AttemptAlone(s: State, key: Key, seconds: nat)
    requires s.pending == map[]
    ensures Attempt(s, 0, key, seconds)
      == if Live(s, key) then Incremented(s, key, map[]) else Created(s, key, Some(WindowEnd(s.now, seconds)), map[])
  {
    if Live(s, key) {
      var tried := Step(s, TrySet(0, key), seconds);
      assert Live(tried, key) && tried.pending - {0} == map[];
    }
  }
}
