/** Conversation windows: the trailing run of turns that belong together. */
module Windows {

  // `submittedAt` counts microseconds, the resolution of the stored timestamps.
  datatype Message = Message(input: string, output: string, submittedAt: int)

  const MICROS_PER_SECOND := 1_000_000

  /** The inactivity threshold, in microseconds, of a setting given in minutes. */
  function Threshold(minutes: int): int {
    minutes * 60 * MICROS_PER_SECOND
  }

  predicate Suffix(w: seq<Message>, ms: seq<Message>) {
    |w| <= |ms| && w == ms[|ms| - |w|..]
  }

  /** Every turn follows the one before it by less than the threshold. */
  predicate IsRun(w: seq<Message>, threshold: int) {
    forall i :: 0 <= i < |w| - 1 ==> w[i + 1].submittedAt - w[i].submittedAt < threshold
  }

  /** `w` is the longest non-empty suffix of `ms` that is a run; only no messages have no window. */
  ghost predicate IsWindow(w: seq<Message>, ms: seq<Message>, threshold: int) {
    && Suffix(w, ms) && IsRun(w, threshold)
    && (ms != [] ==> w != [])
    && forall k :: 0 <= k < |ms| - |w| ==> !IsRun(ms[k..], threshold)
  }

  /** The window of a history, defined by the position at which its final run starts. */
  function Derive(ms: seq<Message>, threshold: int): seq<Message> {
    ms[RunStart(ms, |ms|, threshold)..]
  }

  // Walk left from `upTo` while the gaps stay below the threshold.
  function RunStart(ms: seq<Message>, upTo: nat, threshold: int): (start: nat)
    requires upTo <= |ms|
    ensures start <= upTo
  {
    if upTo <= 1 then 0
    else if ms[upTo - 1].submittedAt - ms[upTo - 2].submittedAt >= threshold then upTo - 1
    else RunStart(ms, upTo - 1, threshold)
  }

  lemma {:induction false} RunStartIsMaximal(ms: seq<Message>, upTo: nat, threshold: int)
    requires upTo <= |ms|
    ensures var start := RunStart(ms, upTo, threshold);
      && (upTo > 0 ==> start < upTo)
      && IsRun(ms[start..upTo], threshold)
      && forall k :: 0 <= k < start ==> !IsRun(ms[k..upTo], threshold)
  {
    var start := RunStart(ms, upTo, threshold);
    if upTo > 1 && start != upTo - 1 {
      RunStartIsMaximal(ms, upTo - 1, threshold);
      assert ms[start..upTo] == ms[start..upTo - 1] + [ms[upTo - 1]];
    }
    forall k | 0 <= k < start ensures !IsRun(ms[k..upTo], threshold) {
      if start == upTo - 1 {
        var i := upTo - 2 - k;
        assert ms[k..upTo][i] == ms[upTo - 2] && ms[k..upTo][i + 1] == ms[upTo - 1];
      } else {
        assert !IsRun(ms[k..upTo - 1], threshold);
        assert ms[k..upTo][..upTo - 1 - k] == ms[k..upTo - 1];
        RunPrefix(ms[k..upTo], upTo - 1 - k, threshold);
      }
    }
  }

  lemma RunPrefix(w: seq<Message>, n: nat, threshold: int)
    requires n <= |w|
    ensures IsRun(w, threshold) ==> IsRun(w[..n], threshold)
  {
  }

  /** `Derive` computes the window, for sorted and unsorted timestamps alike. */
  lemma DeriveIsWindow(ms: seq<Message>, threshold: int)
    ensures IsWindow(Derive(ms, threshold), ms, threshold)
  {
    RunStartIsMaximal(ms, |ms|, threshold);
    var start := RunStart(ms, |ms|, threshold);
    assert ms[start..|ms|] == ms[start..];
    forall k | 0 <= k < start ensures !IsRun(ms[k..], threshold) {
      assert ms[k..|ms|] == ms[k..];
    }
  }

  /** A history has only one window. */
  lemma WindowIsUnique(v: seq<Message>, w: seq<Message>, ms: seq<Message>, threshold: int)
    requires IsWindow(v, ms, threshold) && IsWindow(w, ms, threshold)
    ensures v == w
  {
    assert v == ms[|ms| - |v|..] && w == ms[|ms| - |w|..];
  }

  lemma DeriveIsIdempotent(ms: seq<Message>, threshold: int)
    ensures Derive(Derive(ms, threshold), threshold) == Derive(ms, threshold)
  {
    var w := Derive(ms, threshold);
    DeriveIsWindow(ms, threshold);
    DeriveIsWindow(w, threshold);
    assert IsWindow(w, w, threshold);
    WindowIsUnique(Derive(w, threshold), w, w, threshold);
  }

  /** Appending a turn extends the window when it came in time, and restarts it otherwise. */
  lemma DeriveIsIncremental(ms: seq<Message>, m: Message, threshold: int)
    ensures Derive(ms + [m], threshold)
      == if ms != [] && m.submittedAt - ms[|ms| - 1].submittedAt < threshold
         then Derive(ms, threshold) + [m]
         else [m]
  {
    var all := ms + [m];
    if ms != [] && m.submittedAt - ms[|ms| - 1].submittedAt < threshold {
      RunStartIgnoresTail(ms, [m], |ms|, threshold);
      var start := RunStart(ms, |ms|, threshold);
      assert all[start..] == ms[start..] + [m];
    } else {
      assert all[|ms|..] == [m];
    }
  }

  lemma {:induction false} RunStartIgnoresTail(ms: seq<Message>, tail: seq<Message>, upTo: nat, threshold: int)
    requires upTo <= |ms|
    ensures RunStart(ms + tail, upTo, threshold) == RunStart(ms, upTo, threshold)
  {
    if upTo > 1 {
      RunStartIgnoresTail(ms, tail, upTo - 1, threshold);
    }
  }

  /** The window stays a suffix when both it and its history grow by the same turn. */
  lemma SuffixGrows(w: seq<Message>, ms: seq<Message>, m: Message)
    requires Suffix(w, ms)
    ensures Suffix(w + [m], ms + [m])
  {
    assert (ms + [m])[|ms| - |w|..] == ms[|ms| - |w|..] + [m];
  }

  // All messages of a sequence that follows itself by one are the same.
  lemma {:induction false} ShiftedIsConstant(w: seq<Message>, m: Message, k: nat)
    requires k < |w| && w == w[1..] + [m]
    ensures w[k] == m
    decreases |w| - k
  {
    if k < |w| - 1 {
      ShiftedIsConstant(w, m, k + 1);
      assert w[k] == (w[1..] + [m])[k];
    }
  }

  /** A window stays a suffix when a message is stored past it exactly when it holds no other message. */
  lemma SuffixPastOneMore(w: seq<Message>, ms: seq<Message>, m: Message)
    requires Suffix(w, ms)
    ensures Suffix(w, ms + [m]) <==> forall x :: x in w ==> x == m
  {
    if w != [] {
      assert (ms + [m])[|ms| + 1 - |w|..] == w[1..] + [m];
      if Suffix(w, ms + [m]) {
        forall k | 0 <= k < |w| ensures w[k] == m {
          ShiftedIsConstant(w, m, k);
        }
      } else if forall x :: x in w ==> x == m {
        forall k | 0 <= k < |w| ensures w[k] == (w[1..] + [m])[k] {
          assert w[k] in w && (k < |w| - 1 ==> w[k + 1] in w);
        }
      }
    }
  }

  /** `SessionWindow.derive`: collect turns backwards until the first long gap. */
  method DeriveWindow(messages: seq<Message>, inactivityMinutes: int) returns (window: seq<Message>)
    ensures IsWindow(window, messages, Threshold(inactivityMinutes))
    ensures window == Derive(messages, Threshold(inactivityMinutes))
  {
    hide IsWindow, IsRun, Suffix, Threshold;
    var threshold := Threshold(inactivityMinutes);
    DeriveIsWindow(messages, threshold);
    if messages == [] {
      return [];
    }
    window := [messages[|messages| - 1]];
    var index := |messages| - 2;
    while index >= 0
      invariant -1 <= index <= |messages| - 2
      invariant window == messages[index + 1..]
      invariant RunStart(messages, index + 2, threshold) == RunStart(messages, |messages|, threshold)
    {
      var gap := messages[index + 1].submittedAt - messages[index].submittedAt;
      if gap >= threshold {
        break;
      }
      window := [messages[index]] + window;
      index := index - 1;
    }
  }
}
