/** The Redis key names of a session's window and activity marker. */
module SessionKeys {

  datatype Option<+T> = None | Some(value: T)

  const SESSION_KEY_PREFIX := "aeko:session"

  function ActivityKey(idSession: string): string {
    SESSION_KEY_PREFIX + ":" + idSession + ":activity"
  }

  function WindowKey(idSession: string): string {
    SESSION_KEY_PREFIX + ":" + idSession + ":window"
  }

  /** The text before the first separator. */
  function Head(s: string, separator: char): (h: string)
    ensures separator !in h
  {
    if s == "" || s[0] == separator then "" else [s[0]] + Head(s[1..], separator)
  }

  /** Python's `split` on a single character: never empty, and no part holds the separator. */
  function Split(s: string, separator: char): (parts: seq<string>)
    ensures parts != []
    ensures forall i :: 0 <= i < |parts| ==> separator !in parts[i]
    decreases |s|
  {
    var h := Head(s, separator);
    HeadFits(s, separator);
    if |h| == |s| then [h] else [h] + Split(s[|h| + 1..], separator)
  }

  lemma {:induction false} HeadFits(s: string, separator: char)
    ensures var h := Head(s, separator);
      && |h| <= |s| && h == s[..|h|]
      && (|h| < |s| ==> s[|h|] == separator)
  {
    if s != "" && s[0] != separator {
      HeadFits(s[1..], separator);
    }
  }

  lemma {:induction false} SplitAfter(part: string, rest: string, separator: char)
    requires separator !in part
    ensures Head(part + [separator] + rest, separator) == part
    ensures Split(part + [separator] + rest, separator) == [part] + Split(rest, separator)
  {
    var s := part + [separator] + rest;
    if part != "" {
      SplitAfter(part[1..], rest, separator);
      assert s[1..] == part[1..] + [separator] + rest;
    }
    assert Head(s, separator) == part;
    assert s[|part| + 1..] == rest;
  }

  /** `session_id_from_window_key`; `None` is the index error of a key with fewer than three parts. */
  function SessionIdFromWindowKey(key: string): Option<string> {
    var parts := Split(key, ':');
    if |parts| > 2 then Some(parts[2]) else None
  }

  lemma WindowKeyParts(idSession: string)
    ensures Split(WindowKey(idSession), ':') == ["aeko", "session"] + Split(idSession + ":window", ':')
  {
    hide Split, Head;
    var rest := idSession + ":window";
    assert WindowKey(idSession) == "aeko" + [':'] + ("session" + [':'] + rest);
    SplitAfter("aeko", "session" + [':'] + rest, ':');
    SplitAfter("session", rest, ':');
  }

  /** The worker recovers a session from its window key exactly when the id has no colon. */
  lemma SessionIdRoundTrip(idSession: string)
    ensures SessionIdFromWindowKey(WindowKey(idSession)) == Some(idSession) <==> ':' !in idSession
  {
    hide WindowKey, Split, Head;
    WindowKeyParts(idSession);
    if ':' !in idSession {
      assert idSession + ":window" == idSession + [':'] + "window";
      SplitAfter(idSession, "window", ':');
    }
  }

  /** No two sessions share a key, and a window key is never an activity key. */
  lemma KeysAreDistinct(a: string, b: string)
    ensures WindowKey(a) == WindowKey(b) ==> a == b
    ensures ActivityKey(a) == ActivityKey(b) ==> a == b
    ensures WindowKey(a) != ActivityKey(b)
  {
    var prefix := SESSION_KEY_PREFIX + ":";
    assert WindowKey(a)[|prefix|..|WindowKey(a)| - 7] == a;
    assert WindowKey(b)[|prefix|..|WindowKey(b)| - 7] == b;
    assert ActivityKey(a)[|prefix|..|ActivityKey(a)| - 9] == a;
    assert ActivityKey(b)[|prefix|..|ActivityKey(b)| - 9] == b;
    assert WindowKey(a)[|WindowKey(a)| - 1] == 'w';
    assert ActivityKey(b)[|ActivityKey(b)| - 1] == 'y';
  }
}
