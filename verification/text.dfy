/** The string operations that several parts of the program share. */
module Text {
  // The white space that Python strips.
  predicate IsSpace(c: char) {
    var n := c as int;
    || 9 <= n <= 13 || 28 <= n <= 32 || n == 0x85 || n == 0xA0
    || n == 0x1680 || 0x2000 <= n <= 0x200A || n == 0x2028 || n == 0x2029 || n == 0x202F || n == 0x205F || n == 0x3000
  }

  function StripLeft(s: string): string {
    if s != "" && IsSpace(s[0]) then StripLeft(s[1..]) else s
  }

  function StripRight(s: string): string {
    if s != "" && IsSpace(s[|s| - 1]) then StripRight(s[..|s| - 1]) else s
  }

  function Strip(s: string): string {
    StripRight(StripLeft(s))
  }

  // Nothing is left to strip.
  predicate Stripped(s: string) {
    s == "" || (!IsSpace(s[0]) && !IsSpace(s[|s| - 1]))
  }

  lemma {:induction false} StripRightStops(s: string)
    requires s == "" || !IsSpace(s[0])
    ensures Stripped(StripRight(s))
  {
    if s != "" && IsSpace(s[|s| - 1]) {
      StripRightStops(s[..|s| - 1]);
    }
  }

  lemma {:induction false} StripLeftStops(s: string)
    ensures StripLeft(s) == "" || !IsSpace(StripLeft(s)[0])
  {
    if s != "" && IsSpace(s[0]) {
      StripLeftStops(s[1..]);
    }
  }

  /** Stripping leaves nothing to strip. */
  lemma StripLeavesNothing(s: string)
    ensures Stripped(Strip(s)) && Strip(Strip(s)) == Strip(s)
  {
    StripLeftStops(s);
    StripRightStops(StripLeft(s));
  }

  predicate AllSpace(s: string) {
    forall c :: c in s ==> IsSpace(c)
  }

  lemma {:induction false} StripLeftDrops(left: string, rest: string)
    requires AllSpace(left) && (rest == "" || !IsSpace(rest[0]))
    ensures StripLeft(left + rest) == rest
  {
    if left == "" {
      assert left + rest == rest;
    } else {
      assert (left + rest)[1..] == left[1..] + rest && IsSpace(left[0]);
      StripLeftDrops(left[1..], rest);
    }
  }

  lemma {:induction false} StripRightDrops(rest: string, right: string)
    requires AllSpace(right) && (rest == "" || !IsSpace(rest[|rest| - 1]))
    ensures StripRight(rest + right) == rest
  {
    if right == "" {
      assert rest + right == rest;
    } else {
      var n := |right| - 1;
      assert (rest + right)[..|rest + right| - 1] == rest + right[..n] && IsSpace(right[n]);
      StripRightDrops(rest, right[..n]);
    }
  }

  /** Stripping takes the white space off both ends, and nothing else. */
  lemma StripTakesMiddle(left: string, middle: string, right: string)
    requires AllSpace(left) && AllSpace(right) && middle != "" && Stripped(middle)
    ensures Strip(left + middle + right) == middle
  {
    assert left + middle + right == left + (middle + right);
    StripLeftDrops(left, middle + right);
    StripRightDrops(middle, right);
  }
}
