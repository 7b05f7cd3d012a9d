/** How large the calculator's answers get under its exponent cap. */
module CalculatorBounds {
  import opened Calculator

  function Digits(n: nat): nat {
    if n < 10 then 1 else 1 + Digits(n / 10)
  }

  // The decimal digits of an expression, and its powers.
  function DigitsIn(e: Expr): nat {
    match e
    case Num(value) => Digits(value)
    case Signed(_, operand) => DigitsIn(operand)
    case Binary(_, left, right) => DigitsIn(left) + DigitsIn(right)
    case Call(_, _, args) => DigitsInArguments(args)
    case _ => 0
  }

  function DigitsInArguments(args: seq<Argument>): nat {
    if args == [] then 0 else DigitsInArgument(args[0]) + DigitsInArguments(args[1..])
  }

  function DigitsInArgument(a: Argument): nat {
    match a
    case Scalar(e) => DigitsIn(e)
    case ListOf(items) => DigitsInItems(items)
  }

  function DigitsInItems(items: seq<Expr>): nat {
    if items == [] then 0 else DigitsIn(items[0]) + DigitsInItems(items[1..])
  }

  function PowersIn(e: Expr): nat {
    match e
    case Signed(_, operand) => PowersIn(operand)
    case Binary(op, left, right) => PowersIn(left) + PowersIn(right) + if op == Pow then 1 else 0
    case Call(_, _, args) => PowersInArguments(args)
    case _ => 0
  }

  function PowersInArguments(args: seq<Argument>): nat {
    if args == [] then 0 else PowersInArgument(args[0]) + PowersInArguments(args[1..])
  }

  function PowersInArgument(a: Argument): nat {
    match a
    case Scalar(e) => PowersIn(e)
    case ListOf(items) => PowersInItems(items)
  }

  function PowersInItems(items: seq<Expr>): nat {
    if items == [] then 0 else PowersIn(items[0]) + PowersInItems(items[1..])
  }

  // The number of digits allowed to `digits` digits under `powers` powers.
  function Room(digits: nat, powers: nat, cap: nat): int {
    (digits + powers) * Power(cap, powers)
  }

  predicate Fits(n: int, room: int) {
    room >= 0 && Magnitude(n) < Power(10, room)
  }

  lemma {:induction false} PowerIsPositive(base: nat, n: nat)
    requires base > 0
    ensures Power(base, n) >= 1
  {
    if n > 0 {
      PowerIsPositive(base, n - 1);
    }
  }

  lemma {:induction false} PowerOfSum(base: nat, m: nat, n: nat)
    ensures Power(base, m + n) == Power(base, m) * Power(base, n)
  {
    if m > 0 {
      PowerOfSum(base, m - 1, n);
      assert base * (Power(base, m - 1) * Power(base, n)) == base * Power(base, m - 1) * Power(base, n);
    }
  }

  lemma ScaledMore(n: nat, x: int, y: int)
    requires x <= y
    ensures n * x <= n * y
  {
    assert n * (y - x) >= 0;
  }

  lemma PowerGrows(base: nat, m: nat, n: nat)
    requires base > 0 && m <= n
    ensures 1 <= Power(base, m) <= Power(base, n)
  {
    PowerOfSum(base, m, n - m);
    PowerIsPositive(base, m);
    PowerIsPositive(base, n - m);
    ScaledMore(Power(base, m), 1, Power(base, n - m));
  }

  lemma {:induction false} NumberFitsItsDigits(n: nat)
    ensures Fits(n, Digits(n))
  {
    if n >= 10 {
      NumberFitsItsDigits(n / 10);
    }
  }

  // Two numbers side by side: sum and product fit where both fit together.
  lemma FitsTogether(a: int, b: int, x: nat, y: nat)
    requires Fits(a, x) && Fits(b, y)
    ensures Magnitude(a) + Magnitude(b) < Power(10, x + y)
    ensures Magnitude(a * b) < Power(10, x + y)
  {
    PowerOfSum(10, x, y);
    SidesFit(Magnitude(a), Magnitude(b), Power(10, x), Power(10, y));
    AbsoluteProduct(a, b);
  }

  lemma SidesFit(a: nat, b: nat, x: nat, y: nat)
    requires a < x && b < y
    ensures a + b < x * y && a * b < x * y
  {
    assert x * y == (x - 1) * (y - 1) + x + y - 1;
    ScaledMore(x - 1, 0, y - 1);
    ScaledMore(a, b, y - 1);
    ScaledMore(y - 1, a, x - 1);
  }

  lemma AbsoluteProduct(a: int, b: int)
    ensures Magnitude(a * b) == Magnitude(a) * Magnitude(b)
  {
    assert -a * -b == a * b && -a * b == -(a * b) && a * -b == -(a * b);
    if (a >= 0) == (b >= 0) {
      assert Magnitude(a) * Magnitude(b) >= 0;
    }
  }

  lemma FitsLarger(n: int, x: int, y: int)
    requires Fits(n, x) && x <= y
    ensures Fits(n, y)
  {
    PowerGrows(10, x, y);
  }

  lemma RoomAdds(d: nat, p: nat, d': nat, p': nat, cap: nat)
    requires cap > 0
    ensures 0 <= Room(d, p, cap) && 0 <= Room(d', p', cap)
    ensures Room(d, p, cap) + Room(d', p', cap) <= Room(d + d', p + p', cap)
  {
    PowerGrows(cap, p, p + p');
    PowerGrows(cap, p', p + p');
    ScaledMore(d + p, Power(cap, p), Power(cap, p + p'));
    ScaledMore(d' + p', Power(cap, p'), Power(cap, p + p'));
    Distribute(d + p, d' + p', Power(cap, p + p'));
  }

  lemma Distribute(m: int, n: int, x: int)
    ensures (m + n) * x == m * x + n * x
  {
  }

  lemma RoomForPower(d: nat, p: nat, cap: nat)
    requires cap > 0
    ensures Room(d, p, cap) >= 0 && Room(d, p, cap) * cap + 1 <= Room(d, p + 1, cap)
  {
    PowerGrows(cap, 0, p);
    PowerGrows(cap, 0, p + 1);
    ScaledMore(d + p, 0, Power(cap, p));
    assert (d + p) * Power(cap, p) * cap == (d + p) * (cap * Power(cap, p));
    assert (d + (p + 1)) * Power(cap, p + 1) == (d + p) * Power(cap, p + 1) + Power(cap, p + 1);
  }

  lemma {:induction false} PowerFits(base: int, exponent: nat, room: nat)
    requires Fits(base, room)
    ensures Fits(Power(base, exponent), room * exponent + 1)
  {
    if exponent == 0 {
      assert Power(10, room * 0 + 1) == 10;
    } else {
      PowerFits(base, exponent - 1, room);
      FitsTogether(base, Power(base, exponent - 1), room, room * (exponent - 1) + 1);
      assert room + (room * (exponent - 1) + 1) == room * exponent + 1;
    }
  }

  lemma QuotientShrinks(a: int, b: int)
    requires b != 0
    ensures Magnitude(Quotient(a, b)) <= Magnitude(a) && Magnitude(Remainder(a, b)) < Magnitude(b)
  {
    QuotientIsFloor(a, b);
    FloorShrinks(if b > 0 then a else -a, Magnitude(b), Quotient(a, b));
  }

  lemma FloorShrinks(a: int, b: nat, q: int)
    requires b > 0 && q * b <= a < q * b + b
    ensures Magnitude(q) <= Magnitude(a)
  {
    if q > 0 {
      ScaledMore(q, 1, b);
    } else if q < 0 {
      ScaledMore(-q - 1, 1, b);
      assert (-q - 1) * b == -(q * b) - b;
    }
  }

  function Mass(ns: seq<int>): nat {
    if ns == [] then 0 else Magnitude(ns[0]) + Mass(ns[1..])
  }

  function MassOf(v: ArgumentValue): nat {
    match v
    case ScalarValue(n) => Magnitude(n)
    case Items(ns) => Mass(ns)
  }

  function MassOfAll(vs: seq<ArgumentValue>): nat {
    if vs == [] then 0 else MassOf(vs[0]) + MassOfAll(vs[1..])
  }

  lemma {:induction false} MemberWithinMass(ns: seq<int>, n: int)
    requires n in ns
    ensures Magnitude(n) <= Mass(ns)
  {
    if n != ns[0] {
      MemberWithinMass(ns[1..], n);
    }
  }

  lemma {:induction false} TotalWithinMass(ns: seq<int>)
    ensures Magnitude(Total(ns)) <= Mass(ns)
  {
    if ns != [] {
      TotalWithinMass(ns[1..]);
    }
  }

  lemma {:induction false} ValueWithinMass(vs: seq<ArgumentValue>, v: ArgumentValue)
    requires v in vs
    ensures MassOf(v) <= MassOfAll(vs)
  {
    if v != vs[0] {
      ValueWithinMass(vs[1..], v);
    }
  }

  lemma OfferedWithinMass(vs: seq<ArgumentValue>, n: int)
    requires Offered(vs, n)
    ensures Magnitude(n) <= MassOfAll(vs)
  {
    if |vs| == 1 && vs[0].Items? {
      MemberWithinMass(vs[0].ns, n);
      ValueWithinMass(vs, vs[0]);
    } else {
      ValueWithinMass(vs, ScalarValue(n));
    }
  }

  // No function answers more than its arguments weigh together.
  lemma FunctionWithinMass(f: Function, vs: seq<ArgumentValue>, v: int)
    requires ApplyFunction(f, vs) == Value(v)
    ensures Magnitude(v) <= MassOfAll(vs)
  {
    hide ApplyFunction, Offered, Total, Mass;
    ApplyFunctionMeans(f, vs, v);
    match f {
      case Abs => ValueWithinMass(vs, vs[0]);
      case Min => OfferedWithinMass(vs, v);
      case Max => OfferedWithinMass(vs, v);
      case Sum =>
        TotalWithinMass(vs[0].ns);
        if |vs| == 2 {
          TotalAppends(vs[0].ns, vs[1].n);
          assert MassOfAll(vs) == MassOf(vs[0]) + (MassOf(vs[1]) + MassOfAll(vs[1..][1..]));
        }
      case OtherFunction =>
    }
  }

  lemma PairFits(a: int, b: int, d: nat, p: nat, d': nat, p': nat, cap: nat)
    requires cap > 0 && Fits(a, Room(d, p, cap)) && Fits(b, Room(d', p', cap))
    ensures var room := Room(d + d', p + p', cap);
      room >= 0 && Magnitude(a) + Magnitude(b) < Power(10, room) && Magnitude(a * b) < Power(10, room)
  {
    hide Room, Power, Magnitude;
    RoomAdds(d, p, d', p', cap);
    FitsTogether(a, b, Room(d, p, cap), Room(d', p', cap));
    PowerGrows(10, Room(d, p, cap) + Room(d', p', cap), Room(d + d', p + p', cap));
  }

  lemma PowerStaysFitting(a: int, b: nat, d: nat, p: nat, d': nat, p': nat, cap: nat)
    requires cap > 0 && b <= cap && Fits(a, Room(d, p, cap))
    ensures Fits(Power(a, b), Room(d + d', p + p' + 1, cap))
  {
    hide Room, Power, Magnitude;
    RoomForPower(d, p, cap);
    PowerFits(a, b, Room(d, p, cap));
    ScaledMore(Room(d, p, cap), b, cap);
    RoomAdds(d, p + 1, d', p', cap);
    assert p + 1 + p' == p + p' + 1;
    FitsLarger(Power(a, b), Room(d, p, cap) * b + 1, Room(d + d', p + p' + 1, cap));
  }

  /**
   * An answer has at most (d + p) * cap^p digits, where d counts the decimal digits of the
   * expression's numbers and p its powers: the exponent cap bounds every calculation.
   */
  lemma {:induction false} AnswerFits(e: Expr, v: int, cap: nat)
    requires cap > 0 && Evaluate(e, cap) == Value(v)
    ensures Fits(v, Room(DigitsIn(e), PowersIn(e), cap))
    decreases e, 1
  {
    hide Apply, ApplyFunction, FunctionOf, Room, Power;
    match e {
      case Num(value) =>
        NumberFitsItsDigits(value);
        RoomWithoutPowers(Digits(value), cap);
      case Signed(negative, operand) =>
        AnswerFits(operand, Evaluate(operand, cap).value, cap);
      case Binary(_, _, _) =>
        BinaryFits(e, v, cap);
      case Call(_, _, _) =>
        ArgumentsFit(e.args, EvaluateArguments(e.args, cap).value, cap);
        FunctionWithinMass(FunctionOf(e.name).value, EvaluateArguments(e.args, cap).value, v);
    }
  }

  lemma RoomWithoutPowers(d: nat, cap: nat)
    ensures Room(d, 0, cap) == d
  {
  }

  lemma {:induction false} BinaryFits(e: Expr, v: int, cap: nat)
    requires e.Binary? && cap > 0 && Evaluate(e, cap) == Value(v)
    ensures Fits(v, Room(DigitsIn(e), PowersIn(e), cap))
    decreases e, 0
  {
    hide Room, Power, Quotient, Remainder;
    var a, b := Evaluate(e.left, cap).value, Evaluate(e.right, cap).value;
    AnswerFits(e.left, a, cap);
    AnswerFits(e.right, b, cap);
    if e.op == Pow {
      PowerStaysFitting(a, b, DigitsIn(e.left), PowersIn(e.left), DigitsIn(e.right), PowersIn(e.right), cap);
    } else {
      PairFits(a, b, DigitsIn(e.left), PowersIn(e.left), DigitsIn(e.right), PowersIn(e.right), cap);
      if b != 0 {
        QuotientShrinks(a, b);
      }
    }
  }

  lemma {:induction false} ArgumentsFit(args: seq<Argument>, vs: seq<ArgumentValue>, cap: nat)
    requires cap > 0 && EvaluateArguments(args, cap) == Value(vs)
    ensures Fits(MassOfAll(vs), Room(DigitsInArguments(args), PowersInArguments(args), cap))
    decreases args
  {
    if args != [] {
      hide Evaluate, EvaluateArgument, Room, MassOf, DigitsInArgument, PowersInArgument;
      var first, rest := EvaluateArgument(args[0], cap).value, EvaluateArguments(args[1..], cap).value;
      assert vs == [first] + rest && vs[1..] == rest;
      ArgumentFits(args[0], first, cap);
      ArgumentsFit(args[1..], rest, cap);
      PairFits(MassOf(first), MassOfAll(rest), DigitsInArgument(args[0]), PowersInArgument(args[0]),
        DigitsInArguments(args[1..]), PowersInArguments(args[1..]), cap);
    }
  }

  lemma {:induction false} ArgumentFits(a: Argument, v: ArgumentValue, cap: nat)
    requires cap > 0 && EvaluateArgument(a, cap) == Value(v)
    ensures Fits(MassOf(v), Room(DigitsInArgument(a), PowersInArgument(a), cap))
    decreases a
  {
    hide Evaluate, EvaluateItems, Room, Power, Mass;
    match a {
      case Scalar(e) => AnswerFits(e, v.n, cap);
      case ListOf(items) => ItemsFit(items, v.ns, cap);
    }
  }

  lemma {:induction false} ItemsFit(items: seq<Expr>, ns: seq<int>, cap: nat)
    requires cap > 0 && EvaluateItems(items, cap) == Value(ns)
    ensures Fits(Mass(ns), Room(DigitsInItems(items), PowersInItems(items), cap))
    decreases items
  {
    if items != [] {
      hide Evaluate, Room;
      var first, rest := Evaluate(items[0], cap).value, EvaluateItems(items[1..], cap).value;
      assert ns == [first] + rest && ns[1..] == rest;
      AnswerFits(items[0], first, cap);
      ItemsFit(items[1..], rest, cap);
      PairFits(first, Mass(rest), DigitsIn(items[0]), PowersIn(items[0]),
        DigitsInItems(items[1..]), PowersInItems(items[1..]), cap);
    }
  }
}
