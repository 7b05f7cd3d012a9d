/** The calculator's evaluator on integers: what it answers, what the answer means and how large it gets. */
module Calculator {
  import opened SessionKeys

  datatype Op = Add | Sub | Mult | FloorDiv | Mod | Pow | Div

  // A parsed expression. `Unknown` stands for every node that is not on the allowlist.
  datatype Expr =
    | Num(value: nat)
    | Float
    | NotANumber                                            // a literal of another type
    | Signed(negative: bool, operand: Expr)
    | Binary(op: Op, left: Expr, right: Expr)
    | Call(name: string, keywords: bool, args: seq<Argument>)
    | Unknown

  datatype Argument = Scalar(e: Expr) | ListOf(items: seq<Expr>)

  // An answer, a refusal, or a number that is not an integer, about which nothing is said.
  datatype Outcome<+T> = Value(value: T) | Refused | Outside

  datatype ArgumentValue = ScalarValue(n: int) | Items(ns: seq<int>)

  datatype Function = Abs | Min | Max | Sum | OtherFunction

  function FunctionOf(name: string): Option<Function> {
    if name == "abs" then Some(Abs)
    else if name == "min" then Some(Min)
    else if name == "max" then Some(Max)
    else if name == "sum" then Some(Sum)
    else if name == "round" || name == "log" || name == "sqrt" then Some(OtherFunction)
    else None
  }

  // ---- Python's integer arithmetic ----

  function Power(base: int, exponent: nat): int {
    if exponent == 0 then 1 else base * Power(base, exponent - 1)
  }

  function Quotient(a: int, b: int): int
    requires b != 0
  {
    if b > 0 then a / b else -a / -b
  }

  function Remainder(a: int, b: int): int
    requires b != 0
  {
    a - Quotient(a, b) * b
  }

  function Magnitude(n: int): nat {
    if n < 0 then -n else n
  }

  function Lesser(a: int, b: int): int {
    if b < a then b else a
  }

  function Greater(a: int, b: int): int {
    if b > a then b else a
  }

  function Least(ns: seq<int>): int
    requires ns != []
  {
    if |ns| == 1 then ns[0] else Lesser(Least(ns[..|ns| - 1]), ns[|ns| - 1])
  }

  function Greatest(ns: seq<int>): int
    requires ns != []
  {
    if |ns| == 1 then ns[0] else Greater(Greatest(ns[..|ns| - 1]), ns[|ns| - 1])
  }

  function Total(ns: seq<int>): int {
    if ns == [] then 0 else ns[0] + Total(ns[1..])
  }

  // ---- The evaluator ----

  function Apply(op: Op, a: int, b: int, cap: nat): Outcome<int> {
    match op
    case Add => Value(a + b)
    case Sub => Value(a - b)
    case Mult => Value(a * b)
    case FloorDiv => if b == 0 then Refused else Value(Quotient(a, b))
    case Mod => if b == 0 then Refused else Value(Remainder(a, b))
    case Pow =>
      if Magnitude(b) > cap then Refused
      else if b >= 0 then Value(Power(a, b))
      else if a == 0 then Refused
      else Outside
    case Div => if b == 0 then Refused else Outside
  }

  predicate AllScalars(vs: seq<ArgumentValue>) {
    forall i :: 0 <= i < |vs| ==> vs[i].ScalarValue?
  }

  predicate AllLists(vs: seq<ArgumentValue>) {
    forall i :: 0 <= i < |vs| ==> vs[i].Items?
  }

  function Numbers(vs: seq<ArgumentValue>): (ns: seq<int>)
    requires AllScalars(vs)
    ensures |ns| == |vs| && forall i :: 0 <= i < |vs| ==> ns[i] == vs[i].n
  {
    if vs == [] then [] else [vs[0].n] + Numbers(vs[1..])
  }

  // What `min` and `max` compare, when they can.
  function Compared(vs: seq<ArgumentValue>): Outcome<seq<int>> {
    if vs == [] then Refused
    else if |vs| == 1 then
      if vs[0].Items? && vs[0].ns != [] then Value(vs[0].ns) else Refused
    else if AllScalars(vs) then Value(Numbers(vs))
    else if AllLists(vs) then Outside                       // the answer is a list
    else Refused
  }

  function ApplyFunction(f: Function, vs: seq<ArgumentValue>): Outcome<int> {
    match f
    case Abs => if |vs| == 1 && vs[0].ScalarValue? then Value(Magnitude(vs[0].n)) else Refused
    case Min =>
      (match Compared(vs)
       case Value(ns) => if ns != [] then Value(Least(ns)) else Refused
       case Refused => Refused
       case Outside => Outside)
    case Max =>
      (match Compared(vs)
       case Value(ns) => if ns != [] then Value(Greatest(ns)) else Refused
       case Refused => Refused
       case Outside => Outside)
    case Sum =>
      if |vs| == 1 && vs[0].Items? then Value(Total(vs[0].ns))
      else if |vs| == 2 && vs[0].Items? && vs[1].ScalarValue? then Value(vs[1].n + Total(vs[0].ns))
      else if |vs| == 2 && vs[0] == Items([]) then Outside  // the answer is the list given as a start
      else Refused
    case OtherFunction => Outside
  }

  function Evaluate(e: Expr, cap: nat): Outcome<int> {
    match e
    case Num(value) => Value(value)
    case Float => Outside
    case NotANumber => Refused
    case Unknown => Refused
    case Signed(negative, operand) =>
      (match Evaluate(operand, cap)
       case Value(n) => Value(if negative then -n else n)
       case Refused => Refused
       case Outside => Outside)
    case Binary(op, left, right) =>
      var a := Evaluate(left, cap);
      if !a.Value? then a else
      var b := Evaluate(right, cap);
      if !b.Value? then b else Apply(op, a.value, b.value, cap)
    case Call(name, keywords, args) =>
      if FunctionOf(name).None? || keywords then Refused
      else
        match EvaluateArguments(args, cap)
        case Value(vs) => ApplyFunction(FunctionOf(name).value, vs)
        case Refused => Refused
        case Outside => Outside
  }

  function EvaluateArgument(a: Argument, cap: nat): Outcome<ArgumentValue> {
    match a
    case Scalar(e) =>
      (match Evaluate(e, cap)
       case Value(n) => Value(ScalarValue(n))
       case Refused => Refused
       case Outside => Outside)
    case ListOf(items) =>
      (match EvaluateItems(items, cap)
       case Value(ns) => Value(Items(ns))
       case Refused => Refused
       case Outside => Outside)
  }

  function EvaluateArguments(args: seq<Argument>, cap: nat): Outcome<seq<ArgumentValue>> {
    if args == [] then Value([])
    else
      var first := EvaluateArgument(args[0], cap);
      if first.Refused? then Refused
      else if first.Outside? then Outside
      else
        match EvaluateArguments(args[1..], cap)
        case Value(rest) => Value([first.value] + rest)
        case Refused => Refused
        case Outside => Outside
  }

  function EvaluateItems(items: seq<Expr>, cap: nat): Outcome<seq<int>> {
    if items == [] then Value([])
    else
      var first := Evaluate(items[0], cap);
      if first.Refused? then Refused
      else if first.Outside? then Outside
      else
        match EvaluateItems(items[1..], cap)
        case Value(rest) => Value([first.value] + rest)
        case Refused => Refused
        case Outside => Outside
  }

  // ---- What an expression means ----

  // `q` is the largest integer at most a / b.
  ghost predicate IsFloor(a: int, b: int, q: int) {
    if b > 0 then q * b <= a < q * b + b else q * b >= a > q * b + b
  }

  ghost predicate OpMeans(op: Op, a: int, b: int, v: int, cap: nat) {
    match op
    case Add => v == a + b
    case Sub => v + b == a
    case Mult => v == a * b
    case FloorDiv => b != 0 && IsFloor(a, b, v)
    // The remainder has the sign of the divisor and is smaller.
    case Mod => (0 <= v < b || b < v <= 0) && exists q: int :: a == q * b + v
    case Pow => 0 <= b <= cap && v == Power(a, b)
    case Div => false
  }

  /** A power is a product of as many factors as the exponent says. */
  lemma {:induction false} PowerMultiplies(a: int, m: nat, n: nat)
    ensures Power(a, 0) == 1 && Power(a, 1) == a
    ensures Power(a, m + n) == Power(a, m) * Power(a, n)
  {
    assert Power(a, 1) == a * Power(a, 0);
    if m > 0 {
      PowerMultiplies(a, m - 1, n);
    }
  }

  // `min` and `max` take one list or several numbers.
  ghost predicate Comparable(vs: seq<ArgumentValue>) {
    (|vs| == 1 && vs[0].Items?) || (|vs| >= 2 && AllScalars(vs))
  }

  ghost predicate Offered(vs: seq<ArgumentValue>, n: int) {
    if |vs| == 1 && vs[0].Items? then n in vs[0].ns else ScalarValue(n) in vs
  }

  ghost predicate FunctionMeans(f: Function, vs: seq<ArgumentValue>, v: int) {
    match f
    case Abs => |vs| == 1 && v >= 0 && (vs[0] == ScalarValue(v) || vs[0] == ScalarValue(-v))
    case Min => Comparable(vs) && Offered(vs, v) && forall n :: Offered(vs, n) ==> v <= n
    case Max => Comparable(vs) && Offered(vs, v) && forall n :: Offered(vs, n) ==> n <= v
    case Sum =>
      || (|vs| == 1 && vs[0].Items? && v == Total(vs[0].ns))
      || (|vs| == 2 && vs[0].Items? && vs[1].ScalarValue? && v == Total(vs[0].ns + [vs[1].n]))
    case OtherFunction => false
  }

  ghost predicate Means(e: Expr, v: int, cap: nat) {
    match e
    case Num(value) => v == value
    case Signed(negative, operand) => Means(operand, if negative then -v else v, cap)
    case Binary(op, left, right) =>
      exists a, b :: Means(left, a, cap) && Means(right, b, cap) && OpMeans(op, a, b, v, cap)
    case Call(name, keywords, args) =>
      !keywords && exists vs :: ArgumentsMean(args, vs, cap) && CallMeans(name, vs, v)
    case _ => false
  }

  // The functions by the names that are written; no other name means anything.
  ghost predicate CallMeans(name: string, vs: seq<ArgumentValue>, v: int) {
    || (name == "abs" && FunctionMeans(Abs, vs, v))
    || (name == "min" && FunctionMeans(Min, vs, v))
    || (name == "max" && FunctionMeans(Max, vs, v))
    || (name == "sum" && FunctionMeans(Sum, vs, v))
  }

  lemma NamedFunctionMeans(name: string, vs: seq<ArgumentValue>, v: int)
    ensures CallMeans(name, vs, v) <==> FunctionOf(name).Some? && FunctionMeans(FunctionOf(name).value, vs, v)
  {
  }

  ghost predicate ArgumentMeans(a: Argument, v: ArgumentValue, cap: nat) {
    match a
    case Scalar(e) => v.ScalarValue? && Means(e, v.n, cap)
    case ListOf(items) => v.Items? && ItemsMean(items, v.ns, cap)
  }

  ghost predicate ArgumentsMean(args: seq<Argument>, vs: seq<ArgumentValue>, cap: nat) {
    |args| == |vs| && forall i :: 0 <= i < |args| ==> ArgumentMeans(args[i], vs[i], cap)
  }

  ghost predicate ItemsMean(items: seq<Expr>, ns: seq<int>, cap: nat) {
    |items| == |ns| && forall i :: 0 <= i < |items| ==> Means(items[i], ns[i], cap)
  }

  // ---- The evaluator computes the meaning ----

  lemma MultipleIsNoNearer(d: int, b: int)
    requires d >= 1
    ensures if b > 0 then d * b >= b else d * b <= b
  {
    if b > 0 {
      assert (d - 1) * b >= 0;
    } else {
      assert (d - 1) * -b >= 0;
    }
  }

  lemma FloorIsLargest(a: int, b: int, q: int, r: int)
    requires b != 0 && IsFloor(a, b, q) && IsFloor(a, b, r)
    ensures q <= r
  {
    assert q * b == r * b + (q - r) * b;
    if q > r {
      MultipleIsNoNearer(q - r, b);
    }
  }

  lemma FloorIsUnique(a: int, b: int, q: int, r: int)
    requires b != 0 && IsFloor(a, b, q) && IsFloor(a, b, r)
    ensures q == r
  {
    FloorIsLargest(a, b, q, r);
    FloorIsLargest(a, b, r, q);
  }

  lemma QuotientIsFloor(a: int, b: int)
    requires b != 0
    ensures IsFloor(a, b, Quotient(a, b))
  {
    if b > 0 {
      assert a == a / b * b + a % b;
    } else {
      assert -a == -a / -b * -b + -a % -b;
    }
  }

  lemma RemainderMeans(a: int, b: int, v: int)
    requires b != 0
    ensures v == Remainder(a, b) <==> OpMeans(Mod, a, b, v, 0)
  {
    QuotientIsFloor(a, b);
    if v == Remainder(a, b) {
      assert a == Quotient(a, b) * b + v;
    }
    if OpMeans(Mod, a, b, v, 0) {
      var q: int :| a == q * b + v;
      FloorIsUnique(a, b, q, Quotient(a, b));
    }
  }

  lemma ApplyMeans(op: Op, a: int, b: int, v: int, cap: nat)
    ensures Apply(op, a, b, cap) == Value(v) <==> OpMeans(op, a, b, v, cap)
  {
    if b != 0 {
      QuotientIsFloor(a, b);
      RemainderMeans(a, b, v);
      if op == FloorDiv && IsFloor(a, b, v) {
        FloorIsUnique(a, b, v, Quotient(a, b));
      }
    }
  }

  // The operation leaves the integers: a fraction, or a negative power of a number that is not zero.
  ghost predicate LeavesIntegers(op: Op, a: int, b: int, cap: nat) {
    (op == Div && b != 0) || (op == Pow && a != 0 && b < 0 && Magnitude(b) <= cap)
  }

  lemma ApplyLeaves(op: Op, a: int, b: int, cap: nat)
    ensures Apply(op, a, b, cap) == Outside <==> LeavesIntegers(op, a, b, cap)
    ensures Apply(op, a, b, cap) == Refused
      <==> !LeavesIntegers(op, a, b, cap) && forall v :: !OpMeans(op, a, b, v, cap)
  {
    forall v ensures Apply(op, a, b, cap) == Value(v) <==> OpMeans(op, a, b, v, cap) {
      ApplyMeans(op, a, b, v, cap);
    }
    if Apply(op, a, b, cap).Value? {
      ApplyMeans(op, a, b, Apply(op, a, b, cap).value, cap);
    }
  }

  lemma {:induction false} LeastMeans(ns: seq<int>)
    requires ns != []
    ensures Least(ns) in ns && forall n :: n in ns ==> Least(ns) <= n
  {
    if |ns| > 1 {
      LeastMeans(ns[..|ns| - 1]);
      assert ns == ns[..|ns| - 1] + [ns[|ns| - 1]];
    }
  }

  lemma {:induction false} GreatestMeans(ns: seq<int>)
    requires ns != []
    ensures Greatest(ns) in ns && forall n :: n in ns ==> n <= Greatest(ns)
  {
    if |ns| > 1 {
      GreatestMeans(ns[..|ns| - 1]);
      assert ns == ns[..|ns| - 1] + [ns[|ns| - 1]];
    }
  }

  lemma ComparedMeans(vs: seq<ArgumentValue>)
    ensures Compared(vs).Value? <==> Comparable(vs) && exists n :: Offered(vs, n)
    ensures Compared(vs).Value? ==> Compared(vs).value != [] && forall n :: n in Compared(vs).value <==> Offered(vs, n)
  {
    if |vs| >= 2 && AllScalars(vs) {
      var ns := Numbers(vs);
      forall n ensures n in ns <==> ScalarValue(n) in vs {
        if ScalarValue(n) in vs {
          var i :| 0 <= i < |vs| && vs[i] == ScalarValue(n);
          assert ns[i] == n;
        }
      }
      assert Offered(vs, vs[0].n);
    } else if |vs| == 1 && vs[0].Items? && vs[0].ns != [] {
      assert Offered(vs, vs[0].ns[0]);
    }
  }

  lemma {:induction false} TotalAppends(ns: seq<int>, n: int)
    ensures Total(ns + [n]) == Total(ns) + n
  {
    if ns != [] {
      TotalAppends(ns[1..], n);
      assert (ns + [n])[1..] == ns[1..] + [n];
    }
  }

  lemma ApplyFunctionMeans(f: Function, vs: seq<ArgumentValue>, v: int)
    ensures ApplyFunction(f, vs) == Value(v) <==> FunctionMeans(f, vs, v)
  {
    hide Compared, Offered, Comparable, Total;
    if f.Min? || f.Max? {
      ComparedMeans(vs);
      if Compared(vs).Value? {
        LeastMeans(Compared(vs).value);
        GreatestMeans(Compared(vs).value);
      }
    } else if f.Sum? && |vs| == 2 && vs[0].Items? && vs[1].ScalarValue? {
      TotalAppends(vs[0].ns, vs[1].n);
    }
  }

  // The answer is a list, or not an integer.
  ghost predicate LeavesNumbers(f: Function, vs: seq<ArgumentValue>) {
    match f
    case Abs => false
    case Min => |vs| >= 2 && AllLists(vs)
    case Max => |vs| >= 2 && AllLists(vs)
    case Sum => exists start :: vs == [Items([]), Items(start)]
    case OtherFunction => true
  }

  lemma ApplyFunctionLeaves(f: Function, vs: seq<ArgumentValue>)
    ensures ApplyFunction(f, vs) == Outside <==> LeavesNumbers(f, vs)
    ensures ApplyFunction(f, vs) == Refused <==> !LeavesNumbers(f, vs) && forall v :: !FunctionMeans(f, vs, v)
  {
    hide FunctionMeans;
    forall v ensures ApplyFunction(f, vs) == Value(v) <==> FunctionMeans(f, vs, v) {
      ApplyFunctionMeans(f, vs, v);
    }
    if ApplyFunction(f, vs).Value? {
      ApplyFunctionMeans(f, vs, ApplyFunction(f, vs).value);
    }
    if f.Sum? && |vs| == 2 && vs[0] == Items([]) && vs[1].Items? {
      assert vs == [Items([]), Items(vs[1].ns)];
    }
  }

  /** The evaluator answers exactly what the expression means, and answers nothing when it means nothing. */
  lemma {:induction false} EvaluateIsMeaning(e: Expr, v: int, cap: nat)
    ensures Evaluate(e, cap) == Value(v) <==> Means(e, v, cap)
    decreases e, 1
  {
    hide Apply, ApplyFunction, OpMeans, CallMeans, FunctionOf;
    match e {
      case Signed(negative, operand) =>
        EvaluateIsMeaning(operand, if negative then -v else v, cap);
      case Binary(_, _, _) =>
        BinaryIsMeaning(e, v, cap);
      case Call(_, _, _) =>
        CallIsMeaning(e, v, cap);
      case _ =>
    }
  }

  lemma {:induction false} BinaryIsMeaning(e: Expr, v: int, cap: nat)
    requires e.Binary?
    ensures Evaluate(e, cap) == Value(v) <==> Means(e, v, cap)
    decreases e, 0
  {
    hide Apply, OpMeans;
    var a, b := Evaluate(e.left, cap), Evaluate(e.right, cap);
    forall n ensures Means(e.left, n, cap) <==> a == Value(n) {
      EvaluateIsMeaning(e.left, n, cap);
    }
    forall n ensures Means(e.right, n, cap) <==> b == Value(n) {
      EvaluateIsMeaning(e.right, n, cap);
    }
    if a.Value? && b.Value? {
      ApplyMeans(e.op, a.value, b.value, v, cap);
    }
  }

  lemma {:induction false} CallIsMeaning(e: Expr, v: int, cap: nat)
    requires e.Call?
    ensures Evaluate(e, cap) == Value(v) <==> Means(e, v, cap)
    decreases e, 0
  {
    hide ApplyFunction, FunctionMeans, CallMeans, FunctionOf, ArgumentsMean;
    forall vs: seq<ArgumentValue>
      ensures CallMeans(e.name, vs, v) <==> FunctionOf(e.name).Some? && FunctionMeans(FunctionOf(e.name).value, vs, v)
    {
      NamedFunctionMeans(e.name, vs, v);
    }
    if FunctionOf(e.name).Some? && !e.keywords {
      var f := FunctionOf(e.name).value;
      forall vs: seq<ArgumentValue>
        ensures ArgumentsMean(e.args, vs, cap) <==> EvaluateArguments(e.args, cap) == Value(vs)
      {
        ArgumentsAreMeaning(e.args, vs, cap);
      }
      forall vs: seq<ArgumentValue> ensures ApplyFunction(f, vs) == Value(v) <==> FunctionMeans(f, vs, v) {
        ApplyFunctionMeans(f, vs, v);
      }
    }
  }

  lemma {:induction false} ArgumentsAreMeaning(args: seq<Argument>, vs: seq<ArgumentValue>, cap: nat)
    ensures EvaluateArguments(args, cap) == Value(vs) <==> ArgumentsMean(args, vs, cap)
    decreases args
  {
    hide Evaluate, EvaluateArgument, ArgumentMeans;
    if args != [] && vs != [] {
      ArgumentIsMeaning(args[0], vs[0], cap);
      ArgumentsAreMeaning(args[1..], vs[1..], cap);
      assert vs == [vs[0]] + vs[1..];
      assert ArgumentsMean(args, vs, cap)
        <==> ArgumentMeans(args[0], vs[0], cap) && ArgumentsMean(args[1..], vs[1..], cap) by
      {
        assert forall i :: 0 < i < |args| ==> args[i] == args[1..][i - 1];
        assert forall i :: 0 < i < |vs| ==> vs[i] == vs[1..][i - 1];
      }
    }
  }

  lemma {:induction false} ArgumentIsMeaning(a: Argument, v: ArgumentValue, cap: nat)
    ensures EvaluateArgument(a, cap) == Value(v) <==> ArgumentMeans(a, v, cap)
    decreases a
  {
    hide Evaluate, Means;
    match a {
      case Scalar(e) =>
        if v.ScalarValue? {
          EvaluateIsMeaning(e, v.n, cap);
        }
      case ListOf(items) =>
        if v.Items? {
          ItemsAreMeaning(items, v.ns, cap);
        }
    }
  }

  lemma {:induction false} ItemsAreMeaning(items: seq<Expr>, ns: seq<int>, cap: nat)
    ensures EvaluateItems(items, cap) == Value(ns) <==> ItemsMean(items, ns, cap)
    decreases items
  {
    hide Evaluate, Means;
    if items != [] && ns != [] {
      EvaluateIsMeaning(items[0], ns[0], cap);
      ItemsAreMeaning(items[1..], ns[1..], cap);
      assert ns == [ns[0]] + ns[1..];
      assert ItemsMean(items, ns, cap) <==> Means(items[0], ns[0], cap) && ItemsMean(items[1..], ns[1..], cap) by {
        assert forall i :: 0 < i < |items| ==> items[i] == items[1..][i - 1];
        assert forall i :: 0 < i < |ns| ==> ns[i] == ns[1..][i - 1];
      }
    }
  }
}
