/** When the calculator's evaluator answers, when it refuses, and when it leaves the integers. */
module CalculatorOutcomes {
  import opened Calculator
  import opened SessionKeys

  // ---- Leaving the integers ----

  ghost predicate HasMeaning(e: Expr, cap: nat) {
    exists v :: Means(e, v, cap)
  }

  ghost predicate ArgumentHasMeaning(a: Argument, cap: nat) {
    exists v :: ArgumentMeans(a, v, cap)
  }

  // Evaluation, from left to right, reaches a number that is not an integer, or a list for a number.
  ghost predicate Departs(e: Expr, cap: nat) {
    match e
    case Float => true
    case Signed(_, operand) => Departs(operand, cap)
    case Binary(op, left, right) =>
      || Departs(left, cap)
      || (HasMeaning(left, cap) && Departs(right, cap))
      || (exists a, b :: Means(left, a, cap) && Means(right, b, cap) && LeavesIntegers(op, a, b, cap))
    case Call(name, keywords, args) =>
      IsKnown(name) && !keywords
      && (ArgumentsDepart(args, cap) || exists vs :: ArgumentsMean(args, vs, cap) && CallLeaves(name, vs))
    case _ => false
  }

  predicate IsFractional(name: string) {
    name == "round" || name == "log" || name == "sqrt"
  }

  predicate IsKnown(name: string) {
    name == "abs" || name == "min" || name == "max" || name == "sum" || IsFractional(name)
  }

  // The functions by the names that are written: a list for an answer, or a fraction.
  ghost predicate CallLeaves(name: string, vs: seq<ArgumentValue>) {
    || ((name == "min" || name == "max") && |vs| >= 2 && forall v :: v in vs ==> v.Items?)
    || (name == "sum" && exists start :: vs == [Items([]), Items(start)])
    || IsFractional(name)
  }

  lemma NamedFunctionLeaves(name: string)
    ensures IsKnown(name) <==> FunctionOf(name).Some?
    ensures IsFractional(name) <==> FunctionOf(name) == Some(OtherFunction)
    ensures IsKnown(name) ==> forall vs :: CallLeaves(name, vs) <==> LeavesNumbers(FunctionOf(name).value, vs)
  {
  }

  ghost predicate ArgumentDeparts(a: Argument, cap: nat) {
    match a
    case Scalar(e) => Departs(e, cap)
    case ListOf(items) => ItemsDepart(items, cap)
  }

  // Some argument departs, and all before it have a meaning.
  ghost predicate ArgumentsDepart(args: seq<Argument>, cap: nat) {
    exists i :: 0 <= i < |args| && ArgumentDeparts(args[i], cap)
      && forall j :: 0 <= j < i ==> ArgumentHasMeaning(args[j], cap)
  }

  ghost predicate ItemsDepart(items: seq<Expr>, cap: nat) {
    exists i :: 0 <= i < |items| && Departs(items[i], cap) && forall j :: 0 <= j < i ==> HasMeaning(items[j], cap)
  }

  lemma ValueIffMeaning(e: Expr, cap: nat)
    ensures Evaluate(e, cap).Value? <==> HasMeaning(e, cap)
  {
    hide Evaluate, Means;
    forall v ensures Means(e, v, cap) <==> Evaluate(e, cap) == Value(v) {
      EvaluateIsMeaning(e, v, cap);
    }
    assert Evaluate(e, cap).Value? ==> Means(e, Evaluate(e, cap).value, cap);
  }

  lemma ArgumentValueIffMeaning(a: Argument, cap: nat)
    ensures EvaluateArgument(a, cap).Value? <==> ArgumentHasMeaning(a, cap)
  {
    hide EvaluateArgument, ArgumentMeans;
    forall v ensures ArgumentMeans(a, v, cap) <==> EvaluateArgument(a, cap) == Value(v) {
      ArgumentIsMeaning(a, v, cap);
    }
    assert EvaluateArgument(a, cap).Value? ==> ArgumentMeans(a, EvaluateArgument(a, cap).value, cap);
  }

  /**
   * The evaluator leaves the integers exactly when the tree does: at a fraction, a negative power, a
   * fractional function or a list for an answer, with everything before it evaluated.
   */
  lemma {:induction false} LeavesIffDeparts(e: Expr, cap: nat)
    ensures Evaluate(e, cap).Outside? <==> Departs(e, cap)
    decreases e, 1
  {
    match e {
      case Signed(_, operand) => LeavesIffDeparts(operand, cap);
      case Binary(_, _, _) => BinaryLeavesIff(e, cap);
      case Call(_, _, _) => CallLeavesIff(e, cap);
      case _ =>
    }
  }

  lemma {:induction false} BinaryLeavesIff(e: Expr, cap: nat)
    requires e.Binary?
    ensures Evaluate(e, cap).Outside? <==> Departs(e, cap)
    decreases e, 0
  {
    hide Apply, LeavesIntegers, Means, HasMeaning;
    ValueIffMeaning(e.left, cap);
    var a, b := Evaluate(e.left, cap), Evaluate(e.right, cap);
    LeavesIffDeparts(e.left, cap);
    LeavesIffDeparts(e.right, cap);
    forall n ensures Means(e.left, n, cap) <==> a == Value(n) {
      EvaluateIsMeaning(e.left, n, cap);
    }
    forall n ensures Means(e.right, n, cap) <==> b == Value(n) {
      EvaluateIsMeaning(e.right, n, cap);
    }
    if a.Value? && b.Value? {
      ApplyLeaves(e.op, a.value, b.value, cap);
      assert Means(e.left, a.value, cap) && Means(e.right, b.value, cap);
    }
  }

  lemma {:induction false} CallLeavesIff(e: Expr, cap: nat)
    requires e.Call?
    ensures Evaluate(e, cap).Outside? <==> Departs(e, cap)
    decreases e, 0
  {
    hide ApplyFunction, LeavesNumbers, CallLeaves, IsKnown, FunctionOf, ArgumentsMean, ArgumentsDepart;
    NamedFunctionLeaves(e.name);
    ArgumentsLeaveIff(e.args, cap);
    forall vs: seq<ArgumentValue>
      ensures ArgumentsMean(e.args, vs, cap) <==> EvaluateArguments(e.args, cap) == Value(vs)
    {
      ArgumentsAreMeaning(e.args, vs, cap);
    }
    if FunctionOf(e.name).Some? && EvaluateArguments(e.args, cap).Value? {
      ApplyFunctionLeaves(FunctionOf(e.name).value, EvaluateArguments(e.args, cap).value);
    }
  }

  lemma {:induction false} ArgumentLeavesIff(a: Argument, cap: nat)
    ensures EvaluateArgument(a, cap).Outside? <==> ArgumentDeparts(a, cap)
    decreases a
  {
    match a {
      case Scalar(e) => LeavesIffDeparts(e, cap);
      case ListOf(items) => ItemsLeaveIff(items, cap);
    }
  }

  lemma {:induction false} ArgumentsLeaveIff(args: seq<Argument>, cap: nat)
    ensures EvaluateArguments(args, cap).Outside? <==> ArgumentsDepart(args, cap)
    decreases args
  {
    if args != [] {
      hide EvaluateArgument, ArgumentDeparts, ArgumentHasMeaning, ArgumentsDepart;
      ArgumentLeavesIff(args[0], cap);
      ArgumentsLeaveIff(args[1..], cap);
      FirstArgumentDeparts(args, cap);
      ArgumentValueIffMeaning(args[0], cap);
    }
  }

  // The first argument departs, or it has a meaning and one after it departs.
  lemma FirstArgumentDeparts(args: seq<Argument>, cap: nat)
    requires args != []
    ensures ArgumentsDepart(args, cap)
      <==> ArgumentDeparts(args[0], cap) || (ArgumentHasMeaning(args[0], cap) && ArgumentsDepart(args[1..], cap))
  {
    hide ArgumentDeparts, ArgumentHasMeaning;
    if i :|
      0 < i < |args| && ArgumentDeparts(args[i], cap) && forall j :: 0 <= j < i ==> ArgumentHasMeaning(args[j], cap)
    {
      assert args[1..][i - 1] == args[i];
      forall j | 0 <= j < i - 1 ensures ArgumentHasMeaning(args[1..][j], cap) {
        assert args[1..][j] == args[j + 1];
      }
    }
    if ArgumentHasMeaning(args[0], cap) && ArgumentsDepart(args[1..], cap) {
      var i :| 0 <= i < |args[1..]| && ArgumentDeparts(args[1..][i], cap)
        && forall j :: 0 <= j < i ==> ArgumentHasMeaning(args[1..][j], cap);
      assert args[i + 1] == args[1..][i];
      forall j | 0 < j < i + 1 ensures ArgumentHasMeaning(args[j], cap) {
        assert args[j] == args[1..][j - 1];
      }
    }
  }

  lemma {:induction false} ItemsLeaveIff(items: seq<Expr>, cap: nat)
    ensures EvaluateItems(items, cap).Outside? <==> ItemsDepart(items, cap)
    decreases items
  {
    if items != [] {
      hide Evaluate, Departs, HasMeaning, ItemsDepart;
      LeavesIffDeparts(items[0], cap);
      ItemsLeaveIff(items[1..], cap);
      FirstItemDeparts(items, cap);
      ValueIffMeaning(items[0], cap);
    }
  }

  lemma FirstItemDeparts(items: seq<Expr>, cap: nat)
    requires items != []
    ensures ItemsDepart(items, cap)
      <==> Departs(items[0], cap) || (HasMeaning(items[0], cap) && ItemsDepart(items[1..], cap))
  {
    hide Departs, HasMeaning;
    if i :| 0 < i < |items| && Departs(items[i], cap) && forall j :: 0 <= j < i ==> HasMeaning(items[j], cap) {
      assert items[1..][i - 1] == items[i];
      forall j | 0 <= j < i - 1 ensures HasMeaning(items[1..][j], cap) {
        assert items[1..][j] == items[j + 1];
      }
    }
    if HasMeaning(items[0], cap) && ItemsDepart(items[1..], cap) {
      var i :| 0 <= i < |items[1..]| && Departs(items[1..][i], cap)
        && forall j :: 0 <= j < i ==> HasMeaning(items[1..][j], cap);
      assert items[i + 1] == items[1..][i];
      forall j | 0 < j < i + 1 ensures HasMeaning(items[j], cap) {
        assert items[j] == items[1..][j - 1];
      }
    }
  }

  /** Every expression is answered with its meaning, leaves the integers, or is refused: whichever applies. */
  lemma OutcomeIsExact(e: Expr, cap: nat)
    ensures forall v :: Evaluate(e, cap) == Value(v) <==> Means(e, v, cap)
    ensures Evaluate(e, cap).Outside? <==> Departs(e, cap)
    ensures Evaluate(e, cap).Refused? <==> !Departs(e, cap) && forall v :: !Means(e, v, cap)
  {
    hide Evaluate, Means, Departs;
    LeavesIffDeparts(e, cap);
    forall v ensures Means(e, v, cap) <==> Evaluate(e, cap) == Value(v) {
      EvaluateIsMeaning(e, v, cap);
    }
    if Evaluate(e, cap).Value? {
      EvaluateIsMeaning(e, Evaluate(e, cap).value, cap);
    }
  }

  // ---- When the answer is always a number ----

  // Integers only: no division into fractions, no fractional function, no exponent that could be
  // negative, and functions given numbers or one list.
  predicate Plain(e: Expr) {
    match e
    case Num(_) => true
    case Float => false
    case NotANumber => true
    case Unknown => true
    case Signed(_, operand) => Plain(operand)
    case Binary(op, left, right) => op != Div && (op == Pow ==> NonNegative(right)) && Plain(left) && Plain(right)
    case Call(name, _, args) =>
      !IsFractional(name) && PlainArguments(args) && (|args| > 1 ==> AllScalarArguments(args))
  }

  // Built from parts that are not negative.
  predicate NonNegative(e: Expr) {
    match e
    case Num(_) => true
    case Signed(negative, operand) => !negative && NonNegative(operand)
    case Binary(op, left, right) =>
      || ((op == Add || op == Mult || op == FloorDiv || op == Pow) && NonNegative(left) && NonNegative(right))
      || (op == Mod && NonNegative(right))
    case Call(name, _, _) => name == "abs"
    case _ => false
  }

  predicate AllScalarArguments(args: seq<Argument>) {
    forall i :: 0 <= i < |args| ==> args[i].Scalar?
  }

  predicate PlainArguments(args: seq<Argument>) {
    forall i :: 0 <= i < |args| ==> PlainArgument(args[i])
  }

  predicate PlainArgument(a: Argument) {
    match a
    case Scalar(e) => Plain(e)
    case ListOf(items) => PlainItems(items)
  }

  predicate PlainItems(items: seq<Expr>) {
    forall i :: 0 <= i < |items| ==> Plain(items[i])
  }

  lemma {:induction false} PowerIsNotNegative(base: int, exponent: nat)
    requires base >= 0
    ensures Power(base, exponent) >= 0
  {
    if exponent > 0 {
      PowerIsNotNegative(base, exponent - 1);
    }
  }

  lemma {:induction false} NonNegativeAnswer(e: Expr, cap: nat)
    requires NonNegative(e) && Evaluate(e, cap).Value?
    ensures Evaluate(e, cap).value >= 0
  {
    match e {
      case Signed(_, operand) => NonNegativeAnswer(operand, cap);
      case Binary(op, left, right) =>
        NonNegativeAnswer(right, cap);
        if op != Mod {
          NonNegativeAnswer(left, cap);
          if op == Pow {
            PowerIsNotNegative(Evaluate(left, cap).value, Evaluate(right, cap).value);
          }
        } else {
          RemainderMeans(Evaluate(left, cap).value, Evaluate(right, cap).value, Evaluate(e, cap).value);
        }
      case _ =>
    }
  }

  /** Such an expression is answered with a number or refused, and refused exactly when it means nothing. */
  lemma PlainIsAnsweredOrRefused(e: Expr, cap: nat)
    requires Plain(e)
    ensures !Departs(e, cap)
    ensures Evaluate(e, cap).Refused? <==> forall v :: !Means(e, v, cap)
  {
    hide Evaluate, Means, Plain, Departs;
    PlainStaysInside(e, cap);
    OutcomeIsExact(e, cap);
  }

  lemma {:induction false} PlainStaysInside(e: Expr, cap: nat)
    requires Plain(e)
    ensures !Evaluate(e, cap).Outside?
    decreases e
  {
    hide ApplyFunction;
    match e {
      case Signed(_, operand) => PlainStaysInside(operand, cap);
      case Binary(op, left, right) =>
        PlainStaysInside(left, cap);
        PlainStaysInside(right, cap);
        if op == Pow && Evaluate(right, cap).Value? {
          NonNegativeAnswer(right, cap);
        }
      case Call(name, keywords, args) =>
        PlainArgumentsStayInside(args, cap);
        if FunctionOf(name).Some? && EvaluateArguments(args, cap).Value? {
          PlainFunctionStaysInside(FunctionOf(name).value, EvaluateArguments(args, cap).value);
        }
      case _ =>
    }
  }

  lemma PlainFunctionStaysInside(f: Function, vs: seq<ArgumentValue>)
    requires f != OtherFunction && (|vs| > 1 ==> AllScalars(vs))
    ensures !ApplyFunction(f, vs).Outside?
  {
  }

  lemma {:induction false} PlainArgumentsStayInside(args: seq<Argument>, cap: nat)
    requires PlainArguments(args)
    ensures !EvaluateArguments(args, cap).Outside?
    ensures EvaluateArguments(args, cap).Value? ==>
      var vs := EvaluateArguments(args, cap).value;
      |vs| == |args| && forall i :: 0 <= i < |args| && args[i].Scalar? ==> vs[i].ScalarValue?
    decreases args
  {
    if args != [] {
      hide Evaluate, Plain;
      PlainArgumentStaysInside(args[0], cap);
      PlainArgumentsStayInside(args[1..], cap);
    }
  }

  lemma {:induction false} PlainArgumentStaysInside(a: Argument, cap: nat)
    requires PlainArgument(a)
    ensures !EvaluateArgument(a, cap).Outside?
    decreases a
  {
    match a {
      case Scalar(e) => PlainStaysInside(e, cap);
      case ListOf(items) => PlainItemsStayInside(items, cap);
    }
  }

  lemma {:induction false} PlainItemsStayInside(items: seq<Expr>, cap: nat)
    requires PlainItems(items)
    ensures !EvaluateItems(items, cap).Outside?
    decreases items
  {
    if items != [] {
      hide Evaluate, Plain;
      PlainStaysInside(items[0], cap);
      PlainItemsStayInside(items[1..], cap);
    }
  }
}
