/** `CalculatorEngine.evaluateRpn` (calculator/domain/CalculatorEngine.kt):
    a stack machine over the RPN tokens. An operand pushes its value, square
    root replaces the top value, a binary operator replaces the top two values
    by one; evaluation succeeds only if exactly one value is left. */
module RpnEvaluator {
  import opened Wrappers
  import opened Doubles
  import opened Operations
  import opened Operands

  /** Why an evaluation fails. The first five are the `CalculatorError`
      variants; the last two are the `IllegalArgumentException`s the source
      throws for an operand without a numeric value and for a binary operator
      with fewer than two values stacked. */
  datatype EvalError =
    | DivisionByZero
    | InvalidRoot
    | NotEnoughOperands
    | InvalidExpression
    | UnknownCalculatorError
    | InvalidOperand
    | MissingBinaryOperands

  /** The fixed leading text of the exception's message. */
  function Message(e: EvalError): (m: string)
    ensures m != ""
  {
    match e
    case DivisionByZero => "Division by zero"
    case InvalidRoot => "Cannot calculate square root of a negative number"
    case NotEnoughOperands => "Not enough operands for square root operation"
    case InvalidExpression => "Invalid RPN expression, expected one result"
    case UnknownCalculatorError => "Unknown calculator error"
    case InvalidOperand => "Invalid operand in RPN"
    case MissingBinaryOperands => "Not enough operands for binary operation"
  }

  /** The `when` over binary operators: `a` is the deeper value (operand1),
      `b` the top one (operand2). */
  function ApplyBinary(p: Platform, op: Operation, a: real, b: real): (r: Result<real, EvalError>)
    requires !op.IsUnary()
    ensures r.Failure? <==> op == Divide && b == 0.0
    ensures r.Failure? ==> r.error == DivisionByZero
    ensures op == Add ==> r == Success(a + b)
    ensures op == Subtract ==> r == Success(a - b)
    ensures op == Multiply ==> r == Success(a * b)
    ensures op == Divide && b != 0.0 ==> r == Success(a / b)
    ensures op == Mod ==> r == Success(p.rem(a, b))
    ensures op == Power ==> r == Success(p.pow(a, b))
  {
    match op
    case Add => Success(a + b)
    case Subtract => Success(a - b)
    case Multiply => Success(a * b)
    case Divide => if b == 0.0 then Failure(DivisionByZero) else Success(a / b)
    case Mod => Success(p.rem(a, b))
    case Power => Success(p.pow(a, b))
  }

  /** How many values a token takes off the stack. */
  function Arity(t: Token): nat {
    match t
    case Val(_) => 0
    case Op(op) => if op.IsUnary() then 1 else 2
  }

  /** One iteration of the `forEach` over the RPN tokens. */
  function ApplyToken(p: Platform, stack: seq<real>, t: Token): Result<seq<real>, EvalError> {
    match t
    case Val(o) =>
      (match GetNumericValue(o, p.parse)
       case None => Failure(InvalidOperand)
       case Some(v) => Success(stack + [v]))
    case Op(op) =>
      if op.IsUnary() then
        if stack == [] then Failure(NotEnoughOperands)
        else
          var x := stack[|stack| - 1];
          if x < 0.0 then Failure(InvalidRoot) else Success(stack[..|stack| - 1] + [p.sqrt(x)])
      else if |stack| < 2 then Failure(MissingBinaryOperands)
      else
        match ApplyBinary(p, op, stack[|stack| - 2], stack[|stack| - 1])
        case Failure(e) => Failure(e)
        case Success(v) => Success(stack[..|stack| - 2] + [v])
  }

  /** A token takes its arity's worth of values off the top of the stack and
      pushes exactly one, leaving the rest alone: an operand's value, the root
      of the top value, or the binary operator applied to the top two. Each
      failure happens exactly in its own situation. */
  lemma ApplyTokenRules(p: Platform, stack: seq<real>, t: Token)
    ensures var r := ApplyToken(p, stack, t);
      // stack bookkeeping: take Arity(t) values off the top, push exactly one
      && (r.Success? ==> |stack| >= Arity(t) && |r.value| == |stack| - Arity(t) + 1)
      && (r.Success? ==> r.value[..|stack| - Arity(t)] == stack[..|stack| - Arity(t)])
      // what is pushed
      && (r.Success? && t.Val? ==> Some(r.value[|r.value| - 1]) == GetNumericValue(t.operand, p.parse))
      && (r.Success? && t == Op(SquareRoot) ==> r.value[|r.value| - 1] == p.sqrt(stack[|stack| - 1]))
      && (r.Success? && t.Op? && !t.op.IsUnary() ==>
            ApplyBinary(p, t.op, stack[|stack| - 2], stack[|stack| - 1]) == Success(r.value[|r.value| - 1]))
      // each failure and exactly when it happens
      && (r == Failure(InvalidOperand) <==> t.Val? && GetNumericValue(t.operand, p.parse).None?)
      && (r == Failure(NotEnoughOperands) <==> t == Op(SquareRoot) && stack == [])
      && (r == Failure(InvalidRoot) <==> t == Op(SquareRoot) && stack != [] && stack[|stack| - 1] < 0.0)
      && (r == Failure(MissingBinaryOperands) <==> t.Op? && !t.op.IsUnary() && |stack| < 2)
      && (r == Failure(DivisionByZero) <==> t == Op(Divide) && |stack| >= 2 && stack[|stack| - 1] == 0.0)
      && (r.Failure? ==> r.error in {InvalidOperand, NotEnoughOperands, InvalidRoot, MissingBinaryOperands, DivisionByZero})
  {
  }

  /** The operand stack after the `forEach` has read all of `rpn`, or the
      first failure. */
  function EvalStack(p: Platform, rpn: seq<Token>): Result<seq<real>, EvalError>
    decreases |rpn|
  {
    if rpn == [] then Success([])
    else
      match EvalStack(p, rpn[..|rpn| - 1])
      case Failure(e) => Failure(e)
      case Success(stack) => ApplyToken(p, stack, rpn[|rpn| - 1])
  }

  /** What `evaluateRpn` returns or throws. */
  function Evaluate(p: Platform, rpn: seq<Token>): Result<real, EvalError> {
    match EvalStack(p, rpn)
    case Failure(e) => Failure(e)
    case Success(stack) => if |stack| != 1 then Failure(InvalidExpression) else Success(stack[0])
  }

  /** A failure in a prefix is the failure of the whole evaluation: the
      source stops at the first exception. */
  lemma {:induction false} EvalFailurePersists(p: Platform, rpn: seq<Token>, i: nat)
    requires i <= |rpn|
    requires EvalStack(p, rpn[..i]).Failure?
    ensures EvalStack(p, rpn) == EvalStack(p, rpn[..i])
    decreases |rpn| - i
  {
    if i < |rpn| {
      var init := rpn[..|rpn| - 1];
      assert init[..i] == rpn[..i];
      EvalFailurePersists(p, init, i);
    } else {
      assert rpn[..i] == rpn;
    }
  }

  /** `evaluateRpn`, as the source writes it. */
  method EvaluateRpn(p: Platform, rpn: seq<Token>) returns (r: Result<real, EvalError>)
    ensures r == Evaluate(p, rpn)
  {
    var stack: seq<real> := [];
    for i := 0 to |rpn|
      invariant EvalStack(p, rpn[..i]) == Success(stack)
    {
      assert rpn[..i + 1][..i] == rpn[..i];
      var token := rpn[i];
      ghost var before := stack;
      match token {
        case Val(o) =>
          var value := GetNumericValue(o, p.parse);
          if value.None? {
            EvalFailurePersists(p, rpn, i + 1);
            return Failure(InvalidOperand);
          }
          stack := stack + [value.value];
        case Op(op) =>
          if op == SquareRoot {
            if stack == [] {
              EvalFailurePersists(p, rpn, i + 1);
              return Failure(NotEnoughOperands);
            }
            var operand := stack[|stack| - 1];
            stack := stack[..|stack| - 1];
            if operand < 0.0 {
              EvalFailurePersists(p, rpn, i + 1);
              return Failure(InvalidRoot);
            }
            stack := stack + [p.sqrt(operand)];
          } else {
            if |stack| < 2 {
              EvalFailurePersists(p, rpn, i + 1);
              return Failure(MissingBinaryOperands);
            }
            var operand2 := stack[|stack| - 1];
            stack := stack[..|stack| - 1];
            var operand1 := stack[|stack| - 1];
            stack := stack[..|stack| - 1];
            var result: real;
            if op == Add {
              result := operand1 + operand2;
            } else if op == Subtract {
              result := operand1 - operand2;
            } else if op == Multiply {
              result := operand1 * operand2;
              // the product of two stack entries needs naming for the solver
              ghost var a, b := operand1, operand2;
              assert ApplyBinary(p, Multiply, a, b).value == a * b;
            } else if op == Divide {
              if operand2 == 0.0 {
                EvalFailurePersists(p, rpn, i + 1);
                return Failure(DivisionByZero);
              }
              result := operand1 / operand2;
            } else if op == Mod {
              result := p.rem(operand1, operand2);
            } else {
              result := p.pow(operand1, operand2);
            }
            assert stack == before[..|before| - 2];
            assert ApplyBinary(p, op, operand1, operand2) == Success(result);
            stack := stack + [result];
          }
      }
    }
    assert rpn[..|rpn|] == rpn;
    if |stack| != 1 {
      return Failure(InvalidExpression);
    }
    r := Success(stack[0]);
  }

  // ---------------------------------------------------------------------
  // The shape of an RPN sequence: how high the stack gets, if it never runs
  // short.

  /** The stack height after `rpn`, or None if some operator finds too few
      values beneath it. */
  function RpnHeight(rpn: seq<Token>): Option<nat>
    decreases |rpn|
  {
    if rpn == [] then Some(0)
    else
      match RpnHeight(rpn[..|rpn| - 1])
      case None => None
      case Some(h) =>
        var t := rpn[|rpn| - 1];
        if h < Arity(t) then None else Some(h - Arity(t) + 1)
  }

  /** The values on the stack are exactly as many as the shape predicts; an
      evaluation of a well-shaped sequence can only fail on a value (an operand
      that does not parse, a negative root, a zero divisor), never on the
      stack discipline. */
  lemma {:induction false} EvalStackShape(p: Platform, rpn: seq<Token>)
    ensures EvalStack(p, rpn).Success? ==> RpnHeight(rpn) == Some(|EvalStack(p, rpn).value|)
    ensures RpnHeight(rpn).Some? && EvalStack(p, rpn).Failure? ==>
      EvalStack(p, rpn).error in {InvalidOperand, InvalidRoot, DivisionByZero}
    decreases |rpn|
  {
    if rpn != [] {
      var init := rpn[..|rpn| - 1];
      EvalStackShape(p, init);
      if EvalStack(p, init).Success? {
        ApplyTokenRules(p, EvalStack(p, init).value, rpn[|rpn| - 1]);
      }
    }
  }

  /** A sequence that leaves exactly one value evaluates, unless a value is bad. */
  lemma WellShapedEvaluation(p: Platform, rpn: seq<Token>)
    requires RpnHeight(rpn) == Some(1)
    ensures Evaluate(p, rpn).Success? || Evaluate(p, rpn).error in {InvalidOperand, InvalidRoot, DivisionByZero}
  {
    EvalStackShape(p, rpn);
  }

  /** A sequence that leaves zero or several values, or runs the stack short,
      never evaluates. */
  lemma IllShapedEvaluation(p: Platform, rpn: seq<Token>)
    requires RpnHeight(rpn) != Some(1)
    ensures Evaluate(p, rpn).Failure?
    ensures RpnHeight(rpn).Some? && EvalStack(p, rpn).Success? ==> Evaluate(p, rpn) == Failure(InvalidExpression)
  {
    EvalStackShape(p, rpn);
  }
}
