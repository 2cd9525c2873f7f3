/** What the engine guarantees for the expressions the keypad can build: an
    infix sequence of terms (any number of square roots before an operand)
    separated by binary operators converts to an RPN sequence that leaves
    exactly one value, so its evaluation can only fail on a value, never on
    the stack discipline. */
module WellFormed {
  import opened Wrappers
  import opened Doubles
  import opened Operations
  import opened Operands
  import opened ShuntingYard
  import opened RpnEvaluator

  /** Where a left-to-right reading of an infix sequence stands. */
  datatype Phase = ExpectTerm | AfterOperand | Stuck

  function NextPhase(ph: Phase, t: Token): Phase {
    match ph
    case ExpectTerm =>
      if t.Val? then AfterOperand
      else if t.op.IsUnary() then ExpectTerm
      else Stuck
    case AfterOperand =>
      if t.Op? && !t.op.IsUnary() then ExpectTerm else Stuck
    case Stuck => Stuck
  }

  function PhaseAfter(infix: seq<Token>): Phase
    decreases |infix|
  {
    if infix == [] then ExpectTerm
    else NextPhase(PhaseAfter(infix[..|infix| - 1]), infix[|infix| - 1])
  }

  /** term (binary-operator term)*, where term = √* operand. */
  predicate WellFormedInfix(infix: seq<Token>) {
    PhaseAfter(infix) == AfterOperand
  }

  /** How many binary operators an operator stack holds. */
  function BinaryCount(stack: seq<Operation>): (n: nat)
    ensures n <= |stack|
    decreases |stack|
  {
    if stack == [] then 0
    else BinaryCount(stack[..|stack| - 1]) + (if stack[|stack| - 1].IsUnary() then 0 else 1)
  }

  /** Appending a token to an RPN prefix moves its height by the token's arity. */
  lemma RpnHeightAppend(rpn: seq<Token>, t: Token)
    ensures RpnHeight(rpn + [t]) ==
      match RpnHeight(rpn)
      case None => None
      case Some(h) => if h < Arity(t) then None else Some(h - Arity(t) + 1)
  {
    assert (rpn + [t])[..|rpn|] == rpn;
  }

  /** Moving the top operator of the stack to the output keeps the balance
      of one value more than binary operators on the stack. */
  lemma {:induction false} PopOneHeight(output: seq<Token>, stack: seq<Operation>)
    requires stack != []
    requires RpnHeight(output) == Some(BinaryCount(stack) + 1)
    ensures RpnHeight(output + [Op(stack[|stack| - 1])]) == Some(BinaryCount(stack[..|stack| - 1]) + 1)
  {
    var t, rest := Op(stack[|stack| - 1]), stack[..|stack| - 1];
    var out' := output + [t];
    assert out'[..|output|] == output;
    assert BinaryCount(stack) == BinaryCount(rest) + Arity(t) - 1;
  }

  /** Each binary operator still on the stack waits for one value of the
      output: popping operators off a stack that holds one value more than it
      has binary operators keeps that balance. */
  lemma {:induction false} PopWhileHeight(op: Operation, output: seq<Token>, stack: seq<Operation>)
    requires RpnHeight(output) == Some(BinaryCount(stack) + 1)
    ensures var r := PopWhile(op, output, stack);
      RpnHeight(r.output) == Some(BinaryCount(r.stack) + 1)
    decreases |stack|
  {
    if stack != [] && PopsBefore(stack[|stack| - 1], op) {
      var out', rest := output + [Op(stack[|stack| - 1])], stack[..|stack| - 1];
      PopOneHeight(output, stack);
      PopWhileHeight(op, out', rest);
      assert PopWhile(op, output, stack) == PopWhile(op, out', rest);
    }
  }

  /** Draining a balanced stack leaves exactly one value. */
  lemma {:induction false} DrainHeight(output: seq<Token>, stack: seq<Operation>)
    requires RpnHeight(output) == Some(BinaryCount(stack) + 1)
    ensures RpnHeight(Drain(output, stack)) == Some(1)
    decreases |stack|
  {
    if stack != [] {
      var top := stack[|stack| - 1];
      RpnHeightAppend(output, Op(top));
      DrainHeight(output + [Op(top)], stack[..|stack| - 1]);
    }
  }

  /** The balance the conversion keeps while it reads a well-formed prefix:
      expecting a term, the output holds one value per binary operator on the
      stack; after an operand, one more. */
  predicate Balanced(s: Shunt, ph: Phase) {
    && (ph == ExpectTerm ==> RpnHeight(s.output) == Some(BinaryCount(s.stack)))
    && (ph == AfterOperand ==> RpnHeight(s.output) == Some(BinaryCount(s.stack) + 1))
  }

  /** Pushing an operator adds one to the count exactly when it is binary. */
  lemma BinaryCountPush(stack: seq<Operation>, op: Operation)
    ensures BinaryCount(stack + [op]) == BinaryCount(stack) + (if op.IsUnary() then 0 else 1)
  {
    assert (stack + [op])[..|stack|] == stack;
  }

  /** Nothing binds before the square root: it pops nothing off the stack. */
  lemma UnaryPopsNothing(op: Operation, output: seq<Token>, stack: seq<Operation>)
    requires op.IsUnary()
    ensures PopWhile(op, output, stack) == Shunt(output, stack)
  {
    assert stack == [] || !PopsBefore(stack[|stack| - 1], op);
  }

  /** Reading an operator keeps the balance. */
  lemma StepOperatorHeight(s: Shunt, ph: Phase, op: Operation)
    requires Balanced(s, ph)
    ensures Balanced(Step(s, Op(op)), NextPhase(ph, Op(op)))
  {
    var r := PopWhile(op, s.output, s.stack);
    assert Step(s, Op(op)) == Shunt(r.output, r.stack + [op]);
    BinaryCountPush(r.stack, op);
    if ph == AfterOperand && !op.IsUnary() {
      PopWhileHeight(op, s.output, s.stack);
    } else if ph == ExpectTerm && op.IsUnary() {
      UnaryPopsNothing(op, s.output, s.stack);
    }
  }

  /** One step of the conversion keeps the balance. */
  lemma StepHeight(s: Shunt, ph: Phase, t: Token)
    requires Balanced(s, ph)
    ensures Balanced(Step(s, t), NextPhase(ph, t))
  {
    match t {
      case Val(_) =>
        RpnHeightAppend(s.output, t);
      case Op(op) =>
        StepOperatorHeight(s, ph, op);
    }
  }

  lemma {:induction false} ShuntHeight(infix: seq<Token>)
    ensures Balanced(ShuntAll(infix), PhaseAfter(infix))
    decreases |infix|
  {
    if infix != [] {
      var init := infix[..|infix| - 1];
      ShuntHeight(init);
      StepHeight(ShuntAll(init), PhaseAfter(init), infix[|infix| - 1]);
    }
  }

  /** A well-formed infix expression converts to an RPN sequence that leaves
      exactly one value on the stack. */
  lemma ToRpnWellFormed(infix: seq<Token>)
    requires WellFormedInfix(infix)
    ensures RpnHeight(ToRpn(infix)) == Some(1)
  {
    ShuntHeight(infix);
    var s := ShuntAll(infix);
    DrainHeight(s.output, s.stack);
  }

  /** Every operand of the sequence has a numeric value. */
  predicate AllOperandsValued(p: Platform, ts: seq<Token>) {
    forall t :: t in ts && t.Val? ==> GetNumericValue(t.operand, p.parse).Some?
  }

  lemma {:induction false} ValuedOperandsNeverInvalid(p: Platform, rpn: seq<Token>)
    requires AllOperandsValued(p, rpn)
    ensures EvalStack(p, rpn) != Failure(InvalidOperand)
    decreases |rpn|
  {
    if rpn != [] {
      var init := rpn[..|rpn| - 1];
      assert forall t :: t in init ==> t in rpn;
      ValuedOperandsNeverInvalid(p, init);
      assert rpn[|rpn| - 1] in rpn;
    }
  }

  /** A well-formed expression evaluates or fails on a value: an operand that
      does not parse, a negative root, or a zero divisor. When every operand
      has a value, only the arithmetic can fail. */
  lemma WellFormedExpressionEvaluates(p: Platform, infix: seq<Token>)
    requires WellFormedInfix(infix)
    ensures var r := Evaluate(p, ToRpn(infix));
      r.Success? || r.error in {InvalidOperand, InvalidRoot, DivisionByZero}
    ensures var r := Evaluate(p, ToRpn(infix));
      AllOperandsValued(p, infix) ==> r.Success? || r.error in {InvalidRoot, DivisionByZero}
  {
    var rpn := ToRpn(infix);
    ToRpnWellFormed(infix);
    WellShapedEvaluation(p, rpn);
    if AllOperandsValued(p, infix) {
      ToRpnIsPermutation(infix);
      assert forall t :: t in rpn ==> t in multiset(rpn);
      ValuedOperandsNeverInvalid(p, rpn);
    }
  }

  // ---------------------------------------------------------------------
  // Two conversions worked through.

  lemma ShuntAllSnoc(infix: seq<Token>, t: Token)
    ensures ShuntAll(infix + [t]) == Step(ShuntAll(infix), t)
  {
    assert (infix + [t])[..|infix|] == infix;
  }

  lemma EvalStackSnoc(p: Platform, rpn: seq<Token>, t: Token)
    ensures EvalStack(p, rpn).Failure? ==> EvalStack(p, rpn + [t]) == EvalStack(p, rpn)
    ensures EvalStack(p, rpn).Success? ==> EvalStack(p, rpn + [t]) == ApplyToken(p, EvalStack(p, rpn).value, t)
  {
    assert (rpn + [t])[..|rpn|] == rpn;
  }

  /** Power groups to the right: 2^3^2 converts to 2 3 2 ^ ^. */
  lemma PowerGroupsRight()
    ensures var two, three := Val(Number("2")), Val(Number("3"));
      ToRpn([two, Op(Power), three, Op(Power), two]) == [two, three, two, Op(Power), Op(Power)]
  {
    var two, three, pow := Val(Number("2")), Val(Number("3")), Op(Power);
    var i1 := [] + [two];
    var i2 := i1 + [pow];
    var i3 := i2 + [three];
    var i4 := i3 + [pow];
    var i5 := i4 + [two];
    assert i5 == [two, pow, three, pow, two];
    ShuntAllSnoc([], two);
    assert ShuntAll(i1) == Shunt([two], []);
    ShuntAllSnoc(i1, pow);
    assert ShuntAll(i2) == Shunt([two], [Power]);
    ShuntAllSnoc(i2, three);
    assert ShuntAll(i3) == Shunt([two, three], [Power]);
    ShuntAllSnoc(i3, pow);
    assert !PopsBefore(Power, Power);
    assert ShuntAll(i4) == Shunt([two, three], [Power, Power]);
    ShuntAllSnoc(i4, two);
    assert ShuntAll(i5) == Shunt([two, three, two], [Power, Power]);
  }

  /** 2 3 2 ^ ^ evaluates to 2^(3^2). */
  lemma PowerChainValue(p: Platform)
    requires p.parse("2") == Some(2.0) && p.parse("3") == Some(3.0)
    ensures var two, three := Val(Number("2")), Val(Number("3"));
      Evaluate(p, [two, three, two, Op(Power), Op(Power)]) == Success(p.pow(2.0, p.pow(3.0, 2.0)))
  {
    var two, three, pow := Val(Number("2")), Val(Number("3")), Op(Power);
    var r1 := [] + [two];
    var r2 := r1 + [three];
    var r3 := r2 + [two];
    var r4 := r3 + [pow];
    var r5 := r4 + [pow];
    assert r5 == [two, three, two, pow, pow];
    EvalStackSnoc(p, [], two);
    assert GetNumericValue(Number("2"), p.parse) == Some(2.0);
    assert [] + [2.0] == [2.0];
    assert EvalStack(p, r1) == Success([2.0]);
    EvalStackSnoc(p, r1, three);
    assert [2.0] + [3.0] == [2.0, 3.0];
    assert EvalStack(p, r2) == Success([2.0, 3.0]);
    EvalStackSnoc(p, r2, two);
    assert [2.0, 3.0] + [2.0] == [2.0, 3.0, 2.0];
    assert EvalStack(p, r3) == Success([2.0, 3.0, 2.0]);
    EvalStackSnoc(p, r3, pow);
    assert ApplyBinary(p, Power, 3.0, 2.0) == Success(p.pow(3.0, 2.0));
    assert [2.0, 3.0, 2.0][..1] + [p.pow(3.0, 2.0)] == [2.0, p.pow(3.0, 2.0)];
    assert EvalStack(p, r4) == Success([2.0, p.pow(3.0, 2.0)]);
    EvalStackSnoc(p, r4, pow);
    assert [2.0, p.pow(3.0, 2.0)][..0] + [p.pow(2.0, p.pow(3.0, 2.0))] == [p.pow(2.0, p.pow(3.0, 2.0))];
    assert EvalStack(p, r5) == Success([p.pow(2.0, p.pow(3.0, 2.0))]);
  }

  /** Operators of equal precedence group to the left: 8÷4×2 converts to
      8 4 ÷ 2 ×. */
  lemma EqualPrecedenceGroupsLeft()
    ensures var eight, four, two := Val(Number("8")), Val(Number("4")), Val(Number("2"));
      ToRpn([eight, Op(Divide), four, Op(Multiply), two]) == [eight, four, Op(Divide), two, Op(Multiply)]
  {
    var eight, four, two := Val(Number("8")), Val(Number("4")), Val(Number("2"));
    var div, mul := Op(Divide), Op(Multiply);
    var i1 := [] + [eight];
    var i2 := i1 + [div];
    var i3 := i2 + [four];
    var i4 := i3 + [mul];
    var i5 := i4 + [two];
    assert i5 == [eight, div, four, mul, two];
    ShuntAllSnoc([], eight);
    assert ShuntAll(i1) == Shunt([eight], []);
    ShuntAllSnoc(i1, div);
    assert ShuntAll(i2) == Shunt([eight], [Divide]);
    ShuntAllSnoc(i2, four);
    assert ShuntAll(i3) == Shunt([eight, four], [Divide]);
    ShuntAllSnoc(i3, mul);
    assert PopsBefore(Divide, Multiply);
    assert [eight, four] + [div] == [eight, four, div];
    assert PopWhile(Multiply, [eight, four], [Divide]) == Shunt([eight, four, div], []) by {
      assert PopWhile(Multiply, [eight, four], [Divide]) == PopWhile(Multiply, [eight, four] + [div], []);
    }
    assert ShuntAll(i4) == Shunt([eight, four, div], [Multiply]);
    ShuntAllSnoc(i4, two);
    assert ShuntAll(i5) == Shunt([eight, four, div, two], [Multiply]);
  }

  /** 8 4 ÷ 2 × evaluates to (8÷4)×2 = 4. */
  lemma LeftGroupedValue(p: Platform)
    requires p.parse("8") == Some(8.0) && p.parse("4") == Some(4.0) && p.parse("2") == Some(2.0)
    ensures var eight, four, two := Val(Number("8")), Val(Number("4")), Val(Number("2"));
      Evaluate(p, [eight, four, Op(Divide), two, Op(Multiply)]) == Success(4.0)
  {
    var eight, four, two := Val(Number("8")), Val(Number("4")), Val(Number("2"));
    var div, mul := Op(Divide), Op(Multiply);
    var r1 := [] + [eight];
    var r2 := r1 + [four];
    var r3 := r2 + [div];
    var r4 := r3 + [two];
    var r5 := r4 + [mul];
    assert r5 == [eight, four, div, two, mul];
    EvalStackSnoc(p, [], eight);
    assert GetNumericValue(Number("8"), p.parse) == Some(8.0);
    assert [] + [8.0] == [8.0];
    assert EvalStack(p, r1) == Success([8.0]);
    EvalStackSnoc(p, r1, four);
    assert [8.0] + [4.0] == [8.0, 4.0];
    assert EvalStack(p, r2) == Success([8.0, 4.0]);
    EvalStackSnoc(p, r2, div);
    assert ApplyBinary(p, Divide, 8.0, 4.0) == Success(2.0);
    assert [8.0, 4.0][..0] + [2.0] == [2.0];
    assert EvalStack(p, r3) == Success([2.0]);
    EvalStackSnoc(p, r3, two);
    assert [2.0] + [2.0] == [2.0, 2.0];
    assert EvalStack(p, r4) == Success([2.0, 2.0]);
    EvalStackSnoc(p, r4, mul);
    assert ApplyBinary(p, Multiply, 2.0, 2.0) == Success(4.0);
    assert [2.0, 2.0][..0] + [4.0] == [4.0];
    assert EvalStack(p, r5) == Success([4.0]);
  }
}
