/** `CalculatorEngine.convertInfixToRpn` (calculator/domain/CalculatorEngine.kt):
    Dijkstra's shunting-yard conversion of the committed infix tokens to
    reverse Polish notation, with an output list and an operator stack.

    The specification functions below are left folds written by recursion on
    the last element, so that the loops of the method keep the invariant
    "the local state is the fold of the tokens read so far". */
module ShuntingYard {
  import opened Operations
  import opened Operands

  /** The inner loop's pop condition: the operator on top of the stack binds
      tighter than the incoming one, or as tight and the incoming one groups
      to the left. */
  predicate PopsBefore(top: Operation, incoming: Operation) {
    || top.Precedence() > incoming.Precedence()
    || (top.Precedence() == incoming.Precedence() && incoming.IsLeftAssociative())
  }

  /** The conversion's working state: the output queue and the operator stack
      (top of the stack last). */
  datatype Shunt = Shunt(output: seq<Token>, stack: seq<Operation>)

  /** Operators as output tokens, in the same order. */
  function Lift(ops: seq<Operation>): (ts: seq<Token>)
    ensures |ts| == |ops|
    ensures forall k :: 0 <= k < |ops| ==> ts[k] == Op(ops[k])
  {
    seq(|ops|, k requires 0 <= k < |ops| => Op(ops[k]))
  }

  /** The inner `while`: moves operators from the top of the stack to the
      output for as long as they bind before `op`. */
  function PopWhile(op: Operation, output: seq<Token>, stack: seq<Operation>): (r: Shunt)
    ensures |r.stack| <= |stack|
    decreases |stack|
  {
    if stack != [] && PopsBefore(stack[|stack| - 1], op) then
      PopWhile(op, output + [Op(stack[|stack| - 1])], stack[..|stack| - 1])
    else
      Shunt(output, stack)
  }

  /** The inner loop pops exactly the operators above the first one (from the
      top) that does not bind before `op`, and appends them to the output top
      first; what stays on the stack is a prefix of it. */
  lemma {:induction false} PopWhileShape(op: Operation, output: seq<Token>, stack: seq<Operation>)
    ensures var r := PopWhile(op, output, stack);
      && r.stack == stack[..|r.stack|]
      && (r.stack == [] || !PopsBefore(r.stack[|r.stack| - 1], op))
      && (forall j :: |r.stack| <= j < |stack| ==> PopsBefore(stack[j], op))
      && |r.output| == |output| + |stack| - |r.stack|
      && r.output[..|output|] == output
      && (forall j :: |output| <= j < |r.output| ==> r.output[j] == Op(stack[|stack| - 1 - (j - |output|)]))
    decreases |stack|
  {
    if stack != [] && PopsBefore(stack[|stack| - 1], op) {
      var out', init := output + [Op(stack[|stack| - 1])], stack[..|stack| - 1];
      PopWhileShape(op, out', init);
      var r := PopWhile(op, out', init);
      assert PopWhile(op, output, stack) == r;
      assert r.output[..|output|] == out'[..|output|];
      assert r.output[|output|] == out'[|output|];
      assert forall j :: |r.stack| <= j < |init| ==> init[j] == stack[j];
    } else {
      assert PopWhile(op, output, stack) == Shunt(output, stack);
      assert stack[..|stack|] == stack;
    }
  }

  /** One iteration of the `forEach`: an operand goes straight to the output;
      an operator first pops what binds before it, then is pushed. */
  function Step(s: Shunt, t: Token): Shunt {
    match t
    case Val(_) => Shunt(s.output + [t], s.stack)
    case Op(op) =>
      var p := PopWhile(op, s.output, s.stack);
      Shunt(p.output, p.stack + [op])
  }

  /** The state after the `forEach` has read all of `infix`. */
  function ShuntAll(infix: seq<Token>): Shunt
    decreases |infix|
  {
    if infix == [] then Shunt([], [])
    else Step(ShuntAll(infix[..|infix| - 1]), infix[|infix| - 1])
  }

  /** The final `while`: pops the whole stack onto the output, top first. */
  function Drain(output: seq<Token>, stack: seq<Operation>): (r: seq<Token>)
    ensures |r| == |output| + |stack|
    ensures r[..|output|] == output
    ensures forall j :: |output| <= j < |r| ==> r[j] == Op(stack[|stack| - 1 - (j - |output|)])
    decreases |stack|
  {
    if stack == [] then output
    else
      var out' := output + [Op(stack[|stack| - 1])];
      var r := Drain(out', stack[..|stack| - 1]);
      assert r[..|output|] == out'[..|output|];
      assert r[|output|] == out'[|output|];
      r
  }

  /** What `convertInfixToRpn` returns. */
  function ToRpn(infix: seq<Token>): seq<Token> {
    var s := ShuntAll(infix);
    Drain(s.output, s.stack)
  }

  /** `convertInfixToRpn`, as the source writes it. */
  method ConvertInfixToRpn(infix: seq<Token>) returns (rpn: seq<Token>)
    ensures rpn == ToRpn(infix)
  {
    var output: seq<Token> := [];
    var stack: seq<Operation> := [];
    for i := 0 to |infix|
      invariant ShuntAll(infix[..i]) == Shunt(output, stack)
    {
      assert infix[..i + 1][..i] == infix[..i];
      var token := infix[i];
      match token {
        case Val(_) =>
          output := output + [token];
        case Op(op) =>
          ghost var target := PopWhile(op, output, stack);
          while stack != []
            invariant PopWhile(op, output, stack) == target
            decreases |stack|
          {
            var top := stack[|stack| - 1];
            if PopsBefore(top, op) {
              output := output + [Op(top)];
              stack := stack[..|stack| - 1];
            } else {
              break;
            }
          }
          stack := stack + [op];
      }
    }
    assert infix[..|infix|] == infix;
    ghost var drained := Drain(output, stack);
    while stack != []
      invariant Drain(output, stack) == drained
      decreases |stack|
    {
      output := output + [Op(stack[|stack| - 1])];
      stack := stack[..|stack| - 1];
    }
    rpn := output;
  }

  // ---------------------------------------------------------------------
  // The conversion is a permutation of its input.

  lemma {:induction false} PopWhileMultiset(op: Operation, output: seq<Token>, stack: seq<Operation>)
    ensures var r := PopWhile(op, output, stack);
      multiset(r.output) + multiset(Lift(r.stack)) == multiset(output) + multiset(Lift(stack))
    decreases |stack|
  {
    if stack != [] && PopsBefore(stack[|stack| - 1], op) {
      var init, top := stack[..|stack| - 1], Op(stack[|stack| - 1]);
      PopWhileMultiset(op, output + [top], init);
      assert PopWhile(op, output, stack) == PopWhile(op, output + [top], init);
      assert Lift(stack) == Lift(init) + [top];
      assert multiset(output + [top]) == multiset(output) + multiset{top};
      assert multiset(Lift(stack)) == multiset(Lift(init)) + multiset{top};
    } else {
      assert PopWhile(op, output, stack) == Shunt(output, stack);
    }
  }

  lemma StepMultiset(s: Shunt, t: Token)
    ensures var s' := Step(s, t);
      multiset(s'.output) + multiset(Lift(s'.stack)) == multiset(s.output) + multiset(Lift(s.stack)) + multiset{t}
  {
    if t.Op? {
      var p := PopWhile(t.op, s.output, s.stack);
      PopWhileMultiset(t.op, s.output, s.stack);
      assert Lift(p.stack + [t.op]) == Lift(p.stack) + [t];
    }
  }

  lemma {:induction false} ShuntAllMultiset(infix: seq<Token>)
    ensures var s := ShuntAll(infix);
      multiset(s.output) + multiset(Lift(s.stack)) == multiset(infix)
    decreases |infix|
  {
    if infix != [] {
      var init, t := infix[..|infix| - 1], infix[|infix| - 1];
      ShuntAllMultiset(init);
      StepMultiset(ShuntAll(init), t);
      assert infix == init + [t];
    }
  }

  lemma {:induction false} DrainMultiset(output: seq<Token>, stack: seq<Operation>)
    ensures multiset(Drain(output, stack)) == multiset(output) + multiset(Lift(stack))
    decreases |stack|
  {
    if stack != [] {
      var init := stack[..|stack| - 1];
      DrainMultiset(output + [Op(stack[|stack| - 1])], init);
      assert Lift(stack) == Lift(init) + [Op(stack[|stack| - 1])];
    }
  }

  /** Nothing is dropped and nothing is invented: the RPN form holds exactly
      the tokens of the infix form, each as often. */
  lemma ToRpnIsPermutation(infix: seq<Token>)
    ensures multiset(ToRpn(infix)) == multiset(infix)
    ensures |ToRpn(infix)| == |infix|
  {
    var s := ShuntAll(infix);
    ShuntAllMultiset(infix);
    DrainMultiset(s.output, s.stack);
    assert |multiset(ToRpn(infix))| == |multiset(infix)|;
  }

  // ---------------------------------------------------------------------
  // Operands keep their order; only operators move.

  /** The operands of a token list, in order. */
  function OperandsOf(ts: seq<Token>): seq<Operand>
    decreases |ts|
  {
    if ts == [] then []
    else
      var rest := OperandsOf(ts[..|ts| - 1]);
      match ts[|ts| - 1]
      case Val(o) => rest + [o]
      case Op(_) => rest
  }

  lemma {:induction false} PopWhileOperands(op: Operation, output: seq<Token>, stack: seq<Operation>)
    ensures OperandsOf(PopWhile(op, output, stack).output) == OperandsOf(output)
    decreases |stack|
  {
    if stack != [] && PopsBefore(stack[|stack| - 1], op) {
      var out' := output + [Op(stack[|stack| - 1])];
      PopWhileOperands(op, out', stack[..|stack| - 1]);
      assert out'[..|out'| - 1] == output;
    }
  }

  lemma {:induction false} DrainOperands(output: seq<Token>, stack: seq<Operation>)
    ensures OperandsOf(Drain(output, stack)) == OperandsOf(output)
    decreases |stack|
  {
    if stack != [] {
      var out' := output + [Op(stack[|stack| - 1])];
      DrainOperands(out', stack[..|stack| - 1]);
      assert out'[..|out'| - 1] == output;
    }
  }

  lemma {:induction false} ShuntAllOperands(infix: seq<Token>)
    ensures OperandsOf(ShuntAll(infix).output) == OperandsOf(infix)
    decreases |infix|
  {
    if infix != [] {
      var init, t := infix[..|infix| - 1], infix[|infix| - 1];
      ShuntAllOperands(init);
      var s := ShuntAll(init);
      match t {
        case Val(_) =>
          var out' := s.output + [t];
          assert out'[..|out'| - 1] == s.output;
        case Op(op) =>
          PopWhileOperands(op, s.output, s.stack);
      }
    }
  }

  /** Operands leave the conversion in exactly the order they came in. */
  lemma ToRpnKeepsOperandOrder(infix: seq<Token>)
    ensures OperandsOf(ToRpn(infix)) == OperandsOf(infix)
  {
    var s := ShuntAll(infix);
    ShuntAllOperands(infix);
    DrainOperands(s.output, s.stack);
  }

  // ---------------------------------------------------------------------
  // The operator stack never holds an operator above one it should have
  // popped.

  /** No operator on the stack would pop the one directly beneath it. */
  predicate StackOrdered(stack: seq<Operation>) {
    forall j :: 0 < j < |stack| ==> !PopsBefore(stack[j - 1], stack[j])
  }

  lemma {:induction false} ShuntAllStackOrdered(infix: seq<Token>)
    ensures StackOrdered(ShuntAll(infix).stack)
    decreases |infix|
  {
    if infix != [] {
      var init := infix[..|infix| - 1];
      ShuntAllStackOrdered(init);
      var t := infix[|infix| - 1];
      if t.Op? {
        var s := ShuntAll(init);
        PopWhileShape(t.op, s.output, s.stack);
      }
    }
  }
}
