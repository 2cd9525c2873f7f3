/** The operator table of the token-stream calculator
    (calculator/data/CalculatorOperation.kt): each operator carries a display
    symbol, a precedence (higher binds tighter) and an associativity flag that
    defaults to left. */
module Operations {

  datatype Operation = SquareRoot | Power | Multiply | Divide | Mod | Add | Subtract
  {
    function Symbol(): string {
      match this
      case SquareRoot => "√"
      case Power => "^"
      case Multiply => "×"
      case Divide => "÷"
      case Mod => "%"
      case Add => "+"
      case Subtract => "-"
    }

    function Precedence(): int {
      match this
      case SquareRoot => 4
      case Power => 3
      case Multiply | Divide | Mod => 2
      case Add | Subtract => 1
    }

    predicate IsLeftAssociative() {
      !(this == SquareRoot || this == Power)
    }

    /** The one operator the evaluator applies to a single value. */
    predicate IsUnary() {
      this == SquareRoot
    }
  }

  /** The precedence levels: square root alone on top, then power, then the
      multiplicative operators, then the additive ones. */
  lemma PrecedenceLevels(op: Operation)
    ensures 1 <= op.Precedence() <= 4
    ensures op.Precedence() == 4 <==> op == SquareRoot
    ensures op.Precedence() == 3 <==> op == Power
    ensures op.Precedence() == 2 <==> op in {Multiply, Divide, Mod}
    ensures op.Precedence() == 1 <==> op in {Add, Subtract}
  {
  }

  /** Among the binary operators only Power groups to the right. */
  lemma OnlyPowerIsRightAssociative(op: Operation)
    ensures !op.IsUnary() ==> (!op.IsLeftAssociative() <==> op == Power)
    ensures op.IsUnary() ==> !op.IsLeftAssociative()
  {
  }

  /** Every operator has its own symbol, and no symbol is empty. */
  lemma SymbolsDistinct(a: Operation, b: Operation)
    ensures |a.Symbol()| == 1
    ensures a.Symbol() == b.Symbol() ==> a == b
  {
  }
}
