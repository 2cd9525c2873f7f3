/** The operator table of the earlier two-operand calculator
    (CalculatorOperation.kt in the root package). It has a binary Root
    instead of a unary SquareRoot, sharing Power's precedence. */
module LegacyOperations {

  datatype LegacyOperation = Power | Root | Multiply | Divide | Mod | Add | Subtract
  {
    function Symbol(): string {
      match this
      case Power => "^"
      case Root => "√"
      case Multiply => "×"
      case Divide => "÷"
      case Mod => "%"
      case Add => "+"
      case Subtract => "-"
    }

    function Precedence(): int {
      match this
      case Power | Root => 3
      case Multiply | Divide | Mod => 2
      case Add | Subtract => 1
    }

    predicate IsLeftAssociative() {
      !(this == Power || this == Root)
    }
  }

  /** Power and Root share the top level and are the two right-associative
      operators; the rest follow the same two lower levels as the newer table. */
  lemma LegacyPrecedenceLevels(op: LegacyOperation)
    ensures 1 <= op.Precedence() <= 3
    ensures op.Precedence() == 3 <==> op in {Power, Root}
    ensures op.Precedence() == 2 <==> op in {Multiply, Divide, Mod}
    ensures op.Precedence() == 1 <==> op in {Add, Subtract}
    ensures !op.IsLeftAssociative() <==> op.Precedence() == 3
  {
  }

  lemma LegacySymbolsDistinct(a: LegacyOperation, b: LegacyOperation)
    ensures |a.Symbol()| == 1
    ensures a.Symbol() == b.Symbol() ==> a == b
  {
  }
}
