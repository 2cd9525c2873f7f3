/** The keypad's action alphabets: `CalculatorAction` of the token-stream
    calculator (calculator/data/CalculatorAction.kt) and the one the older
    two-operand view model dispatches on. Import these modules under a name,
    not opened: their constructor names repeat those of the operands and
    operators. */
module Actions {
  import Operations
  import Operands

  datatype CalculatorAction =
    | Number(number: int)
    | Decimal
    | Clear
    | Delete
    | Calculate
    | Operation(operation: Operations.Operation)
    | ToggleSign
    | SquareRoot
    | Constant(constant: Operands.ConstantOperand)
}

/** The older action alphabet: no square-root key, and the operator table
    with the binary Root. */
module LegacyActions {
  import LegacyOperations
  import Operands

  datatype LegacyAction =
    | Number(number: int)
    | Decimal
    | Clear
    | Operation(operation: LegacyOperations.LegacyOperation)
    | Calculate
    | Delete
    | ToggleSign
    | Constant(constant: Operands.ConstantOperand)
}
