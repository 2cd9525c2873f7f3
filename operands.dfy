/** Operands, tokens and the session state of the token-stream calculator
    (CalculatorState.kt): an operand is a number being typed, a named constant,
    the empty placeholder, or the error marker left by a failed calculation. */
module Operands {
  import opened Wrappers
  import opened Text
  import opened Operations

  datatype Operand = Number(text: string) | Constant(symbol: string, value: real) | Empty | Error

  /** The payload of the Constant action (`Operand.Constant`). */
  type ConstantOperand = o: Operand | o.Constant? witness Constant("π", 3.0)

  /** One entry of the mixed `List<Any>` of the source: an operand or an operator. */
  datatype Token = Val(operand: Operand) | Op(op: Operation)

  datatype CalculatorState = CalculatorState(
    inputTokens: seq<Token>,
    currentInput: Operand,
    result: string,
    displayExpression: string)

  /** `CalculatorState()` with its default arguments. */
  function DefaultState(): (s: CalculatorState)
    ensures s.inputTokens == [] && s.currentInput == Number("0")
    ensures s.result == "" && s.displayExpression == "0"
  {
    CalculatorState([], Number("0"), "", "0")
  }

  /** `getNumericValue`: the value an operand stands for, given the number parser. */
  function GetNumericValue(o: Operand, parse: string -> Option<real>): (r: Option<real>)
    ensures r.None? <==> o.Empty? || o.Error? || (o.Number? && parse(o.text).None?)
    ensures o.Constant? ==> r == Some(o.value)
    ensures o.Number? ==> r == parse(o.text)
  {
    match o
    case Number(text) => parse(text)
    case Constant(_, value) => Some(value)
    case Empty => None
    case Error => None
  }

  /** `getDisplayValue`: the text an operand shows on the display. */
  function GetDisplayValue(o: Operand): (r: string)
    ensures r == "" <==> o.Empty? || (o.Number? && o.text == "") || (o.Constant? && o.symbol == "")
    ensures o.Error? ==> r == "Error"
    ensures o.Number? ==> r == o.text
    ensures o.Constant? ==> r == o.symbol
  {
    match o
    case Number(text) => text
    case Constant(symbol, _) => symbol
    case Empty => ""
    case Error => "Error"
  }

  /** `isEmpty`: the operand holds nothing worth keeping; a typed "0" counts as empty. */
  predicate IsEmpty(o: Operand) {
    match o
    case Number(text) => IsBlank(text) || text == "0"
    case Constant(_, _) => false
    case Empty => true
    case Error => true
  }

  /** The view model's guard `currentInput !is Empty && currentInput !is Error`:
      only such an operand is ever appended to the committed tokens. */
  predicate Committable(o: Operand) {
    !o.Empty? && !o.Error?
  }

  /** The placeholders are exactly the operands that are empty yet not numbers;
      a committable operand that is empty is a blank or zero number. */
  lemma EmptinessOfOperands(o: Operand, parse: string -> Option<real>)
    ensures !Committable(o) ==> IsEmpty(o) && GetNumericValue(o, parse).None?
    ensures Committable(o) && IsEmpty(o) <==> o.Number? && (IsBlank(o.text) || o.text == "0")
    ensures o.Constant? ==> !IsEmpty(o) && GetNumericValue(o, parse).Some?
  {
  }
}
