/** The earlier two-operand view model (CalculatorViewModel.kt in the root
    package). Its state is a first operand, an optional pending operation, a
    second operand and the last result; digits, the point, constants and the
    sign go to the second operand once an operation is pending, and to the
    first one before.

    That view model reads fields (`number1`, `operation`, `number2`,
    `result`) the `CalculatorState` of its package does not have; the record
    below is made of exactly those fields. Its own `formatResult` can throw
    (see `ResultFormat.LegacyFormatDecimal`): the transitions that format a
    number return `None` when it does, and the exception leaves the state as
    it was. */
module LegacyMachine {
  import opened Wrappers
  import opened Text
  import opened Doubles
  import opened LegacyOperations
  import opened Operands
  import opened ResultFormat
  import A = LegacyActions
  import Ops = Operations
  import Ev = RpnEvaluator

  datatype LegacyState = LegacyState(
    number1: Operand,
    operation: Option<LegacyOperation>,
    number2: Operand,
    result: string)

  /** The state the view model starts in and `Clear` restores. */
  function LegacyDefault(): (s: LegacyState)
    ensures s.number1 == Number("0") && s.operation == None && s.number2 == Empty && s.result == ""
  {
    LegacyState(Number("0"), None, Empty, "")
  }

  // ---------------------------------------------------------------------
  // The transitions.

  /** `enterNumber`. Before an operation the first operand is edited, and the
      error marker restarts the whole state; after it, the second. */
  function LegacyAfterDigit(s: LegacyState, n: int): LegacyState {
    var digit := IntString(n);
    if s.operation.None? then
      match s.number1
      case Number(t) =>
        if t == "0" && n == 0 then s
        else if |t| >= MAX_NUM_LENGTH && t != "0" then s
        else s.(number1 := Number(if t == "0" then digit else t + digit))
      case Error => LegacyDefault().(number1 := Number(digit))
      case Constant(_, _) => s.(number1 := Number(digit))
      case Empty => s.(number1 := Number(digit))
    else
      match s.number2
      case Number(t) =>
        if t == "0" && n == 0 then s
        else if |t| >= MAX_NUM_LENGTH then s
        else s.(number2 := Number(if t == "0" then digit else t + digit))
      case _ => s.(number2 := Number(digit))
  }

  /** The operand after the decimal key, or None where the key is ignored. */
  function WithPoint(o: Operand): Option<Operand> {
    match o
    case Number(t) =>
      if '.' in t then None
      else if IsBlank(t) then Some(Number("0."))
      else Some(Number(t + "."))
    case Error => Some(Number("0."))
    case Empty => Some(Number("0."))
    case Constant(_, _) => None
  }

  /** `enterDecimal` on the operand being edited. */
  function LegacyAfterDecimal(s: LegacyState): LegacyState {
    if s.operation.None? then
      match WithPoint(s.number1)
      case None => s
      case Some(o) => s.(number1 := o)
    else
      match WithPoint(s.number2)
      case None => s
      case Some(o) => s.(number2 := o)
  }

  /** `enterConstant` */
  function LegacyAfterConstant(s: LegacyState, c: ConstantOperand): LegacyState {
    if s.operation.None? then
      if s.number1.Error? then LegacyDefault().(number1 := c) else s.(number1 := c)
    else s.(number2 := c)
  }

  /** The operand after the sign key; None where `formatResult` throws. */
  function Toggled(p: Platform, o: Operand): Option<Operand> {
    match o
    case Number(t) =>
      if !IsBlank(t) && t != "0" && t != "-" then
        Some(Number(if |t| > 0 && t[0] == '-' then t[1..] else "-" + t))
      else if IsBlank(t) || t == "0" then Some(Number("-"))
      else Some(Number("0"))
    case Constant(_, v) =>
      (match LegacyFormatResult(p, -v)
       case None => None
       case Some(f) => Some(Number(f)))
    case Error => Some(Number("-"))
    case Empty => Some(Number("-"))
  }

  /** `toggleSign` on the operand being edited. */
  function LegacyAfterToggleSign(p: Platform, s: LegacyState): Option<LegacyState> {
    if s.operation.None? then
      match Toggled(p, s.number1)
      case None => None
      case Some(o) => Some(s.(number1 := o))
    else
      match Toggled(p, s.number2)
      case None => None
      case Some(o) => Some(s.(number2 := o))
  }

  /** `performDeletion`: one step back in the order second operand, operation,
      first operand; a state left with nothing shows "0" again. */
  function LegacyAfterDeletion(s: LegacyState): LegacyState {
    var t :=
      if !s.number2.Empty? then
        s.(number2 := if s.number2.Number? && |s.number2.text| > 1 then Number(DropLast(s.number2.text)) else Empty)
      else if s.operation.Some? then s.(operation := None)
      else if !IsEmpty(s.number1) then
        s.(number1 := if s.number1.Number? && |s.number1.text| > 1 then Number(DropLast(s.number1.text)) else Number("0"))
      else s;
    if IsEmpty(t.number1) && t.number2.Empty? && t.operation.None? then t.(number1 := Number("0")) else t
  }

  /** The `when` over the operation in `performCalculation`; the zero divisor
      is caught before it. */
  function LegacyCompute(p: Platform, op: LegacyOperation, a: real, b: real): (r: real)
    requires op == Divide ==> b != 0.0
    ensures op == Subtract ==> r == a - b
    ensures op == Divide ==> r * b == a
    ensures op == Root ==> r == p.pow(a, 0.5)
  {
    match op
    case Add => a + b
    case Subtract => a - b
    case Multiply => a * b
    case Divide => a / b
    case Mod => p.rem(a, b)
    case Root => p.pow(a, 0.5)
    case Power => p.pow(a, b)
  }

  /** The engine's operator for a legacy one; the binary Root, which ignores
      its second operand, has none. */
  function EngineOperation(op: LegacyOperation): Option<Ops.Operation> {
    match op
    case Power => Some(Ops.Power)
    case Root => None
    case Multiply => Some(Ops.Multiply)
    case Divide => Some(Ops.Divide)
    case Mod => Some(Ops.Mod)
    case Add => Some(Ops.Add)
    case Subtract => Some(Ops.Subtract)
  }

  /** The two calculators do the same arithmetic: every legacy operator but
      Root has an engine counterpart with the same symbol and precedence, and
      the engine applies it to the same result; a zero divisor is the one case
      both refuse. */
  lemma LegacyComputeAgreesWithEngine(p: Platform, op: LegacyOperation, a: real, b: real)
    ensures EngineOperation(op).None? <==> op == Root
    ensures EngineOperation(op).Some? ==>
      var e := EngineOperation(op).value;
      && !e.IsUnary() && e.Symbol() == op.Symbol() && e.Precedence() == op.Precedence()
      && (Ev.ApplyBinary(p, e, a, b).Failure? <==> op == Divide && b == 0.0)
      && (!(op == Divide && b == 0.0) ==> Ev.ApplyBinary(p, e, a, b) == Success(LegacyCompute(p, op, a, b)))
  {
  }

  /** `performCalculation`: nothing happens unless both operands have values
      and an operation is pending. */
  function LegacyAfterCalculation(p: Platform, s: LegacyState): Option<LegacyState> {
    var n1, n2 := GetNumericValue(s.number1, p.parse), GetNumericValue(s.number2, p.parse);
    if n1.None? || s.operation.None? || n2.None? then Some(s)
    else if s.operation.value == Divide && n2.value == 0.0 then
      Some(s.(number1 := Error, number2 := Empty, operation := None, result := "Error"))
    else
      match LegacyFormatResult(p, LegacyCompute(p, s.operation.value, n1.value, n2.value))
      case None => None
      case Some(f) => Some(s.(number1 := Number(f), number2 := Empty, result := f, operation := None))
  }

  /** `enterOperation`: with a second operand it calculates first and then
      sets the new operation, otherwise it sets or replaces the operation
      when there is a first operand worth keeping. */
  function LegacyAfterOperation(p: Platform, s: LegacyState, op: LegacyOperation): Option<LegacyState> {
    if s.number1.Error? then Some(s)
    else if s.operation.Some? && !s.number2.Empty? then
      match LegacyAfterCalculation(p, s)
      case None => None
      case Some(c) => Some(c.(operation := Some(op)))
    else if s.operation.Some? then Some(s.(operation := Some(op)))
    else if !IsEmpty(s.number1) then Some(s.(operation := Some(op)))
    else Some(s)
  }

  /** `onAction`; None when `formatResult` throws. */
  function LegacyApply(p: Platform, s: LegacyState, a: A.LegacyAction): Option<LegacyState> {
    match a
    case Number(n) => Some(LegacyAfterDigit(s, n))
    case Decimal => Some(LegacyAfterDecimal(s))
    case Clear => Some(LegacyDefault())
    case Operation(op) => LegacyAfterOperation(p, s, op)
    case Calculate => LegacyAfterCalculation(p, s)
    case Delete => Some(LegacyAfterDeletion(s))
    case ToggleSign => LegacyAfterToggleSign(p, s)
    case Constant(c) => Some(LegacyAfterConstant(s, c))
  }

  // ---------------------------------------------------------------------
  // The invariant: a second operand exists only while an operation is
  // pending.

  predicate LegacyShape(s: LegacyState) {
    s.operation.None? ==> s.number2.Empty?
  }

  lemma LegacyCalculationKeepsShape(p: Platform, s: LegacyState)
    requires LegacyShape(s)
    ensures LegacyAfterCalculation(p, s).Some? ==> LegacyShape(LegacyAfterCalculation(p, s).value)
  {
  }

  /** Every action that returns keeps the shape. */
  lemma LegacyApplyKeepsShape(p: Platform, s: LegacyState, a: A.LegacyAction)
    requires LegacyShape(s)
    ensures LegacyApply(p, s, a).Some? ==> LegacyShape(LegacyApply(p, s, a).value)
  {
    match a {
      case Calculate => LegacyCalculationKeepsShape(p, s);
      case _ =>
    }
  }

  // ---------------------------------------------------------------------
  // The editing rules.

  /** Digits on the first operand: no "00", a nine-character cap that a lone
      "0" escapes, a lone "0" replaced by the digit, and the error marker
      restarting the state. */
  lemma LegacyDigitRules(s: LegacyState, n: int)
    requires s.operation.None?
    ensures var s' := LegacyAfterDigit(s, n);
      && (s.number1 == Number("0") && n == 0 ==> s' == s)
      && (s.number1.Number? && |s.number1.text| >= MAX_NUM_LENGTH && s.number1 != Number("0") ==> s' == s)
      && (s.number1 == Number("0") && n != 0 ==> s' == s.(number1 := Number(IntString(n))))
      && (s.number1.Number? && s.number1 != Number("0") && |s.number1.text| < MAX_NUM_LENGTH ==>
            s' == s.(number1 := Number(s.number1.text + IntString(n))))
      && (s.number1.Error? ==> s' == LegacyDefault().(number1 := Number(IntString(n))))
      && (s.number1.Empty? || s.number1.Constant? ==> s' == s.(number1 := Number(IntString(n))))
  {
  }

  /** Digits on the second operand: the same, except that the cap has no
      exception and the error marker is simply replaced. */
  lemma LegacySecondDigitRules(s: LegacyState, n: int)
    requires s.operation.Some?
    ensures var s' := LegacyAfterDigit(s, n);
      && s'.number1 == s.number1 && s'.operation == s.operation && s'.result == s.result
      && (s.number2 == Number("0") && n == 0 ==> s' == s)
      && (s.number2 == Number("0") && n != 0 ==> s'.number2 == Number(IntString(n)))
      && (s.number2.Number? && |s.number2.text| >= MAX_NUM_LENGTH ==> s' == s)
      && (s.number2.Number? && s.number2 != Number("0") && |s.number2.text| < MAX_NUM_LENGTH ==>
            s'.number2 == Number(s.number2.text + IntString(n)))
      && (!s.number2.Number? ==> s'.number2 == Number(IntString(n)))
  {
  }

  /** The decimal key: ignored on a number with a point and on a constant;
      a blank number, the placeholder and the error marker become "0.";
      any other number gets the point appended. Only the edited slot changes. */
  lemma LegacyDecimalRules(s: LegacyState)
    ensures var s' := LegacyAfterDecimal(s);
      var o := if s.operation.None? then s.number1 else s.number2;
      var o' := if s.operation.None? then s'.number1 else s'.number2;
      && s'.operation == s.operation && s'.result == s.result
      && (s.operation.None? ==> s'.number2 == s.number2)
      && (s.operation.Some? ==> s'.number1 == s.number1)
      && ((o.Number? && '.' in o.text) || o.Constant? ==> s' == s)
      && ((o.Number? && '.' !in o.text && IsBlank(o.text)) || o.Empty? || o.Error? ==> o' == Number("0."))
      && (o.Number? && '.' !in o.text && !IsBlank(o.text) ==> o' == Number(o.text + "."))
  {
  }

  /** A constant replaces the edited operand; on the error marker it
      restarts the state. */
  lemma LegacyConstantRules(s: LegacyState, c: ConstantOperand)
    ensures var s' := LegacyAfterConstant(s, c);
      && (s.operation.Some? ==> s' == s.(number2 := c))
      && (s.operation.None? && s.number1.Error? ==> s' == LegacyDefault().(number1 := c))
      && (s.operation.None? && !s.number1.Error? ==> s' == s.(number1 := c))
  {
  }

  /** Calculating: nothing happens without two valued operands and an
      operation; a zero divisor leaves the error marker and "Error"; otherwise
      the formatted value becomes the first operand and the result, and
      the second operand and the operation are cleared. */
  lemma LegacyCalculationRules(p: Platform, s: LegacyState)
    ensures var r := LegacyAfterCalculation(p, s);
      var n1, n2 := GetNumericValue(s.number1, p.parse), GetNumericValue(s.number2, p.parse);
      && (n1.None? || n2.None? || s.operation.None? ==> r == Some(s))
      && (s.number1.Error? || s.number2.Empty? ==> r == Some(s))
      && (n1.Some? && n2.Some? && s.operation == Some(Divide) && n2.value == 0.0 ==>
            r == Some(LegacyState(Error, None, Empty, "Error")))
      && (n1.Some? && n2.Some? && s.operation.Some? && !(s.operation == Some(Divide) && n2.value == 0.0) ==>
            var f := LegacyFormatResult(p, LegacyCompute(p, s.operation.value, n1.value, n2.value));
            (f.None? <==> r.None?) &&
            (f.Some? ==> r == Some(LegacyState(Number(f.value), None, Empty, f.value))))
  {
  }

  /** Entering an operation: ignored after an error; with a second operand
      it calculates first and keeps the new operation; with only an operation
      pending it replaces it; otherwise it needs a first operand that is not
      "empty" (a typed "0" is). */
  lemma LegacyOperationRules(p: Platform, s: LegacyState, op: LegacyOperation)
    ensures var r := LegacyAfterOperation(p, s, op);
      && (s.number1.Error? ==> r == Some(s))
      && (!s.number1.Error? && s.operation.Some? && !s.number2.Empty? ==>
            (r.None? <==> LegacyAfterCalculation(p, s).None?) &&
            (r.Some? ==> r.value == LegacyAfterCalculation(p, s).value.(operation := Some(op))))
      && (!s.number1.Error? && s.operation.Some? && s.number2.Empty? ==> r == Some(s.(operation := Some(op))))
      && (s.operation.None? && !IsEmpty(s.number1) ==> r == Some(s.(operation := Some(op))))
      && (s.operation.None? && IsEmpty(s.number1) ==> r == Some(s))
  {
  }

  /** Chaining an operator onto "a ÷ 0" leaves the error marker with the new
      operation pending: the calculation's reset is overwritten by the
      operation. */
  lemma ChainingAfterDivisionByZero(p: Platform, s: LegacyState, op: LegacyOperation)
    requires !s.number1.Error? && GetNumericValue(s.number1, p.parse).Some?
    requires s.operation == Some(Divide) && GetNumericValue(s.number2, p.parse) == Some(0.0)
    ensures LegacyAfterOperation(p, s, op) == Some(LegacyState(Error, Some(op), Empty, "Error"))
  {
  }

  /** Deleting takes one step back: the second operand first (a character, or
      the whole operand), then the operation, then the first operand (a
      character, or back to "0"); and a state with nothing in it shows "0".
      Whatever the step does not touch stays as it was. */
  lemma LegacyDeletionRules(s: LegacyState)
    ensures var s' := LegacyAfterDeletion(s);
      && (IsEmpty(s'.number1) && s'.number2.Empty? && s'.operation.None? ==> s'.number1 == Number("0"))
      && s'.result == s.result
  {
  }

  /** With a second operand, deleting edits only that operand. */
  lemma LegacyDeletionSecond(s: LegacyState)
    requires !s.number2.Empty?
    ensures var s' := LegacyAfterDeletion(s);
      && s'.operation == s.operation
      && s'.number2 == (if s.number2.Number? && |s.number2.text| > 1
                        then Number(DropLast(s.number2.text)) else Empty)
      && s'.number1 == (if IsEmpty(s.number1) && s.operation.None? && s'.number2.Empty?
                        then Number("0") else s.number1)
      && s'.result == s.result
  {
  }

  /** With an operation and no second operand, deleting drops the operation. */
  lemma LegacyDeletionOperation(s: LegacyState)
    requires s.number2.Empty? && s.operation.Some?
    ensures var s' := LegacyAfterDeletion(s);
      && s'.operation.None? && s'.number2.Empty?
      && s'.number1 == (if IsEmpty(s.number1) then Number("0") else s.number1)
      && s'.result == s.result
  {
  }

  /** With only a first operand, deleting takes its last character; a single
      character, a constant, or what reads as empty afterwards becomes "0". */
  lemma LegacyDeletionFirst(s: LegacyState)
    requires s.number2.Empty? && s.operation.None?
    ensures var s' := LegacyAfterDeletion(s);
      && s'.operation.None? && s'.number2.Empty?
      && (!IsEmpty(s.number1) ==>
            s'.number1 == (if s.number1.Number? && |s.number1.text| > 1 && !IsEmpty(Number(DropLast(s.number1.text)))
                           then Number(DropLast(s.number1.text)) else Number("0")))
      && (IsEmpty(s.number1) ==> s'.number1 == Number("0"))
      && s'.result == s.result
  {
  }

  /** The sign key: a typed number other than blank, "0" and "-" has its
      leading '-' flipped; "0" and blank become "-" and "-" becomes "0"; the
      placeholder and the error marker become "-". */
  lemma ToggledRules(p: Platform, t: string)
    ensures !IsBlank(t) && t != "0" && t != "-" ==>
      Toggled(p, Number(t)) == Some(Number(if t[0] == '-' then t[1..] else "-" + t))
    ensures IsBlank(t) || t == "0" ==> Toggled(p, Number(t)) == Some(Number("-"))
    ensures t == "-" ==> Toggled(p, Number(t)) == Some(Number("0"))
    ensures Toggled(p, Empty) == Some(Number("-")) && Toggled(p, Error) == Some(Number("-"))
  {
    if !IsBlank(t) {
      assert |t| > 0;
    }
    if t == "-" {
      assert !IsBlank(t) by { assert !IsWhitespace(t[0]); }
    }
  }

  /** The sign key on a constant: the negated value, formatted as a typed
      number; None where formatting throws. */
  lemma ToggledConstant(p: Platform, symbol: string, v: real)
    ensures Toggled(p, Constant(symbol, v)) ==
      (match LegacyFormatResult(p, -v)
       case None => None
       case Some(f) => Some(Number(f)))
  {
  }

  /** Toggling twice gives the number back, when it has digits after an
      optional '-'; "0" and "-" also toggle into each other. */
  lemma ToggledTwice(p: Platform, u: string, negative: bool)
    requires u != [] && u[0] != '-' && !IsWhitespace(u[0]) && u != "0"
    ensures var t := if negative then "-" + u else u;
      var flipped := if negative then u else "-" + u;
      Toggled(p, Number(t)) == Some(Number(flipped)) && Toggled(p, Number(flipped)) == Some(Number(t))
    ensures Toggled(p, Number("0")) == Some(Number("-")) && Toggled(p, Number("-")) == Some(Number("0"))
  {
    assert !IsBlank(u);
    assert !IsBlank("-" + u) by { assert ("-" + u)[0] == '-'; }
    assert ("-" + u)[1..] == u;
    assert !IsBlank("0") by { assert "0"[0] == '0'; }
    assert !IsBlank("-") by { assert "-"[0] == '-'; }
  }

  // ---------------------------------------------------------------------
  // The view model itself.

  class LegacyCalculatorViewModel {
    const platform: Platform
    var state: LegacyState

    ghost predicate Valid()
      reads this
    {
      LegacyShape(state)
    }

    constructor(platform: Platform)
      ensures this.platform == platform && state == LegacyDefault()
      ensures Valid()
    {
      this.platform := platform;
      state := LegacyDefault();
    }

    /** `onAction`; `ok` is false when `formatResult` throws, and the state
        is then left as it was. */
    method OnAction(action: A.LegacyAction) returns (ok: bool)
      requires Valid()
      modifies this
      ensures ok == LegacyApply(platform, old(state), action).Some?
      ensures ok ==> state == LegacyApply(platform, old(state), action).value
      ensures !ok ==> state == old(state)
      ensures Valid()
    {
      LegacyApplyKeepsShape(platform, state, action);
      ok := true;
      match action {
        case Number(n) => EnterNumber(n);
        case Decimal => EnterDecimal();
        case Clear => state := LegacyDefault();
        case Operation(op) => ok := EnterOperation(op);
        case Calculate => ok := PerformCalculation();
        case Delete => PerformDeletion();
        case ToggleSign => ok := ToggleSign();
        case Constant(c) => EnterConstant(c);
      }
    }

    method EnterConstant(constant: ConstantOperand)
      modifies this
      ensures state == LegacyAfterConstant(old(state), constant)
    {
      if state.operation.None? {
        state := if state.number1.Error? then LegacyDefault().(number1 := constant) else state.(number1 := constant);
      } else {
        state := state.(number2 := constant);
      }
    }

    method PerformDeletion()
      modifies this
      ensures state == LegacyAfterDeletion(old(state))
    {
      if !state.number2.Empty? {
        if state.number2.Number? {
          var value := state.number2.text;
          if |value| > 1 {
            state := state.(number2 := Number(DropLast(value)));
          } else {
            state := state.(number2 := Empty);
          }
        } else {
          // a constant, or the error marker
          state := state.(number2 := Empty);
        }
      } else if state.operation.Some? {
        state := state.(operation := None);
      } else if !IsEmpty(state.number1) {
        if state.number1.Number? {
          var value := state.number1.text;
          if |value| > 1 {
            state := state.(number1 := Number(DropLast(value)));
          } else {
            state := state.(number1 := Number("0"));
          }
        } else {
          // a constant: the placeholder and the error marker count as empty
          state := state.(number1 := Number("0"));
        }
      }
      if IsEmpty(state.number1) && state.number2.Empty? && state.operation.None? {
        state := state.(number1 := Number("0"));
      }
    }

    /** The `when` over one operand in `toggleSign`. */
    method Toggle(current: Operand) returns (r: Option<Operand>)
      ensures r == Toggled(platform, current)
    {
      match current {
        case Number(value) =>
          if !IsBlank(value) && value != "0" && value != "-" {
            var newValue := if |value| > 0 && value[0] == '-' then value[1..] else "-" + value;
            r := Some(Number(newValue));
          } else if IsBlank(value) || value == "0" {
            r := Some(Number("-"));
          } else {
            r := Some(Number("0"));
          }
        case Constant(_, value) =>
          var negativeValue := -value;
          var formatted := LegacyFormatResult(platform, negativeValue);
          if formatted.None? {
            assert Toggled(platform, current) == None;
            return None;
          }
          r := Some(Number(formatted.value));
          assert Toggled(platform, current) == r;
        case Error =>
          r := Some(Number("-"));
        case Empty =>
          r := Some(Number("-"));
      }
    }

    method ToggleSign() returns (ok: bool)
      modifies this
      ensures ok == LegacyAfterToggleSign(platform, old(state)).Some?
      ensures ok ==> state == LegacyAfterToggleSign(platform, old(state)).value
      ensures !ok ==> state == old(state)
    {
      if state.operation.None? {
        var toggled := Toggle(state.number1);
        if toggled.None? {
          return false;
        }
        state := state.(number1 := toggled.value);
      } else {
        var toggled := Toggle(state.number2);
        if toggled.None? {
          return false;
        }
        state := state.(number2 := toggled.value);
      }
      ok := true;
    }

    method PerformCalculation() returns (ok: bool)
      modifies this
      ensures ok == LegacyAfterCalculation(platform, old(state)).Some?
      ensures ok ==> state == LegacyAfterCalculation(platform, old(state)).value
      ensures !ok ==> state == old(state)
    {
      ok := true;
      var number1 := GetNumericValue(state.number1, platform.parse);
      var number2 := GetNumericValue(state.number2, platform.parse);
      if number1.None? || state.operation.None? || number2.None? {
        return;
      }
      var a, b := number1.value, number2.value;
      var result: real;
      match state.operation.value {
        case Add => result := a + b;
        case Subtract => result := a - b;
        case Multiply => result := a * b;
        case Divide =>
          if b == 0.0 {
            state := state.(number1 := Error, number2 := Empty, operation := None, result := "Error");
            return;
          }
          result := a / b;
        case Mod => result := platform.rem(a, b);
        case Root => result := platform.pow(a, 0.5);
        case Power => result := platform.pow(a, b);
      }
      assert result == LegacyCompute(platform, state.operation.value, a, b);
      var formatted := LegacyFormatResult(platform, result);
      if formatted.None? {
        return false;
      }
      state := state.(number1 := Number(formatted.value), number2 := Empty, result := formatted.value, operation := None);
    }

    method EnterOperation(operation: LegacyOperation) returns (ok: bool)
      modifies this
      ensures ok == LegacyAfterOperation(platform, old(state), operation).Some?
      ensures ok ==> state == LegacyAfterOperation(platform, old(state), operation).value
      ensures !ok ==> state == old(state)
    {
      ok := true;
      if state.number1.Error? {
        return;
      }
      if state.operation.Some? && !state.number2.Empty? {
        ok := PerformCalculation();
        if !ok {
          return;
        }
        state := state.(operation := Some(operation));
        return;
      }
      if state.operation.Some? && state.number2.Empty? {
        state := state.(operation := Some(operation));
        return;
      }
      if !IsEmpty(state.number1) && !state.number1.Error? {
        state := state.(operation := Some(operation));
      }
    }

    method EnterDecimal()
      modifies this
      ensures state == LegacyAfterDecimal(old(state))
    {
      if state.operation.None? {
        match state.number1 {
          case Number(value) =>
            if '.' in value {
              return;
            }
            if IsBlank(value) {
              state := state.(number1 := Number("0."));
            } else {
              state := state.(number1 := Number(value + "."));
            }
          case Error =>
            state := state.(number1 := Number("0."));
          case Empty =>
            state := state.(number1 := Number("0."));
          case Constant(_, _) =>
            return;
        }
      } else {
        match state.number2 {
          case Number(value) =>
            if '.' in value {
              return;
            }
            if IsBlank(value) {
              state := state.(number2 := Number("0."));
            } else {
              state := state.(number2 := Number(value + "."));
            }
          case Empty =>
            state := state.(number2 := Number("0."));
          case Error =>
            state := state.(number2 := Number("0."));
          case Constant(_, _) =>
            return;
        }
      }
    }

    method EnterNumber(number: int)
      modifies this
      ensures state == LegacyAfterDigit(old(state), number)
    {
      if state.operation.None? {
        match state.number1 {
          case Number(value) =>
            if value == "0" && number == 0 {
              return;
            }
            if |value| >= MAX_NUM_LENGTH && value != "0" {
              return;
            }
            var newValue := if value == "0" then IntString(number) else value + IntString(number);
            state := state.(number1 := Number(newValue));
          case Error =>
            state := LegacyDefault().(number1 := Number(IntString(number)));
          case Constant(_, _) =>
            state := state.(number1 := Number(IntString(number)));
          case Empty =>
            state := state.(number1 := Number(IntString(number)));
        }
      } else {
        match state.number2 {
          case Number(value) =>
            if value == "0" && number == 0 {
              return;
            }
            if |value| >= MAX_NUM_LENGTH {
              return;
            }
            var newValue := if value == "0" then IntString(number) else value + IntString(number);
            state := state.(number2 := Number(newValue));
          case Empty =>
            state := state.(number2 := Number(IntString(number)));
          case Constant(_, _) =>
            state := state.(number2 := Number(IntString(number)));
          case Error =>
            state := state.(number2 := Number(IntString(number)));
        }
      }
    }
  }
}
