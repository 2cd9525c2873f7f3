/** The token-stream calculator's view model (calculator/ui/
    CalculatorViewModel.kt). Its state is the committed infix tokens, the
    operand being typed, the last result and the rendered display. Every
    keypad action rewrites the state and then re-renders the display.

    The transitions are first given as functions on `CalculatorState`; the
    class `CalculatorViewModel` then performs them the way the source does,
    by reassigning its `state` field, and each method is proved to perform
    its function. */
module InputMachine {
  import opened Wrappers
  import opened Text
  import opened Doubles
  import opened Operations
  import opened Operands
  import opened ShuntingYard
  import opened RpnEvaluator
  import opened ResultFormat
  import opened WellFormed
  import A = Actions

  /** The longest integer `enterNumber` lets the user type. */
  const DIGIT_LIMIT: nat := 9

  // ---------------------------------------------------------------------
  // Rendering the display (`updateDisplayExpression`).

  function TokenText(t: Token): string {
    match t
    case Val(o) => GetDisplayValue(o)
    case Op(op) => op.Symbol()
  }

  /** The display texts of the tokens, one after the other. */
  function TokensText(ts: seq<Token>): string
    decreases |ts|
  {
    if ts == [] then "" else TokensText(ts[..|ts| - 1]) + TokenText(ts[|ts| - 1])
  }

  /** The text before trimming: the tokens, then the operand being typed
      unless it is the empty placeholder. */
  function RawExpression(tokens: seq<Token>, current: Operand): string {
    TokensText(tokens) + (if current.Empty? then "" else GetDisplayValue(current))
  }

  /** The display of a raw text: the text trimmed, or "0" when nothing
      visible is left. */
  function Display(raw: string): string {
    var t := Trim(raw);
    if IsBlank(t) then "0" else t
  }

  /** The display is never blank and never starts or ends with whitespace; it
      reads "0" exactly when the raw text shows nothing, and is otherwise the
      raw text trimmed. */
  lemma DisplayProperties(raw: string)
    ensures var r := Display(raw);
      && r != [] && !IsBlank(r)
      && !IsWhitespace(r[0]) && !IsWhitespace(r[|r| - 1])
      && (IsBlank(raw) ==> r == "0")
      && (!IsBlank(raw) ==> r == Trim(raw))
  {
    if IsBlank(raw) {
      DisplayOfBlank(raw);
    } else {
      DisplayOfNonBlank(raw);
    }
  }

  lemma DisplayOfBlank(raw: string)
    requires IsBlank(raw)
    ensures Display(raw) == "0" && !IsBlank("0") && !IsWhitespace('0')
  {
    TrimEdges(raw);
    assert !IsWhitespace("0"[0]);
  }

  lemma DisplayOfNonBlank(raw: string)
    requires !IsBlank(raw)
    ensures var t := Trim(raw);
      && Display(raw) == t && t != [] && !IsBlank(t)
      && !IsWhitespace(t[0]) && !IsWhitespace(t[|t| - 1])
  {
    TrimEdges(raw);
    var t := Trim(raw);
    assert !IsWhitespace(t[0]);
  }

  /** A text with something visible at both ends is shown as it is. */
  lemma DisplayOfVisible(raw: string)
    requires raw != [] && !IsWhitespace(raw[0]) && !IsWhitespace(raw[|raw| - 1])
    ensures Display(raw) == raw
  {
    assert TrimStart(raw) == raw;
    assert TrimEnd(raw) == raw;
    assert !IsBlank(raw);
  }

  lemma ZeroIsVisible()
    ensures Display("0") == "0"
  {
    assert "0"[0] == '0';
    DisplayOfVisible("0");
  }

  function Render(tokens: seq<Token>, current: Operand): string {
    Display(RawExpression(tokens, current))
  }

  function WithDisplay(s: CalculatorState): CalculatorState {
    s.(displayExpression := Render(s.inputTokens, s.currentInput))
  }

  // ---------------------------------------------------------------------
  // The transitions, before the display is re-rendered.

  /** `enterNumber`: the digit's text is `number.toString()`. */
  function AfterDigit(s: CalculatorState, n: int): CalculatorState {
    var current := s.currentInput;
    var digit := Number(IntString(n));
    if current.Error? then
      s.(currentInput := digit, inputTokens := [], result := "0")
    else if s.result != "0" && s.inputTokens == [] && !current.Number? then
      s.(currentInput := digit, inputTokens := [], result := "0")
    else if current == Number("0") && s.inputTokens == [] then
      if n == 0 then s else s.(currentInput := digit, result := "0")
    else if current.Number? then
      if |current.text| >= DIGIT_LIMIT && '.' !in current.text then s
      else s.(currentInput := Number(current.text + IntString(n)), result := "0")
    else
      s.(currentInput := digit, result := "0")
  }

  /** `enterDecimal` */
  function AfterDecimal(s: CalculatorState): CalculatorState {
    var current := s.currentInput;
    if current.Error? || s.result != "0" then
      s.(currentInput := Number("0."), inputTokens := [], result := "0")
    else if current.Number? && '.' !in current.text then
      s.(currentInput := Number(current.text + "."))
    else if current.Empty? || current.Constant? then
      s.(currentInput := Number("0."))
    else s
  }

  predicate EndsWithOperator(tokens: seq<Token>) {
    tokens != [] && tokens[|tokens| - 1].Op?
  }

  /** `enterConstant` */
  function AfterConstant(s: CalculatorState, c: ConstantOperand): CalculatorState {
    var current, tokens := s.currentInput, s.inputTokens;
    var alone := s.(currentInput := c, inputTokens := [], result := "0");
    if current == Number("0") && tokens == [] then alone
    else if Committable(current) then
      if !EndsWithOperator(tokens) then alone
      else s.(currentInput := Empty, inputTokens := tokens + [Val(current), Val(c)])
    else if current.Empty? && EndsWithOperator(tokens) then
      s.(currentInput := Empty, inputTokens := tokens + [Val(c)])
    else alone
  }

  /** `enterOperation`: commit the operand being typed, then append the
      operator or let it replace a trailing one. */
  function AfterOperation(s: CalculatorState, op: Operation): CalculatorState {
    var committed := s.inputTokens + (if Committable(s.currentInput) then [Val(s.currentInput)] else []);
    var tokens :=
      if EndsWithOperator(committed) then committed[|committed| - 1 := Op(op)]
      else committed + [Op(op)];
    s.(inputTokens := tokens, currentInput := Empty)
  }

  /** `enterSquareRootOperation`: starts a fresh expression with √. */
  function AfterSquareRoot(s: CalculatorState): CalculatorState {
    s.(inputTokens := [Op(SquareRoot)], currentInput := Empty, result := "0")
  }

  /** The tokens `performCalculation` hands to the engine. */
  function FinalTokens(s: CalculatorState): seq<Token> {
    s.inputTokens + (if Committable(s.currentInput) then [Val(s.currentInput)] else [])
  }

  /** `performCalculation`, with both `catch` clauses folded into the error
      tag of the evaluation. */
  function AfterCalculation(p: Platform, s: CalculatorState): CalculatorState {
    var finalTokens := FinalTokens(s);
    if finalTokens == [] then s.(result := GetDisplayValue(s.currentInput))
    else
      match Evaluate(p, ToRpn(finalTokens))
      case Success(v) =>
        var formatted := FormatResult(p, v);
        s.(currentInput := Number(formatted), inputTokens := [], result := formatted)
      case Failure(e) =>
        s.(currentInput := Error, inputTokens := [], result := "Error: " + Message(e))
  }

  /** `performDeletion`, before it re-renders the display. */
  function AfterDeletion(s: CalculatorState): CalculatorState {
    var current, tokens := s.currentInput, s.inputTokens;
    if Committable(current) then
      if current.Number? && |current.text| > 1 then s.(currentInput := Number(DropLast(current.text)))
      else s.(currentInput := Empty)
    else if tokens != [] then
      var last := tokens[|tokens| - 1];
      if last.Val? then s.(currentInput := last.operand, inputTokens := tokens[..|tokens| - 1])
      else s.(inputTokens := tokens[..|tokens| - 1])
    else DefaultState()
  }

  /** The sign flip of a typed number: remove a leading '-' or prepend one. */
  function Negated(t: string): string {
    if |t| > 0 && t[0] == '-' then t[1..] else "-" + t
  }

  /** `toggleSign`, before it re-renders the display. */
  function AfterToggleSign(p: Platform, s: CalculatorState): CalculatorState {
    match s.currentInput
    case Number(t) => s.(currentInput := Number(Negated(t)))
    case Constant(_, v) => s.(currentInput := Number(FormatResult(p, -v)))
    case Empty => s.(currentInput := Number("-"))
    case Error => s.(currentInput := Number("-"))
  }

  /** The `when` of `onAction`. */
  function Next(p: Platform, s: CalculatorState, a: A.CalculatorAction): CalculatorState {
    match a
    case Number(n) => AfterDigit(s, n)
    case Decimal => AfterDecimal(s)
    case Clear => DefaultState()
    case Delete => AfterDeletion(s)
    case Calculate => AfterCalculation(p, s)
    case Operation(op) => AfterOperation(s, op)
    case ToggleSign => AfterToggleSign(p, s)
    case SquareRoot => AfterSquareRoot(s)
    case Constant(c) => AfterConstant(s, c)
  }

  /** `onAction`: dispatch, then re-render the display. (Deletion and the sign
      toggle render once more on their own; rendering twice gives the same
      display.) */
  function Apply(p: Platform, s: CalculatorState, a: A.CalculatorAction): CalculatorState {
    WithDisplay(Next(p, s, a))
  }

  // ---------------------------------------------------------------------
  // The invariant every action keeps.

  /** Only operands that are neither the placeholder nor the error marker are
      ever committed. */
  predicate CommittedOperands(tokens: seq<Token>) {
    forall k :: 0 <= k < |tokens| && tokens[k].Val? ==> Committable(tokens[k].operand)
  }

  /** Two operators never stand next to each other. */
  predicate NoAdjacentOperators(tokens: seq<Token>) {
    forall k :: 0 < k < |tokens| ==> !(tokens[k - 1].Op? && tokens[k].Op?)
  }

  /** The shape of the tokens and the operand: committed operands only, no
      two operators in a row, and no pending tokens beside an error. */
  predicate WellBuilt(s: CalculatorState) {
    && CommittedOperands(s.inputTokens)
    && NoAdjacentOperators(s.inputTokens)
    && (s.currentInput.Error? ==> s.inputTokens == [])
  }

  /** A state the view model can be in: well built, showing its own rendering. */
  predicate Consistent(s: CalculatorState) {
    WellBuilt(s) && s.displayExpression == Render(s.inputTokens, s.currentInput)
  }

  lemma DefaultStateIsConsistent()
    ensures Consistent(DefaultState())
    ensures DefaultState().displayExpression == "0"
  {
    assert TokensText([]) == "";
    assert GetDisplayValue(Number("0")) == "0";
    assert RawExpression([], Number("0")) == "0";
    ZeroIsVisible();
  }

  lemma AppendKeepsInvariant(tokens: seq<Token>, t: Token)
    requires CommittedOperands(tokens) && NoAdjacentOperators(tokens)
    requires t.Val? ==> Committable(t.operand)
    requires t.Op? ==> !EndsWithOperator(tokens)
    ensures CommittedOperands(tokens + [t]) && NoAdjacentOperators(tokens + [t])
  {
  }

  lemma PrefixKeepsInvariant(tokens: seq<Token>, n: nat)
    requires n <= |tokens|
    requires CommittedOperands(tokens) && NoAdjacentOperators(tokens)
    ensures CommittedOperands(tokens[..n]) && NoAdjacentOperators(tokens[..n])
  {
    assert forall k :: 0 <= k < n ==> tokens[..n][k] == tokens[k];
  }

  lemma OperationKeepsInvariant(s: CalculatorState, op: Operation)
    requires WellBuilt(s)
    ensures WellBuilt(AfterOperation(s, op))
  {
    var committed := s.inputTokens + (if Committable(s.currentInput) then [Val(s.currentInput)] else []);
    if Committable(s.currentInput) {
      AppendKeepsInvariant(s.inputTokens, Val(s.currentInput));
    }
    if EndsWithOperator(committed) {
      var n := |committed|;
      assert n < 2 || !committed[n - 2].Op?;
      assert committed[n - 1 := Op(op)] == committed[..n - 1] + [Op(op)];
      PrefixKeepsInvariant(committed, n - 1);
      AppendKeepsInvariant(committed[..n - 1], Op(op));
    } else {
      AppendKeepsInvariant(committed, Op(op));
    }
  }

  lemma ConstantKeepsInvariant(s: CalculatorState, c: ConstantOperand)
    requires WellBuilt(s)
    ensures WellBuilt(AfterConstant(s, c))
  {
    var tokens := s.inputTokens;
    if s.currentInput == Number("0") && tokens == [] {
    } else if Committable(s.currentInput) && EndsWithOperator(tokens) {
      var t1 := tokens + [Val(s.currentInput)];
      AppendKeepsInvariant(tokens, Val(s.currentInput));
      AppendKeepsInvariant(t1, Val(c));
      assert tokens + [Val(s.currentInput), Val(c)] == t1 + [Val(c)];
    } else if s.currentInput.Empty? && EndsWithOperator(tokens) {
      AppendKeepsInvariant(tokens, Val(c));
    }
  }

  lemma DeletionKeepsInvariant(s: CalculatorState)
    requires WellBuilt(s)
    ensures WellBuilt(AfterDeletion(s))
  {
    if !Committable(s.currentInput) && s.inputTokens != [] {
      PrefixKeepsInvariant(s.inputTokens, |s.inputTokens| - 1);
    } else if !Committable(s.currentInput) {
      DefaultStateIsConsistent();
    }
  }

  lemma SquareRootKeepsInvariant(s: CalculatorState)
    ensures WellBuilt(AfterSquareRoot(s))
  {
  }

  /** Every action keeps the shape: the error marker is never committed, two
      operators never meet, and an error leaves no pending tokens. */
  lemma {:induction false} NextKeepsInvariant(p: Platform, s: CalculatorState, a: A.CalculatorAction)
    requires WellBuilt(s)
    ensures WellBuilt(Next(p, s, a))
  {
    match a {
      case Number(n) =>
      case Decimal =>
      case Clear => DefaultStateIsConsistent();
      case Delete => DeletionKeepsInvariant(s);
      case Calculate =>
      case Operation(op) => OperationKeepsInvariant(s, op);
      case ToggleSign =>
      case SquareRoot => SquareRootKeepsInvariant(s);
      case Constant(c) => ConstantKeepsInvariant(s, c);
    }
  }

  /** Every action leads from a consistent state to a consistent state, whose
      display is never blank. */
  lemma ApplyPreservesConsistency(p: Platform, s: CalculatorState, a: A.CalculatorAction)
    requires Consistent(s)
    ensures Consistent(Apply(p, s, a))
    ensures !IsBlank(Apply(p, s, a).displayExpression)
  {
    var n := Next(p, s, a);
    NextKeepsInvariant(p, s, a);
    DisplayProperties(RawExpression(n.inputTokens, n.currentInput));
  }

  // ---------------------------------------------------------------------
  // The editing rules.

  /** `Clear` restores the default state, whose display reads "0". */
  lemma ClearRestoresDefault(p: Platform, s: CalculatorState)
    ensures Apply(p, s, A.Clear) == DefaultState()
    ensures Apply(p, s, A.Clear).displayExpression == "0"
  {
    assert Apply(p, s, A.Clear) == DefaultState() by {
      assert Next(p, s, A.Clear) == DefaultState();
      DefaultStateIsConsistent();
    }
  }

  /** A digit after an error starts a fresh number, with no pending tokens
      and the result reset. */
  lemma DigitAfterError(s: CalculatorState, n: int)
    requires s.currentInput.Error?
    ensures var s' := AfterDigit(s, n);
      s'.currentInput == Number(IntString(n)) && s'.inputTokens == [] && s'.result == "0"
  {
  }

  /** No "00": a zero typed on a lone "0" changes nothing; another digit
      replaces the zero. */
  lemma NoLeadingZeros(s: CalculatorState, n: int)
    requires s.currentInput == Number("0") && s.inputTokens == []
    ensures n == 0 ==> AfterDigit(s, n) == s
    ensures n != 0 ==> AfterDigit(s, n) == s.(currentInput := Number(IntString(n)), result := "0")
  {
  }

  /** The digit cap: an integer of nine or more characters takes no more
      digits; a number with a point has no cap. */
  lemma DigitCap(s: CalculatorState, n: int)
    requires s.currentInput.Number? && |s.currentInput.text| >= DIGIT_LIMIT
    ensures '.' !in s.currentInput.text ==> AfterDigit(s, n) == s
    ensures '.' in s.currentInput.text ==>
      AfterDigit(s, n).currentInput == Number(s.currentInput.text + IntString(n))
  {
  }

  /** Otherwise a digit is appended to the number being typed, a lone "0"
      with nothing before it is replaced, and the tokens stay. */
  lemma DigitAppends(s: CalculatorState, n: int)
    requires s.currentInput.Number? && |s.currentInput.text| < DIGIT_LIMIT
    requires s.currentInput != Number("0") || s.inputTokens != []
    ensures var s' := AfterDigit(s, n);
      s'.currentInput == Number(s.currentInput.text + IntString(n)) &&
      s'.inputTokens == s.inputTokens && s'.result == "0"
  {
  }

  /** Typing a digit and deleting it again gives back the number being typed
      and the tokens. */
  lemma DigitThenDelete(s: CalculatorState, d: int)
    requires 0 <= d <= 9
    requires s.currentInput.Number? && 1 <= |s.currentInput.text| < DIGIT_LIMIT
    requires s.currentInput != Number("0") || s.inputTokens != []
    ensures var s' := AfterDeletion(AfterDigit(s, d));
      s'.currentInput == s.currentInput && s'.inputTokens == s.inputTokens
  {
    var t := s.currentInput.text;
    assert |IntString(d)| == 1 by {
      assert IntString(d) == NatString(d);
    }
    assert DropLast(t + IntString(d)) == t;
  }

  /** The decimal point: appended once to a number, ignored on a number that
      has one; it starts "0." after an error, after a shown result, on the
      placeholder and on a constant, and the first two also drop the pending
      tokens. */
  lemma DecimalEntry(s: CalculatorState)
    ensures var s' := AfterDecimal(s);
      && (s.currentInput.Error? || s.result != "0" ==>
            s'.currentInput == Number("0.") && s'.inputTokens == [] && s'.result == "0")
      && (!s.currentInput.Error? && s.result == "0" ==> s'.inputTokens == s.inputTokens && s'.result == "0")
      && (s.result == "0" && s.currentInput.Number? && '.' !in s.currentInput.text ==>
            s'.currentInput == Number(s.currentInput.text + "."))
      && (s.result == "0" && s.currentInput.Number? && '.' in s.currentInput.text ==>
            s'.currentInput == s.currentInput)
      && (s.result == "0" && (s.currentInput.Empty? || s.currentInput.Constant?) ==>
            s'.currentInput == Number("0."))
  {
  }

  /** An operator commits the operand being typed unless it is the
      placeholder or the error marker, leaves the placeholder behind, and
      never puts two operators side by side. */
  lemma OperatorEntry(s: CalculatorState, op: Operation)
    requires WellBuilt(s)
    ensures var s' := AfterOperation(s, op);
      && s'.currentInput == Empty
      && s'.result == s.result
      && EndsWithOperator(s'.inputTokens) && s'.inputTokens[|s'.inputTokens| - 1] == Op(op)
      && NoAdjacentOperators(s'.inputTokens)
      && (Committable(s.currentInput) ==> s'.inputTokens == s.inputTokens + [Val(s.currentInput), Op(op)])
      && (!Committable(s.currentInput) && EndsWithOperator(s.inputTokens) ==>
            s'.inputTokens == s.inputTokens[..|s.inputTokens| - 1] + [Op(op)])
      && (!Committable(s.currentInput) && !EndsWithOperator(s.inputTokens) ==>
            s'.inputTokens == s.inputTokens + [Op(op)])
  {
    OperationKeepsInvariant(s, op);
    var tokens := s.inputTokens;
    if Committable(s.currentInput) {
      assert tokens + [Val(s.currentInput)] + [Op(op)] == tokens + [Val(s.currentInput), Op(op)];
    } else if EndsWithOperator(tokens) {
      assert tokens + [] == tokens;
      assert tokens[|tokens| - 1 := Op(op)] == tokens[..|tokens| - 1] + [Op(op)];
    } else {
      assert tokens + [] == tokens;
    }
  }

  /** Last operator wins: a second operator replaces the first instead of
      following it. */
  lemma LastOperatorWins(s: CalculatorState, first: Operation, second: Operation)
    ensures var s1 := AfterOperation(s, first);
      var s2 := AfterOperation(s1, second);
      |s2.inputTokens| == |s1.inputTokens| > 0 &&
      s2.inputTokens == s1.inputTokens[..|s1.inputTokens| - 1] + [Op(second)]
  {
    var s1 := AfterOperation(s, first);
    var t1 := s1.inputTokens;
    assert t1 + [] == t1;
    assert t1[|t1| - 1 := Op(second)] == t1[..|t1| - 1] + [Op(second)];
  }

  /** An operator and two deletions undo each other: the first deletion
      drops the operator, the second brings the committed operand back. */
  lemma OperatorThenDeleteTwice(s: CalculatorState, op: Operation)
    requires WellBuilt(s)
    requires Committable(s.currentInput)
    ensures var s3 := AfterDeletion(AfterDeletion(AfterOperation(s, op)));
      s3.inputTokens == s.inputTokens && s3.currentInput == s.currentInput
  {
    var t1 := s.inputTokens + [Val(s.currentInput)];
    OperatorEntry(s, op);
    assert (t1 + [Op(op)])[..|t1|] == t1;
    assert t1 + [Op(op)] == s.inputTokens + [Val(s.currentInput), Op(op)];
    assert t1[..|s.inputTokens|] == s.inputTokens;
  }

  lemma SquareRootDisplay()
    ensures Render([Op(SquareRoot)], Empty) == "√"
  {
    assert TokensText([Op(SquareRoot)]) == "√" by {
      assert [Op(SquareRoot)][..0] == [];
    }
    assert RawExpression([Op(SquareRoot)], Empty) == "√";
    DisplayOfVisible("√");
  }

  /** The square-root key starts a new expression "√", whatever came before. */
  lemma SquareRootStartsOver(p: Platform, s: CalculatorState)
    ensures var s' := Apply(p, s, A.SquareRoot);
      s'.inputTokens == [Op(SquareRoot)] && s'.currentInput == Empty && s'.result == "0" &&
      s'.displayExpression == "√"
  {
    var n := Next(p, s, A.SquareRoot);
    assert n == AfterSquareRoot(s);
    assert n.inputTokens == [Op(SquareRoot)] && n.currentInput == Empty && n.result == "0";
    SquareRootDisplay();
  }

  /** A constant after an operator joins the expression; elsewhere it becomes
      the operand being typed and drops the pending tokens. */
  lemma ConstantEntry(s: CalculatorState, c: ConstantOperand)
    ensures var s' := AfterConstant(s, c);
      && (EndsWithOperator(s.inputTokens) && s.currentInput.Empty? ==>
            s'.inputTokens == s.inputTokens + [Val(c)] && s'.currentInput == Empty && s'.result == s.result)
      && (EndsWithOperator(s.inputTokens) && Committable(s.currentInput) ==>
            s'.inputTokens == s.inputTokens + [Val(s.currentInput), Val(c)] && s'.currentInput == Empty &&
            s'.result == s.result)
      && (!EndsWithOperator(s.inputTokens) || s.currentInput.Error? ==>
            s'.inputTokens == [] && s'.currentInput == c && s'.result == "0")
  {
  }

  /** Deleting: a longer number loses its last character, a one-character
      number or a constant becomes the placeholder; with nothing being typed,
      the last token is taken back, an operand into the input; with nothing at
      all the state starts over. */
  lemma DeletionRules(s: CalculatorState)
    ensures var s' := AfterDeletion(s);
      && (s.currentInput.Number? && |s.currentInput.text| > 1 ==>
            s' == s.(currentInput := Number(s.currentInput.text[..|s.currentInput.text| - 1])))
      && (Committable(s.currentInput) && !(s.currentInput.Number? && |s.currentInput.text| > 1) ==>
            s' == s.(currentInput := Empty))
      && (!Committable(s.currentInput) && s.inputTokens != [] ==>
            var last := s.inputTokens[|s.inputTokens| - 1];
            s' == s.(inputTokens := s.inputTokens[..|s.inputTokens| - 1],
                     currentInput := if last.Val? then last.operand else s.currentInput))
      && (!Committable(s.currentInput) && s.inputTokens == [] ==> s' == DefaultState())
  {
  }

  /** Toggling the sign flips a leading '-' of the number being typed and
      touches nothing else; the placeholder and the error marker become "-". */
  lemma ToggleSignRules(p: Platform, s: CalculatorState)
    ensures var s' := AfterToggleSign(p, s);
      && s'.inputTokens == s.inputTokens && s'.result == s.result
      && (s.currentInput.Number? ==> s'.currentInput == Number(Negated(s.currentInput.text)))
      && (s.currentInput.Empty? || s.currentInput.Error? ==> s'.currentInput == Number("-"))
      && (s.currentInput.Constant? ==> s'.currentInput == Number(FormatResult(p, -s.currentInput.value)))
  {
    match s.currentInput
    case Number(t) =>
      assert AfterToggleSign(p, s) == s.(currentInput := Number(Negated(t)));
    case Constant(_, v) =>
      assert AfterToggleSign(p, s) == s.(currentInput := Number(FormatResult(p, -v)));
    case Empty =>
      assert AfterToggleSign(p, s) == s.(currentInput := Number("-"));
    case Error =>
      assert AfterToggleSign(p, s) == s.(currentInput := Number("-"));
  }

  /** Toggling twice gives back the number, unless it starts with "--". */
  lemma ToggleSignTwice(p: Platform, s: CalculatorState)
    requires s.currentInput.Number?
    requires var t := s.currentInput.text; !(|t| >= 2 && t[0] == '-' && t[1] == '-')
    ensures AfterToggleSign(p, AfterToggleSign(p, s)) == s
  {
    var t := s.currentInput.text;
    if |t| > 0 && t[0] == '-' {
      assert "-" + t[1..] == t;
    } else {
      assert ("-" + t)[1..] == t;
    }
  }

  /** Calculating: with nothing to calculate only the result changes; a
      successful evaluation leaves its formatted value as both the result and
      the new input; a failure leaves the error marker and an "Error: "
      result. Either way the pending tokens are gone. */
  lemma CalculationOutcome(p: Platform, s: CalculatorState)
    ensures var s' := AfterCalculation(p, s);
      && (FinalTokens(s) == [] ==>
            s'.result == GetDisplayValue(s.currentInput) && s'.inputTokens == s.inputTokens &&
            s'.currentInput == s.currentInput)
      && (FinalTokens(s) != [] ==> s'.inputTokens == [])
      && (FinalTokens(s) != [] && Evaluate(p, ToRpn(FinalTokens(s))).Success? ==>
            s'.currentInput == Number(s'.result) &&
            s'.result == FormatResult(p, Evaluate(p, ToRpn(FinalTokens(s))).value))
      && (FinalTokens(s) != [] && Evaluate(p, ToRpn(FinalTokens(s))).Failure? ==>
            s'.currentInput == Error && |s'.result| > 7 && s'.result[..7] == "Error: ")
  {
  }

  /** A well-formed expression whose operands all have values can only fail
      on a zero divisor or a negative root. */
  lemma WellFormedCalculation(p: Platform, s: CalculatorState)
    requires WellFormedInfix(FinalTokens(s)) && AllOperandsValued(p, FinalTokens(s))
    ensures var s' := AfterCalculation(p, s);
      s'.currentInput.Error? ==>
        s'.result == "Error: " + Message(DivisionByZero) || s'.result == "Error: " + Message(InvalidRoot)
  {
    WellFormedExpressionEvaluates(p, FinalTokens(s));
  }

  /** "5" "+" reads "5+" on the display. */
  lemma RenderPendingOperator()
    ensures Render([Val(Number("5")), Op(Add)], Empty) == "5+"
  {
    var tokens := [Val(Number("5")), Op(Add)];
    assert tokens[..1] == [Val(Number("5"))] && tokens[..1][..0] == [];
    assert TokensText(tokens) == "5+";
    assert RawExpression(tokens, Empty) == "5+";
    DisplayOfVisible("5+");
  }

  /** "5" "+" "3" reads "5+3" on the display. */
  lemma RenderExpression()
    ensures Render([Val(Number("5")), Op(Add)], Number("3")) == "5+3"
  {
    var tokens := [Val(Number("5")), Op(Add)];
    assert tokens[..1] == [Val(Number("5"))] && tokens[..1][..0] == [];
    assert TokensText(tokens) == "5+";
    assert RawExpression(tokens, Number("3")) == "5+3";
    DisplayOfVisible("5+3");
  }

  // ---------------------------------------------------------------------
  // The view model itself.

  class CalculatorViewModel {
    const platform: Platform
    var state: CalculatorState

    ghost predicate Valid()
      reads this
    {
      Consistent(state)
    }

    constructor(platform: Platform)
      ensures this.platform == platform && state == DefaultState()
      ensures Valid()
    {
      this.platform := platform;
      state := DefaultState();
      DefaultStateIsConsistent();
    }

    method OnAction(action: A.CalculatorAction)
      requires Valid()
      modifies this
      ensures state == Apply(platform, old(state), action)
      ensures Valid()
    {
      ApplyPreservesConsistency(platform, state, action);
      match action {
        case Number(n) => EnterNumber(n);
        case Decimal => EnterDecimal();
        case Clear => state := DefaultState();
        case Operation(op) => EnterOperation(op);
        case Calculate => PerformCalculation();
        case Delete => PerformDeletion();
        case ToggleSign => ToggleSign();
        case Constant(c) => EnterConstant(c);
        case SquareRoot => EnterSquareRootOperation();
      }
      UpdateDisplayExpression();
    }

    method EnterNumber(number: int)
      modifies this
      ensures state == AfterDigit(old(state), number)
    {
      var current := state.currentInput;
      var newCurrentInput := current;
      var clearInputTokens := false;
      var resetResult := false;
      if current.Error? {
        newCurrentInput := Number(IntString(number));
        clearInputTokens := true;
        resetResult := true;
      } else if state.result != "0" && state.inputTokens == [] && !current.Number? {
        newCurrentInput := Number(IntString(number));
        clearInputTokens := true;
        resetResult := true;
      } else if current.Number? && current.text == "0" && state.inputTokens == [] {
        if number == 0 {
          return;
        }
        newCurrentInput := Number(IntString(number));
        resetResult := true;
      } else if current.Number? {
        var currentValue := current.text;
        if |currentValue| >= DIGIT_LIMIT && '.' !in currentValue {
          return;
        }
        newCurrentInput := Number(currentValue + IntString(number));
        resetResult := true;
      } else if current.Empty? || current.Constant? {
        newCurrentInput := Number(IntString(number));
        resetResult := true;
      }
      state := state.(
        currentInput := newCurrentInput,
        inputTokens := if clearInputTokens then [] else state.inputTokens,
        result := if resetResult then "0" else state.result);
    }

    method EnterDecimal()
      modifies this
      ensures state == AfterDecimal(old(state))
    {
      var current := state.currentInput;
      var newCurrentInput := current;
      if current.Error? || state.result != "0" {
        newCurrentInput := Number("0.");
        state := state.(inputTokens := [], result := "0");
      } else if current.Number? && '.' !in current.text {
        newCurrentInput := Number(current.text + ".");
      } else if current.Empty? || current.Constant? {
        newCurrentInput := Number("0.");
      }
      state := state.(currentInput := newCurrentInput);
    }

    method EnterConstant(constant: ConstantOperand)
      modifies this
      ensures state == AfterConstant(old(state), constant)
    {
      var newTokens := state.inputTokens;
      if state.currentInput.Number? && state.currentInput.text == "0" && newTokens == [] {
        state := state.(currentInput := constant, inputTokens := [], result := "0");
        return;
      } else if !state.currentInput.Empty? && !state.currentInput.Error? {
        if newTokens == [] || !newTokens[|newTokens| - 1].Op? {
          state := state.(currentInput := constant, inputTokens := [], result := "0");
          return;
        } else {
          if !state.currentInput.Empty? {
            newTokens := newTokens + [Val(state.currentInput)];
          }
          newTokens := newTokens + [Val(constant)];
          state := state.(currentInput := Empty, inputTokens := newTokens);
        }
      } else if state.currentInput.Empty? {
        if newTokens != [] && newTokens[|newTokens| - 1].Op? {
          newTokens := newTokens + [Val(constant)];
          state := state.(currentInput := Empty, inputTokens := newTokens);
        } else {
          state := state.(currentInput := constant, inputTokens := [], result := "0");
        }
      } else if state.currentInput.Error? {
        state := state.(currentInput := constant, inputTokens := [], result := "0");
      }
    }

    method EnterOperation(operation: Operation)
      modifies this
      ensures state == AfterOperation(old(state), operation)
    {
      var newTokens := state.inputTokens;
      if !state.currentInput.Empty? && !state.currentInput.Error? {
        newTokens := newTokens + [Val(state.currentInput)];
      }
      if newTokens != [] && newTokens[|newTokens| - 1].Op? {
        newTokens := newTokens[|newTokens| - 1 := Op(operation)];
      } else {
        newTokens := newTokens + [Op(operation)];
      }
      state := state.(inputTokens := newTokens, currentInput := Empty);
    }

    method EnterSquareRootOperation()
      modifies this
      ensures state == AfterSquareRoot(old(state))
    {
      var newTokens: seq<Token> := [];
      newTokens := newTokens + [Op(SquareRoot)];
      state := state.(inputTokens := newTokens, currentInput := Empty, result := "0");
    }

    method PerformCalculation()
      modifies this
      ensures state == AfterCalculation(platform, old(state))
    {
      var finalTokens := state.inputTokens;
      if !state.currentInput.Empty? && !state.currentInput.Error? {
        finalTokens := finalTokens + [Val(state.currentInput)];
      } else {
        assert finalTokens + [] == finalTokens;
      }
      assert finalTokens == FinalTokens(state);
      if finalTokens == [] {
        state := state.(result := GetDisplayValue(state.currentInput));
        return;
      }
      var rpnTokens := ConvertInfixToRpn(finalTokens);
      var calculationResult := EvaluateRpn(platform, rpnTokens);
      match calculationResult {
        case Success(value) =>
          var formattedResult := FormatResult(platform, value);
          state := state.(currentInput := Number(formattedResult), inputTokens := [], result := formattedResult);
        case Failure(e) =>
          state := state.(currentInput := Error, inputTokens := [], result := "Error: " + Message(e));
      }
    }

    method UpdateDisplayExpression()
      modifies this
      ensures state == WithDisplay(old(state))
    {
      var tokens := state.inputTokens;
      var expression: string := "";
      for i := 0 to |tokens|
        invariant expression == TokensText(tokens[..i])
      {
        assert tokens[..i + 1][..i] == tokens[..i];
        match tokens[i] {
          case Val(o) => expression := expression + GetDisplayValue(o);
          case Op(op) => expression := expression + op.Symbol();
        }
      }
      assert tokens[..|tokens|] == tokens;
      assert expression + "" == expression;
      if !state.currentInput.Empty? {
        expression := expression + GetDisplayValue(state.currentInput);
      }
      var trimmed := Trim(expression);
      state := state.(displayExpression := if IsBlank(trimmed) then "0" else trimmed);
    }

    method PerformDeletion()
      modifies this
      ensures state == WithDisplay(AfterDeletion(old(state)))
    {
      if !state.currentInput.Empty? && !state.currentInput.Error? {
        if state.currentInput.Number? && |state.currentInput.text| > 1 {
          state := state.(currentInput := Number(DropLast(state.currentInput.text)));
        } else {
          state := state.(currentInput := Empty);
        }
      } else if state.inputTokens != [] {
        var lastToken := state.inputTokens[|state.inputTokens| - 1];
        var newTokens := state.inputTokens[..|state.inputTokens| - 1];
        if lastToken.Val? {
          state := state.(currentInput := lastToken.operand, inputTokens := newTokens);
        } else {
          state := state.(inputTokens := newTokens);
        }
      } else {
        state := DefaultState();
      }
      UpdateDisplayExpression();
    }

    method ToggleSign()
      modifies this
      ensures state == WithDisplay(AfterToggleSign(platform, old(state)))
    {
      match state.currentInput {
        case Number(value) =>
          var newValue := if |value| > 0 && value[0] == '-' then value[1..] else "-" + value;
          state := state.(currentInput := Number(newValue));
        case Constant(_, value) =>
          var negativeValue := -value;
          state := state.(currentInput := Number(FormatResult(platform, negativeValue)));
          assert state == AfterToggleSign(platform, old(state));
        case Empty =>
          state := state.(currentInput := Number("-"));
        case Error =>
          state := state.(currentInput := Number("-"));
      }
      assert state == AfterToggleSign(platform, old(state));
      UpdateDisplayExpression();
    }
  }
}
