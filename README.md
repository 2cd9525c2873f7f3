# Calculator model

A Dafny model of the Android calculator's core, with proofs about the model.
It covers:

- **The engine** (`CalculatorEngine`). It converts the keyed-in infix token
  list to reverse Polish notation with the shunting-yard algorithm, evaluates
  the RPN on a value stack, and formats a `Double` result for the display.
- **The token-stream view model** (`calculator/ui/CalculatorViewModel`). It
  keeps the committed tokens, the operand being typed, the last result and
  the rendered expression, and updates them one key at a time.
- **The earlier two-operand view model** (the root `CalculatorViewModel`). It
  keeps a first operand, an optional pending operation, a second operand and
  a result, and has its own `formatResult`.
- **The data they share**: the operands (a typed number, a named constant,
  the empty placeholder, the error marker), the session state, and the two
  operator tables (symbol, precedence, associativity).

Modules:

- `Wrappers`: `Option` and `Result`.
- `Text`: the string operations the source uses: `trim`, `split`, `take`,
  `dropLast` and `Int.toString`.
- `Doubles`: the `Platform` record and the `Long` range.
- `Operations`, `LegacyOperations`: the two operator tables.
- `Operands`: operands, tokens, `CalculatorState`.
- `Actions`, `LegacyActions`: the two keypad action alphabets.
- `ShuntingYard`, `RpnEvaluator`: the engine's two algorithms. Each is a
  specification function plus the imperative method proved equal to it.
- `WellFormed`: what a well-formed key sequence guarantees about the engine.
- `ResultFormat`: both `formatResult` versions, compared.
- `InputMachine`: the token-stream view model, as transition functions and
  as the class `CalculatorViewModel` whose methods are proved to perform
  them.
- `LegacyMachine`: the two-operand view model, built the same way.

**The Platform record.** Numbers are `real`. The `Double` library calls have
no definition here. They are fields of a `Platform` record that the engine
and the view models take as a parameter:

- `toDoubleOrNull`
- `Double.toString`
- `sqrt`, `pow` and `%`
- `toLong()`, whose result is kept in the 64-bit range

The integrality test `value % 1 == 0.0` is written with the platform's `%`.

**Exceptions.** Each thrown exception becomes the `Failure` of a `Result`
that carries an error tag. The engine's `CalculatorError` variants each have
a tag. The two `IllegalArgumentException`s that `evaluateRpn` throws have two
more: `InvalidOperand` and `MissingBinaryOperands`.

**How the view models are modelled.** Each view model is first a set of pure
transition functions on its state record. Each class method is then proved,
in its `ensures`, to leave exactly the state the matching function gives. The
engine's `convertInfixToRpn` and `evaluateRpn` are loops over a local queue
and stack, proved equal to left-fold specification functions.

**Behaviour worth knowing.**

- The nine-character digit cap of the token-stream view model applies only to
  a number without a '.'. A `'-'` sign counts toward the nine.
- An operator key in the error state is not ignored. The error marker is not
  committed, and the operator is appended (or replaces a trailing one).
- After "12+", one Delete removes only the '+'. The operand stays empty until
  a second Delete brings back "12".
- The default `result` is the empty string, not "0".
- A binary operator with fewer than two values throws
  `IllegalArgumentException`, not `CalculatorError.NotEnoughOperands`. That
  error is only for a square root with nothing to take the root of.
- A constant keyed after "5+3" is appended right after the 3. Two operands
  are then adjacent, and evaluating them ends in `InvalidExpression`.
- In the two-operand view model, an operator keyed after a division by zero
  leaves the error marker in `number1` with that operator pending.
- `=` in the error state is not a no-op. With no tokens and the error
  marker as operand there is nothing to compute, so the result becomes the
  error marker's display text "Error", replacing "Error: …".

## Model

| member | source | states |
|---|---|---|
| Operations.PrecedenceLevels | app/src/main/java/com/example/calculator/calculator/data/CalculatorOperation.kt:8-14 | square root alone at precedence 4, power alone at 3, × ÷ % at 2, + − at 1 |
| Operations.OnlyPowerIsRightAssociative | app/src/main/java/com/example/calculator/calculator/data/CalculatorOperation.kt:5-14 | among binary operators exactly Power is not left-associative; the unary square root is not left-associative either |
| Operations.SymbolsDistinct | app/src/main/java/com/example/calculator/calculator/data/CalculatorOperation.kt:8-14 | every symbol is one character and no two operators share one |
| LegacyOperations.LegacyPrecedenceLevels | app/src/main/java/com/example/calculator/CalculatorOperation.kt:3-12 | Power and Root share the top level 3 and are exactly the operators that are not left-associative; × ÷ % at 2, + − at 1 |
| LegacyOperations.LegacySymbolsDistinct | app/src/main/java/com/example/calculator/CalculatorOperation.kt:5-12 | every symbol is one character and no two operators share one |
| Operands.DefaultState | app/src/main/java/com/example/calculator/CalculatorState.kt:10-15 | no tokens, operand "0", empty result, display "0" |
| Operands.GetNumericValue | app/src/main/java/com/example/calculator/CalculatorState.kt:17-22 | no value exactly for the placeholder, the error marker and an unparsable number; a constant gives its value, a number its parse |
| Operands.GetDisplayValue | app/src/main/java/com/example/calculator/CalculatorState.kt:24-29 | a number shows its text, a constant its symbol, the error marker "Error"; the text is empty exactly for the placeholder or an empty text or symbol |
| Operands.EmptinessOfOperands | app/src/main/java/com/example/calculator/CalculatorState.kt:31-36 | placeholder and error marker are empty and have no value; a constant is never empty and always has a value; a committable operand is empty iff it is a blank or "0" number |
| Text.TrimStart | app/src/main/java/com/example/calculator/calculator/ui/CalculatorViewModel.kt:217 | the result is a suffix of the text, everything dropped is whitespace, and it does not start with whitespace |
| Text.TrimEnd | app/src/main/java/com/example/calculator/calculator/ui/CalculatorViewModel.kt:217 | the result is a prefix of the text, everything dropped is whitespace, and it does not end with whitespace |
| Text.TrimIsSlice | app/src/main/java/com/example/calculator/calculator/ui/CalculatorViewModel.kt:217 | trimming keeps one contiguous piece of the text |
| Text.TrimStartEmpty | app/src/main/java/com/example/calculator/calculator/ui/CalculatorViewModel.kt:217 | trimming the start gives nothing iff the text is blank |
| Text.TrimEndEmpty | app/src/main/java/com/example/calculator/calculator/ui/CalculatorViewModel.kt:217 | trimming the end gives nothing iff the text is blank |
| Text.TrimEdges | app/src/main/java/com/example/calculator/calculator/ui/CalculatorViewModel.kt:217-219 | trim gives nothing iff the text is blank; otherwise neither end of the result is whitespace |
| Text.Split | app/src/main/java/com/example/calculator/calculator/domain/CalculatorEngine.kt:126 | at least one part; more than one iff the separator occurs; the first part is the text up to the first separator; no part contains the separator |
| Text.JoinSplit | app/src/main/java/com/example/calculator/calculator/domain/CalculatorEngine.kt:126 | joining the parts with the separator gives the text back |
| Text.Take | app/src/main/java/com/example/calculator/calculator/domain/CalculatorEngine.kt:135 | a prefix of length min(n, length) |
| Text.DropLast | app/src/main/java/com/example/calculator/calculator/ui/CalculatorViewModel.kt:227 | a prefix one character shorter, or empty for the empty text |
| Text.NatStringRoundTrip | app/src/main/java/com/example/calculator/calculator/domain/CalculatorEngine.kt:122 | the decimal digits of n read back as n |
| Text.IntString | app/src/main/java/com/example/calculator/calculator/domain/CalculatorEngine.kt:122 | never empty and never contains '.'; starts with '-' iff the number is negative, and the rest is digits |
| Text.IntStringRoundTrip | app/src/main/java/com/example/calculator/calculator/domain/CalculatorEngine.kt:122 | reading the text of an integer gives the integer back |
| ShuntingYard.PopWhileShape | app/src/main/java/com/example/calculator/calculator/domain/CalculatorEngine.kt:44-51 | it pops exactly the longest run of stack tops that bind at least as tightly as the incoming operator, leaves a top that does not, and appends the popped operators to the output top first |
| ShuntingYard.Drain | app/src/main/java/com/example/calculator/calculator/domain/CalculatorEngine.kt:57-59 | the output followed by every stacked operator, top first |
| ShuntingYard.ConvertInfixToRpn | app/src/main/java/com/example/calculator/calculator/domain/CalculatorEngine.kt:33-61 | the queue-and-stack loops compute exactly the shunting-yard specification |
| ShuntingYard.PopWhileMultiset | app/src/main/java/com/example/calculator/calculator/domain/CalculatorEngine.kt:44-51 | popping moves tokens from the stack to the output without losing or inventing any |
| ShuntingYard.StepMultiset | app/src/main/java/com/example/calculator/calculator/domain/CalculatorEngine.kt:37-55 | each input token adds exactly itself to output plus stack |
| ShuntingYard.ShuntAllMultiset | app/src/main/java/com/example/calculator/calculator/domain/CalculatorEngine.kt:37-55 | after the input loop, output plus stack hold exactly the input tokens |
| ShuntingYard.DrainMultiset | app/src/main/java/com/example/calculator/calculator/domain/CalculatorEngine.kt:57-59 | draining moves the stack to the output and loses nothing |
| ShuntingYard.ToRpnIsPermutation | app/src/main/java/com/example/calculator/calculator/domain/CalculatorEngine.kt:33-61 | the RPN is a permutation of the infix tokens: same multiset, same length |
| ShuntingYard.PopWhileOperands | app/src/main/java/com/example/calculator/calculator/domain/CalculatorEngine.kt:44-51 | popping operators adds no operand to the output |
| ShuntingYard.DrainOperands | app/src/main/java/com/example/calculator/calculator/domain/CalculatorEngine.kt:57-59 | draining adds no operand to the output |
| ShuntingYard.ShuntAllOperands | app/src/main/java/com/example/calculator/calculator/domain/CalculatorEngine.kt:37-55 | the output's operands are the input's operands in the same order |
| ShuntingYard.ToRpnKeepsOperandOrder | app/src/main/java/com/example/calculator/calculator/domain/CalculatorEngine.kt:39-41 | operands appear in the RPN in exactly their input order; only operators move |
| ShuntingYard.ShuntAllStackOrdered | app/src/main/java/com/example/calculator/calculator/domain/CalculatorEngine.kt:44-52 | the operator stack never holds an operator above one that it would have popped |
| RpnEvaluator.Message | app/src/main/java/com/example/calculator/calculator/domain/CalculatorEngine.kt:10-25 | every error has a non-empty message |
| RpnEvaluator.ApplyBinary | app/src/main/java/com/example/calculator/calculator/domain/CalculatorEngine.kt:93-107 | fails iff dividing by zero, and then with DivisionByZero; otherwise the sum, difference, product, quotient, platform remainder or platform power of the deeper value (operand1) by the top one (operand2) |
| RpnEvaluator.ApplyTokenRules | app/src/main/java/com/example/calculator/calculator/domain/CalculatorEngine.kt:66-110 | one step: an operand pushes its value, square root replaces the top by its root, a binary operator replaces the top two by their result, the rest of the stack is kept; each failure happens exactly under its own condition |
| RpnEvaluator.EvalFailurePersists | app/src/main/java/com/example/calculator/calculator/domain/CalculatorEngine.kt:66-112 | once a prefix fails, the whole evaluation fails with the same error |
| RpnEvaluator.EvaluateRpn | app/src/main/java/com/example/calculator/calculator/domain/CalculatorEngine.kt:63-118 | the stack loop with its early exits computes exactly the evaluation specification |
| RpnEvaluator.EvalStackShape | app/src/main/java/com/example/calculator/calculator/domain/CalculatorEngine.kt:66-112 | a successful run leaves as many values as the token arities predict; a token list whose arities always fit can fail only on an invalid operand, a negative root or a zero divisor |
| RpnEvaluator.WellShapedEvaluation | app/src/main/java/com/example/calculator/calculator/domain/CalculatorEngine.kt:114-117 | an RPN that leaves exactly one value succeeds or fails only with an invalid operand, a negative root or division by zero |
| RpnEvaluator.IllShapedEvaluation | app/src/main/java/com/example/calculator/calculator/domain/CalculatorEngine.kt:114-117 | any other RPN fails; when its steps all succeed, the failure is InvalidExpression |
| WellFormed.PopOneHeight | app/src/main/java/com/example/calculator/calculator/domain/CalculatorEngine.kt:47 | moving one operator to the output keeps the output's height one above the stacked binary operators |
| WellFormed.PopWhileHeight | app/src/main/java/com/example/calculator/calculator/domain/CalculatorEngine.kt:44-51 | the popping loop keeps that balance |
| WellFormed.DrainHeight | app/src/main/java/com/example/calculator/calculator/domain/CalculatorEngine.kt:57-59 | draining a balanced state leaves an RPN of height one |
| WellFormed.BinaryCountPush | app/src/main/java/com/example/calculator/calculator/domain/CalculatorEngine.kt:52 | pushing counts one more binary operator, none for the square root |
| WellFormed.UnaryPopsNothing | app/src/main/java/com/example/calculator/calculator/domain/CalculatorEngine.kt:44-52 | an incoming square root pops nothing, since nothing binds tighter and it is not left-associative |
| WellFormed.StepOperatorHeight | app/src/main/java/com/example/calculator/calculator/domain/CalculatorEngine.kt:43-53 | an operator step keeps output and stack balanced for the expression read so far |
| WellFormed.StepHeight | app/src/main/java/com/example/calculator/calculator/domain/CalculatorEngine.kt:37-55 | every input step keeps output and stack balanced |
| WellFormed.ShuntHeight | app/src/main/java/com/example/calculator/calculator/domain/CalculatorEngine.kt:37-55 | the whole input loop keeps them balanced |
| WellFormed.ToRpnWellFormed | app/src/main/java/com/example/calculator/calculator/domain/CalculatorEngine.kt:33-61 | a well-formed infix expression becomes an RPN that leaves exactly one value |
| WellFormed.ValuedOperandsNeverInvalid | app/src/main/java/com/example/calculator/calculator/domain/CalculatorEngine.kt:68-73 | if every operand has a value, evaluation never fails with an invalid operand |
| WellFormed.WellFormedExpressionEvaluates | app/src/main/java/com/example/calculator/calculator/domain/CalculatorEngine.kt:33-118 | a well-formed expression never fails for lack of operands or with InvalidExpression; with valued operands only a negative root or a zero divisor can fail |
| WellFormed.PowerGroupsRight | app/src/main/java/com/example/calculator/calculator/domain/CalculatorEngine.kt:46 | [2,^,3,^,2] becomes [2,3,2,^,^] |
| WellFormed.PowerChainValue | app/src/main/java/com/example/calculator/calculator/domain/CalculatorEngine.kt:105 | that RPN computes 2^(3^2) |
| WellFormed.EqualPrecedenceGroupsLeft | app/src/main/java/com/example/calculator/calculator/domain/CalculatorEngine.kt:46 | [8,÷,4,×,2] becomes [8,4,÷,2,×] |
| WellFormed.LeftGroupedValue | app/src/main/java/com/example/calculator/calculator/domain/CalculatorEngine.kt:94-101 | that RPN computes (8÷4)×2 = 4 |
| ResultFormat.SignLength | app/src/main/java/com/example/calculator/calculator/domain/CalculatorEngine.kt:129 | one iff the integer part holds a '-', else zero |
| ResultFormat.IntegerPart | app/src/main/java/com/example/calculator/calculator/domain/CalculatorEngine.kt:128 | the prefix before the first '.', which contains none |
| ResultFormat.SplitAtPoint | app/src/main/java/com/example/calculator/calculator/domain/CalculatorEngine.kt:126-128 | a text with a point splits into more than one part; the first is the integer part and the second starts right after the point |
| ResultFormat.JoinedIsPrefix | app/src/main/java/com/example/calculator/calculator/domain/CalculatorEngine.kt:135-136 | integer part, point and a truncated fraction form a prefix of the original text |
| ResultFormat.LongDecimalCut | app/src/main/java/com/example/calculator/calculator/domain/CalculatorEngine.kt:125-137 | a long text with a point becomes its integer part alone iff the budget is not positive; otherwise integer part, point and min(budget, fraction length) digits, nine characters at most, all a prefix of the text |
| ResultFormat.FormatDecimalProperties | app/src/main/java/com/example/calculator/calculator/domain/CalculatorEngine.kt:124-143 | the result is a prefix of the decimal text; a text of ten or fewer characters is unchanged; a longer one without a point is cut to ten; with a point the integer part is kept whole and the result is the integer part alone iff the budget 9 − integer length − sign − 1 is not positive, else it keeps exactly min(budget, fraction length) fractional digits, nine characters at most |
| ResultFormat.FormatResultProperties | app/src/main/java/com/example/calculator/calculator/domain/CalculatorEngine.kt:120-145 | an integral value shows without a point and reads back as its Long; any other value shows a prefix of its decimal text, all of it when that is short |
| ResultFormat.LegacyFormatDecimalProperties | app/src/main/java/com/example/calculator/CalculatorViewModel.kt:340-354 | throws exactly when a long text's fraction budget 9 − integer length − sign is negative; otherwise a prefix of the text, unchanged when short, at most ten characters when long, keeping integer part and point and exactly min(budget, fraction length) fractional digits |
| ResultFormat.LegacyFormatResultAgrees | app/src/main/java/com/example/calculator/CalculatorViewModel.kt:336-356 | on integral values the two formatters agree; the older one throws only on a non-integral value whose text it cannot cut |
| ResultFormat.FormattersCompared | app/src/main/java/com/example/calculator/CalculatorViewModel.kt:341-351 | on short texts both formatters agree; when the older one does not throw, the engine's result is a prefix of it; when it throws, the engine's gives the integer part |
| ResultFormat.FormattersDifferByOneDigit | app/src/main/java/com/example/calculator/CalculatorViewModel.kt:345-347 | with a budget of two or more the older formatter keeps one fraction digit more; with a budget of one the engine drops the fraction and the older one keeps one digit |
| InputMachine.DisplayProperties | app/src/main/java/com/example/calculator/calculator/ui/CalculatorViewModel.kt:205-220 | the display is never blank and never starts or ends with whitespace: the trimmed text, or "0" when that is blank |
| InputMachine.DisplayOfBlank | app/src/main/java/com/example/calculator/calculator/ui/CalculatorViewModel.kt:219 | a blank expression shows "0" |
| InputMachine.DisplayOfNonBlank | app/src/main/java/com/example/calculator/calculator/ui/CalculatorViewModel.kt:217-219 | any other expression shows its trimmed text, which is visible at both ends |
| InputMachine.DisplayOfVisible | app/src/main/java/com/example/calculator/calculator/ui/CalculatorViewModel.kt:217-219 | a text visible at both ends is shown unchanged |
| InputMachine.ZeroIsVisible | app/src/main/java/com/example/calculator/calculator/ui/CalculatorViewModel.kt:219 | the fallback "0" is shown as it is |
| InputMachine.DefaultStateIsConsistent | app/src/main/java/com/example/calculator/calculator/ui/CalculatorViewModel.kt:20 | the initial state keeps the invariant and shows "0" |
| InputMachine.AppendKeepsInvariant | app/src/main/java/com/example/calculator/calculator/ui/CalculatorViewModel.kt:137-146 | appending a committable operand, or an operator after a non-operator, keeps the token invariant |
| InputMachine.PrefixKeepsInvariant | app/src/main/java/com/example/calculator/calculator/ui/CalculatorViewModel.kt:233-235 | dropping tokens from the end keeps the token invariant |
| InputMachine.OperationKeepsInvariant | app/src/main/java/com/example/calculator/calculator/ui/CalculatorViewModel.kt:133-152 | an operator key keeps the invariant |
| InputMachine.ConstantKeepsInvariant | app/src/main/java/com/example/calculator/calculator/ui/CalculatorViewModel.kt:98-131 | a constant key keeps the invariant |
| InputMachine.DeletionKeepsInvariant | app/src/main/java/com/example/calculator/calculator/ui/CalculatorViewModel.kt:222-245 | Delete keeps the invariant |
| InputMachine.SquareRootKeepsInvariant | app/src/main/java/com/example/calculator/calculator/ui/CalculatorViewModel.kt:154-164 | the square-root key always produces a state that keeps the invariant |
| InputMachine.NextKeepsInvariant | app/src/main/java/com/example/calculator/calculator/ui/CalculatorViewModel.kt:25-36 | every action keeps the invariant: committed tokens hold no placeholder or error marker, no two operators are adjacent, and the error marker has no tokens beside it |
| InputMachine.ApplyPreservesConsistency | app/src/main/java/com/example/calculator/calculator/ui/CalculatorViewModel.kt:25-38 | every action keeps the invariant and leaves the display equal to the rendering of tokens and operand, never blank |
| InputMachine.ClearRestoresDefault | app/src/main/java/com/example/calculator/calculator/ui/CalculatorViewModel.kt:29 | Clear gives the default state, display "0" |
| InputMachine.DigitAfterError | app/src/main/java/com/example/calculator/calculator/ui/CalculatorViewModel.kt:46-50 | a digit after an error starts a new number, with no tokens and result "0" |
| InputMachine.NoLeadingZeros | app/src/main/java/com/example/calculator/calculator/ui/CalculatorViewModel.kt:56-60 | on the initial "0", digit 0 changes nothing and any other digit replaces the "0", resets the result to "0" and keeps the empty token list |
| InputMachine.DigitCap | app/src/main/java/com/example/calculator/calculator/ui/CalculatorViewModel.kt:63 | a number of nine or more characters takes no digit unless it has a point |
| InputMachine.DigitAppends | app/src/main/java/com/example/calculator/calculator/ui/CalculatorViewModel.kt:61-66 | below the cap a digit is appended, tokens kept, result reset to "0" |
| InputMachine.DigitThenDelete | app/src/main/java/com/example/calculator/calculator/ui/CalculatorViewModel.kt:222-229 | Delete undoes a digit appended to a number |
| InputMachine.DecimalEntry | app/src/main/java/com/example/calculator/calculator/ui/CalculatorViewModel.kt:81-96 | after an error or a result the point starts "0." with no tokens; otherwise it appends a point once, and starts "0." on the placeholder or a constant |
| InputMachine.OperatorEntry | app/src/main/java/com/example/calculator/calculator/ui/CalculatorViewModel.kt:133-152 | commits the operand only if it is committable, replaces a trailing operator instead of appending a second, ends with the new operator and an empty operand |
| InputMachine.LastOperatorWins | app/src/main/java/com/example/calculator/calculator/ui/CalculatorViewModel.kt:142-143 | two operator keys in a row leave only the second |
| InputMachine.OperatorThenDeleteTwice | app/src/main/java/com/example/calculator/calculator/ui/CalculatorViewModel.kt:233-240 | an operator key after a number is undone by two Deletes |
| InputMachine.SquareRootDisplay | app/src/main/java/com/example/calculator/calculator/ui/CalculatorViewModel.kt:205-220 | the lone square-root token renders as "√" |
| InputMachine.SquareRootStartsOver | app/src/main/java/com/example/calculator/calculator/ui/CalculatorViewModel.kt:154-164 | whatever came before, the square-root key leaves tokens [√], an empty operand, result "0" and display "√" |
| InputMachine.ConstantEntry | app/src/main/java/com/example/calculator/calculator/ui/CalculatorViewModel.kt:98-131 | after an operator a constant is appended (after the operand being typed, if any) and the result is kept; otherwise it becomes the operand, the tokens are dropped and the result reset to "0" |
| InputMachine.DeletionRules | app/src/main/java/com/example/calculator/calculator/ui/CalculatorViewModel.kt:222-243 | shortens a long number; clears a one-character number or a constant; otherwise pops the last token and brings back a popped operand; with nothing left restores the default; in the first three cases every other field, the result included, is kept |
| InputMachine.ToggleSignRules | app/src/main/java/com/example/calculator/calculator/ui/CalculatorViewModel.kt:247-268 | flips a number's leading '-', turns the placeholder or error marker into "-", a constant into its formatted negation; tokens and result kept |
| InputMachine.ToggleSignTwice | app/src/main/java/com/example/calculator/calculator/ui/CalculatorViewModel.kt:249-253 | toggling a typed number twice gives the state back (unless it starts with two '-') |
| InputMachine.CalculationOutcome | app/src/main/java/com/example/calculator/calculator/ui/CalculatorViewModel.kt:166-203 | with nothing to compute only the result changes; otherwise tokens are cleared, and success shows the formatted value as both operand and result while failure leaves the error marker and a result starting "Error: " |
| InputMachine.WellFormedCalculation | app/src/main/java/com/example/calculator/calculator/ui/CalculatorViewModel.kt:177-202 | a well-formed expression of valued operands can fail only by division by zero or a negative root |
| InputMachine.RenderPendingOperator | app/src/main/java/com/example/calculator/calculator/ui/CalculatorViewModel.kt:205-220 | tokens 5,+ with no operand render "5+" |
| InputMachine.RenderExpression | app/src/main/java/com/example/calculator/calculator/ui/CalculatorViewModel.kt:205-220 | tokens 5,+ with operand 3 render "5+3" |
| InputMachine.CalculatorViewModel.constructor | app/src/main/java/com/example/calculator/calculator/ui/CalculatorViewModel.kt:19-23 | starts in the default state |
| InputMachine.CalculatorViewModel.OnAction | app/src/main/java/com/example/calculator/calculator/ui/CalculatorViewModel.kt:25-38 | dispatches, re-renders, and keeps the invariant |
| InputMachine.CalculatorViewModel.EnterNumber | app/src/main/java/com/example/calculator/calculator/ui/CalculatorViewModel.kt:40-78 | performs the digit transition |
| InputMachine.CalculatorViewModel.EnterDecimal | app/src/main/java/com/example/calculator/calculator/ui/CalculatorViewModel.kt:81-96 | performs the decimal-point transition |
| InputMachine.CalculatorViewModel.EnterConstant | app/src/main/java/com/example/calculator/calculator/ui/CalculatorViewModel.kt:98-131 | performs the constant transition |
| InputMachine.CalculatorViewModel.EnterOperation | app/src/main/java/com/example/calculator/calculator/ui/CalculatorViewModel.kt:133-152 | performs the operator transition on the token list |
| InputMachine.CalculatorViewModel.EnterSquareRootOperation | app/src/main/java/com/example/calculator/calculator/ui/CalculatorViewModel.kt:154-164 | performs the square-root transition |
| InputMachine.CalculatorViewModel.PerformCalculation | app/src/main/java/com/example/calculator/calculator/ui/CalculatorViewModel.kt:166-203 | runs the engine's two loops and the formatter, and gives the calculation transition |
| InputMachine.CalculatorViewModel.UpdateDisplayExpression | app/src/main/java/com/example/calculator/calculator/ui/CalculatorViewModel.kt:205-220 | the append loop sets the display to the rendering of tokens and operand |
| InputMachine.CalculatorViewModel.PerformDeletion | app/src/main/java/com/example/calculator/calculator/ui/CalculatorViewModel.kt:222-245 | performs the deletion transition, then re-renders |
| InputMachine.CalculatorViewModel.ToggleSign | app/src/main/java/com/example/calculator/calculator/ui/CalculatorViewModel.kt:247-270 | performs the sign transition, then re-renders |
| LegacyMachine.LegacyDefault | app/src/main/java/com/example/calculator/CalculatorViewModel.kt:16 | first operand "0", no operation, empty second operand, empty result |
| LegacyMachine.LegacyCompute | app/src/main/java/com/example/calculator/CalculatorViewModel.kt:174-194 | subtraction is first minus second, a quotient times the divisor gives the dividend back, Root is the first operand to the power 0.5 |
| LegacyMachine.LegacyComputeAgreesWithEngine | app/src/main/java/com/example/calculator/CalculatorViewModel.kt:174-194 | every operator but the binary Root has an engine twin with the same symbol and precedence that computes the same value; both refuse only a zero divisor |
| LegacyMachine.LegacyCalculationKeepsShape | app/src/main/java/com/example/calculator/CalculatorViewModel.kt:166-202 | a calculation keeps the state's shape: a second operand exists only while an operation is pending |
| LegacyMachine.LegacyApplyKeepsShape | app/src/main/java/com/example/calculator/CalculatorViewModel.kt:12-23 | every action that does not throw keeps that shape |
| LegacyMachine.LegacyDigitRules | app/src/main/java/com/example/calculator/CalculatorViewModel.kt:285-308 | with no operation: 0 on "0" and any digit on a long number change nothing; "0" is replaced, a shorter number extended; an error resets the state; placeholder and constant are replaced |
| LegacyMachine.LegacySecondDigitRules | app/src/main/java/com/example/calculator/CalculatorViewModel.kt:309-333 | with an operation pending the digit goes to the second operand: 0 on "0" and any digit on a number of nine or more characters change nothing, a shorter number is extended, "0" is replaced by any other digit, any other operand is replaced; the other fields are kept |
| LegacyMachine.LegacyDecimalRules | app/src/main/java/com/example/calculator/CalculatorViewModel.kt:226-282 | on the active operand: nothing for a pointed number or a constant; "0." for a blank number, the placeholder or the error marker; otherwise a point appended; the other fields kept |
| LegacyMachine.LegacyConstantRules | app/src/main/java/com/example/calculator/CalculatorViewModel.kt:25-37 | the constant replaces the second operand when an operation is pending, otherwise the first, resetting the state after an error |
| LegacyMachine.LegacyCalculationRules | app/src/main/java/com/example/calculator/CalculatorViewModel.kt:166-202 | nothing happens without two valued operands and an operation; division by zero gives the error state; otherwise the formatted result becomes both first operand and result, or the formatter throws |
| LegacyMachine.LegacyOperationRules | app/src/main/java/com/example/calculator/CalculatorViewModel.kt:204-224 | ignored after an error; with a pending operation and a second operand it calculates and then sets the operator; with none it replaces the operator; otherwise it starts only on a non-empty first operand |
| LegacyMachine.ChainingAfterDivisionByZero | app/src/main/java/com/example/calculator/CalculatorViewModel.kt:208-211 | chaining after a division by zero leaves the error marker with the new operator pending |
| LegacyMachine.LegacyDeletionRules | app/src/main/java/com/example/calculator/CalculatorViewModel.kt:39-94 | whatever branch runs, a state left with nothing in it shows first operand "0", and the result is kept |
| LegacyMachine.LegacyDeletionSecond | app/src/main/java/com/example/calculator/CalculatorViewModel.kt:41-61 | with a second operand, a longer number loses its last character and anything else is cleared; the operation is kept, and so is the first operand, except that one reading as empty, with no operation and the second operand gone, shows "0" |
| LegacyMachine.LegacyDeletionOperation | app/src/main/java/com/example/calculator/CalculatorViewModel.kt:63-66 | with an operation and no second operand, the operation goes; the first operand is kept, or shows "0" when it reads as empty |
| LegacyMachine.LegacyDeletionFirst | app/src/main/java/com/example/calculator/CalculatorViewModel.kt:68-93 | with only a first operand, a longer number loses its last character; a one-character number, a constant or a result that reads as empty becomes "0" |
| LegacyMachine.ToggledConstant | app/src/main/java/com/example/calculator/CalculatorViewModel.kt:118-122 | the sign key on a constant gives the formatted negated value as a typed number, or fails where formatting fails |
| LegacyMachine.ToggledRules | app/src/main/java/com/example/calculator/CalculatorViewModel.kt:99-128 | a number other than blank, "0" and "-" flips its leading '-'; "0" or blank become "-", "-" becomes "0"; placeholder and error marker become "-" |
| LegacyMachine.ToggledTwice | app/src/main/java/com/example/calculator/CalculatorViewModel.kt:100-117 | the sign key undoes itself on a number, and swaps "0" and "-" |
| LegacyMachine.LegacyCalculatorViewModel.constructor | app/src/main/java/com/example/calculator/CalculatorViewModel.kt:8-10 | starts in the default state |
| LegacyMachine.LegacyCalculatorViewModel.OnAction | app/src/main/java/com/example/calculator/CalculatorViewModel.kt:12-23 | performs the action's transition, or reports that it threw and leaves the state unchanged; keeps the shape |
| LegacyMachine.LegacyCalculatorViewModel.EnterConstant | app/src/main/java/com/example/calculator/CalculatorViewModel.kt:25-37 | performs the constant transition |
| LegacyMachine.LegacyCalculatorViewModel.PerformDeletion | app/src/main/java/com/example/calculator/CalculatorViewModel.kt:39-94 | performs the deletion transition |
| LegacyMachine.LegacyCalculatorViewModel.Toggle | app/src/main/java/com/example/calculator/CalculatorViewModel.kt:99-128 | computes the sign change of one operand, or reports that formatting threw |
| LegacyMachine.LegacyCalculatorViewModel.ToggleSign | app/src/main/java/com/example/calculator/CalculatorViewModel.kt:96-164 | performs the sign transition on the active operand, or reports that it threw |
| LegacyMachine.LegacyCalculatorViewModel.PerformCalculation | app/src/main/java/com/example/calculator/CalculatorViewModel.kt:166-202 | performs the calculation transition, or reports that formatting threw |
| LegacyMachine.LegacyCalculatorViewModel.EnterOperation | app/src/main/java/com/example/calculator/CalculatorViewModel.kt:204-224 | performs the operator transition, including the chained calculation |
| LegacyMachine.LegacyCalculatorViewModel.EnterDecimal | app/src/main/java/com/example/calculator/CalculatorViewModel.kt:226-282 | performs the decimal-point transition |
| LegacyMachine.LegacyCalculatorViewModel.EnterNumber | app/src/main/java/com/example/calculator/CalculatorViewModel.kt:284-334 | performs the digit transition |

## Left out

- Floating-point arithmetic is not modelled. `sqrt`, `pow` and `%` on
  `Double` are `Platform` fields with no properties. `+`, `-`, `*` and `/`
  are exact real arithmetic, so rounding, infinities and NaN are absent.
- `toDoubleOrNull`, `Double.toString` and `toLong()` are `Platform` fields.
  Which strings parse, how a value is written and how `toLong` rounds are not
  modelled. `toLong`'s result is only known to be in the 64-bit range.
- `MathConstants.PI` and `E` are `Constant(symbol, value)` operands with any
  real value.
- The messages behind "Error: " are fixed texts per error tag. The exact
  Kotlin messages (which interpolate the operand or stack size) are not
  modelled. Properties only rely on the "Error: " prefix.
- The engine's `UnknownCalculatorError` and the "Unknown operator" branch
  cannot be reached with the operator table. The tag exists, but no
  transition produces it.
- Compose UI, buttons, theming, the activity and the minus-key
  disambiguation in the composable are not part of this model.
- `mutableStateOf` observability is not modelled. `state` is a plain field.
- The record `number1`/`operation`/`number2`/`result` of the two-operand
  view model is not in the sources (its `CalculatorState` has token-stream
  fields). It is built from the fields the code reads, with the defaults
  `number1 = "0"`, no operation, `number2` empty and result "". Its action
  alphabet is inferred the same way.
- In the two-operand view model, an exception from its `formatResult` is a
  `None` transition or `ok == false`: the state stays as it was. Where the
  exception would propagate beyond `onAction` is not modelled.
- LegacyMachine.LegacyCompute: states only subtraction, division and Root in
  its contract. The other operators are plain `+`, `*`, the platform's `%`
  and `pow`, and are covered through LegacyComputeAgreesWithEngine.
- RpnEvaluator.Message: states only that messages are non-empty, not the
  Kotlin texts (see above).
