# Calculator evaluation state machine

A model of the evaluator behind the Calculator Culichi web calculator
(`script.js`). Its state is four global variables:

- `buffer`, the text on the display;
- `runningTotal`;
- `previousOperator`;
- `calculatorHistory`.

Each calculator-key press, whether a button click or a keyboard key, goes
through `handleSymbol`, which updates that state. The clear-history and Edit
buttons of the history sidebar have handlers of their own. The model has these parts:

- `Numbers`: JavaScript numbers as exact reals plus `Infinity`, `-Infinity`
  and `NaN`, and the four operators.
- `Entry`: editing of the entry buffer. Digit entry replaces a lone `"0"`,
  the decimal point is added at most once, and the module also covers
  backspace and the sign toggle.
- `History`: the history log.
  - Consecutive duplicates are suppressed.
  - The sidebar shows a ten-entry window.
  - The "Edit" button loads the last number of the newest entry's expression
    part, the text before " = " (`split(' = ')` and `/[\d.]+$/`).
- `Evaluator`: the state as a value, one step function per handler, and
  `Run` over a sequence of tokens. Its lemmas cover these properties:
  - the invariant "no pending operator ⇒ total is 0";
  - operators fold left to right without precedence;
  - the `=` key;
  - duplicate suppression;
  - worked examples.
- `Symbols`: the `switch` of `handleSymbol`, including its `parseInt` default
  case, and the keydown listener's key-to-symbol map.
- `Screen`: the display rule of `updateScreen`. A negative buffer is shown in
  parentheses.
- `Calculator`: class `Calc`, which holds the four variables as fields.
  - Each handler is a method that updates them in place, in the handler's own
    order.
  - Each method is proved to perform the matching `Evaluator` step and to keep
    the invariant.

The host's number conversions are not modelled. They are fields of
`Evaluator.Env`, given to `Calc`'s constructor:

- `parseFloat`;
- `String(number)`;
- the values of the scientific, conversion and constant buttons.

The general lemmas hold for every choice of them. The worked examples
(`FivePlusThree`, `ChainedOperations`, `DivideByZeroReachesBuffer`,
`ZeroTotalRestartsChain`, `TwoPlusTwoTwice`) assume the host values they name.

Behaviour of the code worth knowing:

- Division by zero is not blocked. `7 ÷ 0 =` stores the text of `Infinity` in
  the buffer (`Evaluator.DivideByZeroReachesBuffer`).
- Scientific functions can likewise put the text of `NaN` or `Infinity` in the
  buffer.
- An operator pressed while the buffer is `"0"` does nothing.
- `%` always divides the buffer by 100.
- There is no maximum buffer length.
- A total of exactly 0 is taken to mean "no total yet". A chain whose partial
  result is 0 restarts at the next operand (`Evaluator.ZeroTotalRestartsChain`).
- History is cleared only by its own button, and only when the user confirms
  the dialog. AC never touches the history.
- After `=` there is no pending operator, so a second `=` does nothing. Typing
  a digit after a result appends to the result's text. So `2 + 2 =` typed
  twice in a row records "2 + 2 = 4" and then "62 + 2 = 64"
  (`Evaluator.TwoPlusTwoTwice`).
- The `=` case flushes the pending operation twice. This is described under
  Findings.

## Model

| member | source | states |
|---|---|---|
| Numbers.Apply | script.js:103-113 | NaN operands give NaN. On finite operands the result is the exact sum, difference, product or quotient, and it is finite unless it divides by zero. |
| Numbers.DivisionByZero | script.js:111-112 | Dividing by zero never gives a finite value. 0 or NaN divided by 0 is NaN; any other dividend gives the infinity of its own sign. |
| Numbers.NaNAbsorbs | script.js:103-113 | Once the total is NaN, every operator keeps it NaN. |
| Numbers.SymbolsDistinct | script.js:294-297 | The four operator symbols are pairwise different, so the stored symbol determines the operator. |
| Entry.ToggleSign | script.js:62-70 | No change on "0". Otherwise the result is the buffer with a leading '-' added or removed, and it is added exactly when the buffer does not start with '-'. |
| Entry.ToggleTwice | script.js:62-70 | Toggling twice restores every buffer except "-0" and buffers beginning with "--", which no key or button produces. |
| Entry.ToggleMinusZero | script.js:62-70 | "-0" toggles to "0", which the toggle then leaves alone, so "-0" is not restored. |
| Entry.TypeAppends | script.js:139-146 | Digits typed into a buffer that is neither "" nor "0" are appended. |
| Entry.TypeFromZero | script.js:139-146 | Digits typed on "0" show as the digit sequence without its leading zeros, or "0" if only zeros were typed. |
| Entry.PointIdempotent | script.js:284-290 | Pressing "." twice equals pressing it once. |
| Entry.PointGivesOnePoint | script.js:284-290 | After "." a buffer that held at most one point holds exactly one. |
| Entry.TypingKeepsOnePoint | script.js:284-290 | Any mix of digit and point keys keeps at most one decimal point in the buffer. |
| Entry.BackspaceUndoesDigit | script.js:278-282 | Backspace undoes the digit just typed into any non-empty buffer, "0" included. |
| Entry.BackspaceRemovesLast | script.js:278-282 | On a buffer of two or more characters, backspace removes exactly the last one. |
| History.Record | script.js:270-273 | The new entry ends the log. It is appended exactly when the last entry differs from it. The log grows by at most one entry, and "no two neighbours equal" is preserved. |
| History.RecordIdempotent | script.js:270-273 | Recording the same calculation twice in a row adds it once. |
| History.LastTen | script.js:182 | The view is the last min(n, 10) entries of the log, in order. |
| History.BeforeFirst | script.js:506-507 | The first piece of split(' = ') is a prefix of the entry that contains no separator, ending where the first separator starts or at the end of the entry. |
| History.TrailingNumber | script.js:509 | The match of /[\d.]+$/ is a suffix made only of digits and points, and it is maximal. |
| History.TrailingNumberAfter | script.js:509 | A run of digits and points after a space is exactly the trailing number. |
| History.ExpressionPartOfEntry | script.js:506-507 | An expression with no " = " that ends in a digit is exactly what split(' = ')[0] returns for `expression = result`. |
| History.EditRecoversOperand | script.js:504-511 | "Edit" on `left operand = result` loads `operand` when operand is made of digits and points. |
| Evaluator.EditAfterEquals | script.js:263-276 | "Edit" right after "=" loads the operand that "=" consumed (the Edit handler, script.js:504-511, reads the entry "=" just wrote), when that operand is made of digits and points and the expression holds no " = "; nothing else in the state changes. |
| Evaluator.ClearRestoresStart | script.js:51-56 | AC gives the page-load state with the history kept, and keeps the invariant. |
| Evaluator.MathStep | script.js:84-96 | An operator does nothing on "0". Otherwise it becomes pending and the buffer resets to "0". A zero total is replaced by the operand; any other total is folded with the previous operator, which the invariant guarantees is present. |
| Evaluator.EqualsStep | script.js:263-276 | "=" with no pending operator does nothing. With one, it clears the operator, zeroes the total and records `total op buffer = (total op value)`, and the buffer receives `(total op value) op value`. A second "=" does nothing. |
| Evaluator.EqualsOnceShowsRecordedResult | script.js:263-276 | The corrected "=" shows in the buffer exactly the result written after " = " in its history entry. |
| Evaluator.EqualsDiffersOnlyInBuffer | script.js:265-268 | The as-written and corrected "=" leave the same total, operator and history. Their buffers agree exactly when the doubly flushed value prints like the recorded one. |
| Evaluator.StepKeepsValid | script.js:246-395 | Every token keeps "no pending operator ⇒ total 0" and "no two neighbouring history entries equal". |
| Evaluator.HistoryButtonsKeepValid | script.js:478-516 | Clear-history and Edit keep the invariant. Clear-history empties the log exactly when the user confirms. |
| Evaluator.RunKeepsValid | script.js:246-395 | Every sequence of tokens keeps the invariant. |
| Evaluator.TypingEditsBuffer | script.js:139-146 | Digit and point keys change only the buffer, as Entry.Type describes. |
| Evaluator.DigitsAfterClear | script.js:139-146 | After AC, typed digits show with leading zeros collapsed; total 0, no operator, history unchanged. |
| Evaluator.TypingKeepsOnePoint | script.js:284-290 | Digit and point keys never put a second point into the buffer. |
| Evaluator.ExpressionFoldsLeft | script.js:84-96 | After `x0 o0 x1 … xn` from a cleared state, the buffer is xn, the last operator is pending and the total is the left-to-right value of `x0 o0 … x(n-1)`. This holds when no operand before an operator is "0" and no partial result along the way is 0. |
| Evaluator.EqualsAfterExpression | script.js:263-276 | "=" after such an expression records its whole left-to-right value. The buffer gets that value with the last operation applied once more. |
| Evaluator.RunWithoutEqualsIgnoresHistory | script.js:246-395 | Tokens other than "=" neither read nor change the history. |
| Evaluator.RepeatedCalculationRecordedOnce | script.js:269-273 | The same calculation (AC, keys, "=") done twice in succession is recorded once. |
| Evaluator.TwoPlusTwoTwice | script.js:139-146 | `2 + 2 = 2 + 2 =` without AC records "2 + 2 = 4" and "62 + 2 = 64" and leaves "66": the first result's text "6" takes the next digit. |
| Evaluator.FivePlusThree | script.js:263-276 | `5 + 3 =` records "5 + 3 = 8" but leaves 11 in the buffer. |
| Evaluator.ChainedOperations | script.js:84-113 | `4 + 5 + 2 =` folds left to right and records "9 + 2 = 11". |
| Evaluator.DivideByZeroReachesBuffer | script.js:263-268 | `7 ÷ 0 =` records and displays the text of Infinity. |
| Evaluator.ZeroTotalRestartsChain | script.js:87-91 | `5 − 5 × 3 +` leaves a total of 3, while the expression's left-to-right value is 0: a zero total restarts the chain. |
| Symbols.Classify | script.js:246-395 | The selected case follows the switch: a number token carries the symbol, and parseInt reads it as a number. A scientific token's symbol is one of those labels. A symbol is ignored exactly when it is no case label and parseInt gives NaN. |
| Symbols.SymbolKeepsValid | script.js:246-395 | Every symbol keeps the invariant. A symbol that is no case label and that parseInt rejects changes nothing. |
| Symbols.OperatorSymbolsSelectTheirOperator | script.js:294-299 | Each operator's symbol selects handleMath with that operator. |
| Symbols.LabelsSelectTheirCase | script.js:250-342 | "AC" and "C" both select the clear case and "+/−" the sign toggle (lines 250-257); "(" selects its own case, which changes nothing but a message (lines 339-342). |
| Symbols.DigitsSelectNumber | script.js:388-393 | A digit selects handleNumber with itself. |
| Symbols.HyphenIsIgnored | script.js:388-393 | An ASCII "-" reaching handleSymbol does nothing; only "−" subtracts. |
| Symbols.DigitKeyTest | script.js:552 | `key >= '0' && key <= '9'` passes exactly "9" and the keys whose first character is '0' to '8'. |
| Symbols.KeySymbol | script.js:548-578 | '-' is sent as "−" and Enter as "=". |
| Symbols.KeysReachBasicCases | script.js:548-578 | No key reaches "(" or a scientific button. Every translated key selects a case of the switch, except a "0x"-prefixed key that parseInt rejects. |
| Symbols.DigitKeyTypes | script.js:552-554 | A digit key types that digit. |
| Symbols.ControlKeys | script.js:567-572 | Escape is AC, Enter is "=", Backspace is "←". |
| Symbols.OperatorKeys | script.js:558-565 | '-', '*' and '/' select subtraction, multiplication and division. |
| Symbols.SymbolKeys | script.js:556-576 | '+', '=', '.' and '%' select addition, "=", the point and the percentage. |
| Screen.Display | script.js:38-45 | A buffer starting with '-' other than "-0" is shown in parentheses; any other buffer is shown as it is. |
| Screen.DisplayInjective | script.js:40-43 | Different buffers (none starting with '(') are shown differently. |
| Screen.DisplayExamples | script.js:40-43 | "-0" and "0" are shown bare and "-5" as "(-5)". |
| Calculator.Calc.constructor | script.js:14-23 | The start state: "0", total 0, no operator, empty history; it satisfies the invariant. |
| Calculator.Calc.HandleAC | script.js:51-56 | Updates the fields as Evaluator.HandleAC and keeps the invariant. |
| Calculator.Calc.HandlePlusMinus | script.js:62-70 | Updates the fields as Evaluator.HandlePlusMinus and keeps the invariant. |
| Calculator.Calc.HandlePercentage | script.js:75-78 | Updates the fields as Evaluator.HandlePercentage and keeps the invariant. |
| Calculator.Calc.HandleMath | script.js:84-96 | Updates the fields as Evaluator.HandleMath and keeps the invariant. |
| Calculator.Calc.FlushOperation | script.js:103-113 | The total becomes the pending operation applied to it; the other fields are unchanged, and the invariant is kept. |
| Calculator.Calc.FlushOperationAndReturn | script.js:121-132 | As FlushOperation, and it returns the new total. It keeps the invariant. |
| Calculator.Calc.HandleEquals | script.js:263-276 | Performs the steps of the "=" case in their order and ends in the state of Evaluator.HandleEquals, keeping the invariant. |
| Calculator.Calc.HandleBackspace | script.js:278-282 | Updates the fields as Evaluator.HandleBackspace and keeps the invariant. |
| Calculator.Calc.HandlePoint | script.js:284-290 | Updates the fields as Evaluator.HandlePoint and keeps the invariant. |
| Calculator.Calc.HandleNumber | script.js:139-146 | Updates the fields as Evaluator.HandleNumber and keeps the invariant. |
| Calculator.Calc.HandleFunction | script.js:303-386 | The buffer becomes the text of the host's value for the button. |
| Calculator.Calc.ClearHistory | script.js:478-491 | Updates the fields as Evaluator.ClearHistory and keeps the invariant. |
| Calculator.Calc.EditLast | script.js:497-516 | Updates the fields as Evaluator.EditLast and keeps the invariant. |
| Calculator.Calc.Press | script.js:246-395 | Performs Evaluator.Step for a recognised token. |
| Calculator.Calc.HandleSymbol | script.js:246-395 | Updates the fields as Symbols.HandleSymbol and keeps the invariant. |
| Calculator.Calc.KeyDown | script.js:548-578 | Updates the fields as Symbols.KeyDown and keeps the invariant. |

## Left out

- The DOM and everything only it sees:
  - writing the display text;
  - the HTML of the history list;
  - the sidebar, bottom menu, floating mode menu and splash screen;
  - mode switching;
  - the icon button;
  - the edit-mode selection and deletion of history items (script.js:582-610). These are second listeners on the Edit and clear-history buttons, and they change only DOM elements, never `calculatorHistory`.
- showMessage and its two-second timer. The timer writes back the buffer value saved when showMessage was called. That is the current value at every call site, but a key pressed within the two seconds would be overwritten; timers and interleaving are not modelled.
- `confirm`: the user's answer is the `confirmed` parameter of ClearHistory. `console.log` and `event.preventDefault` are left out.
- The keyboard listener takes `event.key`, and button clicks take the trimmed button text. Both arrive as the symbol string.
- Numbers.Apply: arithmetic on finite values is exact, not IEEE double rounding, and there is no negative zero. `-0 === 0` and the text of results depend on that and on the host.
- Evaluator.HandleFunction: the scientific, conversion and constant buttons are modelled as `Env.compute(label, value)`. The model does not state what Math.sin, Math.log10 and the rest compute, nor the conversion factors. The conversion summary messages are left out.
- Calculator.Calc.HandleFunction: the same abstraction as Evaluator.HandleFunction.
- Evaluator.RepeatedCalculationRecordedOnce: duplicate suppression is proved only for a calculation that starts with AC. Without AC, the digits typed after a result are appended to the result's text, so the second calculation differs (Evaluator.TwoPlusTwoTwice).
- Symbols.Classify: `parseInt`'s skipping of leading white space is not modelled. No button label or digit key carries leading white space.
- `parseFloat` and `String(number)` are abstract functions of `Evaluator.Env`. No lemma depends on what they compute beyond the values a worked example assumes.

## Findings

| source | as written | input that shows it | evidently intended | confidence | as-written member | corrected member |
|---|---|---|---|---|---|---|
| script.js:263-268 | The history entry is built with flushOperationAndReturn, which already stores the result in runningTotal. flushOperation then applies the operation a second time, and that total becomes the buffer. | `5 + 3 =` records "5 + 3 = 8" but the display shows 11 | the buffer shows the result the history records (one flush) | not executed | Evaluator.FivePlusThree | Evaluator.EqualsOnceShowsRecordedResult |

`Evaluator.Step` and `Calculator.Calc.HandleEquals` keep the behaviour as written, so that the model follows the code.
The corrected step is `Evaluator.HandleEqualsOnce`. `Evaluator.EqualsDiffersOnlyInBuffer` proves that the two differ only in the buffer.
