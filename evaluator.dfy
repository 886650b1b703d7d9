/**
 * The calculator's evaluation state machine as values: the four pieces of
 * state, one function per input token, and the properties of runs of tokens.
 * The class Calculator.Calc performs the same steps in place.
 */
module Evaluator {
  import opened Wrappers
  import opened Numbers
  import Entry
  import History

  /**
   * The host's number functions, which the model leaves abstract: `parseFloat`
   * on the buffer, `String(number)` on a result, and, by button label, the
   * value a scientific, conversion or constant button computes from the
   * buffer's value (Math.sin of degrees, Celsius to Fahrenheit, Math.PI, ...).
   */
  datatype Env = Env(parse: string -> Num, show: Num -> string, compute: (string, Num) -> Num)

  /** `buffer`, `runningTotal`, `previousOperator` and `calculatorHistory`. */
  datatype State = State(buffer: string, total: Num, op: Option<Op>, history: seq<string>)

  /** The input tokens of the basic keypad, after the symbol dispatch has recognised them. */
  datatype Token =
    | ClearKey              // "AC" or "C"
    | SignKey               // "+/−"
    | PercentKey            // "%"
    | EqualsKey             // "="
    | BackKey               // "←"
    | PointKey              // "."
    | OperatorKey(o: Op)    // "+", "−", "×", "÷"
    | NumberKey(text: string)  // any symbol parseInt reads as a number
    | ParenKey              // "(", which only shows a message
    | FunctionKey(name: string)  // a scientific, conversion or constant button

  /** The state when the page loads. */
  const Initial: State := State(Entry.Zero, Fin(0.0), None, [])

  /**
   * What every step keeps: without a pending operator the total is zero, and
   * the history never holds the same calculation twice in a row.
   */
  predicate Valid(s: State) {
    && (s.op.None? ==> s.total == Fin(0.0))
    && History.NoAdjacentDuplicates(s.history)
  }

  /** handleACButton: buffer, total and operator back to their start values; the history stays. */
  function HandleAC(s: State): State {
    State(Entry.Zero, Fin(0.0), None, s.history)
  }

  /** handlePlusMinusButton. */
  function HandlePlusMinus(s: State): State {
    s.(buffer := Entry.ToggleSign(s.buffer))
  }

  /** handlePercentage: the buffer divided by 100. */
  function HandlePercentage(e: Env, s: State): State {
    s.(buffer := e.show(Apply(e.parse(s.buffer), Div, Fin(100.0))))
  }

  /** flushOperation: the pending operator applied to the total and the operand; no operator leaves the total alone. */
  function FlushOperation(op: Option<Op>, total: Num, x: Num): Num {
    match op
    case None => total
    case Some(o) => Apply(total, o, x)
  }

  /**
   * handleMath: nothing when the buffer is "0". Otherwise the buffer's value
   * becomes the total if the total is zero, or is folded into the total with
   * the previous operator; then the new operator is pending and the buffer is "0".
   */
  function HandleMath(e: Env, s: State, o: Op): State {
    if s.buffer == Entry.Zero then s
    else
      var x := e.parse(s.buffer);
      var t := if s.total == Fin(0.0) then x else FlushOperation(s.op, s.total, x);
      State(Entry.Zero, t, Some(o), s.history)
  }

  /** The history entry `${runningTotal} ${previousOperator} ${buffer} = ${result}`. */
  function Calculation(e: Env, total: Num, o: Op, b: string, result: Num): string {
    e.show(total) + " " + Symbol(o) + " " + b + History.ResultSeparator + e.show(result)
  }

  /**
   * The "=" case of handleSymbol as written: nothing without a pending operator.
   * Otherwise the entry is built with the result of one flush, the operation is
   * then flushed a second time into the total, whose text becomes the buffer;
   * the entry is recorded unless it repeats the last one, and the total and the
   * operator are reset.
   */
  function HandleEquals(e: Env, s: State): State {
    match s.op
    case None => s
    case Some(o) =>
      var x := e.parse(s.buffer);
      var once := Apply(s.total, o, x);
      var twice := Apply(once, o, x);
      State(e.show(twice), Fin(0.0), None, History.Record(s.history, Calculation(e, s.total, o, s.buffer, once)))
  }

  /** "=" as evidently intended: the buffer shows the result the history records. */
  function HandleEqualsOnce(e: Env, s: State): State {
    match s.op
    case None => s
    case Some(o) =>
      var once := Apply(s.total, o, e.parse(s.buffer));
      State(e.show(once), Fin(0.0), None, History.Record(s.history, Calculation(e, s.total, o, s.buffer, once)))
  }

  /** The "←" case. */
  function HandleBackspace(s: State): State {
    s.(buffer := Entry.Backspace(s.buffer))
  }

  /** The "." case. */
  function HandlePoint(s: State): State {
    s.(buffer := Entry.AddPoint(s.buffer))
  }

  /** handleNumber. */
  function HandleNumber(s: State, n: string): State {
    s.(buffer := Entry.EnterNumber(s.buffer, n))
  }

  /** The clear-history button: an empty history stays as it is; otherwise it is emptied if the user confirms. */
  function ClearHistory(s: State, confirmed: bool): State {
    if |s.history| > 0 && confirmed then s.(history := []) else s
  }

  /** The edit-history button: the last number of the last calculation's expression becomes the buffer, if there is one. */
  function EditLast(s: State): State {
    if |s.history| == 0 then s
    else
      match History.EditOperand(s.history[|s.history| - 1])
      case None => s
      case Some(m) => s.(buffer := m)
  }

  /**
   * A scientific, conversion or constant button: the buffer becomes the text of
   * the value the host computes. (The conversions' messages are left out.)
   */
  function HandleFunction(e: Env, s: State, name: string): State {
    s.(buffer := e.show(e.compute(name, e.parse(s.buffer))))
  }

  /** handleSymbol on a recognised token. */
  function Step(e: Env, s: State, t: Token): State {
    match t
    case ClearKey => HandleAC(s)
    case SignKey => HandlePlusMinus(s)
    case PercentKey => HandlePercentage(e, s)
    case EqualsKey => HandleEquals(e, s)
    case BackKey => HandleBackspace(s)
    case PointKey => HandlePoint(s)
    case OperatorKey(o) => HandleMath(e, s, o)
    case NumberKey(n) => HandleNumber(s, n)
    case ParenKey => s
    case FunctionKey(name) => HandleFunction(e, s, name)
  }

  /** A sequence of tokens processed one after another. */
  function Run(e: Env, s: State, ts: seq<Token>): State
    decreases |ts|
  {
    if ts == [] then s else Run(e, Step(e, s, ts[0]), ts[1..])
  }

  // ---------------------------------------------------------------------
  // Single steps

  lemma ClearRestoresStart(s: State)
    ensures HandleAC(s) == Initial.(history := s.history)
    ensures Valid(s) ==> Valid(HandleAC(s))
  {
  }

  /**
   * An operator does nothing on "0"; otherwise it makes itself pending, resets
   * the buffer and sets or folds the total. Under the invariant a non-zero total
   * always has an operator to fold with.
   */
  lemma MathStep(e: Env, s: State, o: Op)
    ensures s.buffer == Entry.Zero ==> HandleMath(e, s, o) == s
    ensures s.buffer != Entry.Zero ==>
      var r := HandleMath(e, s, o);
      && r.op == Some(o) && r.buffer == Entry.Zero && r.history == s.history
      && (s.total == Fin(0.0) ==> r.total == e.parse(s.buffer))
      && (s.total != Fin(0.0) && s.op.Some? ==> r.total == Apply(s.total, s.op.value, e.parse(s.buffer)))
    ensures Valid(s) && s.buffer != Entry.Zero && s.total != Fin(0.0) ==>
      s.op.Some? && HandleMath(e, s, o).total == Apply(s.total, s.op.value, e.parse(s.buffer))
  {
  }

  /**
   * "=" does nothing without a pending operator. With one, it leaves no operator
   * and a zero total, records `total op buffer = (total op value)` and puts the
   * operation applied twice into the buffer. A second "=" does nothing.
   */
  lemma EqualsStep(e: Env, s: State)
    ensures s.op.None? ==> HandleEquals(e, s) == s
    ensures s.op.Some? ==>
      var r := HandleEquals(e, s);
      var o, x := s.op.value, e.parse(s.buffer);
      && r.op == None && r.total == Fin(0.0)
      && r.history == History.Record(s.history, Calculation(e, s.total, o, s.buffer, Apply(s.total, o, x)))
      && r.buffer == e.show(Apply(Apply(s.total, o, x), o, x))
    ensures HandleEquals(e, HandleEquals(e, s)) == HandleEquals(e, s)
  {
  }

  /**
   * "Edit" right after "=" loads the operand "=" consumed, when that operand is
   * made of digits and points and the recorded expression holds no " = ";
   * nothing else changes.
   */
  lemma EditAfterEquals(e: Env, s: State)
    requires s.op.Some? && s.buffer != []
    requires forall i :: 0 <= i < |s.buffer| ==> History.IsNumberChar(s.buffer[i])
    requires var p := e.show(s.total) + " " + Symbol(s.op.value) + " " + s.buffer;
      forall i :: 0 <= i < |p| ==> !History.OccursAt(p, History.ResultSeparator, i)
    ensures EditLast(HandleEquals(e, s)) == HandleEquals(e, s).(buffer := s.buffer)
  {
    var o := s.op.value;
    var once := Apply(s.total, o, e.parse(s.buffer));
    var left := e.show(s.total) + " " + Symbol(o);
    assert left + " " + s.buffer == e.show(s.total) + " " + Symbol(o) + " " + s.buffer;
    History.EditRecoversOperand(left, s.buffer, e.show(once));
    assert Calculation(e, s.total, o, s.buffer, once) == left + " " + s.buffer + History.ResultSeparator + e.show(once);
  }

  /** The corrected "=" shows in the buffer exactly the result its history entry records. */
  lemma EqualsOnceShowsRecordedResult(e: Env, s: State)
    requires s.op.Some?
    ensures var r := HandleEqualsOnce(e, s);
      && r.op == None && r.total == Fin(0.0)
      && |r.history| > 0
      && r.history[|r.history| - 1] == e.show(s.total) + " " + Symbol(s.op.value) + " " + s.buffer + " = " + r.buffer
  {
  }

  /**
   * The "=" as written and the corrected one leave the same total, operator and
   * history; only the buffer differs, and it agrees exactly when the host shows
   * the doubly flushed value as it shows the recorded one.
   */
  lemma EqualsDiffersOnlyInBuffer(e: Env, s: State)
    ensures HandleEquals(e, s).(buffer := HandleEqualsOnce(e, s).buffer) == HandleEqualsOnce(e, s)
    ensures s.op.Some? ==>
      var once := Apply(s.total, s.op.value, e.parse(s.buffer));
      (HandleEquals(e, s) == HandleEqualsOnce(e, s) <==> e.show(Apply(once, s.op.value, e.parse(s.buffer))) == e.show(once))
  {
  }

  /** Every token keeps the invariant. */
  lemma StepKeepsValid(e: Env, s: State, t: Token)
    requires Valid(s)
    ensures Valid(Step(e, s, t))
  {
  }

  /** The history buttons keep the invariant. */
  lemma HistoryButtonsKeepValid(s: State, confirmed: bool)
    requires Valid(s)
    ensures Valid(ClearHistory(s, confirmed)) && Valid(EditLast(s))
    ensures ClearHistory(s, confirmed).history == (if confirmed then [] else s.history)
  {
  }

  /** Any run of tokens keeps the invariant. */
  lemma {:induction false} RunKeepsValid(e: Env, s: State, ts: seq<Token>)
    requires Valid(s)
    ensures Valid(Run(e, s, ts))
    decreases |ts|
  {
    if ts != [] {
      StepKeepsValid(e, s, ts[0]);
      RunKeepsValid(e, Step(e, s, ts[0]), ts[1..]);
    }
  }

  /** Running two sequences one after the other is running their concatenation. */
  lemma {:induction false} RunAppend(e: Env, s: State, a: seq<Token>, b: seq<Token>)
    ensures Run(e, s, a + b) == Run(e, Run(e, s, a), b)
    decreases |a|
  {
    if a == [] {
      assert a + b == b;
    } else {
      assert (a + b)[0] == a[0] && (a + b)[1..] == a[1..] + b;
      RunAppend(e, Step(e, s, a[0]), a[1..], b);
    }
  }

  /** Running one token, then the rest. */
  lemma RunCons(e: Env, s: State, t: Token, ts: seq<Token>)
    ensures Run(e, s, [t] + ts) == Run(e, Step(e, s, t), ts)
  {
    assert ([t] + ts)[0] == t && ([t] + ts)[1..] == ts;
  }

  // ---------------------------------------------------------------------
  // Typing digits and points

  /** The tokens the keys of a typed string produce: '.' is the point key, every other character a number key. */
  function TypingTokens(keys: string): seq<Token>
    decreases |keys|
  {
    if keys == [] then []
    else [if keys[0] == '.' then PointKey else NumberKey([keys[0]])] + TypingTokens(keys[1..])
  }

  /** Typing edits only the buffer, exactly as Entry.Type describes. */
  lemma {:induction false} TypingEditsBuffer(e: Env, s: State, keys: string)
    ensures Run(e, s, TypingTokens(keys)) == s.(buffer := Entry.Type(s.buffer, keys))
    decreases |keys|
  {
    if keys != [] {
      var ts := TypingTokens(keys);
      assert ts[1..] == TypingTokens(keys[1..]);
      TypingEditsBuffer(e, Step(e, s, ts[0]), keys[1..]);
    }
  }

  /** After a clear, typed digits show with leading zeros collapsed, and nothing else changes. */
  lemma DigitsAfterClear(e: Env, s: State, ds: string)
    requires '.' !in ds
    ensures Run(e, s, [ClearKey] + TypingTokens(ds)) == State(Entry.Collapsed(ds), Fin(0.0), None, s.history)
  {
    RunAppend(e, s, [ClearKey], TypingTokens(ds));
    TypingEditsBuffer(e, HandleAC(s), ds);
    Entry.TypeFromZero(ds);
  }

  /** Digit and point keys never put a second point into the buffer. */
  lemma TypingKeepsOnePoint(e: Env, s: State, keys: string)
    requires Entry.Points(s.buffer) <= 1
    ensures Entry.Points(Run(e, s, TypingTokens(keys)).buffer) <= 1
  {
    TypingEditsBuffer(e, s, keys);
    Entry.TypingKeepsOnePoint(s.buffer, keys);
  }

  // ---------------------------------------------------------------------
  // Chains of operations

  /** The values the host parses from a list of operands. */
  function Values(e: Env, xs: seq<string>): (vs: seq<Num>)
    ensures |vs| == |xs| && forall i :: 0 <= i < |xs| ==> vs[i] == e.parse(xs[i])
  {
    seq(|xs|, i requires 0 <= i < |xs| => e.parse(xs[i]))
  }

  /** Reference semantics: `v0 o0 v1 o1 v2 ...` evaluated left to right with no precedence. */
  function LeftToRight(vs: seq<Num>, ops: seq<Op>): Num
    requires |vs| == |ops| + 1
    decreases |ops|
  {
    if ops == [] then vs[0]
    else Apply(LeftToRight(vs[..|vs| - 1], ops[..|ops| - 1]), ops[|ops| - 1], vs[|vs| - 1])
  }

  /** The value of the first k + 1 operands joined by the first k operators. */
  function Partial(e: Env, xs: seq<string>, ops: seq<Op>, k: nat): Num
    requires |xs| == |ops| + 1 && k <= |ops|
  {
    LeftToRight(Values(e, xs[..k + 1]), ops[..k])
  }

  /** The keys of the expression `x0 o0 x1 o1 ... xn`. */
  function Expression(xs: seq<string>, ops: seq<Op>): seq<Token>
    requires |xs| == |ops| + 1
    decreases |ops|
  {
    if ops == [] then [NumberKey(xs[0])]
    else Expression(xs[..|xs| - 1], ops[..|ops| - 1]) + [OperatorKey(ops[|ops| - 1]), NumberKey(xs[|xs| - 1])]
  }

  /** The condition under which the zero-total sentinel never cuts the chain short. */
  predicate NoZeroTotalOnTheWay(e: Env, xs: seq<string>, ops: seq<Op>)
    requires |xs| == |ops| + 1
  {
    forall k :: 0 <= k < |ops| - 1 ==> Partial(e, xs, ops, k) != Fin(0.0)
  }

  lemma PartialOfPrefix(e: Env, xs: seq<string>, ops: seq<Op>, n: nat, k: nat)
    requires |xs| == |ops| + 1 && k <= n <= |ops|
    ensures Partial(e, xs[..n + 1], ops[..n], k) == Partial(e, xs, ops, k)
  {
    assert xs[..n + 1][..k + 1] == xs[..k + 1];
    assert ops[..n][..k] == ops[..k];
  }

  lemma PartialStep(e: Env, xs: seq<string>, ops: seq<Op>, k: nat)
    requires |xs| == |ops| + 1 && 0 < k <= |ops|
    ensures Partial(e, xs, ops, k) == Apply(Partial(e, xs, ops, k - 1), ops[k - 1], e.parse(xs[k]))
  {
    var vs := Values(e, xs[..k + 1]);
    assert vs[..k] == Values(e, xs[..k]);
    assert ops[..k][..k - 1] == ops[..k - 1];
  }

  /**
   * Operators fold left to right with no precedence: after typing
   * `x0 o0 x1 ... o(n-1) xn` from a cleared state, the last operator is pending,
   * the total holds `x0 o0 ... x(n-1)` and the buffer holds `xn` - provided no
   * operand before an operator is "0" (on which an operator does nothing) and no partial result
   * met by a later operator is zero (which restarts the chain).
   */
  lemma {:induction false} ExpressionFoldsLeft(e: Env, s: State, xs: seq<string>, ops: seq<Op>)
    requires s.buffer == Entry.Zero && s.total == Fin(0.0) && s.op == None
    requires |xs| == |ops| + 1
    requires forall i :: 0 <= i < |ops| ==> xs[i] != Entry.Zero
    requires NoZeroTotalOnTheWay(e, xs, ops)
    ensures var r := Run(e, s, Expression(xs, ops));
      && r.buffer == xs[|ops|] && r.history == s.history
      && (|ops| == 0 ==> r.total == Fin(0.0) && r.op == None)
      && (|ops| > 0 ==> r.total == Partial(e, xs, ops, |ops| - 1) && r.op == Some(ops[|ops| - 1]))
    decreases |ops|
  {
    var n := |ops|;
    if n > 0 {
      var xs', ops' := xs[..n], ops[..n - 1];
      forall k | 0 <= k < |ops'| - 1 ensures Partial(e, xs', ops', k) != Fin(0.0) {
        PartialOfPrefix(e, xs, ops, n - 1, k);
      }
      ExpressionFoldsLeft(e, s, xs', ops');
      var mid := Run(e, s, Expression(xs', ops'));
      RunAppend(e, s, Expression(xs', ops'), [OperatorKey(ops[n - 1]), NumberKey(xs[n])]);
      var afterOp := HandleMath(e, mid, ops[n - 1]);
      RunCons(e, mid, OperatorKey(ops[n - 1]), [NumberKey(xs[n])]);
      RunCons(e, afterOp, NumberKey(xs[n]), []);
      assert [OperatorKey(ops[n - 1])] + [NumberKey(xs[n])] == [OperatorKey(ops[n - 1]), NumberKey(xs[n])];
      assert [NumberKey(xs[n])] + [] == [NumberKey(xs[n])];
      assert mid.buffer == xs[n - 1];
      if n == 1 {
        assert afterOp.total == Partial(e, xs, ops, 0);
      } else {
        PartialOfPrefix(e, xs, ops, n - 1, n - 2);
        PartialStep(e, xs, ops, n - 1);
        assert afterOp.total == Partial(e, xs, ops, n - 1);
      }
    }
  }

  /**
   * "=" after such an expression records the whole left-to-right value as the
   * result, but leaves in the buffer that value with the last operation applied
   * once more. The last operand may be "0".
   */
  lemma EqualsAfterExpression(e: Env, s: State, xs: seq<string>, ops: seq<Op>)
    requires s.buffer == Entry.Zero && s.total == Fin(0.0) && s.op == None
    requires |xs| == |ops| + 1 && |ops| > 0
    requires forall i :: 0 <= i < |ops| ==> xs[i] != Entry.Zero
    requires NoZeroTotalOnTheWay(e, xs, ops)
    ensures var r := Run(e, s, Expression(xs, ops) + [EqualsKey]);
      var n := |ops|;
      var value := LeftToRight(Values(e, xs), ops);
      && r.history == History.Record(s.history, Calculation(e, Partial(e, xs, ops, n - 1), ops[n - 1], xs[n], value))
      && r.buffer == e.show(Apply(value, ops[n - 1], e.parse(xs[n])))
      && r.total == Fin(0.0) && r.op == None
  {
    var n := |ops|;
    ExpressionFoldsLeft(e, s, xs, ops);
    RunAppend(e, s, Expression(xs, ops), [EqualsKey]);
    PartialStep(e, xs, ops, n);
    assert xs[..n + 1] == xs && ops[..n] == ops;
  }

  // ---------------------------------------------------------------------
  // Duplicate suppression

  predicate NoEquals(ts: seq<Token>) {
    forall i :: 0 <= i < |ts| ==> !ts[i].EqualsKey?
  }

  /** Tokens other than "=" neither read nor change the history. */
  lemma {:induction false} RunWithoutEqualsIgnoresHistory(e: Env, s: State, ts: seq<Token>, h: seq<string>)
    requires NoEquals(ts)
    ensures Run(e, s.(history := h), ts) == Run(e, s, ts).(history := h)
    ensures Run(e, s, ts).history == s.history
    decreases |ts|
  {
    if ts != [] {
      assert !ts[0].EqualsKey?;
      assert Step(e, s.(history := h), ts[0]) == Step(e, s, ts[0]).(history := h);
      assert NoEquals(ts[1..]) by {
        forall i | 0 <= i < |ts[1..]| ensures !ts[1..][i].EqualsKey? {
          assert ts[1..][i] == ts[i + 1];
        }
      }
      RunWithoutEqualsIgnoresHistory(e, Step(e, s, ts[0]), ts[1..], h);
    }
  }

  /** A calculation started with a clear and finished with "=". */
  lemma CalculationRun(e: Env, s: State, ts: seq<Token>)
    ensures Run(e, s, [ClearKey] + ts + [EqualsKey]) == HandleEquals(e, Run(e, HandleAC(s), ts))
  {
    assert [ClearKey] + ts + [EqualsKey] == [ClearKey] + (ts + [EqualsKey]);
    RunAppend(e, s, [ClearKey], ts + [EqualsKey]);
    RunAppend(e, HandleAC(s), ts, [EqualsKey]);
  }

  /**
   * Doing the same calculation (a clear, keys without "=", then "=") twice in
   * immediate succession records it once.
   */
  lemma RepeatedCalculationRecordedOnce(e: Env, s: State, ts: seq<Token>)
    requires NoEquals(ts)
    ensures var keys := [ClearKey] + ts + [EqualsKey];
      var once := Run(e, s, keys);
      Run(e, once, keys).history == once.history
  {
    var keys := [ClearKey] + ts + [EqualsKey];
    var once := Run(e, s, keys);
    var a := Run(e, Initial, ts);
    CalculationRun(e, s, ts);
    CalculationRun(e, once, ts);
    assert HandleAC(s) == Initial.(history := s.history);
    assert HandleAC(once) == Initial.(history := once.history);
    RunWithoutEqualsIgnoresHistory(e, Initial, ts, s.history);
    RunWithoutEqualsIgnoresHistory(e, Initial, ts, once.history);
    if a.op.Some? {
      var entry := Calculation(e, a.total, a.op.value, a.buffer, Apply(a.total, a.op.value, e.parse(a.buffer)));
      assert once.history == History.Record(s.history, entry);
      History.RecordIdempotent(s.history, entry);
    }
  }

  // ---------------------------------------------------------------------
  // Worked examples

  /** A calculation typed after a clear and finished with "=". */
  lemma ClearedCalculation(e: Env, s: State, xs: seq<string>, ops: seq<Op>)
    requires |xs| == |ops| + 1 && |ops| > 0
    requires forall i :: 0 <= i < |ops| ==> xs[i] != Entry.Zero
    requires NoZeroTotalOnTheWay(e, xs, ops)
    ensures var r := Run(e, s, [ClearKey] + Expression(xs, ops) + [EqualsKey]);
      var n := |ops|;
      var value := LeftToRight(Values(e, xs), ops);
      && r.history == History.Record(s.history, Calculation(e, Partial(e, xs, ops, n - 1), ops[n - 1], xs[n], value))
      && r.buffer == e.show(Apply(value, ops[n - 1], e.parse(xs[n])))
  {
    EqualsAfterExpression(e, HandleAC(s), xs, ops);
    assert [ClearKey] + Expression(xs, ops) + [EqualsKey] == [ClearKey] + (Expression(xs, ops) + [EqualsKey]);
    RunCons(e, s, ClearKey, Expression(xs, ops) + [EqualsKey]);
  }

  /**
   * `5 + 3 =` records "5 + 3 = 8" but leaves 11 in the buffer: the screen does
   * not show the result the history records.
   */
  lemma FivePlusThree(e: Env, s: State)
    requires e.parse("5") == Fin(5.0) && e.parse("3") == Fin(3.0)
    ensures Expression(["5", "3"], [Add]) == [NumberKey("5"), OperatorKey(Add), NumberKey("3")]
    ensures var r := Run(e, s, [ClearKey] + Expression(["5", "3"], [Add]) + [EqualsKey]);
      && r.history == History.Record(s.history, e.show(Fin(5.0)) + " + 3 = " + e.show(Fin(8.0)))
      && r.buffer == e.show(Fin(11.0))
      && (e.show(Fin(8.0)) != e.show(Fin(11.0)) ==> r.buffer != e.show(Fin(8.0)))
  {
    var xs, ops := ["5", "3"], [Add];
    assert xs[..1] == ["5"];
    assert Partial(e, xs, ops, 0) == Fin(5.0);
    PartialStep(e, xs, ops, 1);
    assert xs[..2] == xs && ops[..1] == ops;
    ClearedCalculation(e, s, xs, ops);
    assert Calculation(e, Fin(5.0), Add, "3", Fin(8.0)) == e.show(Fin(5.0)) + " + 3 = " + e.show(Fin(8.0));
  }

  /** `4 + 5 + 2 =` folds left to right: it records "9 + 2 = 11" (and leaves 13 in the buffer). */
  lemma ChainedOperations(e: Env, s: State)
    requires e.parse("4") == Fin(4.0) && e.parse("5") == Fin(5.0) && e.parse("2") == Fin(2.0)
    ensures var r := Run(e, s, [ClearKey] + Expression(["4", "5", "2"], [Add, Add]) + [EqualsKey]);
      && r.history == History.Record(s.history, e.show(Fin(9.0)) + " + 2 = " + e.show(Fin(11.0)))
      && r.buffer == e.show(Fin(13.0))
  {
    var xs, ops := ["4", "5", "2"], [Add, Add];
    assert xs[..1] == ["4"];
    assert Partial(e, xs, ops, 0) == Fin(4.0);
    assert NoZeroTotalOnTheWay(e, xs, ops);
    PartialStep(e, xs, ops, 1);
    assert Partial(e, xs, ops, 1) == Fin(9.0);
    PartialStep(e, xs, ops, 2);
    assert xs[..3] == xs && ops[..2] == ops;
    ClearedCalculation(e, s, xs, ops);
    assert Calculation(e, Fin(9.0), Add, "2", Fin(11.0)) == e.show(Fin(9.0)) + " + 2 = " + e.show(Fin(11.0));
  }

  /** `7 ÷ 0 =` is not blocked: the buffer receives the host's text for Infinity. */
  lemma DivideByZeroReachesBuffer(e: Env, s: State)
    requires e.parse("7") == Fin(7.0) && e.parse("0") == Fin(0.0)
    ensures var r := Run(e, s, [ClearKey] + Expression(["7", "0"], [Div]) + [EqualsKey]);
      && r.history == History.Record(s.history, e.show(Fin(7.0)) + " " + DivideSign + " 0 = " + e.show(PosInf))
      && r.buffer == e.show(PosInf)
  {
    var xs, ops := ["7", "0"], [Div];
    assert xs[..1] == ["7"];
    assert Partial(e, xs, ops, 0) == Fin(7.0);
    PartialStep(e, xs, ops, 1);
    assert xs[..2] == xs && ops[..1] == ops;
    ClearedCalculation(e, s, xs, ops);
    assert Calculation(e, Fin(7.0), Div, "0", PosInf) == e.show(Fin(7.0)) + " " + DivideSign + " 0 = " + e.show(PosInf);
  }

  /**
   * A zero partial result restarts the chain: `5 − 5 × 3 +` leaves 3 as the
   * total, while the expression's left-to-right value is 0.
   */
  lemma ZeroTotalRestartsChain(e: Env, s: State)
    requires e.parse("5") == Fin(5.0) && e.parse("3") == Fin(3.0)
    ensures Run(e, HandleAC(s), Expression(["5", "5", "3"], [Sub, Mul]) + [OperatorKey(Add)]).total == Fin(3.0)
    ensures LeftToRight(Values(e, ["5", "5", "3"]), [Sub, Mul]) == Fin(0.0)
  {
    var xs, ops := ["5", "5", "3"], [Sub, Mul];
    assert xs[..1] == ["5"];
    assert Partial(e, xs, ops, 0) == Fin(5.0);
    assert NoZeroTotalOnTheWay(e, xs, ops);
    PartialStep(e, xs, ops, 1);
    PartialStep(e, xs, ops, 2);
    assert xs[..3] == xs && ops[..2] == ops;
    ExpressionFoldsLeft(e, HandleAC(s), xs, ops);
    RunAppend(e, HandleAC(s), Expression(xs, ops), [OperatorKey(Add)]);
    RunCons(e, Run(e, HandleAC(s), Expression(xs, ops)), OperatorKey(Add), []);
    assert [OperatorKey(Add)] + [] == [OperatorKey(Add)];
  }

  /** `+ 2 =` from a state holding the non-zero number `x` in its buffer, with total 0 and no operator. */
  lemma PlusTwoEquals(e: Env, b: string, h: seq<string>, x: real)
    requires b != Entry.Zero && e.parse(b) == Fin(x) && x != 0.0
    requires e.parse("2") == Fin(2.0)
    ensures Run(e, State(b, Fin(0.0), None, h), [OperatorKey(Add), NumberKey("2"), EqualsKey])
      == State(e.show(Fin(x + 4.0)), Fin(0.0), None,
               History.Record(h, e.show(Fin(x)) + " + 2" + History.ResultSeparator + e.show(Fin(x + 2.0))))
  {
    var s0 := State(b, Fin(0.0), None, h);
    var s1 := Step(e, s0, OperatorKey(Add));
    assert s1 == State(Entry.Zero, Fin(x), Some(Add), h);
    var s2 := Step(e, s1, NumberKey("2"));
    assert s2 == State("2", Fin(x), Some(Add), h);
    assert [OperatorKey(Add), NumberKey("2"), EqualsKey] == [OperatorKey(Add)] + [NumberKey("2"), EqualsKey];
    assert [NumberKey("2"), EqualsKey] == [NumberKey("2")] + [EqualsKey] && [EqualsKey] == [EqualsKey] + [];
    RunCons(e, s0, OperatorKey(Add), [NumberKey("2"), EqualsKey]);
    RunCons(e, s1, NumberKey("2"), [EqualsKey]);
    RunCons(e, s2, EqualsKey, []);
    assert Calculation(e, Fin(x), Add, "2", Fin(x + 2.0)) == e.show(Fin(x)) + " + 2" + History.ResultSeparator + e.show(Fin(x + 2.0));
  }

  /** The keys `2 + 2 =`. */
  const TwoPlusTwo: seq<Token> := [NumberKey("2"), OperatorKey(Add), NumberKey("2"), EqualsKey]

  /** `2 + 2 =` from a state with total 0 and no operator, where typing "2" into the buffer `b` gives the non-zero number `x`. */
  lemma TypedPlusTwoEquals(e: Env, b: string, h: seq<string>, x: real)
    requires Entry.EnterNumber(b, "2") != Entry.Zero && e.parse(Entry.EnterNumber(b, "2")) == Fin(x) && x != 0.0
    requires e.parse("2") == Fin(2.0)
    ensures Run(e, State(b, Fin(0.0), None, h), TwoPlusTwo)
      == State(e.show(Fin(x + 4.0)), Fin(0.0), None,
               History.Record(h, e.show(Fin(x)) + " + 2" + History.ResultSeparator + e.show(Fin(x + 2.0))))
  {
    var rest := [OperatorKey(Add), NumberKey("2"), EqualsKey];
    assert TwoPlusTwo == [NumberKey("2")] + rest;
    RunCons(e, State(b, Fin(0.0), None, h), NumberKey("2"), rest);
    PlusTwoEquals(e, Entry.EnterNumber(b, "2"), h, x);
  }

  /**
   * `2 + 2 =` typed twice with no AC between is not recorded once: the first
   * "=" leaves its (doubly flushed) result "6" in the buffer, the next digit is
   * appended to it, and the second run computes `62 + 2`.
   */
  lemma TwoPlusTwoTwice(e: Env)
    requires e.parse("2") == Fin(2.0) && e.parse("62") == Fin(62.0)
    requires e.show(Fin(2.0)) == "2" && e.show(Fin(4.0)) == "4" && e.show(Fin(6.0)) == "6"
    requires e.show(Fin(62.0)) == "62" && e.show(Fin(64.0)) == "64" && e.show(Fin(66.0)) == "66"
    ensures var r := Run(e, Initial, TwoPlusTwo + TwoPlusTwo);
      r.history == ["2 + 2 = 4", "62 + 2 = 64"] && r.buffer == "66"
  {
    RunAppend(e, Initial, TwoPlusTwo, TwoPlusTwo);
    var s1 := Run(e, Initial, TwoPlusTwo);
    assert s1 == State("6", Fin(0.0), None, ["2 + 2 = 4"]) by {
      assert Entry.EnterNumber(Entry.Zero, "2") == "2";
      TypedPlusTwoEquals(e, Entry.Zero, [], 2.0);
      assert "2" + " + 2" + History.ResultSeparator + "4" == "2 + 2 = 4";
    }
    assert Run(e, s1, TwoPlusTwo) == State("66", Fin(0.0), None, ["2 + 2 = 4", "62 + 2 = 64"]) by {
      assert Entry.EnterNumber("6", "2") == "62";
      TypedPlusTwoEquals(e, "6", ["2 + 2 = 4"], 62.0);
      assert "62" + " + 2" + History.ResultSeparator + "64" == "62 + 2 = 64";
      assert "62 + 2 = 64" != "2 + 2 = 4";
    }
  }
}
