/**
 * The symbols handleSymbol receives (button labels and the keyboard's
 * translations), which case of its switch each one reaches, and the rule that
 * maps keyboard keys to symbols.
 */
module Symbols {
  import opened Wrappers
  import opened Numbers
  import Evaluator

  const PlusMinusLabel: string := "+/" + MinusSign
  const BackspaceLabel: string := "\U{2190}"

  /** The labels of the scientific, conversion and constant buttons, each computing a new buffer. */
  const FunctionLabels: set<string> := {
    "sin", "cos", "tan", "log", "ln", "\U{221A}", "x\U{00B2}",
    "\U{00B0}C\U{2192}\U{00B0}F", "km\U{2192}mi", "kg\U{2192}lb", "m\U{2192}ft",
    "\U{03C0}", "e"
  }

  /** The labels of the other cases of the switch. */
  const BasicLabels: set<string> := {
    "AC", "C", PlusMinusLabel, "%", "=", BackspaceLabel, ".", "+", MinusSign, TimesSign, DivideSign, "("
  }

  /** Which case of handleSymbol a symbol reaches. */
  datatype Dispatch =
    | Case(t: Evaluator.Token)   // a case of the switch, or the default case's number branch
    | Ignored                    // the default case when parseInt gives NaN

  predicate IsDigit(c: char) {
    '0' <= c <= '9'
  }

  predicate IsHexDigit(c: char) {
    IsDigit(c) || 'a' <= c <= 'f' || 'A' <= c <= 'F'
  }

  /**
   * Whether `parseInt(s)` is a number: after an optional sign, a "0x" or "0X"
   * prefix must be followed by a hexadecimal digit, and anything else must
   * start with a decimal digit. (Leading white space, which parseInt skips,
   * never reaches handleSymbol: labels are trimmed and no such key passes the
   * keyboard's digit test.)
   */
  predicate ParseIntIsNumber(s: string) {
    var t := if |s| > 0 && (s[0] == '+' || s[0] == '-') then s[1..] else s;
    if |t| >= 2 && t[0] == '0' && (t[1] == 'x' || t[1] == 'X') then |t| >= 3 && IsHexDigit(t[2])
    else |t| >= 1 && IsDigit(t[0])
  }

  /** The switch of handleSymbol: which case a symbol selects. */
  function Classify(symbol: string): (d: Dispatch)
    ensures d.Case? && d.t.NumberKey? ==> d.t.text == symbol && ParseIntIsNumber(symbol)
    ensures d.Case? && d.t.FunctionKey? ==> d.t.name == symbol && symbol in FunctionLabels
    ensures d.Ignored? <==> !ParseIntIsNumber(symbol) && symbol !in FunctionLabels && symbol !in BasicLabels
  {
    if symbol == "AC" || symbol == "C" then Case(Evaluator.ClearKey)
    else if symbol == PlusMinusLabel then Case(Evaluator.SignKey)
    else if symbol == "%" then Case(Evaluator.PercentKey)
    else if symbol == "=" then Case(Evaluator.EqualsKey)
    else if symbol == BackspaceLabel then Case(Evaluator.BackKey)
    else if symbol == "." then Case(Evaluator.PointKey)
    else if symbol == "+" then Case(Evaluator.OperatorKey(Add))
    else if symbol == MinusSign then Case(Evaluator.OperatorKey(Sub))
    else if symbol == TimesSign then Case(Evaluator.OperatorKey(Mul))
    else if symbol == DivideSign then Case(Evaluator.OperatorKey(Div))
    else if symbol == "(" then Case(Evaluator.ParenKey)
    else if symbol in FunctionLabels then Case(Evaluator.FunctionKey(symbol))
    else if ParseIntIsNumber(symbol) then Case(Evaluator.NumberKey(symbol))
    else Ignored
  }

  /** handleSymbol: the selected case's step, or nothing for a symbol parseInt rejects. */
  function HandleSymbol(e: Evaluator.Env, s: Evaluator.State, symbol: string): Evaluator.State {
    match Classify(symbol)
    case Case(t) => Evaluator.Step(e, s, t)
    case Ignored => s
  }

  /** Every symbol keeps the invariant, and one that is no case label and that parseInt rejects changes nothing. */
  lemma SymbolKeepsValid(e: Evaluator.Env, s: Evaluator.State, symbol: string)
    requires Evaluator.Valid(s)
    ensures Evaluator.Valid(HandleSymbol(e, s, symbol))
    ensures symbol !in BasicLabels && symbol !in FunctionLabels && !ParseIntIsNumber(symbol) ==> HandleSymbol(e, s, symbol) == s
  {
    if Classify(symbol).Case? {
      Evaluator.StepKeepsValid(e, s, Classify(symbol).t);
    }
  }

  /** Each operator's symbol selects that operator. */
  lemma OperatorSymbolsSelectTheirOperator(o: Op)
    ensures Classify(Symbol(o)) == Case(Evaluator.OperatorKey(o))
  {
  }

  /** "C" clears like "AC", "+/−" is the sign toggle, and "(" selects its own case. */
  lemma LabelsSelectTheirCase()
    ensures Classify("AC") == Case(Evaluator.ClearKey) && Classify("C") == Case(Evaluator.ClearKey)
    ensures Classify(PlusMinusLabel) == Case(Evaluator.SignKey)
    ensures Classify("(") == Case(Evaluator.ParenKey)
  {
  }

  /** Each digit selects the number case with itself as text. */
  lemma DigitsSelectNumber(c: char)
    requires IsDigit(c)
    ensures Classify([c]) == Case(Evaluator.NumberKey([c]))
  {
    assert [c] != "e" && [c] != "(" && [c] != "." && [c] != "%" && [c] != "+" && [c] != "=" && [c] != "C";
    assert [c] !in FunctionLabels;
  }

  /** The ASCII hyphen is not the subtraction symbol: sent as it is, it would be ignored. */
  lemma HyphenIsIgnored()
    ensures Classify("-") == Ignored
  {
    assert "-" !in FunctionLabels;
  }

  // ---------------------------------------------------------------------
  // Keyboard

  /** JavaScript's `a <= b` on strings: lexicographic order of the characters. */
  predicate LexLe(a: string, b: string)
    decreases |a|
  {
    a == [] || (b != [] && (a[0] < b[0] || (a[0] == b[0] && LexLe(a[1..], b[1..]))))
  }

  /** The keyboard handler's digit test `key >= '0' && key <= '9'`. */
  predicate IsDigitKey(key: string) {
    LexLe("0", key) && LexLe(key, "9")
  }

  /** The digit test passes exactly for "9" and for keys that start with a character from '0' to '8'. */
  lemma DigitKeyTest(key: string)
    ensures IsDigitKey(key) <==> key == "9" || (|key| > 0 && '0' <= key[0] <= '8')
  {
    if |key| > 0 && key[0] == '9' && |key| > 1 {
      assert !LexLe(key[1..], "9"[1..]);
    }
  }

  /** The keydown listener: the symbol a key is translated to, if any. */
  function KeySymbol(key: string): (r: Option<string>)
    ensures key == "-" ==> r == Some(MinusSign)
    ensures key == "Enter" ==> r == Some("=")
  {
    if IsDigitKey(key) then Some(key)
    else if key == "+" then Some("+")
    else if key == "-" then Some(MinusSign)
    else if key == "*" then Some(TimesSign)
    else if key == "/" then Some(DivideSign)
    else if key == "Enter" || key == "=" then Some("=")
    else if key == "Escape" then Some("AC")
    else if key == "Backspace" then Some(BackspaceLabel)
    else if key == "." then Some(".")
    else if key == "%" then Some("%")
    else None
  }

  /** The keydown listener's effect on the state. */
  function KeyDown(e: Evaluator.Env, s: Evaluator.State, key: string): Evaluator.State {
    match KeySymbol(key)
    case Some(symbol) => HandleSymbol(e, s, symbol)
    case None => s
  }

  /** Whether a key has the "0x" or "0X" prefix of a hexadecimal literal. */
  predicate HexPrefixed(key: string) {
    |key| >= 2 && key[0] == '0' && (key[1] == 'x' || key[1] == 'X')
  }

  /**
   * The keyboard reaches neither "(" nor a scientific, conversion or constant
   * button, and every translated key except one with a "0x" prefix selects a
   * case of the switch.
   */
  lemma KeysReachBasicCases(key: string)
    ensures KeySymbol(key).Some? ==>
      var d := Classify(KeySymbol(key).value);
      !(d.Case? && (d.t.FunctionKey? || d.t.ParenKey?))
    ensures KeySymbol(key).Some? && !HexPrefixed(key) ==> Classify(KeySymbol(key).value).Case?
  {
    DigitKeyTest(key);
    if IsDigitKey(key) {
      assert key[0] != 'A' && key[0] != 'C' && key[0] != '+' && key[0] != '%' && key[0] != '=' && key[0] != '.';
      assert key[0] != 's' && key[0] != 'c' && key[0] != 't' && key[0] != 'l' && key[0] != '(' && key[0] != 'x';
      assert key[0] != 'k' && key[0] != 'm' && key[0] != 'e' && key[0] != '\U{221A}' && key[0] != '\U{00B0}';
      assert key[0] != '\U{03C0}' && key[0] != '\U{2190}' && key[0] != '\U{2212}' && key[0] != '\U{00D7}' && key[0] != '\U{00F7}';
      assert key !in FunctionLabels by {
        forall l | l in FunctionLabels ensures l != key {
          assert l[0] != key[0];
        }
      }
    }
  }

  /** A digit key types that digit. */
  lemma DigitKeyTypes(e: Evaluator.Env, s: Evaluator.State, c: char)
    requires IsDigit(c)
    ensures KeyDown(e, s, [c]) == Evaluator.HandleNumber(s, [c])
  {
    DigitKeyTest([c]);
    DigitsSelectNumber(c);
  }

  /** The named keys: Escape clears, Enter is "=", Backspace erases. */
  lemma ControlKeys(e: Evaluator.Env, s: Evaluator.State)
    ensures KeyDown(e, s, "Escape") == Evaluator.HandleAC(s)
    ensures KeyDown(e, s, "Enter") == Evaluator.HandleEquals(e, s)
    ensures KeyDown(e, s, "Backspace") == Evaluator.HandleBackspace(s)
  {
    assert !IsDigitKey("Escape") && KeySymbol("Escape") == Some("AC");
    assert !IsDigitKey("Enter") && KeySymbol("Enter") == Some("=");
    assert !IsDigitKey("Backspace") && KeySymbol("Backspace") == Some(BackspaceLabel);
    assert Classify(BackspaceLabel) == Case(Evaluator.BackKey);
  }

  /** The ASCII keys '-', '*' and '/' select the operators written with the proper signs. */
  lemma OperatorKeys(e: Evaluator.Env, s: Evaluator.State)
    ensures KeyDown(e, s, "-") == Evaluator.HandleMath(e, s, Sub)
    ensures KeyDown(e, s, "*") == Evaluator.HandleMath(e, s, Mul)
    ensures KeyDown(e, s, "/") == Evaluator.HandleMath(e, s, Div)
  {
    assert !IsDigitKey("-") && KeySymbol("-") == Some(MinusSign);
    assert !IsDigitKey("*") && KeySymbol("*") == Some(TimesSign);
    assert !IsDigitKey("/") && KeySymbol("/") == Some(DivideSign);
    OperatorSymbolsSelectTheirOperator(Sub);
    OperatorSymbolsSelectTheirOperator(Mul);
    OperatorSymbolsSelectTheirOperator(Div);
  }

  /** The keys '+', '=', '.' and '%' select the cases of the same name. */
  lemma SymbolKeys(e: Evaluator.Env, s: Evaluator.State)
    ensures KeyDown(e, s, "+") == Evaluator.HandleMath(e, s, Add)
    ensures KeyDown(e, s, "=") == Evaluator.HandleEquals(e, s)
    ensures KeyDown(e, s, ".") == Evaluator.HandlePoint(s)
    ensures KeyDown(e, s, "%") == Evaluator.HandlePercentage(e, s)
  {
    assert !IsDigitKey("+") && !IsDigitKey("=") && !IsDigitKey(".") && !IsDigitKey("%");
  }
}
