/**
 * The calculator's four global variables as the fields of one object, and its
 * handlers as methods that update them in place, in the order the handlers do.
 * Each method is proved to perform the step of Evaluator (or Symbols) on the
 * state it starts from, and to keep the invariant Evaluator.Valid.
 */
module Calculator {
  import opened Wrappers
  import opened Numbers
  import Entry
  import History
  import Evaluator
  import Symbols

  class Calc {
    /** The host's number conversions and button functions. */
    const env: Evaluator.Env
    var buffer: string
    var total: Num
    var op: Option<Op>
    var history: seq<string>

    /** The object's state as a value. */
    function Snapshot(): Evaluator.State
      reads this
    {
      Evaluator.State(buffer, total, op, history)
    }

    predicate Valid()
      reads this
    {
      Evaluator.Valid(Snapshot())
    }

    /** The state on page load. */
    constructor (env: Evaluator.Env)
      ensures this.env == env
      ensures Snapshot() == Evaluator.Initial
      ensures Valid()
    {
      this.env := env;
      buffer := Entry.Zero;
      total := Fin(0.0);
      op := None;
      history := [];
    }

    /** handleACButton. */
    method HandleAC()
      requires Valid()
      modifies this
      ensures Snapshot() == Evaluator.HandleAC(old(Snapshot()))
      ensures Valid()
    {
      buffer := Entry.Zero;
      total := Fin(0.0);
      op := None;
    }

    /** handlePlusMinusButton. */
    method HandlePlusMinus()
      requires Valid()
      modifies this
      ensures Snapshot() == Evaluator.HandlePlusMinus(old(Snapshot()))
      ensures Valid()
    {
      if buffer == Entry.Zero {
        return;
      }
      if |buffer| > 0 && buffer[0] == '-' {
        buffer := buffer[1..];
      } else {
        buffer := "-" + buffer;
      }
    }

    /** handlePercentage. */
    method HandlePercentage()
      requires Valid()
      modifies this
      ensures Snapshot() == Evaluator.HandlePercentage(env, old(Snapshot()))
      ensures Valid()
    {
      buffer := env.show(Apply(env.parse(buffer), Div, Fin(100.0)));
    }

    /** flushOperation: the pending operator folds x into the total. */
    method FlushOperation(x: Num)
      requires Valid()
      modifies this
      ensures Valid()
      ensures total == Evaluator.FlushOperation(old(op), old(total), x)
      ensures buffer == old(buffer) && op == old(op) && history == old(history)
    {
      if op.Some? {
        total := Apply(total, op.value, x);
      }
    }

    /** flushOperationAndReturn: flushOperation, answering the new total. */
    method FlushOperationAndReturn(x: Num) returns (r: Num)
      requires Valid()
      modifies this
      ensures Valid()
      ensures total == Evaluator.FlushOperation(old(op), old(total), x) && r == total
      ensures buffer == old(buffer) && op == old(op) && history == old(history)
    {
      FlushOperation(x);
      r := total;
    }

    /** handleMath. */
    method HandleMath(o: Op)
      requires Valid()
      modifies this
      ensures Snapshot() == Evaluator.HandleMath(env, old(Snapshot()), o)
      ensures Valid()
    {
      if buffer == Entry.Zero {
        return;
      }
      var x := env.parse(buffer);
      if total == Fin(0.0) {
        total := x;
      } else {
        FlushOperation(x);
      }
      op := Some(o);
      buffer := Entry.Zero;
    }

    /**
     * The "=" case: the entry is written with the total before and after one
     * flush, the operation is flushed once more, and the buffer receives the
     * total's text.
     */
    method HandleEquals()
      requires Valid()
      modifies this
      ensures Snapshot() == Evaluator.HandleEquals(env, old(Snapshot()))
      ensures Valid()
    {
      if op.None? {
        return;
      }
      var o := op.value;
      var entryStart := env.show(total) + " " + Symbol(o) + " " + buffer + History.ResultSeparator;
      var once := FlushOperationAndReturn(env.parse(buffer));
      var calculation := entryStart + env.show(once);
      FlushOperation(env.parse(buffer));
      op := None;
      buffer := env.show(total);
      if |history| == 0 || history[|history| - 1] != calculation {
        history := history + [calculation];
      }
      total := Fin(0.0);
    }

    /** The "←" case. */
    method HandleBackspace()
      requires Valid()
      modifies this
      ensures Snapshot() == Evaluator.HandleBackspace(old(Snapshot()))
      ensures Valid()
    {
      buffer := if |buffer| == 1 then Entry.Zero else if |buffer| == 0 then buffer else buffer[..|buffer| - 1];
    }

    /** The "." case. */
    method HandlePoint()
      requires Valid()
      modifies this
      ensures Snapshot() == Evaluator.HandlePoint(old(Snapshot()))
      ensures Valid()
    {
      if '.' !in buffer {
        buffer := buffer + ".";
      }
    }

    /** handleNumber. */
    method HandleNumber(n: string)
      requires Valid()
      modifies this
      ensures Snapshot() == Evaluator.HandleNumber(old(Snapshot()), n)
      ensures Valid()
    {
      if buffer == Entry.Zero {
        buffer := n;
      } else {
        buffer := buffer + n;
      }
    }

    /** A scientific, conversion or constant button. */
    method HandleFunction(name: string)
      requires Valid()
      modifies this
      ensures Snapshot() == Evaluator.HandleFunction(env, old(Snapshot()), name)
      ensures Valid()
    {
      buffer := env.show(env.compute(name, env.parse(buffer)));
    }

    /** The clear-history button, with the user's answer to the confirmation dialog. */
    method ClearHistory(confirmed: bool)
      requires Valid()
      modifies this
      ensures Snapshot() == Evaluator.ClearHistory(old(Snapshot()), confirmed)
      ensures Valid()
    {
      if |history| == 0 {
        return;
      }
      if confirmed {
        history := [];
      }
    }

    /** The edit-history button. */
    method EditLast()
      requires Valid()
      modifies this
      ensures Snapshot() == Evaluator.EditLast(old(Snapshot()))
      ensures Valid()
    {
      if |history| == 0 {
        return;
      }
      var m := History.EditOperand(history[|history| - 1]);
      if m.Some? {
        buffer := m.value;
      }
    }

    /** A recognised token: the case of handleSymbol it selects. */
    method Press(t: Evaluator.Token)
      requires Valid()
      modifies this
      ensures Snapshot() == Evaluator.Step(env, old(Snapshot()), t)
      ensures Valid()
    {
      match t
      case ClearKey => HandleAC();
      case SignKey => HandlePlusMinus();
      case PercentKey => HandlePercentage();
      case EqualsKey => HandleEquals();
      case BackKey => HandleBackspace();
      case PointKey => HandlePoint();
      case OperatorKey(o) => HandleMath(o);
      case NumberKey(n) => HandleNumber(n);
      case ParenKey =>
      case FunctionKey(name) => HandleFunction(name);
    }

    /** handleSymbol. */
    method HandleSymbol(symbol: string)
      requires Valid()
      modifies this
      ensures Snapshot() == Symbols.HandleSymbol(env, old(Snapshot()), symbol)
      ensures Valid()
    {
      match Symbols.Classify(symbol)
      case Case(t) => Press(t);
      case Ignored =>
    }

    /** The keydown listener. */
    method KeyDown(key: string)
      requires Valid()
      modifies this
      ensures Snapshot() == Symbols.KeyDown(env, old(Snapshot()), key)
      ensures Valid()
    {
      match Symbols.KeySymbol(key)
      case Some(symbol) => HandleSymbol(symbol);
      case None =>
    }
  }
}
