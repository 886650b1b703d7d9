/**
 * The calculation history: the log `=` appends to, the ten-entry view the
 * sidebar shows, and the number the "Edit" button takes back out of an entry.
 */
module History {
  import opened Wrappers

  /** No two neighbouring entries are equal. */
  predicate NoAdjacentDuplicates(h: seq<string>) {
    forall i :: 0 < i < |h| ==> h[i - 1] != h[i]
  }

  /** Appending a calculation unless it equals the entry now last (an empty log takes anything). */
  function Record(h: seq<string>, entry: string): (r: seq<string>)
    ensures |r| > 0 && r[|r| - 1] == entry
    ensures r == h || r == h + [entry]
    ensures r == h <==> (|h| > 0 && h[|h| - 1] == entry)
    ensures NoAdjacentDuplicates(h) ==> NoAdjacentDuplicates(r)
  {
    if |h| > 0 && h[|h| - 1] == entry then h else h + [entry]
  }

  /** Recording the same calculation twice in a row adds it once. */
  lemma RecordIdempotent(h: seq<string>, entry: string)
    ensures Record(Record(h, entry), entry) == Record(h, entry)
  {
  }

  /** `calculatorHistory.slice(-10)`: the ten most recent entries, oldest first. */
  function LastTen(h: seq<string>): (r: seq<string>)
    ensures |r| == if |h| < 10 then |h| else 10
    ensures r == h[|h| - |r|..]
  {
    if |h| <= 10 then h else h[|h| - 10..]
  }

  /** Whether `sep` occurs in `s` starting at `i`. */
  predicate OccursAt(s: string, sep: string, i: nat) {
    i + |sep| <= |s| && s[i..i + |sep|] == sep
  }

  /**
   * The first piece of `s.split(sep)` for a non-empty separator: everything
   * before the first occurrence of `sep`, or all of `s` when it does not occur.
   */
  function BeforeFirst(s: string, sep: string): (r: string)
    requires sep != []
    ensures |r| <= |s| && r == s[..|r|]
    ensures r == s || OccursAt(s, sep, |r|)
    ensures forall i :: 0 <= i < |r| ==> !OccursAt(s, sep, i)
    decreases |s|
  {
    if |s| < |sep| then s
    else if s[..|sep|] == sep then []
    else
      var rest := BeforeFirst(s[1..], sep);
      assert forall i :: 0 < i <= |rest| ==> (OccursAt(s, sep, i) <==> OccursAt(s[1..], sep, i - 1)) by {
        forall i | 0 < i <= |rest| ensures OccursAt(s, sep, i) <==> OccursAt(s[1..], sep, i - 1) {
          if i + |sep| <= |s| {
            assert s[i..i + |sep|] == s[1..][i - 1..i - 1 + |sep|];
          }
        }
      }
      [s[0]] + rest
  }

  /** The characters `[\d.]` matches. */
  predicate IsNumberChar(c: char) {
    ('0' <= c <= '9') || c == '.'
  }

  /** The longest suffix of `s` made only of digits and points: what `/[\d.]+$/` matches, or "" when it does not match. */
  function TrailingNumber(s: string): (r: string)
    ensures |r| <= |s| && r == s[|s| - |r|..]
    ensures forall i :: 0 <= i < |r| ==> IsNumberChar(r[i])
    ensures |r| < |s| ==> !IsNumberChar(s[|s| - |r| - 1])
    decreases |s|
  {
    if |s| > 0 && IsNumberChar(s[|s| - 1]) then TrailingNumber(s[..|s| - 1]) + [s[|s| - 1]] else []
  }

  /** The separator between a calculation and its result in a history entry. */
  const ResultSeparator: string := " = "

  /** The number the "Edit" button loads from a history entry: the last number of its expression part, if any. */
  function EditOperand(entry: string): (r: Option<string>)
  {
    var m := TrailingNumber(BeforeFirst(entry, ResultSeparator));
    if m == [] then None else Some(m)
  }

  /** The trailing number of `a + [c] + t` is `t` when `c` is no digit or point and `t` is all digits and points. */
  lemma {:induction false} TrailingNumberAfter(a: string, c: char, t: string)
    requires !IsNumberChar(c)
    requires forall i :: 0 <= i < |t| ==> IsNumberChar(t[i])
    ensures TrailingNumber(a + [c] + t) == t
    decreases |t|
  {
    var s := a + [c] + t;
    if t != [] {
      assert s[..|s| - 1] == a + [c] + t[..|t| - 1];
      TrailingNumberAfter(a, c, t[..|t| - 1]);
      assert t == t[..|t| - 1] + [t[|t| - 1]];
    }
  }

  /** When `p` contains no " = " and ends in a digit or point, the expression part of `p + " = " + q` is `p`. */
  lemma ExpressionPartOfEntry(p: string, q: string)
    requires |p| > 0 && IsNumberChar(p[|p| - 1])
    requires forall i :: 0 <= i < |p| ==> !OccursAt(p, ResultSeparator, i)
    ensures BeforeFirst(p + ResultSeparator + q, ResultSeparator) == p
  {
    var s := p + ResultSeparator + q;
    assert OccursAt(s, ResultSeparator, |p|) by {
      assert s[|p|..|p| + 3] == ResultSeparator;
    }
    forall i | 0 <= i < |p| ensures !OccursAt(s, ResultSeparator, i) {
      if i + 3 <= |p| {
        assert s[i..i + 3] == p[i..i + 3];
        assert !OccursAt(p, ResultSeparator, i);
      } else {
        // a match here would cover the last character of p, which is neither ' ' nor '='
        var k := |p| - 1 - i;
        assert s[i..i + 3][k] == p[|p| - 1];
        assert ResultSeparator[k] != p[|p| - 1];
      }
    }
    var r := BeforeFirst(s, ResultSeparator);
    assert |r| == |p|;
    assert r == s[..|p|] == p;
  }

  /**
   * The "Edit" button recovers the second operand of a calculation whose
   * operand is written with digits and points only.
   */
  lemma EditRecoversOperand(left: string, operand: string, result: string)
    requires operand != [] && forall i :: 0 <= i < |operand| ==> IsNumberChar(operand[i])
    requires forall i :: 0 <= i < |left| + 1 + |operand| ==> !OccursAt(left + " " + operand, ResultSeparator, i)
    ensures EditOperand(left + " " + operand + ResultSeparator + result) == Some(operand)
  {
    var p := left + " " + operand;
    assert p[|p| - 1] == operand[|operand| - 1];
    ExpressionPartOfEntry(p, result);
    assert left + " " + operand + ResultSeparator + result == p + ResultSeparator + result;
    TrailingNumberAfter(left, ' ', operand);
  }
}
