/**
 * Editing of the entry buffer, the string the user is typing: digit entry,
 * the decimal point, backspace and the sign toggle.
 */
module Entry {

  /** The canonical zero the buffer starts from and is reset to. */
  const Zero: string := "0"

  /** handleNumber: the typed text replaces a buffer that is exactly "0" and is appended to any other. */
  function EnterNumber(b: string, n: string): string {
    if b == Zero then n else b + n
  }

  /** The "." key: a point is appended only when the buffer holds none. */
  function AddPoint(b: string): string {
    if '.' in b then b else b + "."
  }

  /**
   * The backspace key: a one-character buffer becomes "0"; any other loses its
   * last character (String.prototype.slice(0, -1), which leaves "" as it is).
   */
  function Backspace(b: string): string {
    if |b| == 1 then Zero else if |b| == 0 then b else b[..|b| - 1]
  }

  /**
   * The +/− key: nothing on "0"; otherwise a leading '-' is removed, or one is
   * put in front.
   */
  function ToggleSign(b: string): (r: string)
    ensures b == Zero ==> r == b
    ensures b != Zero ==> (r == "-" + b || b == "-" + r)
    ensures b != Zero ==> (r == "-" + b <==> !(|b| > 0 && b[0] == '-'))
  {
    if b == Zero then b
    else if |b| > 0 && b[0] == '-' then b[1..]
    else "-" + b
  }

  /** The number of decimal points in a buffer. */
  function Points(s: string): nat {
    multiset(s)['.']
  }

  /**
   * Typing a sequence of keys into a buffer: '.' is the point key, every other
   * character is a one-character number key.
   */
  function Type(b: string, keys: string): string
    decreases |keys|
  {
    if keys == [] then b
    else Type(if keys[0] == '.' then AddPoint(b) else EnterNumber(b, [keys[0]]), keys[1..])
  }

  /** A string with its leading '0' characters removed. */
  function DropLeadingZeros(s: string): (r: string)
    ensures |r| <= |s| && r == s[|s| - |r|..]
    ensures r == [] || r[0] != '0'
    ensures forall i :: 0 <= i < |s| - |r| ==> s[i] == '0'
  {
    if s != [] && s[0] == '0' then DropLeadingZeros(s[1..]) else s
  }

  /** A typed digit sequence as the buffer shows it: without leading zeros, or "0" when nothing else remains. */
  function Collapsed(s: string): string {
    var t := DropLeadingZeros(s);
    if t == [] then Zero else t
  }

  /** Typing into a buffer that is neither "" nor "0" only appends. */
  lemma {:induction false} TypeAppends(b: string, ds: string)
    requires b != [] && b != Zero
    requires '.' !in ds
    ensures Type(b, ds) == b + ds
    decreases |ds|
  {
    if ds != [] {
      assert ds[0] != '.' by { assert ds[0] in ds; }
      assert '.' !in ds[1..] by {
        forall k | 0 <= k < |ds[1..]| ensures ds[1..][k] != '.' {
          assert ds[1..][k] == ds[k + 1] && ds[k + 1] in ds;
        }
      }
      TypeAppends(b + [ds[0]], ds[1..]);
      assert b + [ds[0]] + ds[1..] == b + ds;
    }
  }

  /**
   * After a clear, a digit sequence shows as itself with its leading zeros
   * collapsed: zeros typed on "0" leave "0", and the first other digit replaces it.
   */
  lemma {:induction false} TypeFromZero(ds: string)
    requires '.' !in ds
    ensures Type(Zero, ds) == Collapsed(ds)
    decreases |ds|
  {
    if ds != [] {
      assert ds[0] != '.' by { assert ds[0] in ds; }
      assert '.' !in ds[1..] by {
        forall k | 0 <= k < |ds[1..]| ensures ds[1..][k] != '.' {
          assert ds[1..][k] == ds[k + 1] && ds[k + 1] in ds;
        }
      }
      if ds[0] == '0' {
        TypeFromZero(ds[1..]);
      } else {
        TypeAppends([ds[0]], ds[1..]);
        assert [ds[0]] + ds[1..] == ds;
      }
    }
  }

  /** Pressing "." twice is the same as pressing it once. */
  lemma PointIdempotent(b: string)
    ensures AddPoint(AddPoint(b)) == AddPoint(b)
    ensures Type(b, "..") == Type(b, ".")
  {
    assert '.' in b + ".";
  }

  /** After "." the buffer holds exactly one point if it held at most one. */
  lemma PointGivesOnePoint(b: string)
    requires Points(b) <= 1
    ensures Points(AddPoint(b)) == 1
  {
    if '.' !in b {
      assert multiset(b + ".") == multiset(b) + multiset{'.'};
    }
  }

  /** Digit and point keys never put a second decimal point into the buffer. */
  lemma {:induction false} TypingKeepsOnePoint(b: string, keys: string)
    requires Points(b) <= 1
    ensures Points(Type(b, keys)) <= 1
    decreases |keys|
  {
    if keys != [] {
      var next := if keys[0] == '.' then AddPoint(b) else EnterNumber(b, [keys[0]]);
      if keys[0] == '.' {
        PointGivesOnePoint(b);
      } else if b != Zero {
        assert multiset(b + [keys[0]]) == multiset(b) + multiset{keys[0]};
      }
      TypingKeepsOnePoint(next, keys[1..]);
    }
  }

  /** Backspace undoes the digit just typed into any non-empty buffer, "0" included. */
  lemma BackspaceUndoesDigit(b: string, d: char)
    requires b != []
    ensures Backspace(EnterNumber(b, [d])) == b
  {
    if b != Zero {
      assert (b + [d])[..|b|] == b;
    }
  }

  /** Backspace removes exactly the last character of a buffer longer than one character. */
  lemma BackspaceRemovesLast(b: string)
    requires |b| >= 2
    ensures Backspace(b) + [b[|b| - 1]] == b
  {
  }

  /**
   * Toggling twice restores every buffer except "-0" (and one that begins with
   * two minus signs, which no key or button puts into the buffer).
   */
  lemma ToggleTwice(b: string)
    requires b != "-0"
    requires !(|b| >= 2 && b[0] == '-' && b[1] == '-')
    ensures ToggleSign(ToggleSign(b)) == b
  {
    if |b| > 0 && b[0] == '-' {
      assert b == "-" + b[1..];
    } else {
      assert ("-" + b)[1..] == b;
    }
  }

  /** Toggling "-0" gives "0", where the toggle does nothing, so "-0" is not restored. */
  lemma ToggleMinusZero()
    ensures ToggleSign("-0") == Zero
    ensures ToggleSign(ToggleSign("-0")) != "-0"
  {
  }
}
