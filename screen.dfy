/** The text updateScreen puts on the display for a buffer. */
module Screen {

  /** A negative buffer other than "-0" is shown in parentheses; any other buffer as it is. */
  function Display(b: string): (r: string)
    ensures |b| > 0 && b[0] == '-' && b != "-0" ==> r == "(" + b + ")"
    ensures !(|b| > 0 && b[0] == '-' && b != "-0") ==> r == b
  {
    // the third test of updateScreen, b !== "0", never decides: "0" does not start with '-'
    if |b| > 0 && b[0] == '-' && b != "-0" && b != "0" then "(" + b + ")" else b
  }

  /**
   * Different buffers show differently, as long as none starts with '(' (no
   * key puts one there): the parentheses can always be told from the buffer.
   */
  lemma DisplayInjective(a: string, b: string)
    requires !(|a| > 0 && a[0] == '(') && !(|b| > 0 && b[0] == '(')
    requires Display(a) == Display(b)
    ensures a == b
  {
    var wa := |a| > 0 && a[0] == '-' && a != "-0";
    var wb := |b| > 0 && b[0] == '-' && b != "-0";
    if wa && wb {
      assert a == Display(a)[1..|Display(a)| - 1];
      assert b == Display(b)[1..|Display(b)| - 1];
    }
  }

  /** "-0" and "0" are shown bare; "-5" is shown as "(-5)". */
  lemma DisplayExamples()
    ensures Display("-0") == "-0" && Display("0") == "0"
    ensures Display("-5") == "(-5)" && Display("12") == "12"
  {
  }
}
