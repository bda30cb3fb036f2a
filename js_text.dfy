/**
 * The two pieces of JavaScript string behaviour the tree relies on:
 * `String(n)` of a safe integer (decimal digits, used for property names and tree ids)
 * and `text.indexOf(query)`, whose `> -1` test is the search's substring match.
 */
module JsText {

  /** The decimal digit character for `d`. */
  function DigitChar(d: nat): (c: char)
    requires d < 10
  {
    (('0' as int) + d) as char
  }

  predicate IsDigit(c: char) {
    '0' <= c <= '9'
  }

  predicate AllDigits(s: string) {
    forall i :: 0 <= i < |s| ==> IsDigit(s[i])
  }

  /**
   * `String(n)` for a non-negative integer: its decimal digits, most significant first.
   * JavaScript gives exactly these digits only below 2^53 (see `IntToDecimal`).
   */
  function NatToDecimal(n: nat): (s: string)
    ensures |s| >= 1 && AllDigits(s)
    decreases n
  {
    if n < 10 then [DigitChar(n)] else NatToDecimal(n / 10) + [DigitChar(n % 10)]
  }

  /** The number a string of decimal digits denotes; the reference for proving `NatToDecimal` injective. */
  function DecimalValue(s: string): nat
    requires AllDigits(s)
  {
    if |s| == 0 then 0
    else DecimalValue(s[..|s| - 1]) * 10 + (s[|s| - 1] as int - '0' as int)
  }

  /** Reading back the decimal digits of `n` yields `n`. */
  lemma {:induction false} DecimalRoundTrip(n: nat)
    ensures DecimalValue(NatToDecimal(n)) == n
    decreases n
  {
    if n >= 10 {
      var s := NatToDecimal(n);
      var p := NatToDecimal(n / 10);
      assert s == p + [DigitChar(n % 10)];
      assert s[..|s| - 1] == p;
      DecimalRoundTrip(n / 10);
    }
  }

  lemma NatToDecimalInjective(a: nat, b: nat)
    requires NatToDecimal(a) == NatToDecimal(b)
    ensures a == b
  {
    DecimalRoundTrip(a);
    DecimalRoundTrip(b);
  }

  /**
   * `String(n)` for an integer: a minus sign before the digits of a negative number.
   * This is JavaScript's result for |n| < 2^53; a larger double prints its shortest
   * round-trip digits padded with zeros, or in exponent form from 1e21 on.
   */
  function IntToDecimal(n: int): (s: string)
    ensures |s| >= 1
    ensures n >= 0 <==> s[0] != '-'
  {
    if n < 0 then "-" + NatToDecimal(-n) else NatToDecimal(n)
  }

  /** Distinct integers have distinct decimal forms. */
  lemma IntToDecimalInjective(a: int, b: int)
    requires IntToDecimal(a) == IntToDecimal(b)
    ensures a == b
  {
    if a < 0 && b < 0 {
      assert NatToDecimal(-a) == IntToDecimal(a)[1..];
      assert NatToDecimal(-b) == IntToDecimal(b)[1..];
      NatToDecimalInjective(-a, -b);
    } else if a >= 0 && b >= 0 {
      NatToDecimalInjective(a, b);
    }
  }

  /** `query` occurs in `text` starting at position `i`. */
  predicate OccursAt(text: string, query: string, i: int) {
    0 <= i && i + |query| <= |text| && text[i..i + |query|] == query
  }

  /**
   * The search behind `text.indexOf(query)`: the first position at or after `from` where
   * `query` occurs, or -1. It agrees with JavaScript's `indexOf(query, from)` for
   * `from <= |text|`; JavaScript clamps a larger `from`, which `indexOf(query)` never passes.
   */
  function IndexOfFrom(text: string, query: string, from: nat): (r: int)
    ensures r == -1 || (from <= r && OccursAt(text, query, r))
    ensures r == -1 ==> forall j :: from <= j ==> !OccursAt(text, query, j)
    ensures r != -1 ==> forall j :: from <= j < r ==> !OccursAt(text, query, j)
    decreases |text| - from
  {
    if from + |query| > |text| then -1
    else if text[from..from + |query|] == query then from
    else IndexOfFrom(text, query, from + 1)
  }

  /** `text.indexOf(query)`. */
  function IndexOf(text: string, query: string): (r: int)
  {
    IndexOfFrom(text, query, 0)
  }

  /** `text.indexOf(query) > -1`: plain, case-sensitive substring containment. */
  predicate Contains(text: string, query: string) {
    IndexOf(text, query) > -1
  }

  /** The `indexOf` test holds exactly when the query occurs somewhere in the text. */
  lemma ContainsIff(text: string, query: string)
    ensures Contains(text, query) <==> exists i :: OccursAt(text, query, i)
  {
    if exists i :: OccursAt(text, query, i) {
      var i :| OccursAt(text, query, i);
      assert IndexOfFrom(text, query, 0) != -1;
    }
  }

  /** The empty query is found in every text; every text is found in itself. */
  lemma ContainsTrivial(text: string)
    ensures Contains(text, "") && Contains(text, text)
  {
    assert OccursAt(text, "", 0);
    assert OccursAt(text, text, 0);
    ContainsIff(text, "");
    ContainsIff(text, text);
  }

  /** An occurrence inside `middle` is an occurrence inside `before + middle + after`. */
  lemma OccursInContext(before: string, middle: string, after: string, query: string, i: int)
    requires OccursAt(middle, query, i)
    ensures OccursAt(before + middle + after, query, |before| + i)
  {
    var whole := before + middle + after;
    assert whole[|before| + i..|before| + i + |query|] == middle[i..i + |query|];
  }

  /** Containment is transitive: a part of a part of the text is a part of the text. */
  lemma OccursTransitive(text: string, part: string, query: string, i: int, j: int)
    requires OccursAt(text, part, i) && OccursAt(part, query, j)
    ensures OccursAt(text, query, i + j)
  {
    forall k | 0 <= k < |query|
      ensures text[i + j + k] == query[k]
    {
      assert text[i + j + k] == text[i..i + |part|][j + k];
      assert part[j + k] == part[j..j + |query|][k];
    }
    assert text[i + j..i + j + |query|] == query;
  }

  /** Matching compares characters exactly: no case folding or other normalisation. */
  lemma ContainsIsCaseSensitive()
    ensures Contains("Title", "Title") && !Contains("Title", "title")
  {
    ContainsTrivial("Title");
    ContainsIff("Title", "title");
    assert !OccursAt("Title", "title", 0);
  }
}
