/**
 * Class ids as keys of the id-to-tag table: `detect_intent` looks up
 * `str(id)`, the decimal text of the classifier's winning class.
 */
module IntentIds {
  import opened Wrappers

  predicate IsDigit(c: char) { '0' <= c <= '9' }

  function DigitValue(c: char): (d: nat)
    requires IsDigit(c)
    ensures d < 10
  {
    c as int - '0' as int
  }

  function DigitChar(d: nat): (c: char)
    requires d < 10
    ensures IsDigit(c) && DigitValue(c) == d
  {
    ('0' as int + d) as char
  }

  predicate AllDigits(s: string) {
    forall k :: 0 <= k < |s| ==> IsDigit(s[k])
  }

  /** Value of a string of decimal digits, most significant digit first. */
  function Value(s: string): nat
    requires AllDigits(s)
  {
    if |s| == 0 then 0 else 10 * Value(s[..|s| - 1]) + DigitValue(s[|s| - 1])
  }

  /** The texts Python's `str` produces for a non-negative integer: digits only,
      and no leading zero unless the number is zero. */
  predicate Canonical(s: string) {
    |s| > 0 && AllDigits(s) && (s[0] == '0' ==> |s| == 1)
  }

  /** Reads a key of the id-to-tag table back as a class id. */
  function Parse(s: string): Option<nat> {
    if Canonical(s) then Some(Value(s)) else None
  }

  /** `str(n)` for a class id `n`: it always reads back as `n`. */
  function Decimal(n: nat): (s: string)
    ensures Canonical(s)
    ensures Parse(s) == Some(n)
  {
    if n < 10 then
      var s := [DigitChar(n)];
      assert s[..0] == [] && Value([]) == 0;
      assert Value(s) == 10 * Value(s[..0]) + DigitValue(s[0]);
      s
    else
      var p := Decimal(n / 10);
      var s := p + [DigitChar(n % 10)];
      assert s[..|s| - 1] == p;
      s
  }

  /** A digit string that does not start with zero has a positive value. */
  lemma {:induction false} LeadingDigitPositive(s: string)
    requires |s| > 0 && AllDigits(s) && s[0] != '0'
    ensures Value(s) >= 1
  {
    if |s| > 1 {
      var p := s[..|s| - 1];
      assert p[0] == s[0];
      LeadingDigitPositive(p);
    }
  }

  /** Every key that reads back as an id is exactly that id's decimal text:
      `str` and `Parse` are mutually inverse on canonical keys. */
  lemma {:induction false} DecimalOfParse(s: string)
    requires Parse(s).Some?
    ensures Decimal(Parse(s).value) == s
  {
    var n := Value(s);
    if |s| == 1 {
      assert s[..0] == [] && Value([]) == 0;
      assert Value(s) == 10 * Value(s[..0]) + DigitValue(s[0]);
      assert DigitChar(DigitValue(s[0])) == s[0];
      assert s == [s[0]];
    } else {
      var p := s[..|s| - 1];
      assert p[0] == s[0];
      LeadingDigitPositive(p);
      assert Canonical(p);
      DecimalOfParse(p);
      assert n / 10 == Value(p) && n % 10 == DigitValue(s[|s| - 1]);
      assert DigitChar(DigitValue(s[|s| - 1])) == s[|s| - 1];
      assert s == p + [s[|s| - 1]];
    }
  }

  /** Distinct class ids look up distinct keys. */
  lemma DecimalInjective(m: nat, n: nat)
    requires m != n
    ensures Decimal(m) != Decimal(n)
  {
  }
}
