/**
 * Decimal integers as Go's `strconv.Atoi` reads them and as the `%d` verb
 * of `fmt.Fprintf` writes them. Integers are unbounded here.
 */
module Decimal {
  import opened Wrappers

  predicate IsDigit(c: char) {
    '0' <= c <= '9'
  }

  predicate AllDigits(s: string) {
    forall i :: 0 <= i < |s| ==> IsDigit(s[i])
  }

  function DigitValue(c: char): (d: nat)
    requires IsDigit(c)
    ensures d < 10
  {
    c as int - '0' as int
  }

  function DigitChar(d: nat): (c: char)
    requires d < 10
    ensures IsDigit(c) && DigitValue(c) == d
  {
    ('0' as int + d) as char
  }

  /** The value of a digit string, most significant digit first: the reference reading. */
  function DigitsValue(s: string): nat
    requires AllDigits(s)
  {
    if s == [] then 0 else DigitsValue(s[..|s| - 1]) * 10 + DigitValue(s[|s| - 1])
  }

  /**
   * Atoi's digit loop: `n = n*10 + int(ch)` for each byte from left to
   * right, failing on the first byte that is not a digit.
   */
  function AccumulateDigits(s: string, n: nat): Option<nat>
  {
    if s == [] then Some(n)
    else if !IsDigit(s[0]) then None
    else AccumulateDigits(s[1..], n * 10 + DigitValue(s[0]))
  }

  /** The left-to-right loop computes the reference value of everything read so far. */
  lemma {:induction false} AccumulateDigitsCorrect(done: string, s: string)
    requires AllDigits(done)
    ensures AccumulateDigits(s, DigitsValue(done)) ==
              if AllDigits(s) then Some(DigitsValue(done + s)) else None
    decreases |s|
  {
    if s == [] {
      assert done + s == done;
    } else if !IsDigit(s[0]) {
      assert !AllDigits(s);
    } else {
      var done' := done + [s[0]];
      assert done'[..|done'| - 1] == done;
      assert done' + s[1..] == done + s;
      assert AllDigits(done');
      assert DigitsValue(done') == DigitsValue(done) * 10 + DigitValue(s[0]);
      assert AllDigits(s) == AllDigits(s[1..]) by {
        if AllDigits(s[1..]) {
          forall i | 0 <= i < |s| ensures IsDigit(s[i]) {
            if i > 0 { assert s[i] == s[1..][i - 1]; }
          }
        }
      }
      AccumulateDigitsCorrect(done', s[1..]);
    }
  }

  /** The syntax Atoi accepts: an optional '+' or '-' followed by one or more ASCII digits. */
  predicate IsIntegerLiteral(t: string) {
    if |t| > 0 && (t[0] == '+' || t[0] == '-') then |t| > 1 && AllDigits(t[1..])
    else |t| > 0 && AllDigits(t)
  }

  /** The value of an integer literal: its digits, negated after a '-'. */
  function LiteralValue(t: string): int
    requires IsIntegerLiteral(t)
  {
    if t[0] == '-' then -(DigitsValue(t[1..]) as int)
    else if t[0] == '+' then DigitsValue(t[1..])
    else DigitsValue(t)
  }

  /**
   * `strconv.Atoi`: an empty string is an error; a leading sign is taken
   * off and must be followed by at least one byte; then the digit loop
   * runs, and the value is negated when the sign was '-'.
   */
  function Atoi(s: string): (r: Option<int>)
    ensures r.Some? <==> IsIntegerLiteral(s)
    ensures r.Some? ==> r.value == LiteralValue(s)
  {
    if |s| == 0 then None
    else
      var digits := if s[0] == '-' || s[0] == '+' then s[1..] else s;
      if |digits| < 1 then None
      else
        AccumulateDigitsCorrect([], digits);
        assert [] + digits == digits;
        match AccumulateDigits(digits, 0)
        case None => None
        case Some(n) => Some(if s[0] == '-' then -(n as int) else n)
  }

  /** `%d` of a natural number: its decimal digits with no leading zero. */
  function NatToDecimal(n: nat): (s: string)
    ensures |s| > 0 && AllDigits(s) && DigitsValue(s) == n
    ensures |s| > 1 ==> s[0] != '0'
  {
    if n < 10 then [DigitChar(n)]
    else
      var s := NatToDecimal(n / 10) + [DigitChar(n % 10)];
      assert s[..|s| - 1] == NatToDecimal(n / 10);
      s
  }

  /** `%d` of an integer: a '-' in front of a negative number's magnitude. */
  function IntToDecimal(n: int): string {
    if n < 0 then "-" + NatToDecimal(-n) else NatToDecimal(n)
  }

  /** Atoi reads back exactly the number `%d` wrote, and the text is a literal with no ':' and no white space. */
  lemma AtoiIntToDecimal(n: int)
    ensures IsIntegerLiteral(IntToDecimal(n))
    ensures Atoi(IntToDecimal(n)) == Some(n)
    ensures forall i :: 0 <= i < |IntToDecimal(n)| ==>
              IntToDecimal(n)[i] == '-' || IsDigit(IntToDecimal(n)[i])
  {
  }
}
