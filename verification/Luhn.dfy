/** The check digit of every generated number (Annex B of ISO/IEC 7812-1). */
module Luhn {

  predicate IsDigit(c: char) {
    '0' <= c <= '9'
  }

  predicate OnlyDigits(s: string) {
    forall i | 0 <= i < |s| :: IsDigit(s[i])
  }

  function DigitOf(c: char): (d: nat)
    requires IsDigit(c)
    ensures d < 10
  {
    c as int - '0' as int
  }

  function CharOf(d: nat): (c: char)
    requires d < 10
    ensures IsDigit(c) && DigitOf(c) == d
  {
    '0' + d as char
  }

  /** A digit, or the digit sum of its double. */
  function Weight(d: nat, double: bool): (w: nat)
    requires d < 10
    ensures w < 10
  {
    if !double then d else if 2 * d > 9 then 2 * d - 9 else 2 * d
  }

  /** Whether the digit `k` places from the right is doubled, when the rightmost is if `double`. */
  predicate DoubledAt(double: bool, k: nat) {
    double == (k % 2 == 0)
  }

  /** The weighted digits added up from the right, doubling every second one. */
  function LuhnSum(s: string, double: bool): nat
    requires OnlyDigits(s)
  {
    if s == "" then 0
    else
      var n := |s| - 1;
      Weight(DigitOf(s[n]), double) + LuhnSum(s[..n], !double)
  }

  function CheckDigit(body: string): char
    requires OnlyDigits(body)
  {
    CharOf((10 - LuhnSum(body, true) % 10) % 10)
  }

  predicate ValidLuhn(v: string) {
    OnlyDigits(v) && v != "" && LuhnSum(v, false) % 10 == 0
  }

  // ---------- the loops ----------

  method ScanDigits(v: string) returns (ok: bool)
    ensures ok == OnlyDigits(v)
  {
    var i := 0;
    while i < |v|
      invariant 0 <= i <= |v| && OnlyDigits(v[..i])
    {
      if v[i] < '0' || v[i] > '9' {
        return false;
      }
      i := i + 1;
    }
    assert v[..i] == v;
    return true;
  }

  method SumFromRight(s: string, first: bool) returns (sum: nat)
    requires OnlyDigits(s)
    ensures sum == LuhnSum(s, first)
  {
    sum := 0;
    var double := first;
    var i := |s|;
    assert s[..i] == s;
    while i > 0
      invariant 0 <= i <= |s|
      invariant sum + LuhnSum(s[..i], double) == LuhnSum(s, first)
    {
      i := i - 1;
      assert s[..i + 1][..i] == s[..i];
      var d := DigitOf(s[i]);
      if double {
        d := d * 2;
        if d > 9 {
          d := d - 9;
        }
      }
      sum := sum + d;
      double := !double;
    }
  }

  method ComputeLuhnCheckDigit(body: string) returns (check: char)
    requires OnlyDigits(body)
    ensures check == CheckDigit(body)
  {
    var sum := SumFromRight(body, true);
    check := CharOf((10 - sum % 10) % 10);
  }

  /** None when the body is not all digits. */
  method AppendLuhn(body: string) returns (ok: bool, code: string)
    ensures ok == OnlyDigits(body)
    ensures ok ==> code == body + [CheckDigit(body)] && ValidLuhn(code)
  {
    ok := ScanDigits(body);
    code := "";
    if ok {
      var check := ComputeLuhnCheckDigit(body);
      code := body + [check];
      AppendedIsValid(body);
    }
  }

  method IsValidLuhn(v: string) returns (valid: bool)
    ensures valid == ValidLuhn(v)
    ensures valid <==> v != "" && OnlyDigits(v) && Contributions(v, |v|) % 10 == 0
  {
    var ok := ScanDigits(v);
    if !ok || v == "" {
      return false;
    }
    ValidByStandard(v);
    var sum := SumFromRight(v, false);
    return sum % 10 == 0;
  }

  // ---------- what the check digit is good for ----------

  lemma {:induction false} SumOfAppended(body: string, c: char)
    requires OnlyDigits(body) && IsDigit(c)
    ensures OnlyDigits(body + [c])
    ensures LuhnSum(body + [c], false) == DigitOf(c) + LuhnSum(body, true)
  {
    assert (body + [c])[..|body|] == body;
  }

  /** The appended digit validates, and no other digit does. */
  lemma {:induction false} CheckDigitIsUnique(body: string, c: char)
    requires OnlyDigits(body) && IsDigit(c)
    ensures ValidLuhn(body + [c]) <==> c == CheckDigit(body)
  {
    SumOfAppended(body, c);
    assert c == CharOf(DigitOf(c));
  }

  lemma AppendedIsValid(body: string)
    requires OnlyDigits(body)
    ensures ValidLuhn(body + [CheckDigit(body)])
  {
    CheckDigitIsUnique(body, CheckDigit(body));
  }

  /** Changing one digit changes the sum by the change of its weight. */
  lemma {:induction false} SumOfChanged(s: string, double: bool, i: nat, c: char)
    requires OnlyDigits(s) && IsDigit(c) && i < |s|
    ensures OnlyDigits(s[i := c])
    ensures var at := DoubledAt(double, |s| - 1 - i);
            LuhnSum(s[i := c], double) == LuhnSum(s, double) - Weight(DigitOf(s[i]), at) + Weight(DigitOf(c), at)
  {
    var n := |s| - 1;
    StillDigits(s, i, c);
    if i == n {
      assert s[i := c][..n] == s[..n];
    } else {
      assert s[i := c][..n] == s[..n][i := c] && s[i := c][n] == s[n];
      SumOfChanged(s[..n], !double, i, c);
      NextDoubled(double, n - i - 1);
    }
  }

  lemma {:induction false} StillDigits(s: string, i: nat, c: char)
    requires OnlyDigits(s) && IsDigit(c) && i < |s|
    ensures OnlyDigits(s[i := c])
  {
  }

  lemma NextDoubled(double: bool, k: nat)
    ensures DoubledAt(!double, k) == DoubledAt(double, k + 1)
  {
  }

  lemma WeightIsInjective(a: nat, b: nat, double: bool)
    requires a < 10 && b < 10 && a != b
    ensures Weight(a, double) != Weight(b, double)
  {
  }

  lemma SmallShift(x: nat, d: int)
    requires x % 10 == 0 && -10 < d < 10
    ensures (x + d) % 10 == 0 <==> d == 0
  {
  }

  /** Any change of a single digit is detected. */
  lemma {:induction false} SingleChangeDetected(v: string, i: nat, c: char)
    requires ValidLuhn(v) && i < |v| && IsDigit(c) && c != v[i]
    ensures !ValidLuhn(v[i := c])
  {
    var at := DoubledAt(false, |v| - 1 - i);
    var a, b := DigitOf(v[i]), DigitOf(c);
    SumOfChanged(v, false, i, c);
    WeightIsInjective(a, b, at);
    SmallShift(LuhnSum(v, false), Weight(b, at) - Weight(a, at));
  }

  function Swapped(v: string, i: nat): string
    requires i + 1 < |v|
  {
    v[i := v[i + 1]][i + 1 := v[i]]
  }

  /** A swap of neighbours goes unnoticed exactly when they are equal or a 0 and a 9. */
  lemma {:induction false} SwapDetected(v: string, i: nat)
    requires ValidLuhn(v) && i + 1 < |v|
    ensures var (a, b) := (v[i], v[i + 1]);
            ValidLuhn(Swapped(v, i)) <==> a == b || (a == '0' && b == '9') || (a == '9' && b == '0')
  {
    var a, b := DigitOf(v[i]), DigitOf(v[i + 1]);
    var left := DoubledAt(false, |v| - 1 - i);
    SumOfSwapped(v, i);
    SwapWeights(a, b, left);
    SmallShift(LuhnSum(v, false), SwapChange(a, b, left));
  }

  /** What swapping digits `a` and `b` adds to the sum. */
  function SwapChange(a: nat, b: nat, left: bool): int
    requires a < 10 && b < 10
  {
    Weight(b, left) - Weight(a, left) + Weight(a, !left) - Weight(b, !left)
  }

  lemma {:induction false} SumOfSwapped(v: string, i: nat)
    requires OnlyDigits(v) && i + 1 < |v|
    ensures OnlyDigits(Swapped(v, i))
    ensures LuhnSum(Swapped(v, i), false)
         == LuhnSum(v, false) + SwapChange(DigitOf(v[i]), DigitOf(v[i + 1]), DoubledAt(false, |v| - 1 - i))
  {
    var half := v[i := v[i + 1]];
    SumOfChanged(v, false, i, v[i + 1]);
    SumOfChanged(half, false, i + 1, v[i]);
    assert half[i + 1] == v[i + 1];
    assert DoubledAt(false, |v| - 1 - i) == !DoubledAt(false, |v| - 2 - i);
  }

  /** The sum modulo 10 is kept by swapping equal digits, and by swapping 0 and 9, only. */
  lemma SwapWeights(a: nat, b: nat, left: bool)
    requires a < 10 && b < 10
    ensures var change := SwapChange(a, b, left);
            -10 < change < 10 && (change == 0 <==> a == b || (a == 0 && b == 9) || (a == 9 && b == 0))
  {
  }

  // ---------- the standard's own words ----------

  /** The sum of the decimal digits of a number. */
  ghost function DigitSum(n: nat): nat {
    if n < 10 then n else n % 10 + DigitSum(n / 10)
  }

  /** What the digit `k` places from the right contributes: the digits of its double in every second
      place, starting with the second. */
  ghost function Contribution(v: string, k: nat): nat
    requires OnlyDigits(v) && k < |v|
  {
    var d := v[|v| - 1 - k] as int - '0' as int;
    DigitSum(if k % 2 == 1 then 2 * d else d)
  }

  ghost function Contributions(v: string, n: nat): nat
    requires OnlyDigits(v) && n <= |v|
  {
    if n == 0 then 0 else Contributions(v, n - 1) + Contribution(v, n - 1)
  }

  lemma {:induction false} WeightIsDigitSum(d: nat, double: bool)
    requires d < 10
    ensures Weight(d, double) == DigitSum(if double then 2 * d else d)
  {
    assert DigitSum(2 * d) == if 2 * d < 10 then 2 * d else 2 * d % 10 + DigitSum(2 * d / 10);
  }

  lemma {:induction false} SumSplits(v: string, n: nat)
    requires OnlyDigits(v) && n <= |v|
    ensures LuhnSum(v, false) == Contributions(v, n) + LuhnSum(v[..|v| - n], n % 2 == 1)
  {
    if n == 0 {
      assert v[..|v|] == v;
    } else {
      SumSplits(v, n - 1);
      var rest := v[..|v| - (n - 1)];
      assert rest[..|rest| - 1] == v[..|v| - n];
      WeightIsDigitSum(DigitOf(rest[|rest| - 1]), (n - 1) % 2 == 1);
    }
  }

  /** A number is valid exactly when, counting from the right and doubling every second digit, the
      decimal digits add up to a multiple of 10. */
  lemma {:induction false} ValidByStandard(v: string)
    requires OnlyDigits(v) && v != ""
    ensures ValidLuhn(v) <==> Contributions(v, |v|) % 10 == 0
  {
    SumSplits(v, |v|);
    assert v[..0] == "";
  }
}
