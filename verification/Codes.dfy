/** The shape of merchant, customer and account numbers. */
module Codes {
  import opened Domain
  import opened Collections
  import opened Luhn
  import opened Tokens

  const BIN := "621770"
  const REGION := "000"
  const VERSION := "1"
  const MERCHANT_PREFIX := "1"
  const CUSTOMER_PREFIX := "2"

  function Pow10(n: nat): (p: nat)
    ensures p > 0
  {
    if n == 0 then 1 else 10 * Pow10(n - 1)
  }

  method PowerOfTen(n: nat) returns (out: nat)
    ensures out == Pow10(n)
  {
    out := 1;
    for i := 0 to n
      invariant out == Pow10(i)
    {
      out := out * 10;
    }
  }

  /** A number in decimal with leading zeros, `width` digits long. */
  function Padded(n: nat, width: nat): (s: string)
    ensures |s| == width && OnlyDigits(s)
  {
    if width == 0 then "" else Padded(n / 10, width - 1) + [CharOf(n % 10)]
  }

  /** Numbers below the limit are told apart by their padded form. */
  lemma {:induction false} PaddedInjective(m: nat, n: nat, width: nat)
    requires m < Pow10(width) && n < Pow10(width) && Padded(m, width) == Padded(n, width)
    ensures m == n
  {
    if width > 0 {
      var a, b := Padded(m / 10, width - 1), Padded(n / 10, width - 1);
      assert (a + [CharOf(m % 10)])[..width - 1] == a && (b + [CharOf(n % 10)])[..width - 1] == b;
      assert (a + [CharOf(m % 10)])[width - 1] == (b + [CharOf(n % 10)])[width - 1];
      PaddedInjective(m / 10, n / 10, width - 1);
    }
  }

  /** Read as a decimal number, the padded form gives back what of the number fits into it. */
  lemma {:induction false} PaddedIsNumber(n: nat, width: nat)
    ensures Number(Padded(n, width)) == n % Pow10(width)
  {
    if width > 0 {
      var head := Padded(n / 10, width - 1);
      PaddedIsNumber(n / 10, width - 1);
      assert (head + [CharOf(n % 10)])[..width - 1] == head;
      DigitsFit(n, Pow10(width - 1));
    }
  }

  lemma {:induction false} DigitsFit(n: nat, p: nat)
    requires p > 0
    ensures n / 10 % p * 10 + n % 10 == n % (10 * p)
  {
    var q, r := n / 10 / p, n / 10 % p;
    assert n / 10 == q * p + r && n == 10 * (n / 10) + n % 10;
    assert n == q * (10 * p) + (r * 10 + n % 10);
    RemainderIs(n, 10 * p, q, r * 10 + n % 10);
  }

  lemma {:induction false} RemainderIs(n: nat, m: nat, q: nat, r: nat)
    requires m > 0 && r < m && n == q * m + r
    ensures n % m == r
  {
    var k := n / m - q;
    assert n == (n / m) * m + n % m;
    assert k * m == r - n % m;
    if k != 0 {
      MultipleGap(k, m);
      assert false;
    }
  }

  lemma {:induction false} PowersOfTen()
    ensures Pow10(4) == 10000 && Pow10(6) == 1000000 && Pow10(10) == 10000000000
  {
    assert Pow10(2) == 100 && Pow10(3) == 1000 && Pow10(4) == 10000 && Pow10(5) == 100000;
    assert Pow10(7) == 10000000 && Pow10(8) == 100000000 && Pow10(9) == 1000000000;
  }

  /** The kinds of numbers: what a range of sequence numbers is leased for. Account numbers are
      counted per BIN, merchant mapping and account type, written as twelve digits. */
  datatype Key = MerchantKey | CustomerKey | AccountKey(scope: string)

  predicate KeyOk(k: Key) {
    k.AccountKey? ==> |k.scope| == 12 && OnlyDigits(k.scope)
  }

  function Upper(c: char): char {
    if 'a' <= c <= 'z' then c - 'a' + 'A' else c
  }

  function ToUpper(s: string): string {
    seq(|s|, i requires 0 <= i < |s| => Upper(s[i]))
  }

  function AccountTypeCode(accountType: string): (r: string)
    ensures |r| == 2 && OnlyDigits(r)
  {
    var t := ToUpper(accountType);
    if t == "BUDGET" then "01"
    else if t == "RECEIVABLE" then "02"
    else if t == "CUSTOMER" || t == "CUSTOM" then "10"
    else "11"
  }

  function MerchantMapping(hash: string -> nat, m: MerchantNo): (r: string)
    ensures |r| == 4 && OnlyDigits(r)
  {
    Padded(hash(m) % 10000, 4)
  }

  function AccountKeyFor(hash: string -> nat, m: MerchantNo, accountType: string): (k: Key)
    ensures KeyOk(k)
  {
    AccountKey(BIN + MerchantMapping(hash, m) + AccountTypeCode(accountType))
  }

  /** What a number is asked for. */
  datatype Purpose = NewMerchant | NewCustomer | NewAccount(merchant: MerchantNo, accountType: string)

  function KeyFor(hash: string -> nat, u: Purpose): (k: Key)
    ensures KeyOk(k)
  {
    match u
    case NewMerchant => MerchantKey
    case NewCustomer => CustomerKey
    case NewAccount(m, accountType) => AccountKeyFor(hash, m, accountType)
  }

  function SeqDigits(k: Key): nat {
    if k.AccountKey? then 6 else 10
  }

  function Prefix(k: Key): (s: string)
    requires KeyOk(k)
    ensures OnlyDigits(s) && |s| == (if k.AccountKey? then 12 else 5)
  {
    match k
    case MerchantKey => MERCHANT_PREFIX + REGION + VERSION
    case CustomerKey => CUSTOMER_PREFIX + REGION + VERSION
    case AccountKey(scope) => scope
  }

  function Body(k: Key, n: nat): (s: string)
    requires KeyOk(k)
    ensures OnlyDigits(s) && |s| == |Prefix(k)| + SeqDigits(k)
  {
    Prefix(k) + Padded(n, SeqDigits(k))
  }

  /** The number issued for sequence value `n`; none when the sequence is exhausted. */
  function Code(k: Key, n: nat): Option<string>
    requires KeyOk(k)
  {
    if n >= Pow10(SeqDigits(k)) then None else Some(Body(k, n) + [CheckDigit(Body(k, n))])
  }

  method NewCode(k: Key, n: nat) returns (code: Option<string>)
    requires KeyOk(k)
    ensures code == Code(k, n)
  {
    var limit := PowerOfTen(SeqDigits(k));
    if n >= limit {
      return None;
    }
    var ok, s := AppendLuhn(Body(k, n));
    return Some(s);
  }

  predicate IsValidMerchantNo(v: string) {
    |v| == 16 && OnlyDigits(v) && MERCHANT_PREFIX <= v && ValidLuhn(v)
  }

  predicate IsValidCustomerNo(v: string) {
    |v| == 16 && OnlyDigits(v) && CUSTOMER_PREFIX <= v && ValidLuhn(v)
  }

  predicate IsValidAccountNo(v: string) {
    |v| == 19 && OnlyDigits(v) && ValidLuhn(v)
  }

  /** Every issued number passes its own validity test, and only its own kind's. */
  lemma {:induction false} CodeIsValid(k: Key, n: nat)
    requires KeyOk(k) && Code(k, n).Some?
    ensures IsValidMerchantNo(Code(k, n).value) <==> k.MerchantKey?
    ensures IsValidCustomerNo(Code(k, n).value) <==> k.CustomerKey?
    ensures IsValidAccountNo(Code(k, n).value) <==> k.AccountKey?
  {
    AppendedIsValid(Body(k, n));
    var v := Code(k, n).value;
    if !k.AccountKey? {
      assert v[0] == Prefix(k)[0];
    }
  }

  /** Different keys or different sequence values give different numbers. */
  lemma {:induction false} CodeInjective(k: Key, m: nat, j: Key, n: nat)
    requires KeyOk(k) && KeyOk(j) && Code(k, m).Some? && Code(k, m) == Code(j, n)
    ensures k == j && m == n
  {
    CodeIsValid(k, m);
    CodeIsValid(j, n);
    var v := Code(k, m).value;
    var p := |Prefix(k)|;
    var w := SeqDigits(k);
    assert v[..p] == Prefix(k) && v[..p] == Prefix(j);
    assert v[p..p + w] == Padded(m, w) && v[p..p + w] == Padded(n, w);
    PaddedInjective(m, n, w);
  }

  /** What a merchant or customer number is made of: its kind, region and version, ten digits of the
      sequence and the check digit; numbers run out after ten digits. */
  lemma {:induction false} PartyNumber(k: Key, n: nat)
    requires !k.AccountKey?
    ensures Code(k, n).Some? <==> n < 10000000000
    ensures Code(k, n).Some? ==>
              var v := Code(k, n).value;
              && |v| == 16 && OnlyDigits(v) && v[..5] == (if k.MerchantKey? then "10001" else "20001")
              && Number(v[5..15]) == n && ValidLuhn(v)
  {
    PowersOfTen();
    if Code(k, n).Some? {
      var v := Code(k, n).value;
      CodeIsValid(k, n);
      assert v[..5] == Prefix(k) && v[5..15] == Padded(n, 10);
      PaddedIsNumber(n, 10);
      WholeBelow(n, 10000000000);
    }
  }

  lemma WholeBelow(n: nat, m: nat)
    requires n < m
    ensures n % m == n
  {
  }

  /** What an account number is made of: the BIN, four digits for the merchant, two for the type of
      account, six of the sequence and the check digit; numbers run out after six digits. */
  lemma {:induction false} AccountNumber(hash: string -> nat, m: MerchantNo, accountType: string, n: nat)
    ensures var code := Code(KeyFor(hash, NewAccount(m, accountType)), n);
            && (code.Some? <==> n < 1000000)
            && (code.Some? ==>
                  && var v := code.value;
                  && |v| == 19 && OnlyDigits(v) && v[..6] == "621770" && Number(v[6..10]) == hash(m) % 10000
                  && v[10..12] == AccountTypeCode(accountType) && Number(v[12..18]) == n && ValidLuhn(v))
  {
    PowersOfTen();
    var k := KeyFor(hash, NewAccount(m, accountType));
    if Code(k, n).Some? {
      var v := Code(k, n).value;
      CodeIsValid(k, n);
      assert k.scope[..6] == BIN && k.scope[6..10] == MerchantMapping(hash, m);
      assert v[..6] == BIN && v[6..10] == Padded(hash(m) % 10000, 4) && v[12..18] == Padded(n, 6);
      assert v[10..12] == AccountTypeCode(accountType);
      PaddedIsNumber(hash(m) % 10000, 4);
      PaddedIsNumber(n, 6);
      WholeBelow(hash(m) % 10000, 10000);
      WholeBelow(n, 1000000);
    }
  }

  predicate SameLetter(a: char, b: char) {
    a == b || ('A' <= a <= 'Z' && b == a - 'A' + 'a') || ('A' <= b <= 'Z' && a == b - 'A' + 'a')
  }

  /** Equal but for the case of letters. */
  predicate SameWord(s: string, t: string) {
    |s| == |t| && forall i | 0 <= i < |s| :: SameLetter(s[i], t[i])
  }

  /** Which code stands for which type of account, in whatever case the type is written. */
  lemma {:induction false} TypeCodes(accountType: string)
    ensures var code := AccountTypeCode(accountType);
            && (code == "01" <==> SameWord(accountType, "BUDGET"))
            && (code == "02" <==> SameWord(accountType, "RECEIVABLE"))
            && (code == "10" <==> SameWord(accountType, "CUSTOMER") || SameWord(accountType, "CUSTOM"))
            && code in {"01", "02", "10", "11"}
  {
    UpperIsWord(accountType, "BUDGET");
    UpperIsWord(accountType, "RECEIVABLE");
    UpperIsWord(accountType, "CUSTOMER");
    UpperIsWord(accountType, "CUSTOM");
  }

  lemma {:induction false} UpperIsWord(s: string, word: string)
    requires forall i | 0 <= i < |word| :: 'A' <= word[i] <= 'Z'
    ensures ToUpper(s) == word <==> SameWord(s, word)
  {
    if SameWord(s, word) {
      forall i | 0 <= i < |s|
        ensures ToUpper(s)[i] == word[i]
      {
        assert SameLetter(s[i], word[i]);
      }
    }
    if ToUpper(s) == word {
      forall i | 0 <= i < |s|
        ensures SameLetter(s[i], word[i])
      {
        assert ToUpper(s)[i] == word[i];
      }
    }
  }
}
