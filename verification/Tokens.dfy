/** Page tokens: a nanosecond time and a number, printed and parsed. */
module Tokens {
  import opened Domain
  import opened Luhn

  const MIN_INT64: int := -0x8000_0000_0000_0000
  const MAX_INT64: int := 0x7fff_ffff_ffff_ffff

  predicate InInt64(n: int) {
    MIN_INT64 <= n <= MAX_INT64
  }

  // ---------- numbers ----------

  function Digits(n: nat): (s: string)
    ensures |s| > 0 && OnlyDigits(s)
  {
    if n < 10 then [CharOf(n)] else Digits(n / 10) + [CharOf(n % 10)]
  }

  function FormatInt(n: int): string {
    if n < 0 then "-" + Digits(-n) else Digits(n)
  }

  function Number(s: string): nat
    requires OnlyDigits(s)
  {
    if s == "" then 0 else Number(s[..|s| - 1]) * 10 + DigitOf(s[|s| - 1])
  }

  /** strconv.ParseInt(s, 10, 64): an optional sign, at least one digit, and nothing beyond 64 bits. */
  function ParseInt(s: string): Option<int> {
    var signed := s != "" && (s[0] == '-' || s[0] == '+');
    var digits := if signed then s[1..] else s;
    if digits == "" || !OnlyDigits(digits) then None
    else
      var n := if signed && s[0] == '-' then 0 - Number(digits) else Number(digits);
      if InInt64(n) then Some(n) else None
  }

  lemma {:induction false} NumberOfDigits(n: nat)
    ensures Number(Digits(n)) == n
  {
    if n >= 10 {
      NumberOfDigits(n / 10);
      assert (Digits(n / 10) + [CharOf(n % 10)])[..|Digits(n / 10)|] == Digits(n / 10);
    }
  }

  /** A sign is optional, digits are not, and nothing else may follow them. */
  lemma {:induction false} ParseSigned(digits: string)
    ensures digits != "" && OnlyDigits(digits) ==>
              && ParseInt("+" + digits) == ParseInt(digits)
              && ParseInt("-" + digits) == (if 0 - Number(digits) >= MIN_INT64 then Some(0 - Number(digits)) else None)
              && ParseInt(digits) == (if Number(digits) <= MAX_INT64 then Some(Number(digits)) else None)
    ensures digits == "" || !OnlyDigits(digits) ==> ParseInt("+" + digits) == None && ParseInt("-" + digits) == None
  {
    assert ("+" + digits)[1..] == digits && ("-" + digits)[1..] == digits;
    if digits != "" && OnlyDigits(digits) {
      assert IsDigit(digits[0]);
    }
  }

  /** Printing and parsing a 64-bit integer gives it back. */
  lemma {:induction false} ParseUndoesFormat(n: int)
    ensures ParseInt(FormatInt(n)) == if InInt64(n) then Some(n) else None
  {
    if n < 0 {
      NumberOfDigits(-n);
      ParsePrinted(n, Digits(-n));
    } else {
      NumberOfDigits(n);
      ParsePrinted(n, Digits(n));
    }
  }

  lemma {:induction false} ParsePrinted(n: int, digits: string)
    requires digits != "" && OnlyDigits(digits) && Number(digits) == if n < 0 then -n else n
    ensures ParseInt(if n < 0 then "-" + digits else digits) == if InInt64(n) then Some(n) else None
  {
    ParseSigned(digits);
  }

  lemma {:induction false} NoBar(n: int)
    ensures '|' !in FormatInt(n)
  {
    if n < 0 {
      assert forall c | c in Digits(-n) :: IsDigit(c);
    } else {
      assert forall c | c in Digits(n) :: IsDigit(c);
    }
  }

  // ---------- tokens ----------

  function EncodePageToken(at: int, txnNo: string): string {
    FormatInt(at) + "|" + txnNo
  }

  /** strings.SplitN(token, "|", 2): the text before and after the first bar. */
  function Split(token: string): Option<(string, string)> {
    if token == "" then None
    else if token[0] == '|' then Some(("", token[1..]))
    else
      match Split(token[1..])
      case None => None
      case Some((before, after)) => Some(([token[0]] + before, after))
  }

  function DecodePageToken(token: string): Option<(int, string)> {
    match Split(token)
    case None => None
    case Some((before, after)) =>
      match ParseInt(before)
      case None => None
      case Some(at) => Some((at, after))
  }

  function EncodeChangeLogPageToken(at: int, changeId: int): string {
    FormatInt(at) + "|" + FormatInt(changeId)
  }

  function DecodeChangeLogPageToken(token: string): Option<(int, int)> {
    match DecodePageToken(token)
    case None => None
    case Some((at, text)) =>
      match ParseInt(text)
      case None => None
      case Some(id) => Some((at, id))
  }

  lemma {:induction false} SplitAtFirst(before: string, after: string)
    requires '|' !in before
    ensures Split(before + "|" + after) == Some((before, after))
  {
    var token := before + "|" + after;
    if before == "" {
      assert token[1..] == after;
    } else {
      assert token[1..] == before[1..] + "|" + after;
      SplitAtFirst(before[1..], after);
      assert [before[0]] + before[1..] == before;
    }
  }

  /** Decoding undoes encoding for every 64-bit time and any text, bars included; a time beyond 64
      bits is not decoded at all. */
  lemma {:induction false} DecodeUndoesEncode(at: int, txnNo: string)
    ensures DecodePageToken(EncodePageToken(at, txnNo)) == if InInt64(at) then Some((at, txnNo)) else None
  {
    NoBar(at);
    SplitAtFirst(FormatInt(at), txnNo);
    ParseUndoesFormat(at);
  }

  lemma {:induction false} DecodeUndoesEncodeChangeLog(at: int, changeId: int)
    ensures DecodeChangeLogPageToken(EncodeChangeLogPageToken(at, changeId))
         == if InInt64(at) && InInt64(changeId) then Some((at, changeId)) else None
  {
    DecodeUndoesEncode(at, FormatInt(changeId));
    ParseUndoesFormat(changeId);
  }

  /** A token reads as the time, a bar and the number. */
  lemma {:induction false} TokenReads(at: int, txnNo: string)
    requires InInt64(at)
    ensures var token := EncodePageToken(at, txnNo);
            var bar := |token| - |txnNo| - 1;
            && bar > 0 && token[bar] == '|' && token[bar + 1..] == txnNo && ParseInt(token[..bar]) == Some(at)
  {
    var token := EncodePageToken(at, txnNo);
    ParseUndoesFormat(at);
    assert token[..|FormatInt(at)|] == FormatInt(at);
  }
}
