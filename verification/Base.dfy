/** Option and Result values, and the errors the services return. */
module Outcomes {

  datatype Option<+T> = None | Some(value: T) {
    function GetOr(default: T): T {
      match this
      case Some(v) => v
      case None => default
    }
  }

  datatype Error =
    // ledger requests; the index is the posting the error text names
    | NoPostings
    | BadSource(index: nat)
    | BadDestination(index: nat)
    | SameAccount(index: nat)
    | BadAsset(index: nat)
    | BadAmount(index: nat)
    | BadAddress
    | BadAccountType
    | TransactionNotFound(id: int)
    | AlreadyReverted(id: int)
    | ReversalFailed(cause: Error)
    | DuplicateReference
    | AmountRefused(index: nat)
    | NotRevertible(id: int)
    // wallets
    | WalletNotFound
    | HoldNotFound
    | HoldClosed
    | BadConfirmAmount
    | ConfirmExceedsRemaining
    | NothingRemaining
    | NilRemaining // the nil dereference when a stored Remaining is not an integer
    | LedgerRefused(cause: Error)
    // settlement
    | MissingTradeId
    | MissingWalletIds
    | BadGrossAmount
    | BadBuyerCommission
    | BadSellerCommission
    | BadPlatformFee
    | NetNotPositive
    // reconciliation
    | PolicyNotFound

  datatype Result<+T> = Ok(value: T) | Err(error: Error)
}

/** Base-10 integers as strings, the way math/big reads and prints them. */
module Decimal {
  import opened Outcomes

  predicate IsDigit(c: char) {
    '0' <= c <= '9'
  }

  predicate AllDigits(s: string) {
    forall i :: 0 <= i < |s| ==> IsDigit(s[i])
  }

  function DigitsValue(s: string): nat
    requires AllDigits(s)
  {
    if s == [] then 0
    else DigitsValue(s[..|s| - 1]) * 10 + (s[|s| - 1] as int - '0' as int)
  }

  function Unsigned(s: string): string {
    if s != [] && (s[0] == '-' || s[0] == '+') then s[1..] else s
  }

  /** SetString(s, 10): an optional sign and at least one digit, nothing else. */
  function Parse(s: string): Option<int> {
    var digits := Unsigned(s);
    if digits == [] || !AllDigits(digits) then None
    else if s[0] == '-' then Some(-(DigitsValue(digits) as int))
    else Some(DigitsValue(digits))
  }

  /** The value read by callers that replace a failed parse by zero. */
  function Value(s: string): int {
    Parse(s).GetOr(0)
  }

  function Digit(n: nat): char
    requires n < 10
  {
    ('0' as int + n) as char
  }

  function PrintNat(n: nat): string {
    if n < 10 then [Digit(n)] else PrintNat(n / 10) + [Digit(n % 10)]
  }

  /** (*big.Int).String */
  function Print(n: int): string {
    if n < 0 then "-" + PrintNat(-n) else PrintNat(n)
  }

  lemma {:induction false} PrintNatReads(n: nat)
    ensures AllDigits(PrintNat(n)) && PrintNat(n) != [] && DigitsValue(PrintNat(n)) == n
  {
    var s := PrintNat(n);
    if n >= 10 {
      PrintNatReads(n / 10);
      assert s[..|s| - 1] == PrintNat(n / 10);
    } else {
      assert s[..0] == [];
    }
  }

  /** Printing then parsing gives the number back, so the nil fallbacks never fire on printed values. */
  lemma ParsePrint(n: int)
    ensures Parse(Print(n)) == Some(n)
    ensures Value(Print(n)) == n
  {
    PrintNatReads(if n < 0 then -n else n);
    var s := Print(n);
    if n < 0 {
      assert s[1..] == PrintNat(-n);
    }
  }

  lemma PrintInjective(a: int, b: int)
    requires Print(a) == Print(b)
    ensures a == b
  {
    ParsePrint(a);
    ParsePrint(b);
  }

  lemma PrintHasNoColon(n: int)
    ensures ':' !in Print(n) && Print(n) != []
  {
    PrintNatReads(if n < 0 then -n else n);
  }

  predicate AllZeros(s: string) {
    forall i :: 0 <= i < |s| ==> s[i] == '0'
  }

  lemma {:induction false} ZerosAddNothing(zeros: string, s: string)
    requires AllZeros(zeros) && AllDigits(s)
    ensures DigitsValue(zeros + s) == DigitsValue(s)
  {
    var all := zeros + s;
    if s != [] {
      assert all[..|all| - 1] == zeros + s[..|s| - 1];
      ZerosAddNothing(zeros, s[..|s| - 1]);
    } else if zeros != [] {
      assert all[..|all| - 1] == zeros[..|zeros| - 1] + s;
      ZerosAddNothing(zeros[..|zeros| - 1], s);
    }
  }

  lemma OneMoreDigit(n: nat, c: char)
    requires IsDigit(c)
    ensures PrintNat(n * 10 + (c as int - '0' as int)) == if n == 0 then [c] else PrintNat(n) + [c]
  {
    var d := c as int - '0' as int;
    assert (n * 10 + d) / 10 == n && (n * 10 + d) % 10 == d;
  }

  /** Digits are zeros in front of the printed number they stand for. */
  lemma {:induction false} StripZeros(s: string) returns (zeros: string)
    requires AllDigits(s) && s != []
    ensures AllZeros(zeros) && s == zeros + PrintNat(DigitsValue(s))
  {
    assert PrintNat(0) == "0" && DigitsValue([]) == 0;
    var front, last := s[..|s| - 1], s[|s| - 1];
    var n, m := DigitsValue(front), DigitsValue(s);
    assert m == n * 10 + (last as int - '0' as int);
    hide PrintNat, DigitsValue;
    OneMoreDigit(n, last);
    zeros := [];
    if front != [] {
      zeros := StripZeros(front);
      assert s == zeros + PrintNat(n) + [last];
      if n == 0 {
        zeros := zeros + "0";
      }
    }
  }

  /** The text is this sign, or none, then zeros, then a printed natural. */
  predicate Spells(s: string, n: int, sign: string, zeros: string, m: nat) {
    && (sign == "" || sign == "+" || sign == "-")
    && AllZeros(zeros) && s == sign + zeros + PrintNat(m)
    && n == (if sign == "-" then 0 - m else m)
  }

  lemma UnsignedOf(sign: string, digits: string)
    requires sign == "" || sign == "+" || sign == "-"
    requires digits != [] && AllDigits(digits)
    ensures Unsigned(sign + digits) == digits
  {
    assert IsDigit(digits[0]);
    assert sign != "" ==> (sign + digits)[1..] == digits;
  }

  lemma SpelledParses(s: string, n: int, sign: string, zeros: string, m: nat)
    requires Spells(s, n, sign, zeros, m)
    ensures Parse(s) == Some(n)
  {
    hide DigitsValue, PrintNat, Unsigned;
    PrintNatReads(m);
    var digits := zeros + PrintNat(m);
    assert AllDigits(digits);
    ZerosAddNothing(zeros, PrintNat(m));
    UnsignedOf(sign, digits);
    assert s == sign + digits;
    assert s[0] == '-' <==> sign == "-" by {
      assert IsDigit(digits[0]);
    }
  }

  lemma ParsedIsSpelled(s: string, n: int) returns (sign: string, zeros: string, m: nat)
    requires Parse(s) == Some(n)
    ensures Spells(s, n, sign, zeros, m)
  {
    hide DigitsValue, PrintNat;
    var digits := Unsigned(s);
    zeros := StripZeros(digits);
    m := DigitsValue(digits);
    sign := if digits == s then "" else [s[0]];
    assert s == sign + digits;
  }

  /** A text reads as n if and only if it is an optional sign, any zeros and the printed size of n, the sign being a
      minus if n is negative; everything else, "12.50" and "" included, is refused. */
  lemma ParseMeaning(s: string, n: int)
    ensures Parse(s) == Some(n) <==> exists sign: string, zeros: string, m: nat :: Spells(s, n, sign, zeros, m)
  {
    hide Parse, Spells;
    if Parse(s) == Some(n) {
      var sign, zeros, m := ParsedIsSpelled(s, n);
    }
    if sign: string, zeros: string, m: nat :| Spells(s, n, sign, zeros, m) {
      SpelledParses(s, n, sign, zeros, m);
    }
  }

  /** No plus sign, no zero in front of other digits, no minus zero. */
  predicate Plain(s: string) {
    var digits := if s != [] && s[0] == '-' then s[1..] else s;
    s == "0" || (digits != [] && digits[0] != '0' && AllDigits(digits))
  }

  lemma {:induction false} NoLeadingZero(n: nat)
    requires n > 0
    ensures PrintNat(n)[0] != '0'
  {
    if n >= 10 {
      NoLeadingZero(n / 10);
    }
  }

  lemma PrintedIsPlain(n: int)
    ensures Plain(Print(n))
  {
    PrintNatReads(if n < 0 then -n else n);
    if n != 0 {
      NoLeadingZero(if n < 0 then -n else n);
    }
  }

  lemma ZerosAreNotPlain(sign: string, zeros: string, digits: string)
    requires sign == "" || sign == "+" || sign == "-"
    requires AllZeros(zeros) && zeros != "" && digits != ""
    ensures !Plain(sign + zeros + digits)
  {
    var s := sign + zeros + digits;
    assert s[|sign|] == '0' && |s| >= |sign| + 2;
  }

  lemma PlainSpelling(s: string, n: int, sign: string, zeros: string, m: nat)
    requires Plain(s) && Spells(s, n, sign, zeros, m)
    requires PrintNat(m) != [] && AllDigits(PrintNat(m)) && (m == 0 ==> PrintNat(m) == "0")
    ensures zeros == "" && sign == if n < 0 then "-" else ""
  {
    hide PrintNat;
    if zeros != "" {
      ZerosAreNotPlain(sign, zeros, PrintNat(m));
    } else {
      assert s == sign + PrintNat(m) && s[|sign|..] == PrintNat(m) && IsDigit(PrintNat(m)[0]);
    }
  }

  lemma PlainIsPrinted(s: string, n: int)
    requires Plain(s) && Parse(s) == Some(n)
    ensures s == Print(n)
  {
    hide Parse, Plain, DigitsValue;
    var sign, zeros, m := ParsedIsSpelled(s, n);
    PrintNatReads(m);
    PlainSpelling(s, n, sign, zeros, m);
  }

  /** The printed form of n is the one plain text that reads as n. */
  lemma PrintMeaning(s: string, n: int)
    ensures s == Print(n) <==> Plain(s) && Parse(s) == Some(n)
  {
    hide Parse, Plain, Print;
    ParsePrint(n);
    PrintedIsPlain(n);
    if Plain(s) && Parse(s) == Some(n) {
      PlainIsPrinted(s, n);
    }
  }
}

/** Colon-joined names: addresses, volume keys and references. */
module Text {

  predicate ColonFree(s: string) {
    ':' !in s
  }

  /** strings.Split(s, ":") */
  function Split(s: string): (segments: seq<string>)
    ensures segments != []
  {
    if s == [] then [[]]
    else
      var rest := Split(s[1..]);
      if s[0] == ':' then [[]] + rest else [[s[0]] + rest[0]] + rest[1..]
  }

  predicate NoneEmpty(segments: seq<string>) {
    forall segment :: segment in segments ==> segment != []
  }

  /** validateAddress: not empty, and no empty segment. */
  predicate ValidAddress(address: string) {
    address != [] && NoneEmpty(Split(address))
  }

  predicate NoEmptySegment(s: string) {
    && s != []
    && s[0] != ':'
    && s[|s| - 1] != ':'
    && forall i :: 0 < i < |s| ==> s[i - 1] != ':' || s[i] != ':'
  }

  predicate ColonsSeparate(s: string) {
    forall i :: 0 <= i < |s| && s[i] == ':' ==> i + 1 < |s| && s[i + 1] != ':'
  }

  lemma FirstAndRest(segments: seq<string>)
    requires segments != []
    ensures NoneEmpty(segments) <==> segments[0] != [] && NoneEmpty(segments[1..])
  {
    assert segments == [segments[0]] + segments[1..];
    if NoneEmpty(segments) {
      forall segment | segment in segments[1..] ensures segment != [] {
        assert segment in segments;
      }
      assert segments[0] in segments;
    }
  }

  lemma {:induction false} LaterSegments(s: string)
    ensures Split(s)[0] == [] <==> s == [] || s[0] == ':'
    ensures ColonsSeparate(s) <==> NoneEmpty(Split(s)[1..])
  {
    if s != [] {
      var tail, rest := s[1..], Split(s[1..]);
      LaterSegments(tail);
      assert forall i :: 0 <= i < |tail| ==> tail[i] == s[i + 1];
      FirstAndRest(rest);
      assert ColonsSeparate(s) <==> ColonsSeparate(tail) && (s[0] == ':' ==> tail != [] && tail[0] != ':') by {
        if ColonsSeparate(s) {
          assert forall i :: 0 <= i < |tail| && tail[i] == ':' ==> s[i + 1] == ':';
        }
        if ColonsSeparate(tail) {
          assert forall i :: 0 < i < |s| && s[i] == ':' ==> tail[i - 1] == ':';
        }
      }
      if s[0] == ':' {
        assert Split(s)[1..] == rest;
      } else {
        assert Split(s)[1..] == rest[1..];
      }
    }
  }

  /** validateAddress accepts exactly the strings with no leading, trailing or doubled colon. */
  lemma ValidAddressMeaning(address: string)
    ensures ValidAddress(address) <==> NoEmptySegment(address)
  {
    LaterSegments(address);
    FirstAndRest(Split(address));
    if ColonsSeparate(address) && address != [] {
      forall i | 0 < i < |address| ensures address[i - 1] != ':' || address[i] != ':' {
        assert address[i - 1] == ':' ==> address[i - 1 + 1] != ':';
      }
    }
    if NoEmptySegment(address) {
      forall i | 0 <= i < |address| && address[i] == ':' ensures i + 1 < |address| && address[i + 1] != ':' {
        assert i + 1 < |address| ==> address[i + 1 - 1] == ':';
      }
    }
  }

  lemma ValidAddressJoin(a: string, b: string)
    requires ValidAddress(a) && ValidAddress(b)
    ensures ValidAddress(a + ":" + b)
  {
    ValidAddressMeaning(a);
    ValidAddressMeaning(b);
    var s := a + ":" + b;
    forall i | 0 < i < |s| ensures s[i - 1] != ':' || s[i] != ':' {
      if i > |a| + 1 {
        assert s[i] == b[i - |a| - 1] && s[i - 1] == b[i - |a| - 2];
      }
    }
    ValidAddressMeaning(s);
  }

  lemma ValidAddressSplit(a: string, b: string)
    requires ValidAddress(a + ":" + b)
    ensures ValidAddress(a) && ValidAddress(b)
  {
    var s := a + ":" + b;
    ValidAddressMeaning(s);
    assert s[|a|] == ':' && |s| == |a| + 1 + |b|;
    assert forall i :: 0 <= i < |a| ==> s[i] == a[i];
    assert forall i :: 0 <= i < |b| ==> s[|a| + 1 + i] == b[i];
    forall i | 0 < i < |b| ensures b[i - 1] != ':' || b[i] != ':' {
      assert s[|a| + 1 + i] == b[i] && s[|a| + 1 + i - 1] == b[i - 1];
    }
    ValidAddressMeaning(a);
    ValidAddressMeaning(b);
  }

  lemma ColonFreeIsValid(s: string)
    requires s != [] && ColonFree(s)
    ensures ValidAddress(s)
  {
    ValidAddressMeaning(s);
  }

  /** A colon-free head determines where the first colon is. */
  lemma CutFirst(x: string, rest: string, y: string, rest': string)
    requires ColonFree(x) && ColonFree(y)
    requires x + ":" + rest == y + ":" + rest'
    ensures x == y && rest == rest'
  {
    var s, s' := x + ":" + rest, y + ":" + rest';
    assert s[|x|] == ':' && forall i :: 0 <= i < |x| ==> s[i] == x[i];
    assert s'[|y|] == ':' && forall i :: 0 <= i < |y| ==> s'[i] == y[i];
    assert s[..|x|] == x && s'[..|y|] == y;
    assert s[|x| + 1..] == rest && s'[|y| + 1..] == rest';
  }

  /** A colon-free tail determines where the last colon is. */
  lemma CutLast(rest: string, x: string, rest': string, y: string)
    requires ColonFree(x) && ColonFree(y)
    requires rest + ":" + x == rest' + ":" + y
    ensures rest == rest' && x == y
  {
    var s, s' := rest + ":" + x, rest' + ":" + y;
    assert s[|rest|] == ':' && forall i :: |rest| < i < |s| ==> s[i] == x[i - |rest| - 1];
    assert s'[|rest'|] == ':' && forall i :: |rest'| < i < |s'| ==> s'[i] == y[i - |rest'| - 1];
    assert s[..|rest|] == rest && s'[..|rest'|] == rest';
    assert s[|rest| + 1..] == x && s'[|rest'| + 1..] == y;
  }
}
