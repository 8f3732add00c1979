/**
 * The account number `nroCuenta`: "CTA-" followed by the account identity
 * formatted with `%05d`, i.e. in decimal, left-padded with zeros to at
 * least five digits and never truncated.
 */
module AccountNumbers {
  import opened Wrappers

  const Prefix: string := "CTA-"

  /** The minimum field width of the `%05d` conversion. */
  const Width: nat := 5

  predicate IsDigit(c: char) {
    '0' <= c <= '9'
  }

  predicate AllDigits(s: string) {
    forall i :: 0 <= i < |s| ==> IsDigit(s[i])
  }

  function DigitChar(d: nat): (c: char)
    requires d < 10
    ensures IsDigit(c)
  {
    (d + '0' as int) as char
  }

  function DigitValue(c: char): (d: nat)
    requires IsDigit(c)
    ensures d < 10
  {
    c as int - '0' as int
  }

  /** The decimal digits of `n`, most significant first, without leading zeros. */
  function Digits(n: nat): (s: string)
    ensures 1 <= |s|
    ensures AllDigits(s)
    decreases n
  {
    if n < 10 then [DigitChar(n)] else Digits(n / 10) + [DigitChar(n % 10)]
  }

  function Zeros(k: nat): (s: string)
    ensures |s| == k
    ensures forall i :: 0 <= i < k ==> s[i] == '0'
  {
    if k == 0 then [] else Zeros(k - 1) + ['0']
  }

  /** The `0` flag with width 5: pads on the left, keeps longer strings whole. */
  function ZeroPad(s: string): (r: string)
    ensures |r| == if |s| < Width then Width else |s|
    ensures r[|r| - |s|..] == s
    ensures forall i :: 0 <= i < |r| - |s| ==> r[i] == '0'
  {
    if |s| < Width then Zeros(Width - |s|) + s else s
  }

  /** The number given to the account with identity `id` when it is created. */
  function AccountNumber(id: nat): (s: string)
    ensures |Prefix| + Width <= |s|
    ensures s[..|Prefix|] == Prefix
    ensures AllDigits(s[|Prefix|..])
  {
    Prefix + ZeroPad(Digits(id))
  }

  /** The value of a string of decimal digits, most significant first. */
  function DecimalValue(s: string): nat
    requires AllDigits(s)
  {
    if s == [] then 0 else DecimalValue(s[..|s| - 1]) * 10 + DigitValue(s[|s| - 1])
  }

  /** Reads an account number back: the inverse of `AccountNumber`. */
  function ParseAccountNumber(s: string): Option<nat>
  {
    if |Prefix| < |s| && s[..|Prefix|] == Prefix && AllDigits(s[|Prefix|..])
    then Some(DecimalValue(s[|Prefix|..]))
    else None
  }

  lemma {:induction false} DecimalValueOfDigits(n: nat)
    ensures DecimalValue(Digits(n)) == n
    decreases n
  {
    if n >= 10 {
      var s := Digits(n);
      assert s[..|s| - 1] == Digits(n / 10);
      DecimalValueOfDigits(n / 10);
    }
  }

  lemma {:induction false} DecimalValueOfZeros(k: nat)
    ensures DecimalValue(Zeros(k)) == 0
  {
    if k > 0 {
      assert Zeros(k)[..k - 1] == Zeros(k - 1);
      DecimalValueOfZeros(k - 1);
    }
  }

  /** Leading zeros do not change the value of a digit string. */
  lemma {:induction false} DecimalValueIgnoresLeadingZeros(k: nat, s: string)
    requires AllDigits(s)
    ensures AllDigits(Zeros(k) + s)
    ensures DecimalValue(Zeros(k) + s) == DecimalValue(s)
    decreases |s|
  {
    var z := Zeros(k) + s;
    if s == [] {
      assert z == Zeros(k);
      DecimalValueOfZeros(k);
    } else {
      assert z[..|z| - 1] == Zeros(k) + s[..|s| - 1];
      DecimalValueIgnoresLeadingZeros(k, s[..|s| - 1]);
    }
  }

  /** Parsing a formatted account number recovers the identity. */
  lemma AccountNumberRoundTrip(id: nat)
    ensures ParseAccountNumber(AccountNumber(id)) == Some(id)
  {
    var d := Digits(id);
    var s := AccountNumber(id);
    assert s[|Prefix|..] == ZeroPad(d);
    DecimalValueOfDigits(id);
    if |d| < Width {
      DecimalValueIgnoresLeadingZeros(Width - |d|, d);
    }
  }

  /** Distinct identities never share an account number. */
  lemma AccountNumberInjective(a: nat, b: nat)
    requires a != b
    ensures AccountNumber(a) != AccountNumber(b)
  {
    AccountNumberRoundTrip(a);
    AccountNumberRoundTrip(b);
  }

  function Pow10(k: nat): (p: nat)
    ensures 1 <= p
  {
    if k == 0 then 1 else 10 * Pow10(k - 1)
  }

  /** A number below 10^k has at most k digits. */
  lemma {:induction false} DigitsBound(n: nat, k: nat)
    requires 1 <= k && n < Pow10(k)
    ensures |Digits(n)| <= k
    decreases n
  {
    if n >= 10 {
      assert n / 10 < Pow10(k - 1);
      DigitsBound(n / 10, k - 1);
    }
  }

  /** Identities below 100000 give numbers of exactly nine characters. */
  lemma ShortIdentityHasFixedLength(id: nat)
    requires id < 100000
    ensures |AccountNumber(id)| == |Prefix| + Width
  {
    assert Pow10(Width) == 100000;
    DigitsBound(id, Width);
  }

  /** The numbers of the first two accounts, as the service formats them. */
  lemma FirstAccountNumbers()
    ensures AccountNumber(1) == "CTA-00001"
    ensures AccountNumber(2) == "CTA-00002"
  {
  }
}
