/** A value that may be missing. */
module Options {
  datatype Option<+T> = None | Some(value: T)
}

/** The records the audit and the session share, and the amount grammar. */
module Records {
  import opened Options

  /** A 64-digit hex text in the program; only equality matters here. */
  type Hash = string

  /** A public key. A signature is the fact of which key signed a record. */
  type Key = nat

  /** A spend receipt. `signedBy` is the key its octets verify under, if any. */
  datatype Receipt = Receipt(
    nonce: string, payee: string, amount: string, currency: string, ref: Option<string>,
    timestampMs: int, prevHash: Option<Hash>, settled: bool, cose: bool, signedBy: Option<Key>)

  /** One settlement row of a rail. */
  datatype Row = Row(
    ref: string, amount: string, currency: string, timestampMs: int, beneficiary: Option<string>)

  /** receiptHash: None when the receipt cannot be encoded. */
  type ReceiptHash = Receipt -> Option<Hash>

  // ------------------------------------------------------------ the amount grammar

  predicate IsDigit(c: char) { '0' <= c <= '9' }

  /** One number, one spelling: no sign, no leading zero, no other base. */
  predicate IsValidAmountText(s: string) {
    s == "0" || (s != "" && '1' <= s[0] <= '9' && forall i :: 0 <= i < |s| ==> IsDigit(s[i]))
  }

  function DigitValue(c: char): nat
    requires IsDigit(c)
  {
    (c as int) - ('0' as int)
  }

  function DigitChar(d: nat): (c: char)
    requires d < 10
    ensures IsDigit(c) && DigitValue(c) == d
  {
    ('0' as int + d) as char
  }

  function ParseAmount(s: string): nat
    requires forall i :: 0 <= i < |s| ==> IsDigit(s[i])
  {
    if s == "" then 0 else ParseAmount(s[..|s| - 1]) * 10 + DigitValue(s[|s| - 1])
  }

  function PrintAmount(n: nat): string {
    if n < 10 then [DigitChar(n)] else PrintAmount(n / 10) + [DigitChar(n % 10)]
  }

  lemma {:induction false} PrintParses(n: nat)
    ensures IsValidAmountText(PrintAmount(n)) && ParseAmount(PrintAmount(n)) == n
    ensures n > 0 ==> PrintAmount(n)[0] != '0'
  {
    if n >= 10 {
      PrintParses(n / 10);
      var s := PrintAmount(n);
      assert s[..|s| - 1] == PrintAmount(n / 10);
    } else {
      assert PrintAmount(n)[..0] == "";
    }
  }

  /** The amount text and the number determine each other. */
  lemma {:induction false} ParsePrints(s: string)
    requires IsValidAmountText(s)
    ensures PrintAmount(ParseAmount(s)) == s
    ensures s != "0" ==> ParseAmount(s) > 0
  {
    var init, last := s[..|s| - 1], s[|s| - 1];
    assert s == init + [last];
    DigitBack(last);
    ParseStep(init, last);
    if |s| > 1 {
      assert IsValidAmountText(init) && init != "0" by { assert init[0] == s[0]; }
      ParsePrints(init);
      PrintStep(ParseAmount(init), DigitValue(last));
    } else {
      assert init == "" && s == [last];
    }
  }

  lemma {:induction false} ParseStep(init: string, last: char)
    requires (forall i :: 0 <= i < |init| ==> IsDigit(init[i])) && IsDigit(last)
    ensures ParseAmount(init + [last]) == ParseAmount(init) * 10 + DigitValue(last)
  {
    assert (init + [last])[..|init|] == init;
  }

  lemma {:induction false} DigitBack(c: char)
    requires IsDigit(c)
    ensures DigitValue(c) < 10 && DigitChar(DigitValue(c)) == c
    ensures c != '0' ==> DigitValue(c) > 0
  {
  }

  lemma {:induction false} PrintStep(n: nat, d: nat)
    requires n > 0 && d < 10
    ensures PrintAmount(n * 10 + d) == PrintAmount(n) + [DigitChar(d)]
  {
    assert (n * 10 + d) / 10 == n && (n * 10 + d) % 10 == d;
  }

  // ----------------------------------------------------------------- bags of records

  /** Removing one element from a sequence. */
  function RemoveAt<T>(s: seq<T>, i: nat): (r: seq<T>)
    requires i < |s|
    ensures |r| == |s| - 1 && multiset(s) == multiset(r) + multiset{s[i]}
  {
    assert s == s[..i] + [s[i]] + s[i + 1..];
    s[..i] + s[i + 1..]
  }
}
