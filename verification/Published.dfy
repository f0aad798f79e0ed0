/** What a session publishes: the claims of its one checkpoint and of its receipts as octets, how
    many octets they take, and when the checkpoint verifies. */
module Published {
  import opened Claims
  import opened Options
  import opened Records
  import opened Sealing
  import opened Signing
  import opened Utf8
  import Octets
  import S = Sessions
  import C = Checkpoints
  import D = CborDecoder
  import Cbor

  /** The currencies of a record, each once. Their order does not matter (`ListingIsIdle`). */
  ghost function Listing(keys: set<string>): (order: seq<string>)
    ensures forall k :: k in order <==> k in keys
    ensures forall i, j :: 0 <= i < j < |order| ==> order[i] != order[j]
    ensures |order| == |keys|
    decreases |keys|
  {
    if k :| k in keys then
      var rest := Listing(keys - {k});
      assert keys == {k} + (keys - {k});
      [k] + rest
    else []
  }

  function TextsOf(order: seq<string>): (texts: seq<Text>)
    ensures |texts| == |order| && forall i :: 0 <= i < |order| ==> texts[i] == EncodeText(order[i])
  {
    seq(|order|, i requires 0 <= i < |order| => EncodeText(order[i]))
  }

  function TextTotals(order: seq<string>, totals: C.Totals): Totals
    requires forall k :: k in order ==> k in totals
  {
    if order == [] then map[]
    else
      var k := order[|order| - 1];
      assert k in order;
      TextTotals(order[..|order| - 1], totals)[EncodeText(k) := EncodeText(totals[k])]
  }

  ghost predicate IsListing(order: seq<string>, totals: C.Totals) {
    && (forall k :: k in order <==> k in totals)
    && (forall i, j :: 0 <= i < j < |order| ==> order[i] != order[j])
  }

  /** The totals as octets hold every listed total under its currency, and nothing else. */
  lemma {:induction false} TextTotalsHold(order: seq<string>, totals: C.Totals)
    requires forall k :: k in order ==> k in totals
    ensures forall k :: k in order ==>
      EncodeText(k) in TextTotals(order, totals) && TextTotals(order, totals)[EncodeText(k)] == EncodeText(totals[k])
    ensures forall t :: t in TextTotals(order, totals) ==> exists k :: k in order && t == EncodeText(k)
  {
    if order != [] {
      var init, last := order[..|order| - 1], order[|order| - 1];
      assert order == init + [last] && last in order;
      TextTotalsHold(init, totals);
      forall k | k in order
        ensures EncodeText(k) in TextTotals(order, totals)
          && TextTotals(order, totals)[EncodeText(k)] == EncodeText(totals[k])
      {
        if EncodeText(k) == EncodeText(last) {
          TextIsInjective(k, last);
        }
      }
      forall t | t in TextTotals(order, totals) ensures exists k :: k in order && t == EncodeText(k) {
        if t != EncodeText(last) {
          var k :| k in init && t == EncodeText(k);
          assert k in order;
        }
      }
    }
  }

  lemma {:induction false} TextTotalsListed(order: seq<string>, totals: C.Totals)
    requires IsListing(order, totals)
    ensures Lists(TextsOf(order), TextTotals(order, totals))
  {
    var texts, got := TextsOf(order), TextTotals(order, totals);
    TextTotalsHold(order, totals);
    forall t | t in texts ensures t in got {
      var i :| 0 <= i < |texts| && texts[i] == t;
      assert order[i] in order;
    }
    forall t | t in got ensures t in texts {
      var k :| k in order && t == EncodeText(k);
      var i :| 0 <= i < |order| && order[i] == k;
      assert texts[i] == t;
    }
    forall i, j | 0 <= i < j < |texts| ensures texts[i] != texts[j] {
      if texts[i] == texts[j] {
        TextIsInjective(order[i], order[j]);
      }
    }
  }

  // ------------------------------------------------------------------ the checkpoint

  function CutClaims(cut: S.Cut, order: seq<string>): CheckpointClaims
    requires forall k :: k in order ==> k in cut.totals
  {
    CheckpointClaims(
      1, cut.startMs, cut.endMs, cut.count,
      if cut.head.Some? then Some(EncodeText(cut.head.value)) else None,
      Some(TextTotals(order, cut.totals)), None)
  }

  ghost function OrderOf(cut: S.Cut): (order: seq<string>)
    ensures IsListing(order, cut.totals)
  {
    Listing(cut.totals.Keys)
  }

  /** How many octets the claims of a checkpoint encode to. */
  ghost function CutSize(cut: S.Cut): nat
  {
    var order := OrderOf(cut);
    TextTotalsListed(order, cut.totals);
    CheckpointSize(CutClaims(cut, order), TextsOf(order))
  }

  /** The published checkpoint, as signed, verifies under the session's key. */
  ghost predicate CutVerifies(cut: S.Cut, signer: Signer) {
    var order := OrderOf(cut);
    TextTotalsListed(order, cut.totals);
    var claims := CutClaims(cut, order);
    var signed := SignCheckpoint(claims, TextsOf(order), signer);
    signed.Ok? && VerifyCheckpoint(signed.value, claims, signer)
  }

  ghost predicate CutTexts(cut: S.Cut) {
    && Cbor.SafeInt(cut.startMs) && Cbor.SafeInt(cut.endMs) && Cbor.SafeInt(cut.count)
    && |cut.totals| <= D.CBOR_MAX_ELEMENTS
    && forall k :: k in cut.totals ==> |EncodeText(k)| <= D.CBOR_MAX_STRING
  }

  lemma {:induction false} CutClaimsEncode(cut: S.Cut, order: seq<string>)
    requires CutTexts(cut) && IsListing(order, cut.totals)
    ensures CheckpointTexts(CutClaims(cut, order))
    ensures Lists(TextsOf(order), TextTotals(order, cut.totals))
    ensures |TextTotals(order, cut.totals)| == |order|
  {
    var totals := TextTotals(order, cut.totals);
    TextTotalsListed(order, cut.totals);
    TextTotalsHold(order, cut.totals);
    OrderLength(TextsOf(order), totals);
    if cut.head.Some? {
      TextIsWellFormed(cut.head.value);
    }
    forall t | t in totals ensures Cbor.WellFormedUtf8(t) && Cbor.WellFormedUtf8(totals[t]) && |t| <= Cbor.MAX_SAFE {
      var k :| k in order && t == EncodeText(k);
      TextIsWellFormed(k);
      TextIsWellFormed(cut.totals[k]);
    }
  }

  /** The checkpoint a session publishes verifies exactly when its claims fit into one byte string. */
  lemma {:induction false} CutVerifiesExactly(cut: S.Cut, signer: Signer)
    requires signer.Valid() && CutTexts(cut)
    ensures CutVerifies(cut, signer) <==> CutSize(cut) <= D.CBOR_MAX_STRING
  {
    var order := OrderOf(cut);
    CutClaimsEncode(cut, order);
    SignedCheckpointVerifiesExactly(CutClaims(cut, order), TextsOf(order), signer);
  }

  lemma {:induction false} TextTotalsWithin(a: seq<string>, b: seq<string>, totals: C.Totals, t: Text)
    requires IsListing(a, totals) && IsListing(b, totals) && t in TextTotals(a, totals)
    ensures t in TextTotals(b, totals) && TextTotals(a, totals)[t] == TextTotals(b, totals)[t]
  {
    TextTotalsHold(a, totals);
    var k :| k in a && t == EncodeText(k);
    assert k in b;
    TextTotalsHold(b, totals);
  }

  lemma {:induction false} SameTextTotals(a: seq<string>, b: seq<string>, totals: C.Totals)
    requires IsListing(a, totals) && IsListing(b, totals)
    ensures TextTotals(a, totals) == TextTotals(b, totals)
  {
    var x, y := TextTotals(a, totals), TextTotals(b, totals);
    forall t | t in x ensures t in y && x[t] == y[t] { TextTotalsWithin(a, b, totals, t); }
    forall t | t in y ensures t in x { TextTotalsWithin(b, a, totals, t); }
  }

  /** The size can be computed from currencies and totals listed in any order. */
  lemma {:induction false} CutSizeOfAnyListing(cut: S.Cut, order: seq<string>)
    requires CutTexts(cut) && IsListing(order, cut.totals)
    ensures (forall t :: t in TextsOf(order) ==> t in TextTotals(order, cut.totals))
    ensures CutSize(cut) == CheckpointSize(CutClaims(cut, order), TextsOf(order))
  {
    var listed := OrderOf(cut);
    SameTextTotals(listed, order, cut.totals);
    CutClaimsEncode(cut, order);
    CutClaimsEncode(cut, listed);
    SizeOfAnyListing(CutClaims(cut, order), TextsOf(listed), TextsOf(order), 7);
  }

  lemma {:induction false} TotalsInSize(c: CheckpointClaims, order: seq<Text>, j: Text, k: Text)
    requires c.totals.Some? && Lists(order, c.totals.value) && j in order && k in order && j != k
    ensures CheckpointSize(c, order) > |j| + |k|
  {
    TwoTotalsHeld(order, c.totals.value, j, k);
    PartOfCheckpoint(c, order, 7, 5);
    assert CheckpointPart(c, order, 5) == TotalsOrNullSize(order, c.totals);
  }

  /** Two currencies alone can take more octets than the claims may. */
  lemma {:induction false} LongCurrenciesOutgrow(cut: S.Cut, j: string, k: string)
    requires j in cut.totals && k in cut.totals && j != k
    ensures CutSize(cut) > |EncodeText(j)| + |EncodeText(k)|
  {
    var order := OrderOf(cut);
    TextTotalsListed(order, cut.totals);
    TextTotalsHold(order, cut.totals);
    if EncodeText(j) == EncodeText(k) {
      TextIsInjective(j, k);
    }
    TotalsInSize(CutClaims(cut, order), TextsOf(order), EncodeText(j), EncodeText(k));
  }

  // -------------------------------------------------------------------- the receipts

  function OptionalText(s: Option<string>): Option<Text> { if s.Some? then Some(EncodeText(s.value)) else None }

  /** The claims a session writes for a receipt: no manifest, and its own payer and policy. */
  function ClaimsOf(r: Receipt, payer: string, policyHash: string): ReceiptClaims {
    ReceiptClaims(
      EncodeText(payer), EncodeText(r.payee), EncodeText(r.amount), EncodeText(r.currency), EncodeText(policyHash),
      None, true, OptionalText(r.ref), r.timestampMs, EncodeText(r.nonce), OptionalText(r.prevHash),
      if r.settled then Settled else Aborted)
  }

  /** receiptHash: that of the signed octets, when there are any. */
  function HashOf(sha: Octets.Octets -> Hash, signer: Signer, payer: string, policyHash: string): ReceiptHash {
    (r: Receipt) =>
      var signed := SignReceipt(ClaimsOf(r, payer, policyHash), signer);
      if signed.Ok? then Some(sha(signed.value)) else None
  }

  lemma {:induction false} ClaimsEncodeWhenSafe(r: Receipt, payer: string, policyHash: string)
    ensures ReceiptTexts(ClaimsOf(r, payer, policyHash)) <==> Cbor.SafeInt(r.timestampMs)
  {
    forall s: string ensures Cbor.WellFormedUtf8(EncodeText(s)) { TextIsWellFormed(s); }
  }

  /** What can be signed has the hash of its octets, a safe time and a short currency, and verifies
      under the session's key. */
  lemma {:induction false} SignedIsSignable(
      r: Receipt, sha: Octets.Octets -> Hash, signer: Signer, payer: string, policyHash: string)
    requires signer.Valid()
    ensures var h, c := HashOf(sha, signer, payer, policyHash), ClaimsOf(r, payer, policyHash);
      && (S.Signable(r, h) <==> Cbor.SafeInt(r.timestampMs) && ReceiptSize(c) <= D.CBOR_MAX_STRING)
      && (h(r).Some? ==> S.Signable(r, h) && VerifyReceipt(SignReceipt(c, signer).value, c, signer))
  {
    var c := ClaimsOf(r, payer, policyHash);
    ClaimsEncodeWhenSafe(r, payer, policyHash);
    if Cbor.SafeInt(r.timestampMs) {
      SignedReceiptVerifies(c, signer);
      PartOfReceipt(c, 12, 3);
    } else {
      UnsafeIsUnsigned(c, signer);
    }
  }

  lemma {:induction false} UnsafeIsUnsigned(c: ReceiptClaims, signer: Signer)
    requires !Cbor.SafeInt(c.timestampMs)
    ensures SignReceipt(c, signer).Err?
  {
    var vals := ReceiptValues(c);
    Cbor.EncodeIsSpelling(Cbor.Map(Labelled(RECEIPT_BASE, vals)));
    assert ReceiptValue(c, 8) == Cbor.Int(c.timestampMs);
    assert !Cbor.EntryEncodable(Labelled(RECEIPT_BASE, vals)[8]);
  }
}
