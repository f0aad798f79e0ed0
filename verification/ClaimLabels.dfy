/** Under which label each claim stands, and what a signed message is, item by item: said of the decoded
    map with the numbers and words the format names. */
module ClaimLabels {
  import opened Cbor
  import opened Claims
  import opened Octets
  import opened Options
  import opened Records
  import opened Signing
  import opened Utf8
  import B = Published
  import D = CborDecoder
  import S = Sessions

  /** The map has the pair. */
  predicate Has(entries: seq<Entry>, lab: int, v: CborVal) { Entry(Int(lab), v) in entries }

  function Optional(t: Option<Text>): CborVal { if t.Some? then CborVal.Text(t.value) else CborVal.Null }

  function Word(s: string): CborVal { CborVal.Text(EncodeText(s)) }

  lemma {:induction false} GetIsHas(entries: seq<Entry>, lab: int, v: CborVal)
    requires DistinctKeys(entries, EntryKey)
    ensures MapGet(entries, Int(lab)) == Some(v) <==> Has(entries, lab, v)
  {
    if Has(entries, lab, v) { MapGetOnly(entries, Entry(Int(lab), v)); }
    if MapGet(entries, Int(lab)) == Some(v) { GetIsIn(entries, Int(lab)); }
  }

  lemma {:induction false} GetIsIn(entries: seq<Entry>, key: CborVal)
    requires MapGet(entries, key).Some?
    ensures Entry(key, MapGet(entries, key).value) in entries
  {
    if entries[0].key != key { GetIsIn(entries[1..], key); }
  }

  lemma {:induction false} DecodedKeysDiffer(bytes: Octets, entries: seq<Entry>)
    requires D.Decode(bytes) == Ok(Map(entries))
    ensures DistinctKeys(entries, EntryKey)
  {
    D.DecodeAcceptsExactlyCanonical(bytes, Map(entries));
    forall i, j | 0 <= i < j < |entries| ensures EntryKey(entries[i]) != EntryKey(entries[j]) {
      LexLessIrreflexive(EntryKey(entries[i]));
    }
  }

  // ----------------------------------------------------------------- receipt claims

  lemma {:induction false} OutcomeWords()
    ensures SETTLED == EncodeText("settled") && ABORTED == EncodeText("aborted")
  {
    Spelled("settled", SETTLED);
    Spelled("aborted", ABORTED);
  }

  /** A word of plain letters is spelled by its code points. */
  lemma {:induction false} Spelled(s: string, b: Octets)
    requires |s| == |b| && forall i :: 0 <= i < |s| ==> s[i] as int == b[i] < 0x80
    ensures EncodeText(s) == b
  {
    if s != "" {
      Spelled(s[1..], b[1..]);
      assert b == [b[0]] + b[1..];
    }
  }

  ghost predicate PaymentClaimed(entries: seq<Entry>, c: ReceiptClaims) {
    && Has(entries, -70001, CborVal.Text(c.payer)) && Has(entries, -70002, CborVal.Text(c.payee))
    && Has(entries, -70003, CborVal.Text(c.amount)) && Has(entries, -70004, CborVal.Text(c.currency))
    && Has(entries, -70005, CborVal.Text(c.policyHash)) && Has(entries, -70006, Optional(c.manifestHash))
  }

  ghost predicate RecordClaimed(entries: seq<Entry>, c: ReceiptClaims) {
    && Has(entries, -70007, Bool(c.noManifest)) && Has(entries, -70008, Optional(c.x402PaymentRef))
    && Has(entries, -70009, Int(c.timestampMs)) && Has(entries, -70010, CborVal.Text(c.nonce))
    && Has(entries, -70011, Optional(c.prevReceiptHash))
    && Has(entries, -70012, Word(if c.outcome == Settled then "settled" else "aborted"))
  }

  /** The twelve pairs of a receipt. */
  ghost predicate ReceiptClaimed(entries: seq<Entry>, c: ReceiptClaims) {
    PaymentClaimed(entries, c) && RecordClaimed(entries, c)
  }

  ghost predicate PaymentRead(get: Lookup, c: ReceiptClaims) {
    && GetText(get, -70001) == Good(c.payer) && GetText(get, -70002) == Good(c.payee)
    && GetText(get, -70003) == Good(c.amount) && GetText(get, -70004) == Good(c.currency)
    && GetText(get, -70005) == Good(c.policyHash) && GetTextOrNull(get, -70006) == Good(c.manifestHash)
  }

  ghost predicate RecordRead(get: Lookup, c: ReceiptClaims) {
    && GetBool(get, -70007) == Good(c.noManifest) && GetTextOrNull(get, -70008) == Good(c.x402PaymentRef)
    && GetInt(get, -70009) == Good(c.timestampMs) && GetText(get, -70010) == Good(c.nonce)
    && GetTextOrNull(get, -70011) == Good(c.prevReceiptHash) && GetText(get, -70012) == Good(OutcomeText(c.outcome))
  }

  lemma ReceiptOfParts(get: Lookup, c: ReceiptClaims)
    ensures ReceiptOf(get) == Good(c) <==> PaymentRead(get, c) && RecordRead(get, c)
  {
  }

  lemma {:induction false} PaymentReadFrom(entries: seq<Entry>, c: ReceiptClaims)
    requires DistinctKeys(entries, EntryKey)
    ensures PaymentRead(LookupIn(entries), c) <==> PaymentClaimed(entries, c)
  {
    TextsRead(entries, -70001, c.payer);
    TextsRead(entries, -70002, c.payee);
    TextsRead(entries, -70003, c.amount);
    TextsRead(entries, -70004, c.currency);
    TextsRead(entries, -70005, c.policyHash);
    OptionalRead(entries, -70006, c.manifestHash);
  }

  lemma {:induction false} RecordReadFrom(entries: seq<Entry>, c: ReceiptClaims)
    requires DistinctKeys(entries, EntryKey)
    ensures RecordRead(LookupIn(entries), c) <==> RecordClaimed(entries, c)
  {
    BoolRead(entries, -70007, c.noManifest);
    OptionalRead(entries, -70008, c.x402PaymentRef);
    IntRead(entries, -70009, c.timestampMs);
    TextsRead(entries, -70010, c.nonce);
    OptionalRead(entries, -70011, c.prevReceiptHash);
    OutcomeRead(entries, c.outcome);
  }

  lemma {:induction false} OutcomeRead(entries: seq<Entry>, o: Outcome)
    requires DistinctKeys(entries, EntryKey)
    ensures GetText(LookupIn(entries), -70012) == Good(OutcomeText(o)) <==>
      Has(entries, -70012, Word(if o == Settled then "settled" else "aborted"))
  {
    OutcomeWords();
    TextsRead(entries, -70012, OutcomeText(o));
  }

  lemma {:induction false} BoolRead(entries: seq<Entry>, lab: int, b: bool)
    requires DistinctKeys(entries, EntryKey)
    ensures GetBool(LookupIn(entries), lab) == Good(b) <==> Has(entries, lab, Bool(b))
  {
    GetIsHas(entries, lab, Bool(b));
  }

  lemma {:induction false} IntRead(entries: seq<Entry>, lab: int, n: int)
    requires DistinctKeys(entries, EntryKey)
    ensures GetInt(LookupIn(entries), lab) == Good(n) <==> Has(entries, lab, Int(n))
  {
    GetIsHas(entries, lab, Int(n));
  }

  lemma {:induction false} ReceiptReadFrom(entries: seq<Entry>, c: ReceiptClaims)
    requires DistinctKeys(entries, EntryKey)
    ensures ReceiptOf(LookupIn(entries)) == Good(c) <==> ReceiptClaimed(entries, c)
  {
    ReceiptOfParts(LookupIn(entries), c);
    PaymentReadFrom(entries, c);
    RecordReadFrom(entries, c);
  }

  lemma ReceiptFromMap(bytes: Octets, c: ReceiptClaims)
    ensures ReceiptFromCbor(bytes) == Good(c) <==>
      D.Decode(bytes).Ok? && D.Decode(bytes).value.Map? && ReceiptOf(LookupIn(D.Decode(bytes).value.entries)) == Good(c)
  {
  }

  /** Octets are read as receipt claims exactly when they decode to a map with these twelve pairs. */
  lemma {:induction false} ReceiptReadExactly(bytes: Octets, c: ReceiptClaims)
    ensures ReceiptFromCbor(bytes) == Good(c) <==>
      D.Decode(bytes).Ok? && D.Decode(bytes).value.Map? && ReceiptClaimed(D.Decode(bytes).value.entries, c)
  {
    ReceiptFromMap(bytes, c);
    if D.Decode(bytes).Ok? && D.Decode(bytes).value.Map? {
      DecodedKeysDiffer(bytes, D.Decode(bytes).value.entries);
      ReceiptReadFrom(D.Decode(bytes).value.entries, c);
    }
  }

  lemma {:induction false} TextsRead(entries: seq<Entry>, lab: int, t: Text)
    requires DistinctKeys(entries, EntryKey)
    ensures GetText(LookupIn(entries), lab) == Good(t) <==> Has(entries, lab, CborVal.Text(t))
  {
    GetIsHas(entries, lab, CborVal.Text(t));
  }

  lemma {:induction false} OptionalRead(entries: seq<Entry>, lab: int, t: Option<Text>)
    requires DistinctKeys(entries, EntryKey)
    ensures GetTextOrNull(LookupIn(entries), lab) == Good(t) <==> Has(entries, lab, Optional(t))
  {
    GetIsHas(entries, lab, Optional(t));
  }

  lemma {:induction false} ReceiptPairIs(c: ReceiptClaims, i: nat)
    requires i < 12
    ensures Has(Labelled(RECEIPT_BASE, ReceiptValues(c)), -70001 - i, ReceiptValue(c, i))
  {
    assert Labelled(RECEIPT_BASE, ReceiptValues(c))[i] == Entry(Int(-70001 - i), ReceiptValues(c)[i]);
  }

  lemma {:induction false} PaymentWritten(c: ReceiptClaims)
    ensures PaymentClaimed(Labelled(RECEIPT_BASE, ReceiptValues(c)), c)
  {
    ReceiptPairIs(c, 0);
    ReceiptPairIs(c, 1);
    ReceiptPairIs(c, 2);
    ReceiptPairIs(c, 3);
    ReceiptPairIs(c, 4);
    ReceiptPairIs(c, 5);
  }

  lemma {:induction false} OutcomeWritten(c: ReceiptClaims)
    ensures Has(Labelled(RECEIPT_BASE, ReceiptValues(c)), -70012,
      Word(if c.outcome == Settled then "settled" else "aborted"))
  {
    OutcomeWords();
    ReceiptPairIs(c, 11);
  }

  lemma {:induction false} RecordWritten(c: ReceiptClaims)
    ensures RecordClaimed(Labelled(RECEIPT_BASE, ReceiptValues(c)), c)
  {
    ReceiptPairIs(c, 6);
    ReceiptPairIs(c, 7);
    ReceiptPairIs(c, 8);
    ReceiptPairIs(c, 9);
    ReceiptPairIs(c, 10);
    OutcomeWritten(c);
  }

  /** And they are written as exactly those twelve. */
  lemma {:induction false} ReceiptWritten(c: ReceiptClaims) returns (entries: seq<Entry>)
    ensures ReceiptToCbor(c) == Encode(Map(entries)) && |entries| == 12 && ReceiptClaimed(entries, c)
  {
    entries := Labelled(RECEIPT_BASE, ReceiptValues(c));
    PaymentWritten(c);
    RecordWritten(c);
  }

  // -------------------------------------------------------------- checkpoint claims

  predicate PairIn(entries: seq<Entry>, k: Text, w: Text) { Entry(CborVal.Text(k), CborVal.Text(w)) in entries }

  /** Null is a redaction; otherwise every currency has its total, and nothing else is in the map. */
  ghost predicate TotalsClaimed(v: CborVal, totals: Option<Totals>) {
    match totals
    case None => v == CborVal.Null
    case Some(t) =>
      && v.Map? && (forall e :: e in v.entries ==> e.key.Text? && e.val.Text?)
      && forall k, w :: PairIn(v.entries, k, w) <==> k in t && t[k] == w
  }

  ghost predicate CheckpointClaimed(entries: seq<Entry>, c: CheckpointClaims) {
    ScalarsClaimed(entries, c) && exists v :: Has(entries, -70106, v) && TotalsClaimed(v, c.totals)
  }

  lemma {:induction false} TotalsReadFrom(entries: seq<Entry>, t: Totals)
    requires DistinctKeys(entries, EntryKey)
    ensures TotalsFromEntries(entries) == Good(t) <==> TotalsClaimed(Map(entries), Some(t))
  {
    if TotalsFromEntries(entries) == Good(t) { ReadIsClaimed(entries, t); }
    if TotalsClaimed(Map(entries), Some(t)) { ClaimedIsRead(entries, t); }
  }

  lemma {:induction false} ClaimedIsRead(entries: seq<Entry>, t: Totals)
    requires TotalsClaimed(Map(entries), Some(t))
    ensures TotalsFromEntries(entries) == Good(t)
  {
    forall e | e in entries ensures EntryOf(e, t) {
      assert PairIn(entries, e.key.utf8, e.val.utf8);
    }
    TotalsOfEntries(entries, t);
    var back := TotalsFromEntries(entries).value;
    forall k | k in t ensures k in back {
      assert PairIn(entries, k, t[k]);
      assert HasKey(entries, k);
    }
    assert back == t;
  }

  lemma {:induction false} ReadIsClaimed(entries: seq<Entry>, t: Totals)
    requires DistinctKeys(entries, EntryKey) && TotalsFromEntries(entries) == Good(t)
    ensures TotalsClaimed(Map(entries), Some(t))
    decreases |entries|
  {
    if entries != [] {
      var init, last := entries[..|entries| - 1], entries[|entries| - 1];
      var rest := LastTotalRead(entries, t);
      LastIsNew(entries);
      ReadIsClaimed(init, rest);
      WithLast(init, last, rest);
      assert entries == init + [last];
    }
  }

  lemma LastTotalRead(entries: seq<Entry>, t: Totals) returns (rest: Totals)
    requires entries != [] && TotalsFromEntries(entries) == Good(t)
    ensures var init, last := entries[..|entries| - 1], entries[|entries| - 1];
      && TotalsFromEntries(init) == Good(rest) && last.key.Text? && last.val.Text?
      && t == rest[last.key.utf8 := last.val.utf8]
  {
    rest := TotalsFromEntries(entries[..|entries| - 1]).value;
  }

  lemma {:induction false} KeyIsNew(init: seq<Entry>, last: Entry, rest: Totals)
    requires TotalsClaimed(Map(init), Some(rest)) && last.key.Text? && forall e :: e in init ==> e.key != last.key
    ensures last.key.utf8 !in rest
  {
    forall j | j in rest ensures j != last.key.utf8 { assert PairIn(init, j, rest[j]); }
  }

  lemma {:induction false} LastIsNew(entries: seq<Entry>)
    requires DistinctKeys(entries, EntryKey) && entries != []
    ensures DistinctKeys(entries[..|entries| - 1], EntryKey)
    ensures forall e :: e in entries[..|entries| - 1] ==> e.key != entries[|entries| - 1].key
  {
    forall e | e in entries[..|entries| - 1] ensures e.key != entries[|entries| - 1].key {
      var i :| 0 <= i < |entries| - 1 && entries[i] == e;
      assert EntryKey(entries[i]) != EntryKey(entries[|entries| - 1]);
    }
  }

  lemma {:induction false} WithLast(init: seq<Entry>, last: Entry, rest: Totals)
    requires TotalsClaimed(Map(init), Some(rest)) && last.key.Text? && last.val.Text?
    requires forall e :: e in init ==> e.key != last.key
    ensures TotalsClaimed(Map(init + [last]), Some(rest[last.key.utf8 := last.val.utf8]))
  {
    var all, t := init + [last], rest[last.key.utf8 := last.val.utf8];
    KeyIsNew(init, last, rest);
    assert forall e :: e in all <==> e in init || e == last;
    forall k, w ensures PairIn(all, k, w) <==> k in t && t[k] == w {
      assert PairIn(init, k, w) <==> k in rest && rest[k] == w;
    }
  }

  lemma {:induction false} NestedKeysDiffer(bytes: Octets, entries: seq<Entry>, e: Entry)
    requires D.Decode(bytes) == Ok(Map(entries)) && e in entries && e.val.Map?
    ensures DistinctKeys(e.val.entries, EntryKey)
  {
    D.DecodeAcceptsExactlyCanonical(bytes, Map(entries));
    var i :| 0 <= i < |entries| && entries[i] == e;
    assert EntryCanonical(entries[i]);
    assert Canonical(e.val) && e.val == Map(e.val.entries);
    var inner := e.val.entries;
    forall i, j | 0 <= i < j < |inner| ensures EntryKey(inner[i]) != EntryKey(inner[j]) {
      LexLessIrreflexive(EntryKey(inner[i]));
    }
  }

  ghost predicate ScalarsRead(get: Lookup, c: CheckpointClaims) {
    && GetInt(get, -70101) == Good(c.epoch) && GetInt(get, -70102) == Good(c.startMs)
    && GetInt(get, -70103) == Good(c.endMs) && GetInt(get, -70104) == Good(c.receiptCount)
    && GetTextOrNull(get, -70105) == Good(c.chainHeadHash)
    && GetTextOrNull(get, -70107) == Good(c.prevCheckpointHash)
  }

  ghost predicate ScalarsClaimed(entries: seq<Entry>, c: CheckpointClaims) {
    && Has(entries, -70101, Int(c.epoch)) && Has(entries, -70102, Int(c.startMs))
    && Has(entries, -70103, Int(c.endMs)) && Has(entries, -70104, Int(c.receiptCount))
    && Has(entries, -70105, Optional(c.chainHeadHash)) && Has(entries, -70107, Optional(c.prevCheckpointHash))
  }

  lemma {:induction false} ScalarsReadFrom(entries: seq<Entry>, c: CheckpointClaims)
    requires DistinctKeys(entries, EntryKey)
    ensures ScalarsRead(LookupIn(entries), c) <==> ScalarsClaimed(entries, c)
  {
    IntRead(entries, -70101, c.epoch);
    IntRead(entries, -70102, c.startMs);
    IntRead(entries, -70103, c.endMs);
    IntRead(entries, -70104, c.receiptCount);
    OptionalRead(entries, -70105, c.chainHeadHash);
    OptionalRead(entries, -70107, c.prevCheckpointHash);
  }

  lemma CheckpointOfParts(get: Lookup, c: CheckpointClaims)
    ensures CheckpointOf(get) == Good(c) <==>
      ScalarsRead(get, c) && get(-70106).Some? && Claims.TotalsOf(get(-70106).value) == Good(c.totals)
  {
  }

  lemma CheckpointFromMap(bytes: Octets, c: CheckpointClaims)
    ensures CheckpointFromCbor(bytes) == Good(c) <==>
      && D.Decode(bytes).Ok? && D.Decode(bytes).value.Map?
      && CheckpointOf(LookupIn(D.Decode(bytes).value.entries)) == Good(c)
  {
  }

  lemma {:induction false} TotalsValueRead(v: CborVal, totals: Option<Totals>)
    requires v.Map? ==> DistinctKeys(v.entries, EntryKey)
    ensures Claims.TotalsOf(v) == Good(totals) <==> TotalsClaimed(v, totals)
  {
    if v.Map? && totals.Some? { TotalsReadFrom(v.entries, totals.value); }
  }

  lemma {:induction false} TotalsFound(bytes: Octets, entries: seq<Entry>, totals: Option<Totals>)
    requires D.Decode(bytes) == Ok(Map(entries))
    ensures var v := MapGet(entries, Int(-70106));
      (v.Some? && Claims.TotalsOf(v.value) == Good(totals)) <==>
      exists t :: Has(entries, -70106, t) && TotalsClaimed(t, totals)
  {
    DecodedKeysDiffer(bytes, entries);
    forall t | Has(entries, -70106, t) ensures Claims.TotalsOf(t) == Good(totals) <==> TotalsClaimed(t, totals) {
      if t.Map? { NestedKeysDiffer(bytes, entries, Entry(Int(-70106), t)); }
      TotalsValueRead(t, totals);
    }
    forall t ensures MapGet(entries, Int(-70106)) == Some(t) <==> Has(entries, -70106, t) {
      GetIsHas(entries, -70106, t);
    }
  }

  /** Octets are read as checkpoint claims exactly when they decode to a map with these seven pairs. */
  lemma {:induction false} CheckpointReadExactly(bytes: Octets, c: CheckpointClaims)
    ensures CheckpointFromCbor(bytes) == Good(c) <==>
      D.Decode(bytes).Ok? && D.Decode(bytes).value.Map? && CheckpointClaimed(D.Decode(bytes).value.entries, c)
  {
    CheckpointFromMap(bytes, c);
    if D.Decode(bytes).Ok? && D.Decode(bytes).value.Map? {
      var entries := D.Decode(bytes).value.entries;
      DecodedKeysDiffer(bytes, entries);
      CheckpointOfParts(LookupIn(entries), c);
      ScalarsReadFrom(entries, c);
      TotalsFound(bytes, entries, c.totals);
    }
  }

  lemma {:induction false} CheckpointPairIs(c: CheckpointClaims, order: seq<Text>, i: nat)
    requires c.totals.Some? ==> forall k :: k in order ==> k in c.totals.value
    requires i < 7
    ensures Has(Labelled(CHECKPOINT_BASE, CheckpointValues(c, order)), -70101 - i, CheckpointValue(c, order, i))
  {
    assert Labelled(CHECKPOINT_BASE, CheckpointValues(c, order))[i]
      == Entry(Int(-70101 - i), CheckpointValues(c, order)[i]);
  }

  lemma {:induction false} TotalsWritten(order: seq<Text>, totals: Option<Totals>)
    requires totals.Some? ==> Lists(order, totals.value)
    ensures TotalsClaimed(TotalsToCbor(order, totals), totals)
  {
    if totals.Some? {
      var t, entries := totals.value, TotalsEntries(order, totals.value);
      forall k, w ensures PairIn(entries, k, w) <==> k in t && t[k] == w {
        if PairIn(entries, k, w) {
          var i :| 0 <= i < |entries| && entries[i] == Entry(CborVal.Text(k), CborVal.Text(w));
          assert order[i] in order;
        }
        if k in t && t[k] == w {
          var i :| 0 <= i < |order| && order[i] == k;
          assert entries[i] == Entry(CborVal.Text(k), CborVal.Text(w));
        }
      }
    }
  }

  /** And they are written as exactly those seven, whatever order the currencies are listed in. */
  lemma {:induction false} CheckpointWritten(c: CheckpointClaims, order: seq<Text>) returns (entries: seq<Entry>)
    requires c.totals.Some? ==> Lists(order, c.totals.value)
    ensures CheckpointToCbor(c, order) == Encode(Map(entries)) && |entries| == 7 && CheckpointClaimed(entries, c)
  {
    entries := Labelled(CHECKPOINT_BASE, CheckpointValues(c, order));
    CheckpointPairIs(c, order, 0);
    CheckpointPairIs(c, order, 1);
    CheckpointPairIs(c, order, 2);
    CheckpointPairIs(c, order, 3);
    CheckpointPairIs(c, order, 4);
    CheckpointPairIs(c, order, 5);
    CheckpointPairIs(c, order, 6);
    TotalsWritten(order, c.totals);
  }

  // -------------------------------------------------------------------- COSE messages

  /** The name of what is signed. */
  function TypeName(t: ContentType): string {
    "application/cedulon-" + (if t == ReceiptType then "receipt" else "checkpoint") + "+cbor"
  }

  lemma Regroup(x: Octets, y: Octets, z: Octets)
    ensures x + (y + z) == x + y + z
  {
  }

  lemma {:induction false} TextJoined(a: string, b: string)
    ensures EncodeText(a + b) == EncodeText(a) + EncodeText(b)
  {
    if a == "" {
      assert a + b == b;
    } else {
      TextJoined(a[1..], b);
      TextStarts(a[0], a[1..] + b);
      TextStarts(a[0], a[1..]);
      Regroup(EncodeChar(a[0]), EncodeText(a[1..]), EncodeText(b));
      assert a + b == [a[0]] + (a[1..] + b) && a == [a[0]] + a[1..];
    }
  }

  lemma {:induction false} FrontSpelled()
    ensures EncodeText("application/cedulon-") == TYPE_FRONT
  {
    Spelled("application/cedulon-", TYPE_FRONT);
  }

  lemma {:induction false} WordSpelled(t: ContentType)
    ensures t == ReceiptType ==> EncodeText("receipt") == RECEIPT_WORD
    ensures t == CheckpointType ==> EncodeText("checkpoint") == CHECKPOINT_WORD
  {
    if t == ReceiptType {
      Spelled("receipt", RECEIPT_WORD);
    } else {
      Spelled("checkpoint", CHECKPOINT_WORD);
    }
  }

  lemma {:induction false} EndSpelled()
    ensures EncodeText("+cbor") == TYPE_END
  {
    Spelled("+cbor", TYPE_END);
  }

  lemma {:induction false} ThreeJoined(a: string, b: string, c: string)
    ensures EncodeText(a + b + c) == EncodeText(a) + EncodeText(b) + EncodeText(c)
  {
    TextJoined(a, b);
    TextJoined(a + b, c);
  }

  lemma {:induction false} TypeNames(t: ContentType)
    ensures TypeText(t) == EncodeText(TypeName(t))
  {
    FrontSpelled();
    WordSpelled(t);
    EndSpelled();
    ThreeJoined("application/cedulon-", if t == ReceiptType then "receipt" else "checkpoint", "+cbor");
  }

  lemma {:induction false} ContextName()
    ensures SIGNATURE1 == EncodeText("Signature1")
  {
    Spelled("Signature1", SIGNATURE1);
  }

  /** Ed25519 under label 1 (RFC 9864), the content type under 3, the key under 4, and no critical header. */
  ghost predicate HeaderNames(header: Octets, signer: Signer, t: ContentType) {
    && D.Decode(header).Ok? && D.Decode(header).value.Map?
    && var entries := D.Decode(header).value.entries;
       && Has(entries, 1, Int(-19)) && Has(entries, 3, Word(TypeName(t))) && Has(entries, 4, Bytes(signer.kid))
       && forall v :: !Has(entries, 2, v)
  }

  /** What the key signs (section 4.4 of RFC 9052). */
  function ToBeSigned(header: Octets, payload: Octets): CborVal {
    Arr([Word("Signature1"), Bytes(header), Bytes([]), Bytes(payload)])
  }

  /** Header, empty unprotected map, payload, signature (section 4.2 of RFC 9052). */
  function MessageOf(header: Octets, payload: Octets, signature: Octets): CborVal {
    Arr([Bytes(header), Map([]), Bytes(payload), Bytes(signature)])
  }

  lemma HeaderOfParts(header: Octets, h: Header)
    ensures DecodeHeader(header) == Good(h) <==>
      && D.Decode(header).Ok? && D.Decode(header).value.Map?
      && var entries := D.Decode(header).value.entries;
         && MapGet(entries, Int(1)) == Some(Int(h.alg)) && MapGet(entries, Int(3)) == Some(CborVal.Text(h.contentType))
         && MapGet(entries, Int(4)) == Some(Bytes(h.kid)) && MapGet(entries, Int(2)).None?
  {
  }

  lemma {:induction false} HeaderGets(entries: seq<Entry>, signer: Signer, t: ContentType)
    requires DistinctKeys(entries, EntryKey)
    ensures MapGet(entries, Int(1)) == Some(Int(-19)) <==> Has(entries, 1, Int(-19))
    ensures MapGet(entries, Int(3)) == Some(CborVal.Text(TypeText(t))) <==> Has(entries, 3, Word(TypeName(t)))
    ensures MapGet(entries, Int(4)) == Some(Bytes(signer.kid)) <==> Has(entries, 4, Bytes(signer.kid))
    ensures MapGet(entries, Int(2)).None? <==> forall v :: !Has(entries, 2, v)
  {
    TypeNames(t);
    GetIsHas(entries, 1, Int(-19));
    GetIsHas(entries, 3, CborVal.Text(TypeText(t)));
    GetIsHas(entries, 4, Bytes(signer.kid));
    forall v ensures MapGet(entries, Int(2)) == Some(v) <==> Has(entries, 2, v) { GetIsHas(entries, 2, v); }
  }

  lemma {:induction false} HeaderReadExactly(header: Octets, signer: Signer, t: ContentType)
    ensures DecodeHeader(header) == Good(HeaderOf(signer, t)) <==> HeaderNames(header, signer, t)
  {
    HeaderOfParts(header, HeaderOf(signer, t));
    if D.Decode(header).Ok? && D.Decode(header).value.Map? {
      var entries := D.Decode(header).value.entries;
      DecodedKeysDiffer(header, entries);
      HeaderGets(entries, signer, t);
    }
  }

  /** The header names algorithm, type and key, and the signature is the key's over header and payload. */
  ghost predicate Vouched(m: Sign1, signer: Signer, t: ContentType) {
    && HeaderNames(m.protectedHeader, signer, t)
    && Encode(ToBeSigned(m.protectedHeader, m.payload)).Ok?
    && m.signature == signer.sign(Encode(ToBeSigned(m.protectedHeader, m.payload)).value)
  }

  predicate IsMessage(bytes: Octets, m: Sign1) {
    D.Decode(bytes) == Ok(MessageOf(m.protectedHeader, m.payload, m.signature))
  }

  lemma {:induction false} VouchedExactly(bytes: Octets, m: Sign1, signer: Signer, t: ContentType)
    requires DecodeSign1(bytes) == Good(m)
    ensures VerifyMessage(bytes, signer, t) <==> Vouched(m, signer, t)
  {
    ContextName();
    HeaderReadExactly(m.protectedHeader, signer, t);
  }

  /** A message verifies exactly when its octets decode to the four items and they are vouched for. */
  lemma {:induction false} VerifiedExactly(bytes: Octets, signer: Signer, t: ContentType)
    ensures VerifyMessage(bytes, signer, t) <==> exists m :: IsMessage(bytes, m) && Vouched(m, signer, t)
  {
    forall m | IsMessage(bytes, m) ensures DecodeSign1(bytes) == Good(m) { Sign1IsMessage(bytes, m); }
    if DecodeSign1(bytes).Good? {
      var m := DecodeSign1(bytes).value;
      Sign1IsMessage(bytes, m);
      VouchedExactly(bytes, m, signer, t);
    }
  }

  lemma {:induction false} Sign1IsMessage(bytes: Octets, m: Sign1)
    ensures DecodeSign1(bytes) == Good(m) <==>
      D.Decode(bytes) == Ok(MessageOf(m.protectedHeader, m.payload, m.signature))
  {
    if DecodeSign1(bytes) == Good(m) {
      var a := D.Decode(bytes).value.items;
      assert a == [Bytes(m.protectedHeader), Map([]), Bytes(m.payload), Bytes(m.signature)];
    }
  }

  /** What a session signs for a receipt says who was paid what, when, under which nonce and ref, and which
      receipt came before it. */
  lemma {:induction false} SignedReceiptSays(
      r: Receipt, payer: string, policyHash: string, signer: Signer) returns (entries: seq<Entry>)
    requires signer.Valid() && SignReceipt(B.ClaimsOf(r, payer, policyHash), signer).Ok?
    ensures var bytes := SignReceipt(B.ClaimsOf(r, payer, policyHash), signer).value;
      DecodeSign1(bytes).Good? && D.Decode(DecodeSign1(bytes).value.payload) == Ok(Map(entries))
    ensures Has(entries, -70001, Word(payer)) && Has(entries, -70002, Word(r.payee))
    ensures Has(entries, -70003, Word(r.amount)) && Has(entries, -70004, Word(r.currency))
    ensures Has(entries, -70005, Word(policyHash))
    ensures Has(entries, -70006, CborVal.Null) && Has(entries, -70007, Bool(true))
    ensures r.ref.Some? ==> Has(entries, -70008, Word(r.ref.value))
    ensures Has(entries, -70009, Int(r.timestampMs)) && Has(entries, -70010, Word(r.nonce))
    ensures Has(entries, -70011, if r.prevHash.Some? then Word(r.prevHash.value) else CborVal.Null)
    ensures Has(entries, -70012, Word(if r.settled then "settled" else "aborted"))
  {
    var c := B.ClaimsOf(r, payer, policyHash);
    B.ClaimsEncodeWhenSafe(r, payer, policyHash);
    if !SafeInt(r.timestampMs) { B.UnsafeIsUnsigned(c, signer); }
    SignedReceiptVerifies(c, signer);
    var payload := DecodeSign1(SignReceipt(c, signer).value).value.payload;
    ReceiptReadExactly(payload, c);
    entries := D.Decode(payload).value.entries;
  }

  // ----------------------------------------------------------- the published checkpoint

  /** The window a session publishes starts with its first receipt and ends right behind its last one or the
      clock, whichever is later; it counts every receipt and names the last. */
  lemma {:induction false} CutExactly(receipts: seq<Receipt>, nowMs: int, h: ReceiptHash)
    requires receipts != []
    ensures var cut := S.CutOf(receipts, nowMs, h);
      && cut.Some? && (exists r :: r in receipts && r.timestampMs == cut.value.startMs)
      && (forall r :: r in receipts ==> cut.value.startMs <= r.timestampMs < cut.value.endMs) && nowMs < cut.value.endMs
      && (cut.value.endMs == nowMs + 1 || exists r :: r in receipts && r.timestampMs + 1 == cut.value.endMs)
      && cut.value.count == |receipts| && cut.value.head == h(receipts[|receipts| - 1])
  {
    S.TimesBound(receipts);
    S.TimesAttained(receipts);
  }

  /** The map that the session's signed checkpoint decodes to. */
  ghost predicate PublishesMap(cut: S.Cut, signer: Signer, entries: seq<Entry>) {
    var order := B.OrderOf(cut);
    B.TextTotalsListed(order, cut.totals);
    var signed := SignCheckpoint(B.CutClaims(cut, order), B.TextsOf(order), signer);
    && signed.Ok? && DecodeSign1(signed.value).Good?
    && D.Decode(DecodeSign1(signed.value).value.payload) == Ok(Map(entries))
  }

  /** What a session signs for its checkpoint says just that, with every currency's total and no checkpoint
      before it. */
  lemma {:induction false} SignedCheckpointSays(cut: S.Cut, signer: Signer)
    returns (entries: seq<Entry>, totals: CborVal)
    requires signer.Valid() && B.CutTexts(cut) && B.CutVerifies(cut, signer)
    ensures PublishesMap(cut, signer, entries)
    ensures Has(entries, -70101, Int(1))
    ensures Has(entries, -70102, Int(cut.startMs)) && Has(entries, -70103, Int(cut.endMs))
    ensures Has(entries, -70104, Int(cut.count))
    ensures Has(entries, -70105, if cut.head.Some? then Word(cut.head.value) else CborVal.Null)
    ensures Has(entries, -70107, CborVal.Null)
    ensures Has(entries, -70106, totals) && totals.Map?
    ensures forall c :: c in cut.totals ==> PairIn(totals.entries, EncodeText(c), EncodeText(cut.totals[c]))
  {
    var order := B.OrderOf(cut);
    B.TextTotalsListed(order, cut.totals);
    B.TextTotalsHold(order, cut.totals);
    var claims := B.CutClaims(cut, order);
    var payload := DecodeSign1(SignCheckpoint(claims, B.TextsOf(order), signer).value).value.payload;
    CheckpointReadExactly(payload, claims);
    entries := D.Decode(payload).value.entries;
    totals :| Has(entries, -70106, totals) && TotalsClaimed(totals, claims.totals);
    forall c | c in cut.totals ensures PairIn(totals.entries, EncodeText(c), EncodeText(cut.totals[c])) {
      assert c in order;
    }
  }
}
