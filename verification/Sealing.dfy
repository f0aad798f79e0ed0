/** How many octets the claims of a receipt or a checkpoint take, part by part; which of them the
    decoder takes; and that the octets of the totals do not depend on the order of the currencies. */
module Sealing {
  import opened Cbor
  import opened Claims
  import opened Octets
  import opened Options
  import opened Records
  import D = CborDecoder

  // ------------------------------------------------------------- how long a map is

  lemma {:induction false} InsertLength(e: Entry, s: seq<Entry>)
    ensures |SpellEntries(InsertBy(e, s, EntryKey))| == |SpellPair(e)| + |SpellEntries(s)|
  {
    if s != [] && !LexLeq(EntryKey(e), EntryKey(s[0])) {
      InsertLength(e, s[1..]);
      assert InsertBy(e, s, EntryKey)[1..] == InsertBy(e, s[1..], EntryKey);
    } else {
      assert ([e] + s)[1..] == s;
    }
  }

  /** Key order does not change how many octets a map takes. */
  lemma {:induction false} SortLength(s: seq<Entry>)
    ensures |SpellEntries(SortBy(s, EntryKey))| == |SpellEntries(s)|
  {
    if s != [] {
      SortLength(s[1..]);
      InsertLength(s[0], SortBy(s[1..], EntryKey));
    }
  }

  lemma {:induction false} SnocLength(s: seq<Entry>, e: Entry)
    ensures |SpellEntries(s + [e])| == |SpellEntries(s)| + |SpellPair(e)|
  {
    if s == [] {
      assert [] + [e] == [e] && [e][1..] == [];
    } else {
      SnocLength(s[1..], e);
      assert (s + [e])[1..] == s[1..] + [e];
    }
  }

  /** The octets of the first n labelled values. */
  function SizeUpTo(first: int, vals: seq<CborVal>, n: nat): nat
    requires n <= |vals|
  {
    if n == 0 then 0
    else SizeUpTo(first, vals, n - 1) + |IntHead(first - (n - 1))| + |Spell(Canon(vals[n - 1]))|
  }

  lemma {:induction false} LabelledLength(e: Entry, tag: int, v: CborVal)
    requires e == Entry(Int(tag), Canon(v))
    ensures |SpellPair(e)| == |IntHead(tag)| + |Spell(Canon(v))|
  {
  }

  lemma {:induction false} OneMoreSpelled(entries: seq<Entry>, n: nat)
    requires 0 < n <= |entries|
    ensures |SpellEntries(entries[..n])| == |SpellEntries(entries[..n - 1])| + |SpellPair(entries[n - 1])|
  {
    SnocLength(entries[..n - 1], entries[n - 1]);
    assert entries[..n] == entries[..n - 1] + [entries[n - 1]];
  }

  lemma {:induction false} SizeOfFirst(first: int, vals: seq<CborVal>, entries: seq<Entry>, n: nat)
    requires n <= |vals| == |entries|
    requires forall i :: 0 <= i < |vals| ==> entries[i] == Entry(Int(first - i), Canon(vals[i]))
    ensures |SpellEntries(entries[..n])| == SizeUpTo(first, vals, n)
  {
    if n == 0 {
      assert entries[..0] == [];
    } else {
      SizeOfFirst(first, vals, entries, n - 1);
      OneMoreSpelled(entries, n);
      LabelledLength(entries[n - 1], first - (n - 1), vals[n - 1]);
    }
  }

  /** How many octets a labelled map encodes to. */
  lemma {:induction false} LabelledSize(first: int, vals: seq<CborVal>)
    requires Encode(Map(Labelled(first, vals))).Ok?
    ensures |Encode(Map(Labelled(first, vals))).value| == |Head(MT_MAP, |vals|)| + SizeUpTo(first, vals, |vals|)
  {
    var canon := CanonEntries(Labelled(first, vals));
    EncodeIsSpelling(Map(Labelled(first, vals)));
    SortLength(canon);
    forall i: nat | i < |vals| ensures canon[i] == Entry(Int(first - i), Canon(vals[i])) {
      LabelledKey(first, vals, i);
    }
    SizeOfFirst(first, vals, canon, |vals|);
    assert canon[..|vals|] == canon;
  }

  function TextSize(t: Text): nat { |Head(MT_TSTR, |t|)| + |t| }

  function TextOrNullSize(t: Option<Text>): nat { if t.None? then 1 else TextSize(t.value) }

  function IntSize(n: int): nat { |IntHead(n)| }

  // ---------------------------------------------------------------- receipt claims

  predicate NullOrText(t: Option<Text>) { t.Some? ==> WellFormedUtf8(t.value) }

  /** Every text is well-formed and the time is a safe integer. */
  ghost predicate ReceiptTexts(c: ReceiptClaims) {
    && WellFormedUtf8(c.payer) && WellFormedUtf8(c.payee) && WellFormedUtf8(c.amount) && WellFormedUtf8(c.currency)
    && WellFormedUtf8(c.policyHash) && WellFormedUtf8(c.nonce)
    && NullOrText(c.manifestHash) && NullOrText(c.x402PaymentRef) && NullOrText(c.prevReceiptHash)
    && SafeInt(c.timestampMs)
  }

  /** How many octets receipt claims encode to: twelve labels and their values. */
  function ReceiptSize(c: ReceiptClaims): nat { 61 + SumParts(c, 12) }

  lemma {:induction false} TextOrNullEncodable(t: Option<Text>)
    ensures Encodable(TextOrNull(t)) <==> NullOrText(t)
  {
  }

  lemma {:induction false} OutcomeIsText(o: Outcome)
    ensures Encodable(CborVal.Text(OutcomeText(o)))
  {
    var t := OutcomeText(o);
    assert forall k :: 0 <= k < |t| ==> t[k] < 0x80;
    AsciiIsUtf8(t, 0);
  }

  lemma {:induction false} FirstTextsHold(c: ReceiptClaims, i: nat)
    requires i < 5
    requires WellFormedUtf8(c.payer) && WellFormedUtf8(c.payee) && WellFormedUtf8(c.amount)
      && WellFormedUtf8(c.currency)
    requires WellFormedUtf8(c.policyHash)
    ensures Encodable(ReceiptValue(c, i))
  {
  }

  lemma {:induction false} LastTextsHold(c: ReceiptClaims, i: nat)
    requires 5 <= i < 12
    requires Encodable(TextOrNull(c.manifestHash)) && Encodable(TextOrNull(c.x402PaymentRef))
      && Encodable(TextOrNull(c.prevReceiptHash))
    requires SafeInt(c.timestampMs) && Encodable(CborVal.Text(c.nonce))
      && Encodable(CborVal.Text(OutcomeText(c.outcome)))
    ensures Encodable(ReceiptValue(c, i))
  {
    LastValueIs(c, i);
  }

  lemma LastValueIs(c: ReceiptClaims, i: nat)
    requires 5 <= i < 12
    ensures var v := ReceiptValue(c, i);
      v.Bool? || v == Int(c.timestampMs) || v == CborVal.Text(c.nonce) || v == CborVal.Text(OutcomeText(c.outcome))
      || v == TextOrNull(c.manifestHash) || v == TextOrNull(c.x402PaymentRef) || v == TextOrNull(c.prevReceiptHash)
  {
  }

  lemma {:induction false} ReceiptTextsHold(c: ReceiptClaims, i: nat)
    requires ReceiptTexts(c) && i < 12
    ensures Encodable(ReceiptValue(c, i))
  {
    if i < 5 {
      FirstTextsHold(c, i);
    } else {
      TextOrNullEncodable(c.manifestHash);
      TextOrNullEncodable(c.x402PaymentRef);
      TextOrNullEncodable(c.prevReceiptHash);
      OutcomeIsText(c.outcome);
      LastTextsHold(c, i);
    }
  }

  lemma {:induction false} ReceiptEncodes(c: ReceiptClaims)
    requires ReceiptTexts(c)
    ensures ReceiptToCbor(c).Ok? && |ReceiptToCbor(c).value| == ReceiptSize(c)
  {
    var vals := ReceiptValues(c);
    forall i | 0 <= i < 12 ensures Encodable(vals[i]) { ReceiptTextsHold(c, i); }
    LabelledEncodable(RECEIPT_BASE, vals);
    EncodeIsSpelling(Map(Labelled(RECEIPT_BASE, vals)));
    LabelledSize(RECEIPT_BASE, vals);
    ReceiptSizeUpTo(c, vals, 12);
  }

  function ReceiptPart(c: ReceiptClaims, i: nat): nat
    requires i < 12
  {
    match i
    case 0 => TextSize(c.payer)
    case 1 => TextSize(c.payee)
    case 2 => TextSize(c.amount)
    case 3 => TextSize(c.currency)
    case 4 => TextSize(c.policyHash)
    case 5 => TextOrNullSize(c.manifestHash)
    case 6 => 1
    case 7 => TextOrNullSize(c.x402PaymentRef)
    case 8 => IntSize(c.timestampMs)
    case 9 => TextSize(c.nonce)
    case 10 => TextOrNullSize(c.prevReceiptHash)
    case _ => TextSize(OutcomeText(c.outcome))
  }

  function SumParts(c: ReceiptClaims, n: nat): nat
    requires n <= 12
  {
    if n == 0 then 0 else SumParts(c, n - 1) + ReceiptPart(c, n - 1)
  }

  lemma {:induction false} ReceiptValueSize(c: ReceiptClaims, i: nat)
    requires i < 12
    ensures |Spell(Canon(ReceiptValue(c, i)))| == ReceiptPart(c, i)
  {
  }

  lemma {:induction false} ReceiptSizeUpTo(c: ReceiptClaims, vals: seq<CborVal>, n: nat)
    requires vals == ReceiptValues(c) && n <= 12
    ensures SizeUpTo(RECEIPT_BASE, vals, n) == 5 * n + SumParts(c, n)
  {
    if n > 0 {
      ReceiptSizeUpTo(c, vals, n - 1);
      LabelTakesFive(RECEIPT_BASE - (n - 1));
      ReceiptValueSize(c, n - 1);
      StepSize(RECEIPT_BASE, vals, n, ReceiptValue(c, n - 1));
    }
  }

  lemma {:induction false} StepSize(first: int, vals: seq<CborVal>, n: nat, v: CborVal)
    requires 0 < n <= |vals| && vals[n - 1] == v && IntSize(first - (n - 1)) == 5
    ensures SizeUpTo(first, vals, n) == SizeUpTo(first, vals, n - 1) + 5 + |Spell(Canon(v))|
  {
  }

  lemma {:induction false} LabelTakesFive(tag: int)
    requires -70200 <= tag <= -70000
    ensures IntSize(tag) == 5
  {
  }

  lemma {:induction false} PartOfReceipt(c: ReceiptClaims, n: nat, i: nat)
    requires i < n <= 12
    ensures ReceiptPart(c, i) <= SumParts(c, n)
  {
    if i < n - 1 {
      PartOfReceipt(c, n - 1, i);
    }
  }

  lemma {:induction false} SmallScalarFits(v: CborVal)
    requires !v.Bytes? && !v.Arr? && !v.Map?
    requires Encodable(v) && |Spell(Canon(v))| <= D.CBOR_MAX_STRING
    ensures ScalarFits(v)
  {
  }

  lemma {:induction false} ReceiptValueIsScalar(c: ReceiptClaims, i: nat)
    requires i < 12
    ensures var v := ReceiptValue(c, i); !v.Bytes? && !v.Arr? && !v.Map?
  {
  }

  /** Claims that fit into one byte string hold no text that does not. */
  lemma {:induction false} SmallReceiptFits(c: ReceiptClaims, size: nat)
    requires ReceiptTexts(c) && size == SumParts(c, 12) <= D.CBOR_MAX_STRING
    ensures ReceiptFits(c)
  {
    forall i: nat | i < 12 ensures ScalarFits(ReceiptValue(c, i)) {
      PartOfReceipt(c, 12, i);
      ReceiptValueSize(c, i);
      ReceiptTextsHold(c, i);
      ReceiptValueIsScalar(c, i);
      SmallScalarFits(ReceiptValue(c, i));
    }
  }

  // ------------------------------------------------------------- checkpoint claims

  ghost predicate CheckpointTexts(c: CheckpointClaims) {
    && SafeInt(c.epoch) && SafeInt(c.startMs) && SafeInt(c.endMs) && SafeInt(c.receiptCount)
    && (c.chainHeadHash.Some? ==> WellFormedUtf8(c.chainHeadHash.value))
    && (c.prevCheckpointHash.Some? ==> WellFormedUtf8(c.prevCheckpointHash.value))
    && (c.totals.Some? ==> TotalsTexts(c.totals.value))
  }

  /** Well-formed text, and no longer than a text can be. */
  ghost predicate TotalsTexts(totals: Totals) {
    forall k :: k in totals ==> WellFormedUtf8(k) && WellFormedUtf8(totals[k]) && |k| <= MAX_SAFE
  }

  /** The octets of the currencies listed, with their totals. */
  function TotalsSize(order: seq<Text>, totals: Totals): nat
    requires forall k :: k in order ==> k in totals
  {
    if order == [] then 0
    else
      var k := order[|order| - 1];
      assert k in order;
      TotalsSize(order[..|order| - 1], totals) + TextSize(k) + TextSize(totals[k])
  }

  function TotalsOrNullSize(order: seq<Text>, totals: Option<Totals>): nat
    requires totals.Some? ==> forall k :: k in order ==> k in totals.value
  {
    if totals.None? then 1 else |Head(MT_MAP, |order|)| + TotalsSize(order, totals.value)
  }

  function CheckpointPart(c: CheckpointClaims, order: seq<Text>, i: nat): nat
    requires i < 7
    requires c.totals.Some? ==> forall k :: k in order ==> k in c.totals.value
  {
    match i
    case 0 => IntSize(c.epoch)
    case 1 => IntSize(c.startMs)
    case 2 => IntSize(c.endMs)
    case 3 => IntSize(c.receiptCount)
    case 4 => TextOrNullSize(c.chainHeadHash)
    case 5 => TotalsOrNullSize(order, c.totals)
    case _ => TextOrNullSize(c.prevCheckpointHash)
  }

  function SumCheckpoint(c: CheckpointClaims, order: seq<Text>, n: nat): nat
    requires n <= 7
    requires c.totals.Some? ==> forall k :: k in order ==> k in c.totals.value
  {
    if n == 0 then 0 else SumCheckpoint(c, order, n - 1) + CheckpointPart(c, order, n - 1)
  }

  /** How many octets checkpoint claims encode to: seven labels and their values. */
  function CheckpointSize(c: CheckpointClaims, order: seq<Text>): nat
    requires c.totals.Some? ==> forall k :: k in order ==> k in c.totals.value
  {
    36 + SumCheckpoint(c, order, 7)
  }

  lemma {:induction false} PartOfCheckpoint(c: CheckpointClaims, order: seq<Text>, n: nat, i: nat)
    requires i < n <= 7
    requires c.totals.Some? ==> forall k :: k in order ==> k in c.totals.value
    ensures CheckpointPart(c, order, i) <= SumCheckpoint(c, order, n)
  {
    if i < n - 1 {
      PartOfCheckpoint(c, order, n - 1, i);
    }
  }

  lemma {:induction false} TotalsAreScalars(order: seq<Text>, totals: Totals)
    requires Lists(order, totals) && TotalsTexts(totals)
    ensures CanonEntries(TotalsEntries(order, totals)) == TotalsEntries(order, totals)
    ensures forall i :: 0 <= i < |order| ==> EntryEncodable(TotalsEntries(order, totals)[i])
  {
    var entries := TotalsEntries(order, totals);
    forall i | 0 <= i < |entries| ensures CanonEntry(entries[i]) == entries[i] && EntryEncodable(entries[i]) {
      assert order[i] in order;
    }
    assert CanonEntries(entries) == entries;
  }

  lemma {:induction false} TotalsKeysDiffer(order: seq<Text>, totals: Totals)
    requires Lists(order, totals) && TotalsTexts(totals)
    ensures DistinctKeys(TotalsEntries(order, totals), EntryKey)
  {
    var entries := TotalsEntries(order, totals);
    forall i, j | 0 <= i < j < |entries| ensures EntryKey(entries[i]) != EntryKey(entries[j]) {
      assert order[i] in order && order[j] in order;
      TextsSpelledApart(order[i], order[j]);
    }
  }

  lemma {:induction false} TotalsEncodable(order: seq<Text>, totals: Totals)
    requires Lists(order, totals) && TotalsTexts(totals)
    ensures Encodable(Map(TotalsEntries(order, totals)))
    ensures CanonEntries(TotalsEntries(order, totals)) == TotalsEntries(order, totals)
  {
    TotalsAreScalars(order, totals);
    TotalsKeysDiffer(order, totals);
  }

  lemma {:induction false} TextsSpelledApart(a: Text, b: Text)
    requires WellFormedUtf8(a) && WellFormedUtf8(b) && a != b && |a| <= MAX_SAFE && |b| <= MAX_SAFE
    ensures Spell(CborVal.Text(a)) != Spell(CborVal.Text(b))
  {
    if Spell(CborVal.Text(a)) == Spell(CborVal.Text(b)) {
      var lim := Limits(0, 0, MAX_SAFE);
      D.ReadSpelled(CborVal.Text(a), [], 0, lim);
      D.ReadSpelled(CborVal.Text(b), [], 0, lim);
    }
  }

  lemma {:induction false} TotalsEntriesSize(order: seq<Text>, totals: Totals)
    requires forall k :: k in order ==> k in totals
    ensures |SpellEntries(TotalsEntries(order, totals))| == TotalsSize(order, totals)
  {
    if order != [] {
      var init, k := order[..|order| - 1], order[|order| - 1];
      assert k in order;
      var e := Entry(CborVal.Text(k), CborVal.Text(totals[k]));
      TotalsEntriesSize(init, totals);
      SnocLength(TotalsEntries(init, totals), e);
      assert TotalsEntries(order, totals) == TotalsEntries(init, totals) + [e];
    }
  }

  /** What a checkpoint's totals take in the encoding, in whatever order they are listed. */
  lemma {:induction false} TotalsValueSize(order: seq<Text>, totals: Option<Totals>)
    requires totals.Some? ==> Lists(order, totals.value) && TotalsTexts(totals.value)
    ensures Encodable(TotalsToCbor(order, totals))
    ensures |Spell(Canon(TotalsToCbor(order, totals)))| == TotalsOrNullSize(order, totals)
  {
    if totals.Some? {
      TotalsEncodable(order, totals.value);
      TotalsEntriesSize(order, totals.value);
      SortLength(TotalsEntries(order, totals.value));
    }
  }

  lemma {:induction false} CheckpointValueSize(c: CheckpointClaims, order: seq<Text>, i: nat)
    requires CheckpointTexts(c) && (c.totals.Some? ==> Lists(order, c.totals.value)) && i < 7
    ensures Encodable(CheckpointValue(c, order, i))
    ensures |Spell(Canon(CheckpointValue(c, order, i)))| == CheckpointPart(c, order, i)
  {
    if i == 5 {
      TotalsValueSize(order, c.totals);
    }
  }

  lemma {:induction false} CheckpointSizeUpTo(c: CheckpointClaims, order: seq<Text>, vals: seq<CborVal>, n: nat)
    requires CheckpointTexts(c) && (c.totals.Some? ==> Lists(order, c.totals.value))
    requires vals == CheckpointValues(c, order) && n <= 7
    ensures SizeUpTo(CHECKPOINT_BASE, vals, n) == 5 * n + SumCheckpoint(c, order, n)
    ensures forall i :: 0 <= i < n ==> Encodable(vals[i])
  {
    if n > 0 {
      CheckpointSizeUpTo(c, order, vals, n - 1);
      LabelTakesFive(CHECKPOINT_BASE - (n - 1));
      CheckpointValueSize(c, order, n - 1);
      StepSize(CHECKPOINT_BASE, vals, n, CheckpointValue(c, order, n - 1));
    }
  }

  /** Checkpoint claims always encode, to as many octets as their size says. */
  lemma {:induction false} CheckpointEncodes(c: CheckpointClaims, order: seq<Text>)
    requires CheckpointTexts(c) && (c.totals.Some? ==> Lists(order, c.totals.value))
    ensures CheckpointToCbor(c, order).Ok? && |CheckpointToCbor(c, order).value| == CheckpointSize(c, order)
  {
    var vals := CheckpointValues(c, order);
    CheckpointSizeUpTo(c, order, vals, 7);
    LabelledEncodable(CHECKPOINT_BASE, vals);
    EncodeIsSpelling(Map(Labelled(CHECKPOINT_BASE, vals)));
    LabelledSize(CHECKPOINT_BASE, vals);
  }

  lemma {:induction false} TotalsSizeHolds(order: seq<Text>, totals: Totals, k: Text)
    requires (forall x :: x in order ==> x in totals) && k in order
    ensures TextSize(k) + TextSize(totals[k]) <= TotalsSize(order, totals)
  {
    var init, last := order[..|order| - 1], order[|order| - 1];
    if k != last {
      assert order == init + [last];
      TotalsSizeHolds(init, totals, k);
    }
  }

  /** Claims that fit into one byte string, with no more currencies than a map may have, are
      claims the decoder takes. */
  lemma {:induction false} SmallCheckpointFits(c: CheckpointClaims, order: seq<Text>)
    requires CheckpointTexts(c) && (c.totals.Some? ==> Lists(order, c.totals.value))
    requires CheckpointSize(c, order) <= D.CBOR_MAX_STRING
    requires c.totals.Some? ==> |c.totals.value| <= D.CBOR_MAX_ELEMENTS
    ensures CheckpointFits(c)
  {
    forall i: nat | i < 7 ensures CheckpointPart(c, order, i) <= D.CBOR_MAX_STRING { PartOfCheckpoint(c, order, 7, i); }
    assert CheckpointPart(c, order, 4) == TextOrNullSize(c.chainHeadHash);
    assert CheckpointPart(c, order, 5) == TotalsOrNullSize(order, c.totals);
    assert CheckpointPart(c, order, 6) == TextOrNullSize(c.prevCheckpointHash);
    if c.totals.Some? {
      forall k | k in c.totals.value ensures FitText(k) && FitText(c.totals.value[k]) {
        TotalsSizeHolds(order, c.totals.value, k);
      }
    }
  }

  lemma {:induction false} TwoTotalsHeld(order: seq<Text>, totals: Totals, j: Text, k: Text)
    requires (forall x :: x in order ==> x in totals) && j in order && k in order && j != k
    ensures TextSize(j) + TextSize(k) <= TotalsSize(order, totals)
  {
    var init, last := order[..|order| - 1], order[|order| - 1];
    assert order == init + [last];
    if j == last {
      TotalsSizeHolds(init, totals, k);
    } else if k == last {
      TotalsSizeHolds(init, totals, j);
    } else {
      TwoTotalsHeld(init, totals, j, k);
    }
  }

  // ------------------------------------------------------- in whatever order listed

  lemma {:induction false} SameLeast<T>(s: seq<T>, t: seq<T>, key: T -> Octets)
    requires StrictlyAscending(s, key) && StrictlyAscending(t, key) && s != [] && multiset(s) == multiset(t)
    ensures t != [] && s[0] == t[0]
  {
    assert s[0] in multiset(t);
    var j :| 0 <= j < |t| && t[j] == s[0];
    assert t[0] in multiset(s);
    var i :| 0 <= i < |s| && s[i] == t[0];
    if i > 0 && j > 0 {
      LexLessTransitive(key(s[0]), key(s[i]), key(s[0]));
      LexLessIrreflexive(key(s[0]));
    }
  }

  lemma {:induction false} WithoutFirst<T>(s: seq<T>, key: T -> Octets)
    requires StrictlyAscending(s, key) && s != []
    ensures StrictlyAscending(s[1..], key) && multiset(s[1..]) == multiset(s) - multiset{s[0]}
  {
    assert s == [s[0]] + s[1..];
  }

  lemma SameParts<T>(s: seq<T>, t: seq<T>)
    requires s != [] && t != [] && s[0] == t[0] && s[1..] == t[1..]
    ensures s == t
  {
    assert s == [s[0]] + s[1..] && t == [t[0]] + t[1..];
  }

  lemma {:induction false} AscendingOnce<T>(s: seq<T>, t: seq<T>, key: T -> Octets)
    requires StrictlyAscending(s, key) && StrictlyAscending(t, key) && multiset(s) == multiset(t)
    ensures s == t
  {
    assert |s| == |multiset(s)| == |multiset(t)| == |t|;
    if s != [] {
      SameLeast(s, t, key);
      WithoutFirst(s, key);
      WithoutFirst(t, key);
      AscendingOnce(s[1..], t[1..], key);
      SameParts(s, t);
    }
  }

  lemma {:induction false} CountedAtMostOnce(s: seq<Text>, x: Text)
    requires forall i, j :: 0 <= i < j < |s| ==> s[i] != s[j]
    ensures multiset(s)[x] == if x in s then 1 else 0
  {
    if s != [] {
      var init, last := s[..|s| - 1], s[|s| - 1];
      assert s == init + [last];
      CountedAtMostOnce(init, x);
      assert last !in init;
    }
  }

  lemma {:induction false} TotalsEntriesBag(order: seq<Text>, totals: Totals, e: Entry)
    requires forall x :: x in order ==> x in totals
    ensures multiset(TotalsEntries(order, totals))[e] ==
      if e.key.Text? && e.key.utf8 in totals && e.val == CborVal.Text(totals[e.key.utf8])
        then multiset(order)[e.key.utf8] else 0
  {
    if order != [] {
      var init, k := order[..|order| - 1], order[|order| - 1];
      assert order == init + [k] && k in order;
      TotalsEntriesBag(init, totals, e);
      assert TotalsEntries(order, totals)
        == TotalsEntries(init, totals) + [Entry(CborVal.Text(k), CborVal.Text(totals[k]))];
    }
  }

  lemma {:induction false} SameListing(a: seq<Text>, b: seq<Text>, totals: Totals)
    requires Lists(a, totals) && Lists(b, totals)
    ensures multiset(TotalsEntries(a, totals)) == multiset(TotalsEntries(b, totals))
  {
    forall e ensures multiset(TotalsEntries(a, totals))[e] == multiset(TotalsEntries(b, totals))[e] {
      TotalsEntriesBag(a, totals, e);
      TotalsEntriesBag(b, totals, e);
      if e.key.Text? {
        CountedAtMostOnce(a, e.key.utf8);
        CountedAtMostOnce(b, e.key.utf8);
      }
    }
  }

  lemma {:induction false} SortedTotals(order: seq<Text>, totals: Totals)
    requires Lists(order, totals) && TotalsTexts(totals)
    ensures var sorted := SortBy(TotalsEntries(order, totals), EntryKey);
      StrictlyAscending(sorted, EntryKey) && Canon(Map(TotalsEntries(order, totals))) == Map(sorted)
  {
    var entries := TotalsEntries(order, totals);
    TotalsEncodable(order, totals);
    SortAscending(entries, EntryKey);
    SortDistinct(entries, EntryKey);
    AdjacentCheckIsComplete(SortBy(entries, EntryKey), EntryKey);
  }

  /** The octets of the totals do not depend on the order the currencies are listed in. */
  lemma {:induction false} ListingIsIdle(a: seq<Text>, b: seq<Text>, totals: Totals)
    requires Lists(a, totals) && Lists(b, totals) && TotalsTexts(totals)
    ensures Encode(Map(TotalsEntries(a, totals))) == Encode(Map(TotalsEntries(b, totals)))
    ensures TotalsSize(a, totals) == TotalsSize(b, totals)
  {
    SortedTotals(a, totals);
    SortedTotals(b, totals);
    SameListing(a, b, totals);
    AscendingOnce(SortBy(TotalsEntries(a, totals), EntryKey), SortBy(TotalsEntries(b, totals), EntryKey), EntryKey);
    EncodeIsSpelling(Map(TotalsEntries(a, totals)));
    EncodeIsSpelling(Map(TotalsEntries(b, totals)));
    TotalsEncodable(a, totals);
    TotalsEncodable(b, totals);
    SameTotalsSize(a, b, totals);
  }

  lemma {:induction false} SameTotalsSize(a: seq<Text>, b: seq<Text>, totals: Totals)
    requires Lists(a, totals) && Lists(b, totals)
    requires SortBy(TotalsEntries(a, totals), EntryKey) == SortBy(TotalsEntries(b, totals), EntryKey)
    ensures TotalsSize(a, totals) == TotalsSize(b, totals)
  {
    TotalsEntriesSize(a, totals);
    TotalsEntriesSize(b, totals);
    SortLength(TotalsEntries(a, totals));
    SortLength(TotalsEntries(b, totals));
  }

  /** Nor does the size of the claims. */
  lemma {:induction false} SizeOfAnyListing(c: CheckpointClaims, a: seq<Text>, b: seq<Text>, n: nat)
    requires n <= 7 && c.totals.Some? && TotalsTexts(c.totals.value)
    requires Lists(a, c.totals.value) && Lists(b, c.totals.value)
    ensures SumCheckpoint(c, a, n) == SumCheckpoint(c, b, n)
  {
    if n > 0 {
      SizeOfAnyListing(c, a, b, n - 1);
      if n == 6 {
        ListingIsIdle(a, b, c.totals.value);
        OrderLength(a, c.totals.value);
        OrderLength(b, c.totals.value);
      }
    }
  }
}
