/** Claim sets as labelled CBOR maps, and the COSE_Sign1 framing around them
    (section 4.2 of RFC 9052). */
module Claims {
  import opened Cbor
  import opened Octets
  import opened Options
  import opened Records
  import D = CborDecoder

  /** Why a decoded map is not the claim set it was read as. */
  datatype Decoded<+T> = Good(value: T) | Bad(reason: string) {
    predicate IsFailure() { Bad? }
    function PropagateFailure<U>(): Decoded<U> requires Bad? { Bad(reason) }
    function Extract(): T requires Good? { value }
  }

  // ------------------------------------------------------------- labelled maps

  /** The first entry under the key. */
  function MapGet(entries: seq<Entry>, key: CborVal): Option<CborVal> {
    if entries == [] then None
    else if entries[0].key == key then Some(entries[0].val)
    else MapGet(entries[1..], key)
  }

  lemma {:induction false} MapGetOnly(entries: seq<Entry>, e: Entry)
    requires DistinctKeys(entries, EntryKey) && e in entries
    ensures MapGet(entries, e.key) == Some(e.val)
  {
    if entries[0].key == e.key {
      var i :| 0 <= i < |entries| && entries[i] == e;
      assert EntryKey(entries[0]) == EntryKey(entries[i]);
    } else {
      forall i, j | 0 <= i < j < |entries[1..]| ensures EntryKey(entries[1..][i]) != EntryKey(entries[1..][j]) {
        assert entries[1..][i] == entries[i + 1] && entries[1..][j] == entries[j + 1];
      }
      MapGetOnly(entries[1..], e);
    }
  }

  /** A map whose labels count down from the first one, as both claim sets' do. */
  function Labelled(first: int, vals: seq<CborVal>): (entries: seq<Entry>)
    ensures |entries| == |vals|
    ensures forall i :: 0 <= i < |vals| ==> entries[i] == Entry(Int(first - i), vals[i])
  {
    seq(|vals|, i requires 0 <= i < |vals| => Entry(Int(first - i), vals[i]))
  }

  ghost predicate SafeLabels(first: int, n: nat) { SafeInt(first) && SafeInt(first - n) }

  lemma {:induction false} IntKeysDiffer(a: int, b: int)
    requires SafeInt(a) && SafeInt(b) && a != b
    ensures EntryKey(Entry(Int(a), Null)) != EntryKey(Entry(Int(b), Null))
    ensures Spell(Int(a)) != Spell(Int(b))
  {
    if Spell(Int(a)) == Spell(Int(b)) {
      var lim := Limits(0, 0, 0);
      D.ReadSpelled(Int(a), [], 0, lim);
      D.ReadSpelled(Int(b), [], 0, lim);
    }
  }

  lemma {:induction false} LabelledDistinct(first: int, vals: seq<CborVal>)
    requires SafeLabels(first, |vals|)
    ensures DistinctKeys(CanonEntries(Labelled(first, vals)), EntryKey)
  {
    var entries := Labelled(first, vals);
    var canon := CanonEntries(entries);
    forall i, j | 0 <= i < j < |canon| ensures EntryKey(canon[i]) != EntryKey(canon[j]) {
      LabelledKey(first, vals, i);
      LabelledKey(first, vals, j);
      IntKeysDiffer(first - i, first - j);
    }
  }

  lemma {:induction false} LabelledKey(first: int, vals: seq<CborVal>, i: nat)
    requires i < |vals|
    ensures CanonEntries(Labelled(first, vals))[i] == Entry(Int(first - i), Canon(vals[i]))
  {
    var entries := Labelled(first, vals);
    assert CanonEntries(entries)[i] == CanonEntry(entries[i]);
  }

  lemma {:induction false} LabelledEncodable(first: int, vals: seq<CborVal>)
    requires SafeLabels(first, |vals|)
    requires forall i :: 0 <= i < |vals| ==> Encodable(vals[i])
    ensures Encodable(Map(Labelled(first, vals)))
  {
    var entries := Labelled(first, vals);
    LabelledDistinct(first, vals);
    forall i | 0 <= i < |entries| ensures EntryEncodable(entries[i]) {
      assert Encodable(vals[i]) && SafeInt(first - i);
    }
  }

  lemma {:induction false} FoundWhenSorted(entries: seq<Entry>, i: nat)
    requires DistinctKeys(entries, EntryKey) && i < |entries|
    ensures MapGet(SortBy(entries, EntryKey), entries[i].key) == Some(entries[i].val)
  {
    var sorted := SortBy(entries, EntryKey);
    SortDistinct(entries, EntryKey);
    assert entries[i] in multiset(entries);
    assert entries[i] in multiset(sorted);
    MapGetOnly(sorted, entries[i]);
  }

  /** What a decoder finds in a decoded labelled map: under every label, the value
      that was put there, with its own maps in key order. */
  lemma {:induction false} LabelledRoundTrip(first: int, vals: seq<CborVal>, i: nat)
    requires SafeLabels(first, |vals|) && i < |vals|
    ensures MapGet(Canon(Map(Labelled(first, vals))).entries, Int(first - i)) == Some(Canon(vals[i]))
  {
    var canon := CanonEntries(Labelled(first, vals));
    LabelledDistinct(first, vals);
    LabelledKey(first, vals, i);
    FoundWhenSorted(canon, i);
  }

  ghost predicate Carries(v: CborVal) { Encodable(v) && Fits(v, 1, D.DECODER_LIMITS) }

  /** A labelled map of values that fit decodes to itself in key order. */
  lemma {:induction false} LabelledDecodes(first: int, vals: seq<CborVal>)
    requires |vals| <= D.CBOR_MAX_ELEMENTS && SafeLabels(first, |vals|)
    requires forall i :: 0 <= i < |vals| ==> Carries(vals[i])
    requires Encode(Map(Labelled(first, vals))).Ok? ==>
      |Encode(Map(Labelled(first, vals))).value| <= D.CBOR_MAX_BYTES
    ensures Encode(Map(Labelled(first, vals))).Ok?
    ensures D.Decode(Encode(Map(Labelled(first, vals))).value) == Ok(Canon(Map(Labelled(first, vals))))
  {
    var entries := Labelled(first, vals);
    var m := Map(entries);
    assert forall i :: 0 <= i < |vals| ==> Carries(vals[i]) ==> Encodable(vals[i]);
    LabelledEncodable(first, vals);
    EncodeIsSpelling(m);
    assert Fits(m, 0, D.DECODER_LIMITS) by {
      forall i | 0 <= i < |entries| ensures EntryFits(entries[i], 1, D.DECODER_LIMITS) {
        assert Carries(vals[i]);
      }
    }
    D.DecodeOfEncode(m);
  }

  /** A text, integer, boolean or null that one CBOR value may hold. */
  predicate ScalarFits(v: CborVal) {
    match v
    case Text(t) => WellFormedUtf8(t) && |t| <= D.CBOR_MAX_STRING
    case Int(n) => SafeInt(n)
    case Null => true
    case Bool(_) => true
    case _ => false
  }

  lemma {:induction false} ScalarCarries(v: CborVal)
    requires ScalarFits(v)
    ensures Carries(v) && Canon(v) == v
  {
  }

  /** A decoded map as its readers see it: label to value. */
  type Lookup = int -> Option<CborVal>

  function LookupIn(entries: seq<Entry>): Lookup { lab => MapGet(entries, Int(lab)) }

  lemma {:induction false} ScalarsCarry(vals: seq<CborVal>)
    requires forall i :: 0 <= i < |vals| ==> ScalarFits(vals[i])
    ensures forall i :: 0 <= i < |vals| ==> Carries(vals[i]) && Canon(vals[i]) == vals[i]
  {
    forall i | 0 <= i < |vals| ensures Carries(vals[i]) && Canon(vals[i]) == vals[i] { ScalarCarries(vals[i]); }
  }

  lemma {:induction false} ScalarIsFound(first: int, vals: seq<CborVal>, entries: seq<Entry>, i: nat)
    requires SafeLabels(first, |vals|) && i < |vals| && Canon(vals[i]) == vals[i]
    requires Canon(Map(Labelled(first, vals))) == Map(entries)
    ensures MapGet(entries, Int(first - i)) == Some(vals[i])
  {
    LabelledRoundTrip(first, vals, i);
  }

  lemma FoundLooksUp(first: int, vals: seq<CborVal>, entries: seq<Entry>)
    requires forall i :: 0 <= i < |vals| ==> MapGet(entries, Int(first - i)) == Some(vals[i])
    ensures forall i :: 0 <= i < |vals| ==> LookupIn(entries)(first - i) == Some(vals[i])
  {
  }

  /** The lookup in a key-ordered labelled map of scalars gives every scalar back. */
  lemma {:induction false} ScalarsLookUp(first: int, vals: seq<CborVal>, entries: seq<Entry>)
    requires SafeLabels(first, |vals|)
    requires forall i :: 0 <= i < |vals| ==> Canon(vals[i]) == vals[i]
    requires Canon(Map(Labelled(first, vals))) == Map(entries)
    ensures forall i :: 0 <= i < |vals| ==> LookupIn(entries)(first - i) == Some(vals[i])
  {
    forall i | 0 <= i < |vals| ensures MapGet(entries, Int(first - i)) == Some(vals[i]) {
      ScalarIsFound(first, vals, entries, i);
    }
    FoundLooksUp(first, vals, entries);
  }

  // ------------------------------------------------------------ receipt claims

  /** Text as its UTF-8 octets. */
  type Text = Octets

  datatype Outcome = Settled | Aborted

  datatype ReceiptClaims = ReceiptClaims(
    payer: Text, payee: Text, amount: Text, currency: Text, policyHash: Text,
    manifestHash: Option<Text>, noManifest: bool, x402PaymentRef: Option<Text>,
    timestampMs: int, nonce: Text, prevReceiptHash: Option<Text>, outcome: Outcome)

  const SETTLED: Text := [0x73, 0x65, 0x74, 0x74, 0x6C, 0x65, 0x64]
  const ABORTED: Text := [0x61, 0x62, 0x6F, 0x72, 0x74, 0x65, 0x64]

  function OutcomeText(o: Outcome): Text { if o == Settled then SETTLED else ABORTED }

  function TextOrNull(t: Option<Text>): CborVal {
    match t
    case None => CborVal.Null
    case Some(s) => CborVal.Text(s)
  }

  const RECEIPT_BASE := -70001

  /** The value under label -70001 - i. */
  function ReceiptValue(c: ReceiptClaims, i: nat): CborVal
    requires i < 12
  {
    match i
    case 0 => CborVal.Text(c.payer)
    case 1 => CborVal.Text(c.payee)
    case 2 => CborVal.Text(c.amount)
    case 3 => CborVal.Text(c.currency)
    case 4 => CborVal.Text(c.policyHash)
    case 5 => TextOrNull(c.manifestHash)
    case 6 => Bool(c.noManifest)
    case 7 => TextOrNull(c.x402PaymentRef)
    case 8 => Int(c.timestampMs)
    case 9 => CborVal.Text(c.nonce)
    case 10 => TextOrNull(c.prevReceiptHash)
    case _ => CborVal.Text(OutcomeText(c.outcome))
  }

  function ReceiptValues(c: ReceiptClaims): (vals: seq<CborVal>)
    ensures |vals| == 12 && forall i :: 0 <= i < 12 ==> vals[i] == ReceiptValue(c, i)
  {
    seq(12, i requires 0 <= i < 12 => ReceiptValue(c, i))
  }

  function ReceiptToCbor(c: ReceiptClaims): Result<Octets> {
    Encode(Map(Labelled(RECEIPT_BASE, ReceiptValues(c))))
  }

  function GetText(get: Lookup, lab: int): Decoded<Text> {
    match get(lab)
    case Some(Text(t)) => Good(t)
    case _ => Bad("claim-tstr")
  }

  function GetTextOrNull(get: Lookup, lab: int): Decoded<Option<Text>> {
    match get(lab)
    case Some(Null) => Good(None)
    case Some(Text(t)) => Good(Some(t))
    case _ => Bad("claim-tstr-or-null")
  }

  function GetInt(get: Lookup, lab: int): Decoded<int> {
    match get(lab)
    case Some(Int(n)) => Good(n)
    case _ => Bad("claim-types")
  }

  function GetBool(get: Lookup, lab: int): Decoded<bool> {
    match get(lab)
    case Some(Bool(b)) => Good(b)
    case _ => Bad("claim-types")
  }

  function AsMap(bytes: Octets): Decoded<seq<Entry>> {
    match D.Decode(bytes)
    case Ok(Map(entries)) => Good(entries)
    case Ok(_) => Bad("cbor-not-map")
    case Err(_) => Bad("cbor")
  }

  function ReceiptFromCbor(bytes: Octets): Decoded<ReceiptClaims> {
    var entries :- AsMap(bytes);
    ReceiptOf(LookupIn(entries))
  }

  function ReceiptOf(get: Lookup): Decoded<ReceiptClaims> {
    var ts :- GetInt(get, -70009);
    var noManifest :- GetBool(get, -70007);
    var outcome :- GetText(get, -70012);
    if outcome != SETTLED && outcome != ABORTED then Bad("claim-outcome")
    else
      var payer :- GetText(get, -70001);
      var payee :- GetText(get, -70002);
      var amount :- GetText(get, -70003);
      var currency :- GetText(get, -70004);
      var policyHash :- GetText(get, -70005);
      var manifestHash :- GetTextOrNull(get, -70006);
      var ref :- GetTextOrNull(get, -70008);
      var nonce :- GetText(get, -70010);
      var prev :- GetTextOrNull(get, -70011);
      Good(ReceiptClaims(payer, payee, amount, currency, policyHash, manifestHash, noManifest, ref,
                         ts, nonce, prev, if outcome == SETTLED then Settled else Aborted))
  }

  predicate ShortText(t: Octets) { |t| <= D.CBOR_MAX_STRING }

  predicate FitText(t: Text) { ScalarFits(CborVal.Text(t)) }

  predicate FitOrNull(t: Option<Text>) { t.Some? ==> FitText(t.value) }

  /** Every claim is a text, integer, boolean or null that one CBOR value may hold. */
  ghost predicate ReceiptFits(c: ReceiptClaims) {
    forall i: nat :: i < 12 ==> ScalarFits(ReceiptValue(c, i))
  }

  /** Receipt claims survive the codec unchanged. */
  lemma {:induction false} ReceiptRoundTrip(c: ReceiptClaims)
    requires ReceiptFits(c)
    requires ReceiptToCbor(c).Ok? ==> |ReceiptToCbor(c).value| <= D.CBOR_MAX_BYTES
    ensures ReceiptToCbor(c).Ok? && ReceiptFromCbor(ReceiptToCbor(c).value) == Good(c)
  {
    var vals := ReceiptValues(c);
    assert forall i :: 0 <= i < 12 ==> vals[i] == ReceiptValue(c, i);
    ScalarsCarry(vals);
    LabelledDecodes(RECEIPT_BASE, vals);
    ReceiptLookUp(c);
  }

  lemma {:induction false} ReceiptValuesKept(c: ReceiptClaims)
    requires ReceiptFits(c)
    ensures forall i :: 0 <= i < 12 ==> Canon(ReceiptValues(c)[i]) == ReceiptValues(c)[i]
  {
    var vals := ReceiptValues(c);
    assert forall i :: 0 <= i < 12 ==> vals[i] == ReceiptValue(c, i);
    ScalarsCarry(vals);
  }

  function ReceiptEntries(c: ReceiptClaims): seq<Entry> { Canon(Map(Labelled(RECEIPT_BASE, ReceiptValues(c)))).entries }

  lemma {:induction false} ReceiptFound(c: ReceiptClaims, i: nat)
    requires ReceiptFits(c) && i < 12
    ensures LookupIn(ReceiptEntries(c))(RECEIPT_BASE - i) == Some(ReceiptValue(c, i))
  {
    LabelledRoundTrip(RECEIPT_BASE, ReceiptValues(c), i);
    ReceiptValuesKept(c);
    assert ReceiptValues(c)[i] == ReceiptValue(c, i);
  }

  lemma {:induction false} ReceiptLookUp(c: ReceiptClaims)
    requires ReceiptFits(c)
    ensures Canon(Map(Labelled(RECEIPT_BASE, ReceiptValues(c)))) == Map(ReceiptEntries(c))
    ensures ReceiptOf(LookupIn(ReceiptEntries(c))) == Good(c)
  {
    var get := LookupIn(ReceiptEntries(c));
    forall i: nat {:trigger ReceiptValue(c, i)} | i < 12 ensures get(RECEIPT_BASE - i) == Some(ReceiptValue(c, i)) {
      ReceiptFound(c, i);
    }
    ReceiptReadBack(c, get);
  }

  lemma {:induction false} ReceiptReadBack(c: ReceiptClaims, get: Lookup)
    requires forall i: nat {:trigger ReceiptValue(c, i)} :: i < 12 ==> get(RECEIPT_BASE - i) == Some(ReceiptValue(c, i))
    ensures ReceiptOf(get) == Good(c)
  {
    assert GetText(get, -70001) == Good(c.payer) by { var _ := ReceiptValue(c, 0); }
    assert GetText(get, -70002) == Good(c.payee) by { var _ := ReceiptValue(c, 1); }
    assert GetText(get, -70003) == Good(c.amount) by { var _ := ReceiptValue(c, 2); }
    assert GetText(get, -70004) == Good(c.currency) by { var _ := ReceiptValue(c, 3); }
    assert GetText(get, -70005) == Good(c.policyHash) by { var _ := ReceiptValue(c, 4); }
    assert GetTextOrNull(get, -70006) == Good(c.manifestHash) by { var _ := ReceiptValue(c, 5); }
    assert GetBool(get, -70007) == Good(c.noManifest) by { var _ := ReceiptValue(c, 6); }
    assert GetTextOrNull(get, -70008) == Good(c.x402PaymentRef) by { var _ := ReceiptValue(c, 7); }
    assert GetInt(get, -70009) == Good(c.timestampMs) by { var _ := ReceiptValue(c, 8); }
    assert GetText(get, -70010) == Good(c.nonce) by { var _ := ReceiptValue(c, 9); }
    assert GetTextOrNull(get, -70011) == Good(c.prevReceiptHash) by { var _ := ReceiptValue(c, 10); }
    assert GetText(get, -70012) == Good(OutcomeText(c.outcome)) by { var _ := ReceiptValue(c, 11); }
  }

  // --------------------------------------------------------- checkpoint claims

  /** Per-currency totals; None is a signed redaction. */
  type Totals = map<Text, Text>

  datatype CheckpointClaims = CheckpointClaims(
    epoch: int, startMs: int, endMs: int, receiptCount: int,
    chainHeadHash: Option<Text>, totals: Option<Totals>, prevCheckpointHash: Option<Text>)

  /** The currencies of a record, each once, in whatever order they are listed. */
  ghost predicate Lists(order: seq<Text>, totals: Totals) {
    && (forall k :: k in order <==> k in totals)
    && (forall i, j :: 0 <= i < j < |order| ==> order[i] != order[j])
  }

  function TotalsEntries(order: seq<Text>, totals: Totals): (entries: seq<Entry>)
    requires forall k :: k in order ==> k in totals
  {
    seq(|order|, i requires 0 <= i < |order| => Entry(CborVal.Text(order[i]), CborVal.Text(totals[order[i]])))
  }

  function TotalsFromEntries(entries: seq<Entry>): Decoded<Totals> {
    if entries == [] then Good(map[])
    else
      var last := entries[|entries| - 1];
      var rest :- TotalsFromEntries(entries[..|entries| - 1]);
      match last
      case Entry(Text(k), Text(v)) => Good(rest[k := v])
      case _ => Bad("totals-types")
  }

  /** The loop of totalsFromCbor: one own property per entry. */
  method ReadTotals(entries: seq<Entry>) returns (out: Decoded<Totals>)
    ensures out.Good? <==> TotalsFromEntries(entries).Good?
    ensures out.Good? ==> out == TotalsFromEntries(entries)
  {
    var acc: Totals := map[];
    for i := 0 to |entries|
      invariant TotalsFromEntries(entries[..i]) == Good(acc)
    {
      assert entries[..i + 1][..i] == entries[..i];
      match entries[i]
      case Entry(Text(k), Text(v)) =>
        acc := acc[k := v];
      case _ =>
        TotalsPrefixFails(entries, i + 1);
        return Bad("totals-types");
    }
    assert entries[..|entries|] == entries;
    return Good(acc);
  }

  lemma {:induction false} TotalsPrefixFails(entries: seq<Entry>, i: nat)
    requires i <= |entries| && TotalsFromEntries(entries[..i]).Bad?
    ensures TotalsFromEntries(entries).Bad?
    decreases |entries|
  {
    if i == |entries| {
      assert entries[..i] == entries;
    } else {
      var init := entries[..|entries| - 1];
      assert init[..i] == entries[..i];
      TotalsPrefixFails(init, i);
    }
  }

  ghost predicate HasKey(entries: seq<Entry>, k: Text) {
    exists e :: e in entries && e.key == CborVal.Text(k)
  }

  /** Reading a record from its entries forgets their order. */
  lemma {:induction false} TotalsOfEntries(entries: seq<Entry>, totals: Totals)
    requires forall e :: e in entries ==> EntryOf(e, totals)
    ensures TotalsFromEntries(entries).Good?
    ensures forall k: Text :: HasKey(entries, k) <==> k in TotalsFromEntries(entries).value
    ensures forall k :: k in TotalsFromEntries(entries).value ==>
      k in totals && TotalsFromEntries(entries).value[k] == totals[k]
  {
    if entries != [] {
      var init, last := entries[..|entries| - 1], entries[|entries| - 1];
      assert last in entries;
      assert EntryOf(last, totals);
      TotalsOfEntries(init, totals);
      assert entries == init + [last];
      assert forall k: Text :: HasKey(entries, k) <==> HasKey(init, k) || last.key == CborVal.Text(k);
    }
  }

  function TotalsToCbor(order: seq<Text>, totals: Option<Totals>): CborVal
    requires totals.Some? ==> forall k :: k in order ==> k in totals.value
  {
    match totals
    case None => CborVal.Null
    case Some(t) => Map(TotalsEntries(order, t))
  }

  const CHECKPOINT_BASE := -70101

  /** The value under label -70101 - i. */
  function CheckpointValue(c: CheckpointClaims, order: seq<Text>, i: nat): CborVal
    requires i < 7
    requires c.totals.Some? ==> forall k :: k in order ==> k in c.totals.value
  {
    match i
    case 0 => Int(c.epoch)
    case 1 => Int(c.startMs)
    case 2 => Int(c.endMs)
    case 3 => Int(c.receiptCount)
    case 4 => TextOrNull(c.chainHeadHash)
    case 5 => TotalsToCbor(order, c.totals)
    case _ => TextOrNull(c.prevCheckpointHash)
  }

  function CheckpointValues(c: CheckpointClaims, order: seq<Text>): (vals: seq<CborVal>)
    requires c.totals.Some? ==> forall k :: k in order ==> k in c.totals.value
    ensures |vals| == 7 && forall i :: 0 <= i < 7 ==> vals[i] == CheckpointValue(c, order, i)
  {
    seq(7, i requires 0 <= i < 7 => CheckpointValue(c, order, i))
  }

  function TotalsOf(v: CborVal): Decoded<Option<Totals>> {
    match v
    case Null => Good(None)
    case Map(t) =>
      var totals :- TotalsFromEntries(t);
      Good(Some(totals))
    case _ => Bad("cbor-not-map")
  }

  function CheckpointToCbor(c: CheckpointClaims, order: seq<Text>): Result<Octets>
    requires c.totals.Some? ==> forall k :: k in order ==> k in c.totals.value
  {
    Encode(Map(Labelled(CHECKPOINT_BASE, CheckpointValues(c, order))))
  }

  function CheckpointFromCbor(bytes: Octets): Decoded<CheckpointClaims> {
    var entries :- AsMap(bytes);
    CheckpointOf(LookupIn(entries))
  }

  function CheckpointOf(get: Lookup): Decoded<CheckpointClaims> {
    var epoch :- GetInt(get, -70101);
    var startMs :- GetInt(get, -70102);
    var endMs :- GetInt(get, -70103);
    var count :- GetInt(get, -70104);
    var head :- GetTextOrNull(get, -70105);
    var prev :- GetTextOrNull(get, -70107);
    match get(-70106)
    case None => Bad("checkpoint-totals")
    case Some(v) =>
      var totals :- TotalsOf(v);
      Good(CheckpointClaims(epoch, startMs, endMs, count, head, totals, prev))
  }

  ghost predicate CheckpointFits(c: CheckpointClaims) {
    && SafeInt(c.epoch) && SafeInt(c.startMs) && SafeInt(c.endMs) && SafeInt(c.receiptCount)
    && FitOrNull(c.chainHeadHash) && FitOrNull(c.prevCheckpointHash)
    && (c.totals.Some? ==>
          && |c.totals.value| <= D.CBOR_MAX_ELEMENTS
          && forall k :: k in c.totals.value ==> FitText(k) && FitText(c.totals.value[k]))
  }

  lemma {:induction false} TextKeysDiffer(a: Text, b: Text)
    requires FitText(a) && FitText(b) && a != b
    ensures Spell(CborVal.Text(a)) != Spell(CborVal.Text(b))
  {
    if Spell(CborVal.Text(a)) == Spell(CborVal.Text(b)) {
      D.ReadSpelled(CborVal.Text(a), [], 0, D.DECODER_LIMITS);
      D.ReadSpelled(CborVal.Text(b), [], 0, D.DECODER_LIMITS);
    }
  }

  lemma {:induction false} OrderLength(order: seq<Text>, totals: Totals)
    requires Lists(order, totals)
    ensures |order| == |totals|
  {
    NoRepeatsCardinality(order);
    assert (set k | k in order) == totals.Keys;
  }

  lemma {:induction false} NoRepeatsCardinality(s: seq<Text>)
    requires forall i, j :: 0 <= i < j < |s| ==> s[i] != s[j]
    ensures |set k | k in s| == |s|
  {
    if s != [] {
      var init, last := s[..|s| - 1], s[|s| - 1];
      NoRepeatsCardinality(init);
      assert (set k | k in s) == (set k | k in init) + {last};
      assert last !in init;
    }
  }

  lemma {:induction false} TotalsCarry(order: seq<Text>, totals: Totals)
    requires Lists(order, totals) && |totals| <= D.CBOR_MAX_ELEMENTS
    requires forall k :: k in totals ==> FitText(k) && FitText(totals[k])
    ensures Carries(Map(TotalsEntries(order, totals)))
    ensures CanonEntries(TotalsEntries(order, totals)) == TotalsEntries(order, totals)
  {
    var entries := TotalsEntries(order, totals);
    OrderLength(order, totals);
    forall i | 0 <= i < |entries|
      ensures CanonEntry(entries[i]) == entries[i]
      ensures EntryEncodable(entries[i]) && EntryFits(entries[i], 2, D.DECODER_LIMITS)
    {
      assert order[i] in order;
    }
    assert CanonEntries(entries) == entries;
    forall i, j | 0 <= i < j < |entries| ensures EntryKey(entries[i]) != EntryKey(entries[j]) {
      assert order[i] in order && order[j] in order;
      TextKeysDiffer(order[i], order[j]);
    }
  }

  /** The record read back from the key-ordered totals map is the record. */
  lemma {:induction false} TotalsRoundTrip(order: seq<Text>, totals: Totals)
    requires Lists(order, totals)
    requires CanonEntries(TotalsEntries(order, totals)) == TotalsEntries(order, totals)
    ensures Canon(Map(TotalsEntries(order, totals))).Map?
    ensures TotalsFromEntries(Canon(Map(TotalsEntries(order, totals))).entries) == Good(totals)
  {
    var sorted := SortBy(TotalsEntries(order, totals), EntryKey);
    TotalsFromPermutation(order, totals, sorted);
  }

  lemma {:induction false} TotalsFromPermutation(order: seq<Text>, totals: Totals, sorted: seq<Entry>)
    requires Lists(order, totals)
    requires multiset(sorted) == multiset(TotalsEntries(order, totals))
    ensures TotalsFromEntries(sorted) == Good(totals)
  {
    TotalsEntriesKept(order, totals, sorted);
    TotalsOfEntries(sorted, totals);
    var back := TotalsFromEntries(sorted).value;
    forall k | k in totals ensures k in back {
      TotalsKeyKept(order, totals, sorted, k);
    }
    assert back == totals;
  }

  ghost predicate EntryOf(e: Entry, totals: Totals) {
    e.key.Text? && e.val.Text? && e.key.utf8 in totals && e.val.utf8 == totals[e.key.utf8]
  }

  lemma {:induction false} TotalsEntriesKept(order: seq<Text>, totals: Totals, sorted: seq<Entry>)
    requires Lists(order, totals)
    requires multiset(sorted) == multiset(TotalsEntries(order, totals))
    ensures forall e :: e in sorted ==> EntryOf(e, totals)
  {
    var entries := TotalsEntries(order, totals);
    forall e | e in sorted ensures EntryOf(e, totals) {
      assert e in multiset(sorted);
      var i :| 0 <= i < |entries| && entries[i] == e;
      assert order[i] in order;
    }
  }

  lemma {:induction false} TotalsKeyKept(order: seq<Text>, totals: Totals, sorted: seq<Entry>, k: Text)
    requires Lists(order, totals) && k in totals
    requires multiset(sorted) == multiset(TotalsEntries(order, totals))
    ensures HasKey(sorted, k)
  {
    var entries := TotalsEntries(order, totals);
    var i :| 0 <= i < |order| && order[i] == k;
    assert entries[i] in multiset(entries);
    assert entries[i] in multiset(sorted);
  }

  lemma {:induction false} CheckpointValueCarries(c: CheckpointClaims, order: seq<Text>, i: nat)
    requires CheckpointFits(c) && (c.totals.Some? ==> Lists(order, c.totals.value)) && i < 7
    ensures Carries(CheckpointValue(c, order, i))
    ensures i != 5 ==> Canon(CheckpointValue(c, order, i)) == CheckpointValue(c, order, i)
  {
    if i == 5 {
      if c.totals.Some? { TotalsCarry(order, c.totals.value); }
    } else {
      assert ScalarFits(CheckpointValue(c, order, i));
      ScalarCarries(CheckpointValue(c, order, i));
    }
  }

  /** Checkpoint claims survive the codec unchanged, redacted totals included,
      whatever order the currencies are listed in. */
  lemma {:induction false} CheckpointRoundTrip(c: CheckpointClaims, order: seq<Text>)
    requires CheckpointFits(c) && (c.totals.Some? ==> Lists(order, c.totals.value))
    requires CheckpointToCbor(c, order).Ok? ==> |CheckpointToCbor(c, order).value| <= D.CBOR_MAX_BYTES
    ensures CheckpointToCbor(c, order).Ok?
    ensures CheckpointFromCbor(CheckpointToCbor(c, order).value) == Good(c)
  {
    var vals := CheckpointValues(c, order);
    forall i | 0 <= i < 7 ensures Carries(vals[i]) { CheckpointValueCarries(c, order, i); }
    LabelledDecodes(CHECKPOINT_BASE, vals);
    CheckpointLookUp(c, order);
  }

  lemma {:induction false} CheckpointLookUp(c: CheckpointClaims, order: seq<Text>)
    requires CheckpointFits(c) && (c.totals.Some? ==> Lists(order, c.totals.value))
    ensures Canon(Map(Labelled(CHECKPOINT_BASE, CheckpointValues(c, order)))).Map?
    ensures CheckpointOf(LookupIn(Canon(Map(Labelled(CHECKPOINT_BASE, CheckpointValues(c, order)))).entries)) == Good(c)
  {
    var vals := CheckpointValues(c, order);
    var get := LookupIn(Canon(Map(Labelled(CHECKPOINT_BASE, vals))).entries);
    forall i: nat | i < 7
      ensures get(CHECKPOINT_BASE - i) == Some(Canon(CheckpointValue(c, order, i)))
    {
      LabelledRoundTrip(CHECKPOINT_BASE, vals, i);
    }
    CheckpointReadBack(c, order, get);
  }

  lemma {:induction false} CheckpointReadBack(c: CheckpointClaims, order: seq<Text>, get: Lookup)
    requires CheckpointFits(c) && (c.totals.Some? ==> Lists(order, c.totals.value))
    requires forall i: nat {:trigger CheckpointValue(c, order, i)} :: i < 7 ==>
      get(CHECKPOINT_BASE - i) == Some(Canon(CheckpointValue(c, order, i)))
    ensures CheckpointOf(get) == Good(c)
  {
    CheckpointScalarsReadBack(c, order, get);
    var totals := Canon(TotalsToCbor(order, c.totals));
    assert get(-70106) == Some(totals) by { var _ := CheckpointValue(c, order, 5); }
    assert TotalsOf(totals) == Good(c.totals) by { TotalsReadBack(c.totals, order); }
    CheckpointOfParts(c, get, totals);
  }

  lemma {:induction false} CheckpointScalarsReadBack(c: CheckpointClaims, order: seq<Text>, get: Lookup)
    requires CheckpointFits(c) && (c.totals.Some? ==> Lists(order, c.totals.value))
    requires forall i: nat {:trigger CheckpointValue(c, order, i)} :: i < 7 ==>
      get(CHECKPOINT_BASE - i) == Some(Canon(CheckpointValue(c, order, i)))
    ensures GetInt(get, -70101) == Good(c.epoch) && GetInt(get, -70102) == Good(c.startMs)
    ensures GetInt(get, -70103) == Good(c.endMs) && GetInt(get, -70104) == Good(c.receiptCount)
    ensures GetTextOrNull(get, -70105) == Good(c.chainHeadHash)
      && GetTextOrNull(get, -70107) == Good(c.prevCheckpointHash)
  {
    assert GetInt(get, -70101) == Good(c.epoch) by { var _ := CheckpointValue(c, order, 0); }
    assert GetInt(get, -70102) == Good(c.startMs) by { var _ := CheckpointValue(c, order, 1); }
    assert GetInt(get, -70103) == Good(c.endMs) by { var _ := CheckpointValue(c, order, 2); }
    assert GetInt(get, -70104) == Good(c.receiptCount) by { var _ := CheckpointValue(c, order, 3); }
    assert GetTextOrNull(get, -70105) == Good(c.chainHeadHash) by { var _ := CheckpointValue(c, order, 4); }
    assert GetTextOrNull(get, -70107) == Good(c.prevCheckpointHash) by { var _ := CheckpointValue(c, order, 6); }
  }

  lemma {:induction false} CheckpointOfParts(c: CheckpointClaims, get: Lookup, totals: CborVal)
    requires GetInt(get, -70101) == Good(c.epoch) && GetInt(get, -70102) == Good(c.startMs)
    requires GetInt(get, -70103) == Good(c.endMs) && GetInt(get, -70104) == Good(c.receiptCount)
    requires GetTextOrNull(get, -70105) == Good(c.chainHeadHash)
      && GetTextOrNull(get, -70107) == Good(c.prevCheckpointHash)
    requires get(-70106) == Some(totals) && TotalsOf(totals) == Good(c.totals)
    ensures CheckpointOf(get) == Good(c)
  {
  }

  lemma {:induction false} TotalsReadBack(totals: Option<Totals>, order: seq<Text>)
    requires totals.Some? ==>
      && Lists(order, totals.value) && |totals.value| <= D.CBOR_MAX_ELEMENTS
      && forall k :: k in totals.value ==> FitText(k) && FitText(totals.value[k])
    ensures TotalsOf(Canon(TotalsToCbor(order, totals))) == Good(totals)
  {
    if totals.Some? {
      TotalsCarry(order, totals.value);
      TotalsRoundTrip(order, totals.value);
    }
  }

  // ----------------------------------------------------------------- COSE_Sign1

  datatype Sign1 = Sign1(protectedHeader: Octets, payload: Octets, signature: Octets)

  function EncodeSign1(m: Sign1): Result<Octets> {
    Encode(Arr([Bytes(m.protectedHeader), Map([]), Bytes(m.payload), Bytes(m.signature)]))
  }

  function DecodeSign1(bytes: Octets): Decoded<Sign1> {
    match D.Decode(bytes)
    case Err(_) => Bad("cbor")
    case Ok(Arr(a)) =>
      if |a| != 4 then Bad("cose-sign1-length")
      else if !(a[0].Bytes? && a[2].Bytes? && a[3].Bytes?) then Bad("cose-sign1-types")
      else if a[1] != Map([]) then Bad("cose-sign1-unprotected")
      else Good(Sign1(a[0].data, a[2].data, a[3].data))
    case Ok(_) => Bad("cbor-not-array")
  }

  /** The message octets and the message determine each other: what decodes to a
      message is exactly its encoding, within the size limits. */
  lemma {:induction false} Sign1Exact(bytes: Octets, m: Sign1)
    ensures DecodeSign1(bytes) == Good(m) <==>
      && EncodeSign1(m) == Ok(bytes) && |bytes| <= D.CBOR_MAX_BYTES
      && ShortText(m.protectedHeader) && ShortText(m.payload) && ShortText(m.signature)
  {
    var a := [Bytes(m.protectedHeader), Map([]), Bytes(m.payload), Bytes(m.signature)];
    Sign1Value(m);
    EncodeIsSpelling(Arr(a));
    D.DecodeAcceptsExactlyCanonical(bytes, Arr(a));
    if DecodeSign1(bytes) == Good(m) {
      var items := D.Decode(bytes).value.items;
      assert items == a;
    }
  }

  lemma {:induction false} Sign1Value(m: Sign1)
    ensures var v := Arr([Bytes(m.protectedHeader), Map([]), Bytes(m.payload), Bytes(m.signature)]);
            && Canonical(v) && Canon(v) == v && Encodable(v)
            && (Fits(v, 0, D.DECODER_LIMITS) <==>
                  ShortText(m.protectedHeader) && ShortText(m.payload) && ShortText(m.signature))
  {
    var a := [Bytes(m.protectedHeader), Map([]), Bytes(m.payload), Bytes(m.signature)];
    forall i | 0 <= i < 4 ensures Canonical(a[i]) {
      assert a[i].Bytes? || a[i] == Map([]);
    }
    CanonOfCanonical(Arr(a));
    if ShortText(m.protectedHeader) && ShortText(m.payload) && ShortText(m.signature) {
      forall i | 0 <= i < 4 ensures Fits(a[i], 1, D.DECODER_LIMITS) {
        assert a[i].Bytes? || a[i] == Map([]);
      }
    }
    if Fits(Arr(a), 0, D.DECODER_LIMITS) {
      assert Fits(a[0], 1, D.DECODER_LIMITS) && Fits(a[2], 1, D.DECODER_LIMITS) && Fits(a[3], 1, D.DECODER_LIMITS);
    }
  }

  const SIGNATURE1: Octets := [0x53, 0x69, 0x67, 0x6E, 0x61, 0x74, 0x75, 0x72, 0x65, 0x31]

  /** The to-be-signed octets (section 4.4 of RFC 9052). */
  function SigStructure(protectedHeader: Octets, payload: Octets): Result<Octets> {
    Encode(Arr([CborVal.Text(SIGNATURE1), Bytes(protectedHeader), Bytes([]), Bytes(payload)]))
  }

  lemma {:induction false} SigStructureValue(h: Octets, p: Octets)
    ensures var v := Arr([CborVal.Text(SIGNATURE1), Bytes(h), Bytes([]), Bytes(p)]);
            Canon(v) == v && Encodable(v)
  {
    var a := [CborVal.Text(SIGNATURE1), Bytes(h), Bytes([]), Bytes(p)];
    AsciiIsUtf8(SIGNATURE1, 0);
    forall i | 0 <= i < 4 ensures Canonical(a[i]) {
      assert a[i].Bytes? || a[i] == CborVal.Text(SIGNATURE1);
    }
    CanonOfCanonical(Arr(a));
  }

  lemma {:induction false} AsciiIsUtf8(b: Octets, i: nat)
    requires i <= |b| && forall k :: 0 <= k < |b| ==> b[k] < 0x80
    ensures WellFormedFrom(b, i)
    decreases |b| - i
  {
    if i < |b| { AsciiIsUtf8(b, i + 1); }
  }

  /** Two signatures over equal octets are over equal headers and equal payloads. */
  lemma {:induction false} SigStructureInjective(h1: Octets, p1: Octets, h2: Octets, p2: Octets)
    requires SigStructure(h1, p1) == SigStructure(h2, p2)
    requires SigStructure(h1, p1).Ok? ==> |SigStructure(h1, p1).value| <= MAX_SAFE
    ensures SigStructure(h1, p1).Ok? && h1 == h2 && p1 == p2
  {
    var a := [CborVal.Text(SIGNATURE1), Bytes(h1), Bytes([]), Bytes(p1)];
    var b := [CborVal.Text(SIGNATURE1), Bytes(h2), Bytes([]), Bytes(p2)];
    SigStructureValue(h1, p1);
    SigStructureValue(h2, p2);
    EncodeIsSpelling(Arr(a));
    EncodeIsSpelling(Arr(b));
    D.EncodingsArePrefixFree(Arr(a), Arr(b), [], []);
    assert a == b;
    assert a[1] == b[1] && a[3] == b[3];
  }
}
