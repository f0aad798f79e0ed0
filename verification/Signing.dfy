/** Signing and verifying. A signed receipt is read back before it is handed out; a checkpoint is
    not, so one whose claims outgrow the decoder is signed all the same and never verifies. */
module Signing {
  import opened Cbor
  import opened Claims
  import opened Octets
  import opened Options
  import opened Records
  import opened Sealing
  import D = CborDecoder

  const COSE_ALG_ED25519 := -19

  /** "application/cedulon-receipt+cbor" and "application/cedulon-checkpoint+cbor". */
  datatype ContentType = ReceiptType | CheckpointType

  const TYPE_FRONT: Octets :=
    [0x61, 0x70, 0x70, 0x6C, 0x69, 0x63, 0x61, 0x74, 0x69, 0x6F,
     0x6E, 0x2F, 0x63, 0x65, 0x64, 0x75, 0x6C, 0x6F, 0x6E, 0x2D]
  const TYPE_END: Octets := [0x2B, 0x63, 0x62, 0x6F, 0x72]
  const RECEIPT_WORD: Octets := [0x72, 0x65, 0x63, 0x65, 0x69, 0x70, 0x74]
  const CHECKPOINT_WORD: Octets := [0x63, 0x68, 0x65, 0x63, 0x6B, 0x70, 0x6F, 0x69, 0x6E, 0x74]

  function TypeText(t: ContentType): (b: Octets)
    ensures |b| <= 35 && forall i :: 0 <= i < |b| ==> b[i] < 0x80
  {
    TYPE_FRONT + (if t == ReceiptType then RECEIPT_WORD else CHECKPOINT_WORD) + TYPE_END
  }

  /** An Ed25519 key: its identifier, and its signature over given octets, which is always the
      same 64 octets. A signature verifies under the key exactly when it is that one. */
  datatype Signer = Signer(kid: Octets, sign: Octets -> Octets) {
    ghost predicate Valid() { |kid| == 8 && forall o :: |sign(o)| == 64 }
  }

  // ------------------------------------------------------------- protected header

  datatype Header = Header(alg: int, contentType: Octets, kid: Octets)

  function HeaderValue(h: Header): CborVal {
    Map([Entry(Int(1), Int(h.alg)), Entry(Int(3), CborVal.Text(h.contentType)), Entry(Int(4), Bytes(h.kid))])
  }

  function EncodeHeader(h: Header): Result<Octets> { Encode(HeaderValue(h)) }

  /** The label of critical headers is refused: none is understood. */
  function DecodeHeader(bytes: Octets): Decoded<Header> {
    var entries :- AsMap(bytes);
    if MapGet(entries, Int(2)).Some? then Bad("cose-protected-header")
    else
      match (MapGet(entries, Int(1)), MapGet(entries, Int(3)), MapGet(entries, Int(4)))
      case (Some(Int(alg)), Some(Text(contentType)), Some(Bytes(kid))) => Good(Header(alg, contentType, kid))
      case _ => Bad("cose-protected-header")
  }

  ghost predicate HeaderFits(h: Header) {
    SafeInt(h.alg) && WellFormedUtf8(h.contentType) && |h.contentType| <= 255 && |h.kid| <= 255
  }

  lemma {:induction false} HeaderIsCanonical(h: Header)
    requires HeaderFits(h)
    ensures Canonical(HeaderValue(h)) && Fits(HeaderValue(h), 0, D.DECODER_LIMITS)
  {
    var entries := HeaderValue(h).entries;
    forall i | 0 <= i < 3
      ensures EntryKey(entries[i]) == [if i == 0 then 1 else i + 2]
      ensures EntryCanonical(entries[i]) && EntryFits(entries[i], 1, D.DECODER_LIMITS)
    {
      assert entries[i].key == Int(if i == 0 then 1 else i + 2);
    }
  }

  lemma {:induction false} HeaderSpelled(h: Header)
    requires HeaderFits(h)
    ensures |Spell(HeaderValue(h))| <= 530
  {
    var entries := HeaderValue(h).entries;
    assert |SpellPair(entries[0])| <= 10 && |SpellPair(entries[1])| <= 258 && |SpellPair(entries[2])| <= 258;
    assert SpellEntries(entries[3..]) == [];
    assert entries[1..][1..] == entries[2..] && entries[2..][1..] == entries[3..];
    assert |SpellEntries(entries[2..])| == |SpellPair(entries[2])|;
    assert |SpellEntries(entries[1..])| == |SpellPair(entries[1])| + |SpellEntries(entries[2..])|;
  }

  lemma {:induction false} HeaderDecodes(h: Header)
    requires HeaderFits(h)
    ensures EncodeHeader(h).Ok? && |EncodeHeader(h).value| <= 530
    ensures D.Decode(EncodeHeader(h).value) == Ok(HeaderValue(h))
  {
    var v := HeaderValue(h);
    HeaderIsCanonical(h);
    CanonOfCanonical(v);
    EncodeIsSpelling(v);
    HeaderSpelled(h);
    D.DecodeOfEncode(v);
  }

  /** A protected header survives the codec, and is short. */
  lemma {:induction false} HeaderRoundTrip(h: Header)
    requires HeaderFits(h)
    ensures EncodeHeader(h).Ok? && |EncodeHeader(h).value| <= 530
    ensures DecodeHeader(EncodeHeader(h).value) == Good(h)
  {
    HeaderDecodes(h);
    HeaderLookUp(h, HeaderValue(h).entries);
  }

  lemma {:induction false} GetPast(e: Entry, rest: seq<Entry>, key: CborVal)
    ensures MapGet([e] + rest, key) == if e.key == key then Some(e.val) else MapGet(rest, key)
  {
    assert ([e] + rest)[1..] == rest;
  }

  lemma {:induction false} HeaderLookUp(h: Header, entries: seq<Entry>)
    requires entries == HeaderValue(h).entries
    ensures MapGet(entries, Int(1)) == Some(Int(h.alg)) && MapGet(entries, Int(2)) == None
    ensures MapGet(entries, Int(3)) == Some(CborVal.Text(h.contentType))
      && MapGet(entries, Int(4)) == Some(Bytes(h.kid))
  {
    var a, b, c := entries[0], entries[1], entries[2];
    assert entries == [a] + ([b] + ([c] + []));
    forall k: int ensures MapGet(entries, Int(k)) ==
      if k == 1 then Some(a.val) else if k == 3 then Some(b.val) else if k == 4 then Some(c.val) else None
    {
      GetPast(a, [b] + ([c] + []), Int(k));
      GetPast(b, [c] + [], Int(k));
      GetPast(c, [], Int(k));
    }
  }

  // ------------------------------------------------------------------------ messages

  function HeaderOf(signer: Signer, t: ContentType): Header { Header(COSE_ALG_ED25519, TypeText(t), signer.kid) }

  function SignMessage(payload: Octets, signer: Signer, t: ContentType): Result<Octets> {
    var protectedHeader :- EncodeHeader(HeaderOf(signer, t));
    var toBeSigned :- SigStructure(protectedHeader, payload);
    EncodeSign1(Sign1(protectedHeader, payload, signer.sign(toBeSigned)))
  }

  predicate Signs(m: Sign1, signer: Signer) {
    SigStructure(m.protectedHeader, m.payload).Ok?
    && m.signature == signer.sign(SigStructure(m.protectedHeader, m.payload).value)
  }

  /** verifyCoseSign1: the message decodes, its header names this algorithm, key and content
      type, and the signature is the key's. */
  predicate VerifyMessage(bytes: Octets, signer: Signer, t: ContentType) {
    && DecodeSign1(bytes).Good?
    && var m := DecodeSign1(bytes).value;
       DecodeHeader(m.protectedHeader) == Good(HeaderOf(signer, t)) && Signs(m, signer)
  }

  /** The message that signing a payload makes. */
  ghost predicate IsMessage(m: Sign1, payload: Octets, signer: Signer, t: ContentType) {
    m.payload == payload && EncodeHeader(HeaderOf(signer, t)) == Ok(m.protectedHeader) && Signs(m, signer)
  }

  lemma {:induction false} SigStructureEncodes(protectedHeader: Octets, payload: Octets)
    ensures SigStructure(protectedHeader, payload).Ok?
  {
    SigStructureValue(protectedHeader, payload);
    EncodeIsSpelling(Arr([CborVal.Text(SIGNATURE1), Bytes(protectedHeader), Bytes([]), Bytes(payload)]));
  }

  lemma {:induction false} HeaderOfFits(signer: Signer, t: ContentType)
    requires signer.Valid()
    ensures HeaderFits(HeaderOf(signer, t))
  {
    AsciiIsUtf8(TypeText(t), 0);
  }

  /** Any payload is signed. */
  lemma {:induction false} SigningSucceeds(payload: Octets, signer: Signer, t: ContentType) returns (m: Sign1)
    requires signer.Valid()
    ensures SignMessage(payload, signer, t).Ok? && EncodeSign1(m) == SignMessage(payload, signer, t)
    ensures IsMessage(m, payload, signer, t) && |m.protectedHeader| <= 530 && |m.signature| == 64
    ensures DecodeHeader(m.protectedHeader) == Good(HeaderOf(signer, t))
  {
    HeaderOfFits(signer, t);
    HeaderRoundTrip(HeaderOf(signer, t));
    var protectedHeader := EncodeHeader(HeaderOf(signer, t)).value;
    SigStructureEncodes(protectedHeader, payload);
    m := Sign1(protectedHeader, payload, signer.sign(SigStructure(protectedHeader, payload).value));
    Sign1Value(m);
    EncodeIsSpelling(Arr([Bytes(m.protectedHeader), Map([]), Bytes(m.payload), Bytes(m.signature)]));
  }

  lemma {:induction false} MessageIsShort(m: Sign1)
    requires EncodeSign1(m).Ok? && |m.protectedHeader| <= 530 && |m.signature| == 64 && ShortText(m.payload)
    ensures |EncodeSign1(m).value| <= D.CBOR_MAX_BYTES
  {
    var a := [Bytes(m.protectedHeader), Map([]), Bytes(m.payload), Bytes(m.signature)];
    Sign1Value(m);
    EncodeIsSpelling(Arr(a));
    assert |Spell(a[0])| <= 539 && |Spell(a[1])| == 1 && |Spell(a[2])| <= 16393 && |Spell(a[3])| <= 73;
    assert a[1..][1..] == a[2..] && a[2..][1..] == a[3..] && a[3..][1..] == [];
    assert |SpellItems(a[3..])| == |Spell(a[3])|;
    assert |SpellItems(a[2..])| == |Spell(a[2])| + |SpellItems(a[3..])|;
    assert |SpellItems(a[1..])| == |Spell(a[1])| + |SpellItems(a[2..])|;
  }

  /** Any payload is signed, and the message reads back and verifies exactly when the payload is
      no longer than one byte string may be. */
  lemma {:induction false} SignedVerifiesExactly(payload: Octets, signer: Signer, t: ContentType)
    requires signer.Valid()
    ensures SignMessage(payload, signer, t).Ok?
    ensures var bytes := SignMessage(payload, signer, t).value;
      && (DecodeSign1(bytes).Good? <==> |payload| <= D.CBOR_MAX_STRING)
      && (DecodeSign1(bytes).Good? ==> DecodeSign1(bytes).value.payload == payload)
      && (VerifyMessage(bytes, signer, t) <==> |payload| <= D.CBOR_MAX_STRING)
  {
    var m := SigningSucceeds(payload, signer, t);
    var bytes := SignMessage(payload, signer, t).value;
    Sign1Exact(bytes, m);
    if |payload| <= D.CBOR_MAX_STRING {
      MessageIsShort(m);
    } else if DecodeSign1(bytes).Good? {
      SameOctetsSameMessage(bytes, m, DecodeSign1(bytes).value);
    }
  }

  lemma {:induction false} SameOctetsSameMessage(bytes: Octets, m: Sign1, other: Sign1)
    requires EncodeSign1(m) == Ok(bytes) && DecodeSign1(bytes) == Good(other)
    ensures m == other
  {
    Sign1Exact(bytes, other);
    Sign1Value(m);
    Sign1Value(other);
    var a := [Bytes(m.protectedHeader), Map([]), Bytes(m.payload), Bytes(m.signature)];
    var b := [Bytes(other.protectedHeader), Map([]), Bytes(other.payload), Bytes(other.signature)];
    EncodeIsSpelling(Arr(a));
    EncodeIsSpelling(Arr(b));
    D.EncodingsArePrefixFree(Arr(a), Arr(b), [], []);
    assert a == b;
    assert a[0] == b[0] && a[2] == b[2] && a[3] == b[3];
  }

  // --------------------------------------------------------- receipts and checkpoints

  /** signReceiptCose: refused when its own message does not decode. */
  function SignReceipt(c: ReceiptClaims, signer: Signer): Result<Octets> {
    var payload :- ReceiptToCbor(c);
    var bytes :- SignMessage(payload, signer, ReceiptType);
    if DecodeSign1(bytes).Good? then Ok(bytes) else Err(TooLarge)
  }

  predicate VerifyReceipt(bytes: Octets, c: ReceiptClaims, signer: Signer) {
    && (c.noManifest <==> c.manifestHash.None?)
    && VerifyMessage(bytes, signer, ReceiptType)
    && ReceiptFromCbor(DecodeSign1(bytes).value.payload) == Good(c)
  }

  /** A receipt is signed exactly when its claims fit into one byte string, and whatever receipt
      is signed verifies. */
  lemma {:induction false} SignedReceiptVerifies(c: ReceiptClaims, signer: Signer)
    requires signer.Valid() && ReceiptTexts(c) && (c.noManifest <==> c.manifestHash.None?)
    ensures SignReceipt(c, signer).Ok? <==> ReceiptSize(c) <= D.CBOR_MAX_STRING
    ensures SignReceipt(c, signer).Ok? ==> VerifyReceipt(SignReceipt(c, signer).value, c, signer)
  {
    ReceiptEncodes(c);
    var payload := ReceiptToCbor(c).value;
    SignedVerifiesExactly(payload, signer, ReceiptType);
    if |payload| <= D.CBOR_MAX_STRING {
      SmallReceiptFits(c, ReceiptSize(c) - 61);
      ReceiptRoundTrip(c);
    }
  }

  /** signCheckpoint: what it signs is not read back. */
  function SignCheckpoint(c: CheckpointClaims, order: seq<Text>, signer: Signer): Result<Octets>
    requires c.totals.Some? ==> forall k :: k in order ==> k in c.totals.value
  {
    var payload :- CheckpointToCbor(c, order);
    SignMessage(payload, signer, CheckpointType)
  }

  predicate VerifyCheckpoint(bytes: Octets, c: CheckpointClaims, signer: Signer) {
    VerifyMessage(bytes, signer, CheckpointType)
    && CheckpointFromCbor(DecodeSign1(bytes).value.payload) == Good(c)
  }

  /** Every checkpoint is signed, and it verifies exactly when its claims fit into one byte string
      and its totals into one map. */
  lemma {:induction false} SignedCheckpointVerifiesExactly(c: CheckpointClaims, order: seq<Text>, signer: Signer)
    requires signer.Valid() && CheckpointTexts(c) && (c.totals.Some? ==> Lists(order, c.totals.value))
    ensures SignCheckpoint(c, order, signer).Ok?
    ensures VerifyCheckpoint(SignCheckpoint(c, order, signer).value, c, signer) <==>
      && CheckpointSize(c, order) <= D.CBOR_MAX_STRING
      && (c.totals.Some? ==> |c.totals.value| <= D.CBOR_MAX_ELEMENTS)
  {
    CheckpointEncodes(c, order);
    var payload := CheckpointToCbor(c, order).value;
    SignedVerifiesExactly(payload, signer, CheckpointType);
    if |payload| <= D.CBOR_MAX_STRING {
      if c.totals.Some? ==> |c.totals.value| <= D.CBOR_MAX_ELEMENTS {
        SmallCheckpointFits(c, order);
        CheckpointRoundTrip(c, order);
      } else if CheckpointFromCbor(payload) == Good(c) {
        TooManyCurrencies(c, payload);
      }
    }
  }

  lemma {:induction false} TotalsCounted(entries: seq<Entry>)
    requires TotalsFromEntries(entries).Good?
    ensures |TotalsFromEntries(entries).value| <= |entries|
  {
    if entries != [] {
      TotalsCounted(entries[..|entries| - 1]);
    }
  }

  lemma {:induction false} TotalsReadFrom(c: CheckpointClaims, get: Lookup)
    requires CheckpointOf(get) == Good(c) && c.totals.Some?
    ensures get(-70106).Some? && get(-70106).value.Map?
      && TotalsFromEntries(get(-70106).value.entries) == Good(c.totals.value)
  {
  }

  lemma {:induction false} MapInMapFits(entries: seq<Entry>, i: nat, lim: Limits)
    requires Fits(Map(entries), 0, lim) && i < |entries| && entries[i].val.Map?
    ensures |entries[i].val.entries| <= lim.elements
  {
    var e := entries[i];
    assert EntryFits(e, 1, lim);
    assert Fits(e.val, 1, lim) && e.val == Map(e.val.entries);
  }

  lemma {:induction false} DecodedMapFits(payload: Octets, entries: seq<Entry>, i: nat)
    requires D.Decode(payload) == Ok(Map(entries)) && i < |entries| && entries[i].val.Map?
    ensures |entries[i].val.entries| <= D.CBOR_MAX_ELEMENTS
  {
    assert Fits(Map(entries), 0, D.DECODER_LIMITS) by { D.DecodeAcceptsExactlyCanonical(payload, Map(entries)); }
    MapInMapFits(entries, i, D.DECODER_LIMITS);
  }

  /** No octets decode to claims with more currencies than a map may have. */
  lemma {:induction false} TooManyCurrencies(c: CheckpointClaims, payload: Octets)
    requires CheckpointFromCbor(payload) == Good(c) && c.totals.Some?
    ensures |c.totals.value| <= D.CBOR_MAX_ELEMENTS
  {
    var entries := D.Decode(payload).value.entries;
    TotalsReadFrom(c, LookupIn(entries));
    MapGetIn(entries, Int(-70106));
    var t := MapGet(entries, Int(-70106)).value;
    var i :| 0 <= i < |entries| && entries[i].val == t;
    DecodedMapFits(payload, entries, i);
    TotalsCounted(t.entries);
  }

  lemma {:induction false} MapGetIn(entries: seq<Entry>, key: CborVal)
    requires MapGet(entries, key).Some?
    ensures exists i :: 0 <= i < |entries| && entries[i].val == MapGet(entries, key).value
  {
    if entries[0].key != key {
      MapGetIn(entries[1..], key);
      var i :| 0 <= i < |entries[1..]| && entries[1..][i].val == MapGet(entries, key).value;
      assert entries[i + 1].val == MapGet(entries, key).value;
    }
  }
}
