/** The bounded decoder as a function of the octets still to be read, and the
    theorems that tie it to the encoder. */
module CborDecoder {
  import opened Octets
  import opened Cbor

  const CBOR_MAX_BYTES: nat := 65_536
  const CBOR_MAX_DEPTH: nat := 16
  const CBOR_MAX_ELEMENTS: nat := 4_096
  const CBOR_MAX_STRING: nat := 16_384

  const DECODER_LIMITS: Limits := Limits(CBOR_MAX_DEPTH, CBOR_MAX_ELEMENTS, CBOR_MAX_STRING)

  /** A value read off the front, and the octets behind it. */
  datatype Parsed<+T> = Parsed(value: T, rest: Octets)

  function ReadFixed(b: Octets, width: nat): (r: Result<Parsed<nat>>)
    ensures r.Ok? ==> r.value.value < Pow256(width) && |r.value.rest| == |b| - width
  {
    if |b| < width then Err(Eof)
    else
      FromBigEndianRoundTrip(b[..width]);
      Ok(Parsed(FromBigEndian(b[..width]), b[width..]))
  }

  function ReadLength(b: Octets, ai: nat): (r: Result<Parsed<nat>>)
    ensures r.Ok? ==> |r.value.rest| <= |b| && r.value.value <= MAX_SAFE
  {
    assert Pow256(1) == 0x100 && Pow256(2) == 0x1_0000 && Pow256(4) == 0x1_0000_0000;
    if ai < 24 then Ok(Parsed(ai, b))
    else if ai == 24 then ReadFixed(b, 1)
    else if ai == 25 then ReadFixed(b, 2)
    else if ai == 26 then ReadFixed(b, 4)
    else if ai == 27 then
      var wide :- ReadFixed(b, 8);
      if wide.value > MAX_SAFE then Err(TooLarge) else Ok(wide)
    else Err(Indefinite)
  }

  function ReadVal(b: Octets, depth: nat, lim: Limits): (r: Result<Parsed<CborVal>>)
    ensures r.Ok? ==> |r.value.rest| < |b|
    decreases |b|, 0
  {
    if depth > lim.depth then Err(TooDeep)
    else if b == [] then Err(Eof)
    else if b[0] == 0xF4 then Ok(Parsed(Bool(false), b[1..]))
    else if b[0] == 0xF5 then Ok(Parsed(Bool(true), b[1..]))
    else if b[0] == 0xF6 then Ok(Parsed(Null, b[1..]))
    else if b[0] / 32 > MT_MAP then Err(Unsupported)
    else
      var len :- ReadLength(b[1..], b[0] % 32);
      ReadBody(b[0] / 32, len.value, len.rest, depth, lim)
  }

  /** What follows a head of the given major type and argument. */
  function ReadBody(major: nat, n: nat, b: Octets, depth: nat, lim: Limits): (r: Result<Parsed<CborVal>>)
    ensures r.Ok? ==> |r.value.rest| <= |b|
    decreases |b|, 2
  {
    if major == MT_UINT then Ok(Parsed(Int(n), b))
    else if major == MT_NINT then
      if n >= MAX_SAFE then Err(TooLarge) else Ok(Parsed(Int(-1 - n), b))
    else if major == MT_BSTR || major == MT_TSTR then
      if n > lim.text then Err(TooLarge)
      else if n > |b| then Err(Eof)
      else if major == MT_BSTR then Ok(Parsed(Bytes(b[..n]), b[n..]))
      else if WellFormedUtf8(b[..n]) then Ok(Parsed(Text(b[..n]), b[n..]))
      else Err(InvalidText)
    else if n > lim.elements then Err(TooLarge)
    else if major == MT_ARRAY then
      if n > |b| then Err(Eof)
      else
        var items :- ReadItems(b, n, depth + 1, lim);
        Ok(Parsed(Arr(items.value), items.rest))
    else if n * 2 > |b| then Err(Eof)
    else
      var entries :- ReadEntries(b, n, {}, depth + 1, lim);
      Ok(Parsed(Map(entries.value), entries.rest))
  }

  function ReadItems(b: Octets, n: nat, depth: nat, lim: Limits): (r: Result<Parsed<seq<CborVal>>>)
    ensures r.Ok? ==> |r.value.rest| <= |b| && |r.value.value| == n
    decreases |b|, 1
  {
    if n == 0 then Ok(Parsed([], b))
    else
      var first :- ReadVal(b, depth, lim);
      var rest :- ReadItems(first.rest, n - 1, depth, lim);
      Ok(Parsed([first.value] + rest.value, rest.rest))
  }

  function ReadEntries(b: Octets, n: nat, seen: set<Octets>, depth: nat, lim: Limits)
    : (r: Result<Parsed<seq<Entry>>>)
    ensures r.Ok? ==> |r.value.rest| <= |b| && |r.value.value| == n
    decreases |b|, 1
  {
    if n == 0 then Ok(Parsed([], b))
    else
      var key :- ReadVal(b, depth, lim);
      var val :- ReadVal(key.rest, depth, lim);
      var id :- Encode(key.value);
      if id in seen then Err(DuplicateKey)
      else
        var rest :- ReadEntries(val.rest, n - 1, seen + {id}, depth, lim);
        Ok(Parsed([Entry(key.value, val.value)] + rest.value, rest.rest))
  }

  function Decode(b: Octets): (r: Result<CborVal>) {
    if |b| > CBOR_MAX_BYTES then Err(TooLarge)
    else
      var top :- ReadVal(b, 0, DECODER_LIMITS);
      if top.rest != [] then Err(Trailing)
      else
        var again :- Encode(top.value);
        if again != b then Err(NonDeterministic) else Ok(top.value)
  }

  // -------------------------------------------------------- reading back a head

  lemma {:induction false} ReadFixedSpelled(n: nat, width: nat, rest: Octets)
    requires n < Pow256(width)
    ensures ReadFixed(BigEndian(n, width) + rest, width) == Ok(Parsed(n, rest))
  {
    var b := BigEndian(n, width) + rest;
    assert b[..width] == BigEndian(n, width) && b[width..] == rest;
    BigEndianRoundTrip(n, width);
  }

  lemma {:induction false} ReadHead(major: nat, n: nat, rest: Octets)
    requires major <= MT_MAP && n <= MAX_SAFE
    ensures var b := Head(major, n) + rest;
            && b != [] && b[0] / 32 == major
            && ReadLength(b[1..], b[0] % 32) == Ok(Parsed(n, rest))
  {
    var b := Head(major, n) + rest;
    var width := if n < 24 then 0 else if n < 0x100 then 1 else if n < 0x1_0000 then 2
                 else if n <= 0xFFFF_FFFF then 4 else 8;
    assert Pow256(1) == 0x100 && Pow256(2) == 0x1_0000 && Pow256(4) == 0x1_0000_0000;
    assert Pow256(8) == 0x1_0000_0000_0000_0000;
    if width == 0 {
      assert b[1..] == rest;
    } else {
      assert b[1..] == BigEndian(n, width) + rest;
      ReadFixedSpelled(n, width, rest);
    }
  }

  // ------------------------------------------------------ parser after printer

  /** Reading the spelling of a canonical value within the limits, with anything
      behind it, gives that value and leaves exactly what was behind it. */
  lemma {:induction false} ReadSpelled(v: CborVal, rest: Octets, depth: nat, lim: Limits)
    requires Canonical(v) && Fits(v, depth, lim) && lim.Valid()
    ensures ReadVal(Spell(v) + rest, depth, lim) == Ok(Parsed(v, rest))
    decreases v, 1
  {
    match v
    case Null => assert (Spell(v) + rest)[1..] == rest;
    case Bool(_) => assert (Spell(v) + rest)[1..] == rest;
    case Int(n) => ReadIntSpelled(n, rest, depth, lim);
    case Text(t) => ReadStringSpelled(MT_TSTR, t, rest, depth, lim);
    case Bytes(d) => ReadStringSpelled(MT_BSTR, d, rest, depth, lim);
    case Arr(items) =>
      ReadItemsSpelled(items, rest, depth + 1, lim);
      ReadArrSpelled(items, rest, depth, lim);
    case Map(entries) =>
      ReadEntriesSpelled(entries, {}, rest, depth + 1, lim);
      ReadMapSpelled(entries, rest, depth, lim);
  }

  lemma {:induction false} ReadAfterHead(major: nat, n: nat, body: Octets, depth: nat, lim: Limits)
    requires major <= MT_MAP && n <= MAX_SAFE && depth <= lim.depth
    ensures ReadVal(Head(major, n) + body, depth, lim) == ReadBody(major, n, body, depth, lim)
  {
    ReadHead(major, n, body);
  }

  lemma {:induction false} ReadArrSpelled(items: seq<CborVal>, rest: Octets, depth: nat, lim: Limits)
    requires depth <= lim.depth && lim.Valid() && |items| <= lim.elements
    requires ReadItems(SpellItems(items) + rest, |items|, depth + 1, lim) == Ok(Parsed(items, rest))
    ensures ReadVal(Spell(Arr(items)) + rest, depth, lim) == Ok(Parsed(Arr(items), rest))
  {
    var body := SpellItems(items) + rest;
    assert Spell(Arr(items)) + rest == Head(MT_ARRAY, |items|) + body;
    ReadAfterHead(MT_ARRAY, |items|, body, depth, lim);
  }

  lemma MapText(entries: seq<Entry>, rest: Octets)
    ensures Spell(Map(entries)) + rest == Head(MT_MAP, |entries|) + (SpellEntries(entries) + rest)
  {
  }

  lemma {:induction false} ReadMapSpelled(entries: seq<Entry>, rest: Octets, depth: nat, lim: Limits)
    requires depth <= lim.depth && lim.Valid() && |entries| <= lim.elements
    requires ReadEntries(SpellEntries(entries) + rest, |entries|, {}, depth + 1, lim) == Ok(Parsed(entries, rest))
    ensures ReadVal(Spell(Map(entries)) + rest, depth, lim) == Ok(Parsed(Map(entries), rest))
  {
    var body := SpellEntries(entries) + rest;
    MapText(entries, rest);
    ReadAfterHead(MT_MAP, |entries|, body, depth, lim);
  }

  lemma {:induction false} ReadIntSpelled(n: int, rest: Octets, depth: nat, lim: Limits)
    requires SafeInt(n) && depth <= lim.depth
    ensures ReadVal(IntHead(n) + rest, depth, lim) == Ok(Parsed(Int(n), rest))
  {
    if n >= 0 {
      ReadAfterHead(MT_UINT, n, rest, depth, lim);
    } else {
      ReadAfterHead(MT_NINT, -1 - n, rest, depth, lim);
    }
  }

  lemma {:induction false} ReadStringSpelled(major: nat, d: Octets, rest: Octets, depth: nat, lim: Limits)
    requires major == MT_BSTR || (major == MT_TSTR && WellFormedUtf8(d))
    requires |d| <= lim.text && depth <= lim.depth && lim.Valid()
    ensures ReadVal(Head(major, |d|) + d + rest, depth, lim)
            == Ok(Parsed(if major == MT_BSTR then Bytes(d) else Text(d), rest))
  {
    assert Head(major, |d|) + d + rest == Head(major, |d|) + (d + rest);
    ReadAfterHead(major, |d|, d + rest, depth, lim);
    assert (d + rest)[..|d|] == d && (d + rest)[|d|..] == rest;
  }

  lemma {:induction false} ReadItemsSpelled(items: seq<CborVal>, rest: Octets, depth: nat, lim: Limits)
    requires lim.Valid()
    requires forall i :: 0 <= i < |items| ==> Canonical(items[i]) && Fits(items[i], depth, lim)
    ensures ReadItems(SpellItems(items) + rest, |items|, depth, lim) == Ok(Parsed(items, rest))
    decreases items, 0
  {
    if items == [] {
      assert SpellItems(items) + rest == rest;
    } else {
      var tail := items[1..];
      var behind := SpellItems(tail) + rest;
      assert SpellItems(items) + rest == Spell(items[0]) + behind;
      ReadSpelled(items[0], behind, depth, lim);
      assert forall i :: 0 <= i < |tail| ==> tail[i] == items[i + 1];
      ReadItemsSpelled(tail, rest, depth, lim);
      assert [items[0]] + tail == items;
    }
  }

  lemma {:induction false} ReadEntriesSpelled(
      entries: seq<Entry>, seen: set<Octets>, rest: Octets, depth: nat, lim: Limits)
    requires lim.Valid()
    requires forall i :: 0 <= i < |entries| ==>
      && EntryCanonical(entries[i]) && EntryFits(entries[i], depth, lim)
      && EntryKey(entries[i]) !in seen
    requires StrictlyAscending(entries, EntryKey)
    ensures ReadEntries(SpellEntries(entries) + rest, |entries|, seen, depth, lim) == Ok(Parsed(entries, rest))
    decreases entries, 0
  {
    if entries == [] {
      assert SpellEntries(entries) + rest == rest;
    } else {
      var e, tail := entries[0], entries[1..];
      var behind := SpellEntries(tail) + rest;
      assert SpellEntries(entries) + rest == SpellPair(e) + behind;
      ReadPairSpelled(e, behind, depth, lim);
      CanonOfCanonical(e.key);
      EncodeIsSpelling(e.key);
      var seen' := seen + {EntryKey(e)};
      forall i | 0 <= i < |tail|
        ensures tail[i] == entries[i + 1] && EntryKey(tail[i]) !in seen'
      {
        assert LexLess(EntryKey(entries[0]), EntryKey(entries[i + 1]));
        LexLessIrreflexive(EntryKey(e));
      }
      ReadEntriesSpelled(tail, seen', rest, depth, lim);
      assert [e] + tail == entries;
    }
  }

  lemma {:induction false} ReadPairSpelled(e: Entry, rest: Octets, depth: nat, lim: Limits)
    requires lim.Valid()
    requires EntryCanonical(e) && EntryFits(e, depth, lim)
    ensures ReadVal(SpellPair(e) + rest, depth, lim) == Ok(Parsed(e.key, Spell(e.val) + rest))
    ensures ReadVal(Spell(e.val) + rest, depth, lim) == Ok(Parsed(e.val, rest))
    decreases e, 0
  {
    assert SpellPair(e) + rest == Spell(e.key) + (Spell(e.val) + rest);
    ReadSpelled(e.key, Spell(e.val) + rest, depth, lim);
    ReadSpelled(e.val, rest, depth, lim);
  }

  // ---------------------------------------------- what reading guarantees at all

  /** Whatever is read is encodable and within the limits, even when it is not
      canonical. */
  lemma {:induction false} ReadIsEncodable(b: Octets, depth: nat, lim: Limits)
    requires ReadVal(b, depth, lim).Ok?
    ensures var v := ReadVal(b, depth, lim).value.value; Encodable(v) && Fits(v, depth, lim)
    decreases |b|, 0
  {
    if b[0] / 32 <= MT_MAP {
      var major := b[0] / 32;
      var len := ReadLength(b[1..], b[0] % 32).value;
      if major == MT_ARRAY {
        ReadItemsEncodable(len.rest, len.value, depth + 1, lim);
      } else if major == MT_MAP {
        ReadEntriesEncodable(len.rest, len.value, {}, depth + 1, lim);
      }
    }
  }

  lemma {:induction false} ReadItemsEncodable(b: Octets, n: nat, depth: nat, lim: Limits)
    requires ReadItems(b, n, depth, lim).Ok?
    ensures var items := ReadItems(b, n, depth, lim).value.value;
            forall i :: 0 <= i < n ==> Encodable(items[i]) && Fits(items[i], depth, lim)
    decreases |b|, 1
  {
    if n > 0 {
      ReadIsEncodable(b, depth, lim);
      ReadItemsEncodable(ReadVal(b, depth, lim).value.rest, n - 1, depth, lim);
    }
  }

  ghost predicate EntryReadable(e: Entry, depth: nat, lim: Limits) {
    EntryEncodable(e) && EntryFits(e, depth, lim)
  }

  ghost predicate EntriesReadable(entries: seq<Entry>, seen: set<Octets>, depth: nat, lim: Limits) {
    && (forall i :: 0 <= i < |entries| ==>
          EntryReadable(entries[i], depth, lim) && EntryKey(CanonEntry(entries[i])) !in seen)
    && DistinctKeys(CanonEntries(entries), EntryKey)
  }

  lemma {:induction false} EntriesReadableCons(e: Entry, tail: seq<Entry>, seen: set<Octets>, depth: nat, lim: Limits)
    requires EntryReadable(e, depth, lim) && EntryKey(CanonEntry(e)) !in seen
    requires EntriesReadable(tail, seen + {EntryKey(CanonEntry(e))}, depth, lim)
    ensures EntriesReadable([e] + tail, seen, depth, lim)
  {
    var canon := CanonEntries(tail);
    var id := EntryKey(CanonEntry(e));
    forall t | t in canon ensures EntryKey(t) != id {
      var i :| 0 <= i < |canon| && canon[i] == t;
      assert canon[i] == CanonEntry(tail[i]);
    }
    DistinctCons(CanonEntry(e), canon, EntryKey);
    assert ([e] + tail)[1..] == tail;
    assert CanonEntries([e] + tail) == [CanonEntry(e)] + canon;
  }

  lemma {:induction false} ReadEntryEncodable(b: Octets, depth: nat, lim: Limits)
    requires ReadVal(b, depth, lim).Ok? && ReadVal(ReadVal(b, depth, lim).value.rest, depth, lim).Ok?
    ensures var key := ReadVal(b, depth, lim).value;
      var e := Entry(key.value, ReadVal(key.rest, depth, lim).value.value);
      EntryReadable(e, depth, lim) && Encode(key.value) == Ok(EntryKey(CanonEntry(e)))
    decreases |b|, 1
  {
    var key := ReadVal(b, depth, lim).value;
    ReadIsEncodable(b, depth, lim);
    ReadIsEncodable(key.rest, depth, lim);
    EncodeIsSpelling(key.value);
  }

  lemma {:induction false} ReadEntriesEncodable(b: Octets, n: nat, seen: set<Octets>, depth: nat, lim: Limits)
    requires ReadEntries(b, n, seen, depth, lim).Ok?
    ensures EntriesReadable(ReadEntries(b, n, seen, depth, lim).value.value, seen, depth, lim)
    decreases |b|, 2
  {
    if n > 0 {
      var key := ReadVal(b, depth, lim).value;
      var val := ReadVal(key.rest, depth, lim).value;
      ReadEntryEncodable(b, depth, lim);
      var id := Encode(key.value).value;
      ReadEntriesEncodable(val.rest, n - 1, seen + {id}, depth, lim);
      var tail := ReadEntries(val.rest, n - 1, seen + {id}, depth, lim).value.value;
      EntriesReadableCons(Entry(key.value, val.value), tail, seen, depth, lim);
    }
  }

  // ------------------------------------------------------------- the theorems

  /** The decoder accepts a byte string exactly when it is, within the size limit,
      the one spelling of a canonical value that fits the other limits; and then
      that value is the result. */
  lemma {:induction false} DecodeAcceptsExactlyCanonical(b: Octets, v: CborVal)
    ensures Decode(b) == Ok(v) <==>
      && |b| <= CBOR_MAX_BYTES && b == Spell(v)
      && Canonical(v) && Fits(v, 0, DECODER_LIMITS)
  {
    if Decode(b) == Ok(v) {
      ReadIsEncodable(b, 0, DECODER_LIMITS);
      EncodeIsSpelling(v);
      CanonIsCanonical(v, 0, DECODER_LIMITS);
      ReadSpelled(Canon(v), [], 0, DECODER_LIMITS);
      assert Spell(Canon(v)) + [] == b;
      assert Canon(v) == v;
    }
    if |b| <= CBOR_MAX_BYTES && b == Spell(v) && Canonical(v) && Fits(v, 0, DECODER_LIMITS) {
      ReadSpelled(v, [], 0, DECODER_LIMITS);
      assert Spell(v) + [] == b;
      CanonOfCanonical(v);
      EncodeIsSpelling(v);
    }
  }

  /** For every value within the limits, decoding its encoding gives the value
      back with its maps in key order. */
  lemma {:induction false} DecodeOfEncode(v: CborVal)
    requires Encodable(v) && Fits(v, 0, DECODER_LIMITS)
    requires |Spell(Canon(v))| <= CBOR_MAX_BYTES
    ensures Encode(v).Ok? && Decode(Encode(v).value) == Ok(Canon(v))
  {
    EncodeIsSpelling(v);
    CanonIsCanonical(v, 0, DECODER_LIMITS);
    DecodeAcceptsExactlyCanonical(Spell(Canon(v)), Canon(v));
  }

  /** Accepted octets and values correspond one to one: no two byte strings
      decode to one value, and re-encoding an accepted one gives it back. */
  lemma {:induction false} AcceptedIsInjective(a: Octets, b: Octets)
    requires Decode(a).Ok? && Decode(a) == Decode(b)
    ensures a == b && Encode(Decode(a).value) == Ok(a)
  {
    var v := Decode(a).value;
    DecodeAcceptsExactlyCanonical(a, v);
    DecodeAcceptsExactlyCanonical(b, v);
    CanonOfCanonical(v);
    EncodeIsSpelling(v);
  }

  // ------------------------------------------------------ without any bounds

  /** A value whose spelling has m octets fits limits as wide as m. */
  lemma {:induction false} FitsOwnSize(v: CborVal, depth: nat, m: nat)
    requires |Spell(v)| <= m
    ensures Fits(v, depth, Limits(depth + m, m, m))
    decreases v
  {
    match v
    case Arr(items) =>
      SpellItemsParts(items);
      forall i | 0 <= i < |items| ensures Fits(items[i], depth + 1, Limits(depth + m, m, m)) {
        FitsOwnSize(items[i], depth + 1, m - 1);
        FitsWider(items[i], depth + 1, m - 1, m);
      }
    case Map(entries) =>
      SpellEntriesParts(entries);
      forall i | 0 <= i < |entries|
        ensures EntryFits(entries[i], depth + 1, Limits(depth + m, m, m))
      {
        FitsOwnSizeEntry(entries[i], depth + 1, m - 1);
      }
    case _ =>
  }

  lemma {:induction false} FitsOwnSizeEntry(e: Entry, depth: nat, m: nat)
    requires |Spell(e.key)| <= m && |Spell(e.val)| <= m
    ensures EntryFits(e, depth, Limits(depth + m, m + 1, m + 1))
    decreases e, 1
  {
    FitsOwnSize(e.key, depth, m);
    FitsOwnSize(e.val, depth, m);
    FitsWider(e.key, depth, m, m + 1);
    FitsWider(e.val, depth, m, m + 1);
  }

  lemma {:induction false} FitsWider(v: CborVal, depth: nat, m: nat, wide: nat)
    requires Fits(v, depth, Limits(depth + m, m, m)) && m <= wide
    ensures Fits(v, depth, Limits(depth + m, wide, wide))
  {
    FitsMore(v, depth, Limits(depth + m, m, m), Limits(depth + m, wide, wide));
  }

  lemma {:induction false} FitsMore(v: CborVal, depth: nat, lim: Limits, wide: Limits)
    requires Fits(v, depth, lim)
    requires lim.depth <= wide.depth && lim.elements <= wide.elements && lim.text <= wide.text
    ensures Fits(v, depth, wide)
    decreases v
  {
    match v
    case Arr(items) =>
      forall i | 0 <= i < |items| ensures Fits(items[i], depth + 1, wide) {
        FitsMore(items[i], depth + 1, lim, wide);
      }
    case Map(entries) =>
      forall i | 0 <= i < |entries| ensures EntryFits(entries[i], depth + 1, wide) {
        assert EntryFits(entries[i], depth + 1, lim);
        FitsMore(entries[i].key, depth + 1, lim, wide);
        FitsMore(entries[i].val, depth + 1, lim, wide);
      }
    case _ =>
  }

  lemma {:induction false} SpellItemsParts(items: seq<CborVal>)
    ensures forall i :: 0 <= i < |items| ==> |Spell(items[i])| <= |SpellItems(items)|
  {
    if items != [] {
      SpellItemsParts(items[1..]);
      assert forall i :: 1 <= i < |items| ==> items[i] == items[1..][i - 1];
    }
  }

  lemma {:induction false} SpellEntriesParts(entries: seq<Entry>)
    ensures forall i :: 0 <= i < |entries| ==>
      |Spell(entries[i].key)| + |Spell(entries[i].val)| <= |SpellEntries(entries)|
  {
    if entries != [] {
      SpellEntriesParts(entries[1..]);
      assert forall i :: 1 <= i < |entries| ==> entries[i] == entries[1..][i - 1];
    }
  }

  /** No encoding is a proper prefix of another, whatever the sizes; equal
      encodings are of one value. */
  lemma {:induction false} EncodingsArePrefixFree(v: CborVal, w: CborVal, behindV: Octets, behindW: Octets)
    requires Encode(v).Ok? && Encode(w).Ok?
    requires Encode(v).value + behindV == Encode(w).value + behindW
    requires |Encode(v).value| <= MAX_SAFE && |Encode(w).value| <= MAX_SAFE
    ensures Canon(v) == Canon(w) && Encode(v) == Encode(w) && behindV == behindW
  {
    EncodeIsSpelling(v);
    EncodeIsSpelling(w);
    CanonicalOfEncodable(v);
    CanonicalOfEncodable(w);
    SpellingsArePrefixFree(Canon(v), Canon(w), behindV, behindW);
  }

  lemma {:induction false} SpellingsArePrefixFree(a: CborVal, b: CborVal, behindA: Octets, behindB: Octets)
    requires Canonical(a) && Canonical(b) && |Spell(a)| <= MAX_SAFE && |Spell(b)| <= MAX_SAFE
    requires Spell(a) + behindA == Spell(b) + behindB
    ensures a == b && behindA == behindB
  {
    var m := if |Spell(a)| < |Spell(b)| then |Spell(b)| else |Spell(a)|;
    ReadBack(a, behindA, m);
    ReadBack(b, behindB, m);
  }

  lemma {:induction false} ReadBack(v: CborVal, rest: Octets, m: nat)
    requires Canonical(v) && |Spell(v)| <= m <= MAX_SAFE
    ensures ReadVal(Spell(v) + rest, 0, Limits(m, m, m)) == Ok(Parsed(v, rest))
  {
    FitsOwnSize(v, 0, m);
    ReadSpelled(v, rest, 0, Limits(m, m, m));
  }

  lemma {:induction false} CanonicalOfEncodable(v: CborVal)
    requires Encodable(v)
    ensures Canonical(Canon(v))
  {
    FitsOwnSize(v, 0, |Spell(v)|);
    CanonIsCanonical(v, 0, Limits(|Spell(v)|, |Spell(v)|, |Spell(v)|));
  }

  /** The comparator's length tie-break never separates two distinct keys: when one
      encoded key is a prefix of the other, they are the same key. */
  lemma {:induction false} LengthTieBreakIsIdle(v: CborVal, w: CborVal)
    requires Encode(v).Ok? && Encode(w).Ok?
    requires |Encode(v).value| <= |Encode(w).value| <= MAX_SAFE
    requires Encode(v).value == Encode(w).value[..|Encode(v).value|]
    ensures Encode(v) == Encode(w)
  {
    var a, b := Encode(v).value, Encode(w).value;
    assert a + b[|a|..] == b + [];
    EncodingsArePrefixFree(v, w, b[|a|..], []);
  }

  // ---------------------------------------------------------- the shortest head

  /** Some octets that read as a head with this major type and argument. */
  ghost predicate IsHeadOf(h: Octets, major: nat, n: nat) {
    && h != [] && h[0] / 32 == major
    && ReadLength(h[1..], h[0] % 32) == Ok(Parsed(n, []))
  }

  lemma {:induction false} WidthRead(body: Octets, width: nat)
    requires ReadFixed(body, width).Ok? && ReadFixed(body, width).value.rest == []
    ensures |body| == width && ReadFixed(body, width).value.value < Pow256(width)
    ensures BigEndian(ReadFixed(body, width).value.value, width) == body
  {
    assert body[..width] == body;
    FromBigEndianRoundTrip(body);
  }

  /** Of all the heads the reader would take for this argument, the one the encoder
      writes is the only shortest one. */
  lemma {:induction false} HeadIsShortest(h: Octets, major: nat, n: nat)
    requires major <= MT_MAP && IsHeadOf(h, major, n)
    ensures IsHeadOf(Head(major, n), major, n)
    ensures |Head(major, n)| <= |h|
    ensures |Head(major, n)| == |h| ==> h == Head(major, n)
  {
    ReadHead(major, n, []);
    assert Head(major, n) + [] == Head(major, n);
    var ai, body := h[0] % 32, h[1..];
    assert h == [h[0]] + body && h[0] == major * 32 + ai;
    if ai < 24 {
      assert body == [] && n == ai;
    } else {
      var width := if ai == 24 then 1 else if ai == 25 then 2 else if ai == 26 then 4 else 8;
      WidthRead(body, width);
      assert |h| == 1 + width && n < Pow256(width);
      assert Pow256(1) == 0x100 && Pow256(2) == 0x1_0000 && Pow256(4) == 0x1_0000_0000;
    }
  }
}
