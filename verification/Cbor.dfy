/** Deterministic CBOR (section 4.2.1 of RFC 8949): the encoder, the bounded
    decoder as a function of the remaining octets, and the codec theorems. */
module Cbor {
  import opened Octets

  /** A decoded value. Text is carried as its UTF-8 octets. */
  datatype CborVal =
    | Null
    | Bool(b: bool)
    | Int(n: int)
    | Text(utf8: Octets)
    | Bytes(data: Octets)
    | Arr(items: seq<CborVal>)
    | Map(entries: seq<Entry>)

  datatype Entry = Entry(key: CborVal, val: CborVal)

  datatype Refusal =
    | NonInteger | InvalidText | DuplicateKey | TooLarge | TooDeep
    | Eof | Unsupported | Indefinite | Trailing | NonDeterministic

  datatype Result<+T> = Ok(value: T) | Err(error: Refusal) {
    predicate IsFailure() { Err? }
    function PropagateFailure<U>(): Result<U> requires Err? { Err(error) }
    function Extract(): T requires Ok? { value }
  }

  const MAX_SAFE: nat := 0x1F_FFFF_FFFF_FFFF

  const MT_UINT: nat := 0
  const MT_NINT: nat := 1
  const MT_BSTR: nat := 2
  const MT_TSTR: nat := 3
  const MT_ARRAY: nat := 4
  const MT_MAP: nat := 5

  predicate SafeInt(n: int) { -(MAX_SAFE as int) <= n <= MAX_SAFE }

  // ---------------------------------------------------------------------- text

  predicate Continuation(o: octet) { 0x80 <= o < 0xC0 }

  /** Well-formed UTF-8 (section 4 of RFC 3629): what a fatal decoder accepts and
      what encoding text without lone surrogates produces. */
  predicate WellFormedUtf8(b: Octets) { WellFormedFrom(b, 0) }

  predicate WellFormedFrom(b: Octets, i: nat)
    requires i <= |b|
    decreases |b| - i
  {
    i == |b| ||
    var n := ScalarLength(b, i);
    n > 0 && WellFormedFrom(b, i + n)
  }

  /** How many octets the scalar value at i takes, or 0 when none is well-formed there. */
  function ScalarLength(b: Octets, i: nat): (n: nat)
    requires i < |b|
    ensures i + n <= |b|
  {
    if b[i] < 0x80 then 1
    else if 0xC2 <= b[i] < 0xE0 && i + 2 <= |b| && Continuation(b[i + 1]) then 2
    else if 0xE0 <= b[i] < 0xF0 && i + 3 <= |b| && Continuation(b[i + 1]) && Continuation(b[i + 2])
      && (b[i] == 0xE0 ==> b[i + 1] >= 0xA0) && (b[i] == 0xED ==> b[i + 1] < 0xA0) then 3
    else if 0xF0 <= b[i] < 0xF5 && i + 4 <= |b|
      && Continuation(b[i + 1]) && Continuation(b[i + 2]) && Continuation(b[i + 3])
      && (b[i] == 0xF0 ==> b[i + 1] >= 0x90) && (b[i] == 0xF4 ==> b[i + 1] < 0x90) then 4
    else 0
  }

  // ---------------------------------------------------------------------- head

  function Head(major: nat, n: nat): (b: Octets)
    requires major <= MT_MAP
    ensures b != []
  {
    var hi := major * 32;
    if n < 24 then [hi + n]
    else if n < 0x100 then [hi + 24] + BigEndian(n, 1)
    else if n < 0x1_0000 then [hi + 25] + BigEndian(n, 2)
    else if n <= 0xFFFF_FFFF then [hi + 26] + BigEndian(n, 4)
    else [hi + 27] + BigEndian(n, 8)
  }

  function IntHead(n: int): (b: Octets)
    ensures b != []
  {
    if n >= 0 then Head(MT_UINT, n) else Head(MT_NINT, -1 - n)
  }

  // ------------------------------------------------------------------- encoder

  datatype EncodedEntry = EncodedEntry(key: Octets, val: Octets)

  function EncodedKey(e: EncodedEntry): Octets { e.key }

  function Encode(v: CborVal): (r: Result<Octets>)
    decreases v
  {
    match v
    case Null => Ok([0xF6])
    case Bool(b) => Ok([if b then 0xF5 else 0xF4])
    case Int(n) => if SafeInt(n) then Ok(IntHead(n)) else Err(NonInteger)
    case Text(t) => if WellFormedUtf8(t) then Ok(Head(MT_TSTR, |t|) + t) else Err(InvalidText)
    case Bytes(d) => Ok(Head(MT_BSTR, |d|) + d)
    case Arr(items) =>
      var body :- EncodeItems(items);
      Ok(Head(MT_ARRAY, |items|) + body)
    case Map(entries) =>
      var parts :- EncodeEntries(entries);
      SealMap(parts)
  }

  /** Sort the encoded pairs, refuse a repeated key, write the head and the pairs. */
  function SealMap(parts: seq<EncodedEntry>): Result<Octets> {
    var sorted := SortBy(parts, EncodedKey);
    if AdjacentDuplicate(sorted, EncodedKey) then Err(DuplicateKey)
    else Ok(Head(MT_MAP, |sorted|) + JoinEntries(sorted))
  }

  function EncodeItems(items: seq<CborVal>): Result<Octets>
    decreases items
  {
    if items == [] then Ok([])
    else
      var first :- Encode(items[0]);
      var rest :- EncodeItems(items[1..]);
      Ok(first + rest)
  }

  function EncodeEntries(entries: seq<Entry>): (r: Result<seq<EncodedEntry>>)
    decreases entries
  {
    if entries == [] then Ok([])
    else
      var first :- EncodeEntry(entries[0]);
      var rest :- EncodeEntries(entries[1..]);
      Ok([first] + rest)
  }

  function EncodeEntry(e: Entry): Result<EncodedEntry>
    decreases e
  {
    var key :- Encode(e.key);
    var val :- Encode(e.val);
    Ok(EncodedEntry(key, val))
  }

  function JoinEntries(parts: seq<EncodedEntry>): Octets {
    if parts == [] then [] else parts[0].key + parts[0].val + JoinEntries(parts[1..])
  }

  // ------------------------------------------------- the spelling of one value

  /** The octets of a value with its map entries in the order given. */
  function Spell(v: CborVal): (b: Octets)
    ensures b != []
    decreases v
  {
    match v
    case Null => [0xF6]
    case Bool(b) => [if b then 0xF5 else 0xF4]
    case Int(n) => IntHead(n)
    case Text(t) => Head(MT_TSTR, |t|) + t
    case Bytes(d) => Head(MT_BSTR, |d|) + d
    case Arr(items) => Head(MT_ARRAY, |items|) + SpellItems(items)
    case Map(entries) => Head(MT_MAP, |entries|) + SpellEntries(entries)
  }

  function SpellItems(items: seq<CborVal>): (b: Octets)
    ensures |b| >= |items|
    decreases items
  {
    if items == [] then [] else Spell(items[0]) + SpellItems(items[1..])
  }

  function SpellEntries(entries: seq<Entry>): (b: Octets)
    ensures |b| >= 2 * |entries|
    decreases entries
  {
    if entries == [] then []
    else SpellPair(entries[0]) + SpellEntries(entries[1..])
  }

  function SpellPair(e: Entry): (b: Octets)
    ensures |b| >= 2
    decreases e
  {
    Spell(e.key) + Spell(e.val)
  }

  function EntryKey(e: Entry): Octets { Spell(e.key) }

  function SpellEntry(e: Entry): EncodedEntry { EncodedEntry(Spell(e.key), Spell(e.val)) }

  /** The value with every map put into key order, at every depth. */
  function Canon(v: CborVal): (c: CborVal)
    decreases v
  {
    match v
    case Arr(items) => Arr(CanonItems(items))
    case Map(entries) => Map(SortBy(CanonEntries(entries), EntryKey))
    case _ => v
  }

  function CanonItems(items: seq<CborVal>): (c: seq<CborVal>)
    ensures |c| == |items|
    ensures forall i :: 0 <= i < |items| ==> c[i] == Canon(items[i])
    decreases items
  {
    if items == [] then [] else [Canon(items[0])] + CanonItems(items[1..])
  }

  function CanonEntries(entries: seq<Entry>): (c: seq<Entry>)
    ensures |c| == |entries|
    ensures forall i :: 0 <= i < |entries| ==> c[i] == CanonEntry(entries[i])
    decreases entries
  {
    if entries == [] then []
    else [CanonEntry(entries[0])] + CanonEntries(entries[1..])
  }

  function CanonEntry(e: Entry): Entry
    decreases e
  {
    Entry(Canon(e.key), Canon(e.val))
  }

  /** What the encoder accepts: safe integers, well-formed text, and no map with
      one key written twice (in whatever order or spelling of its own maps). */
  ghost predicate Encodable(v: CborVal)
    decreases v
  {
    match v
    case Int(n) => SafeInt(n)
    case Text(t) => WellFormedUtf8(t)
    case Arr(items) => forall i :: 0 <= i < |items| ==> Encodable(items[i])
    case Map(entries) =>
      && (forall i :: 0 <= i < |entries| ==> EntryEncodable(entries[i]))
      && DistinctKeys(CanonEntries(entries), EntryKey)
    case _ => true
  }

  ghost predicate EntryEncodable(e: Entry)
    decreases e
  {
    Encodable(e.key) && Encodable(e.val)
  }

  /** One spelling per value: safe integers, well-formed text, and the keys of
      every map strictly ascending by their encoded octets. */
  ghost predicate Canonical(v: CborVal)
    decreases v
  {
    match v
    case Int(n) => SafeInt(n)
    case Text(t) => WellFormedUtf8(t)
    case Arr(items) => forall i :: 0 <= i < |items| ==> Canonical(items[i])
    case Map(entries) =>
      && (forall i :: 0 <= i < |entries| ==> EntryCanonical(entries[i]))
      && StrictlyAscending(entries, EntryKey)
    case _ => true
  }

  ghost predicate EntryCanonical(e: Entry)
    decreases e
  {
    Canonical(e.key) && Canonical(e.val)
  }

  /** The decoder's bounds. */
  datatype Limits = Limits(depth: nat, elements: nat, text: nat) {
    ghost predicate Valid() { elements <= MAX_SAFE && text <= MAX_SAFE }
  }

  ghost predicate Fits(v: CborVal, depth: nat, lim: Limits)
    decreases v
  {
    depth <= lim.depth &&
    match v
    case Text(t) => |t| <= lim.text
    case Bytes(d) => |d| <= lim.text
    case Arr(items) =>
      && |items| <= lim.elements
      && (forall i :: 0 <= i < |items| ==> Fits(items[i], depth + 1, lim))
    case Map(entries) =>
      && |entries| <= lim.elements
      && (forall i :: 0 <= i < |entries| ==> EntryFits(entries[i], depth + 1, lim))
    case _ => true
  }

  ghost predicate EntryFits(e: Entry, depth: nat, lim: Limits)
    decreases e
  {
    Fits(e.key, depth, lim) && Fits(e.val, depth, lim)
  }

  // --------------------------------------------------- what the encoder emits

  lemma {:induction false} JoinSpelled(entries: seq<Entry>)
    ensures JoinEntries(MapSeq(entries, SpellEntry)) == SpellEntries(entries)
  {
    if entries != [] {
      JoinSpelled(entries[1..]);
      assert MapSeq(entries, SpellEntry)[1..] == MapSeq(entries[1..], SpellEntry);
    }
  }

  /** The encoder refuses exactly the values that are not encodable, and emits
      the spelling of the key-ordered value. */
  lemma {:induction false} EncodeIsSpelling(v: CborVal)
    ensures Encode(v).Ok? <==> Encodable(v)
    ensures Encode(v).Ok? ==> Encode(v).value == Spell(Canon(v))
    decreases v, 1
  {
    match v
    case Arr(items) => EncodeItemsIsSpelling(items);
    case Map(entries) => EncodeMapIsSpelling(entries);
    case _ =>
  }

  lemma {:induction false} EncodeItemsIsSpelling(items: seq<CborVal>)
    ensures EncodeItems(items).Ok? <==> forall i :: 0 <= i < |items| ==> Encodable(items[i])
    ensures EncodeItems(items).Ok? ==> EncodeItems(items).value == SpellItems(CanonItems(items))
    decreases items, 0
  {
    if items != [] {
      EncodeIsSpelling(items[0]);
      EncodeItemsIsSpelling(items[1..]);
      assert CanonItems(items)[1..] == CanonItems(items[1..]);
      assert forall i :: 1 <= i < |items| ==> items[i] == items[1..][i - 1];
      assert forall i :: 0 <= i < |items| - 1 ==> items[1..][i] == items[i + 1];
    }
  }

  lemma {:induction false} EncodeEntriesIsSpelling(entries: seq<Entry>)
    ensures EncodeEntries(entries).Ok? <==> forall i :: 0 <= i < |entries| ==> EntryEncodable(entries[i])
    ensures EncodeEntries(entries).Ok? ==>
      EncodeEntries(entries).value == MapSeq(CanonEntries(entries), SpellEntry)
    decreases entries, 0
  {
    if entries != [] {
      var tail := entries[1..];
      EncodeEntryIsSpelling(entries[0]);
      EncodeEntriesIsSpelling(tail);
      assert MapSeq(CanonEntries(entries), SpellEntry)
          == [SpellEntry(CanonEntry(entries[0]))] + MapSeq(CanonEntries(tail), SpellEntry);
      assert forall i :: 1 <= i < |entries| ==> entries[i] == tail[i - 1];
      assert forall i :: 0 <= i < |tail| ==> tail[i] == entries[i + 1];
    }
  }

  lemma {:induction false} EncodeEntryIsSpelling(e: Entry)
    ensures EncodeEntry(e).Ok? <==> EntryEncodable(e)
    ensures EncodeEntry(e).Ok? ==> EncodeEntry(e).value == SpellEntry(CanonEntry(e))
    decreases e, 0
  {
    EncodeIsSpelling(e.key);
    EncodeIsSpelling(e.val);
  }

  lemma {:induction false} EncodeMapIsSpelling(entries: seq<Entry>)
    ensures var all := forall i :: 0 <= i < |entries| ==> EntryEncodable(entries[i]);
            var canon := CanonEntries(entries);
            && (Encode(Map(entries)).Ok? <==> all && DistinctKeys(canon, EntryKey))
            && (Encode(Map(entries)).Ok? ==> Encode(Map(entries)).value == Spell(Map(SortBy(canon, EntryKey))))
    decreases entries, 1
  {
    var parts := EncodeEntries(entries);
    EncodeEntriesIsSpelling(entries);
    if parts.Ok? {
      assert Encode(Map(entries)) == SealMap(parts.value);
      SealedMap(CanonEntries(entries));
    }
  }

  /** Sorting the encoded pairs is sorting the entries: the neighbour check finds a
      repeated key exactly when there is one, and the octets are those of the
      sorted entries. */
  lemma {:induction false} SealedMap(canon: seq<Entry>)
    ensures SealMap(MapSeq(canon, SpellEntry)) ==
      if DistinctKeys(canon, EntryKey) then Ok(Spell(Map(SortBy(canon, EntryKey)))) else Err(DuplicateKey)
  {
    var parts := MapSeq(canon, SpellEntry);
    var sorted := SortBy(canon, EntryKey);
    SortedParts(canon);
    SortedDuplicates(canon);
    DuplicatesMapped(sorted);
    JoinSpelled(sorted);
    assert SortBy(parts, EncodedKey) == MapSeq(sorted, SpellEntry);
  }

  lemma {:induction false} SortedParts(canon: seq<Entry>)
    ensures SortBy(MapSeq(canon, SpellEntry), EncodedKey) == MapSeq(SortBy(canon, EntryKey), SpellEntry)
  {
    SortMapped(canon, SpellEntry, EncodedKey, EntryKey);
  }

  lemma {:induction false} SortedDuplicates(canon: seq<Entry>)
    ensures AdjacentDuplicate(SortBy(canon, EntryKey), EntryKey) <==> !DistinctKeys(canon, EntryKey)
  {
    SortAscending(canon, EntryKey);
    AdjacentCheckIsComplete(SortBy(canon, EntryKey), EntryKey);
    SortDistinct(canon, EntryKey);
  }

  lemma {:induction false} DuplicatesMapped(entries: seq<Entry>)
    ensures AdjacentDuplicate(MapSeq(entries, SpellEntry), EncodedKey) <==> AdjacentDuplicate(entries, EntryKey)
  {
    var parts := MapSeq(entries, SpellEntry);
    assert forall i :: 0 <= i < |entries| ==> EncodedKey(parts[i]) == EntryKey(entries[i]);
  }

  // ----------------------------------------------------------- canonical values

  lemma {:induction false} CanonIsCanonical(v: CborVal, depth: nat, lim: Limits)
    requires Encodable(v) && Fits(v, depth, lim)
    ensures Canonical(Canon(v)) && Fits(Canon(v), depth, lim)
    decreases v
  {
    match v
    case Arr(items) =>
      forall i | 0 <= i < |items|
        ensures Canonical(Canon(items[i])) && Fits(Canon(items[i]), depth + 1, lim)
      {
        CanonIsCanonical(items[i], depth + 1, lim);
      }
    case Map(entries) =>
      var canon := CanonEntries(entries);
      forall i | 0 <= i < |entries|
        ensures EntryCanonical(canon[i]) && EntryFits(canon[i], depth + 1, lim)
      {
        assert EntryEncodable(entries[i]) && EntryFits(entries[i], depth + 1, lim);
        CanonIsCanonical(entries[i].key, depth + 1, lim);
        CanonIsCanonical(entries[i].val, depth + 1, lim);
      }
      var sorted := SortBy(canon, EntryKey);
      forall i | 0 <= i < |sorted|
        ensures EntryCanonical(sorted[i]) && EntryFits(sorted[i], depth + 1, lim)
      {
        assert sorted[i] in multiset(sorted);
        assert sorted[i] in canon;
      }
      SortAscending(canon, EntryKey);
      SortDistinct(canon, EntryKey);
      AdjacentCheckIsComplete(sorted, EntryKey);
    case _ =>
  }

  lemma {:induction false} CanonOfCanonical(v: CborVal)
    requires Canonical(v)
    ensures Canon(v) == v && Encodable(v)
    decreases v
  {
    match v
    case Arr(items) =>
      forall i | 0 <= i < |items| ensures Canon(items[i]) == items[i] && Encodable(items[i]) {
        CanonOfCanonical(items[i]);
      }
      assert CanonItems(items) == items;
    case Map(entries) =>
      forall i | 0 <= i < |entries|
        ensures CanonEntry(entries[i]) == entries[i] && EntryEncodable(entries[i])
      {
        assert EntryCanonical(entries[i]);
        CanonOfCanonical(entries[i].key);
        CanonOfCanonical(entries[i].val);
      }
      assert CanonEntries(entries) == entries;
      SortOfAscending(entries, EntryKey);
      forall i, j | 0 <= i < j < |entries| ensures EntryKey(entries[i]) != EntryKey(entries[j]) {
        LexLessIrreflexive(EntryKey(entries[i]));
      }
    case _ =>
  }
}
