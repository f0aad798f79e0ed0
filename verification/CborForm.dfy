/** The octets of the codec against the numbers of RFC 8949: which major type each kind of value has
    (section 3.1), how its argument is written (section 3), the simple values (section 3.3), and the
    bounds of the decoder. */
module CborForm {
  import opened Cbor
  import opened Octets
  import D = CborDecoder

  /** A head of the major type with its argument in network byte order, in the fewest octets. */
  function HeadOctets(major: nat, n: nat): Octets
    requires major < 8
  {
    if n <= 23 then [major * 32 + n]
    else if n <= 255 then [major * 32 + 24, n]
    else if n <= 65535 then [major * 32 + 25, n / 256, n % 256]
    else if n <= 4294967295 then
      [major * 32 + 26, n / 16777216, n / 65536 % 256, n / 256 % 256, n % 256]
    else
      [major * 32 + 27, n / 72057594037927936 % 256, n / 281474976710656 % 256, n / 1099511627776 % 256,
       n / 4294967296 % 256, n / 16777216 % 256, n / 65536 % 256, n / 256 % 256, n % 256]
  }

  lemma BigEndianTwo(n: nat)
    ensures BigEndian(n, 2) == [n / 256 % 256, n % 256]
  {
    assert BigEndian(n / 256, 1) == [n / 256 % 256];
  }

  lemma BigEndianFour(n: nat)
    ensures BigEndian(n, 4) == [n / 16777216 % 256, n / 65536 % 256, n / 256 % 256, n % 256]
  {
    BigEndianTwo(n / 65536);
    assert n / 256 / 256 == n / 65536 && n / 65536 / 256 == n / 16777216;
    assert BigEndian(n / 256, 3) == BigEndian(n / 65536, 2) + [n / 256 % 256];
  }

  lemma BigEndianEight(n: nat)
    ensures BigEndian(n, 8) ==
      [n / 72057594037927936 % 256, n / 281474976710656 % 256, n / 1099511627776 % 256, n / 4294967296 % 256,
       n / 16777216 % 256, n / 65536 % 256, n / 256 % 256, n % 256]
  {
    var m := n / 4294967296;
    BigEndianFour(m);
    assert m / 16777216 == n / 72057594037927936 && m / 65536 == n / 281474976710656 && m / 256 == n / 1099511627776;
    assert n / 256 / 256 == n / 65536 && n / 65536 / 256 == n / 16777216 && n / 16777216 / 256 == m;
    assert BigEndian(n / 16777216, 5) == BigEndian(m, 4) + [n / 16777216 % 256];
    assert BigEndian(n / 65536, 6) == BigEndian(n / 16777216, 5) + [n / 65536 % 256];
    assert BigEndian(n / 256, 7) == BigEndian(n / 65536, 6) + [n / 256 % 256];
  }

  lemma ShortHeadIs(major: nat, n: nat)
    requires major <= 5 && n <= 65535
    ensures Head(major, n) == HeadOctets(major, n)
  {
    assert n < 256 ==> BigEndian(n, 1) == [n];
    BigEndianTwo(n);
    assert n / 256 < 256;
  }

  lemma FourOctetHeadIs(major: nat, n: nat)
    requires major <= 5 && 65535 < n <= 4294967295
    ensures Head(major, n) == HeadOctets(major, n)
  {
    BigEndianFour(n);
    assert n / 16777216 < 256;
  }

  lemma EightOctetHeadIs(major: nat, n: nat)
    requires major <= 5 && 4294967295 < n
    ensures Head(major, n) == HeadOctets(major, n)
  {
    BigEndianEight(n);
  }

  lemma {:induction false} HeadIs(major: nat, n: nat)
    requires major <= 5
    ensures Head(major, n) == HeadOctets(major, n)
  {
    if n <= 65535 {
      ShortHeadIs(major, n);
    } else if n <= 4294967295 {
      FourOctetHeadIs(major, n);
    } else {
      EightOctetHeadIs(major, n);
    }
  }

  // ------------------------------------------------------------------- what is written

  function OctetsOf(v: CborVal): Octets { if Encode(v).Ok? then Encode(v).value else [] }

  function Concat(parts: seq<Octets>): Octets { if parts == [] then [] else parts[0] + Concat(parts[1..]) }

  function PairOctets(e: Entry): Octets { OctetsOf(e.key) + OctetsOf(e.val) }

  function KeyOctets(e: Entry): Octets { OctetsOf(e.key) }

  /** The first octet divided by 32 says what a value is, its argument how much of it follows; null, true
      and false are one octet each. Items follow in order, pairs in ascending order of their keys' octets. */
  ghost predicate Written(v: CborVal, b: Octets) {
    match v
    case Null => b == [0xF6]
    case Bool(t) => b == [if t then 0xF5 else 0xF4]
    case Int(n) => b == if n >= 0 then HeadOctets(0, n) else HeadOctets(1, -1 - n)
    case Bytes(d) => b == HeadOctets(2, |d|) + d
    case Text(t) => b == HeadOctets(3, |t|) + t
    case Arr(items) => b == HeadOctets(4, |items|) + Concat(MapSeq(items, OctetsOf))
    case Map(entries) =>
      exists order :: multiset(order) == multiset(entries) && StrictlyAscending(order, KeyOctets)
        && b == HeadOctets(5, |entries|) + Concat(MapSeq(order, PairOctets))
  }

  lemma {:induction false} ItemsWritten(items: seq<CborVal>)
    requires EncodeItems(items).Ok?
    ensures EncodeItems(items).value == Concat(MapSeq(items, OctetsOf))
  {
    if items != [] {
      ItemsWritten(items[1..]);
      assert MapSeq(items, OctetsOf)[1..] == MapSeq(items[1..], OctetsOf);
    }
  }

  function EntryOctets(e: Entry): EncodedEntry { EncodedEntry(OctetsOf(e.key), OctetsOf(e.val)) }

  lemma {:induction false} EntriesWritten(entries: seq<Entry>)
    requires EncodeEntries(entries).Ok?
    ensures EncodeEntries(entries).value == MapSeq(entries, EntryOctets)
  {
    if entries != [] {
      EntriesWritten(entries[1..]);
      assert MapSeq(entries, EntryOctets) == [EntryOctets(entries[0])] + MapSeq(entries[1..], EntryOctets);
    }
  }

  lemma {:induction false} PairsJoined(order: seq<Entry>)
    ensures JoinEntries(MapSeq(order, EntryOctets)) == Concat(MapSeq(order, PairOctets))
  {
    if order != [] {
      PairsJoined(order[1..]);
      assert MapSeq(order, EntryOctets)[1..] == MapSeq(order[1..], EntryOctets);
      assert MapSeq(order, PairOctets)[1..] == MapSeq(order[1..], PairOctets);
    }
  }

  lemma {:induction false} MapWritten(entries: seq<Entry>)
    requires Encode(Map(entries)).Ok?
    ensures Written(Map(entries), Encode(Map(entries)).value)
  {
    var parts := EncodeEntries(entries).value;
    var order := SortBy(entries, KeyOctets);
    EntriesWritten(entries);
    SortMapped(entries, EntryOctets, EncodedKey, KeyOctets);
    SortAscending(entries, KeyOctets);
    assert AdjacentDuplicate(order, KeyOctets) ==> AdjacentDuplicate(SortBy(parts, EncodedKey), EncodedKey);
    AdjacentCheckIsComplete(order, KeyOctets);
    PairsJoined(order);
    HeadIs(5, |entries|);
  }

  /** Whatever is encoded is written in the numbers of the standard. */
  lemma {:induction false} EncodedAsWritten(v: CborVal)
    requires Encode(v).Ok?
    ensures Written(v, Encode(v).value)
  {
    match v
    case Int(n) => HeadIs(if n >= 0 then 0 else 1, if n >= 0 then n else -1 - n);
    case Bytes(d) => HeadIs(2, |d|);
    case Text(t) => HeadIs(3, |t|);
    case Arr(items) => ItemsWritten(items); HeadIs(4, |items|);
    case Map(entries) => MapWritten(entries);
    case _ =>
  }

  /** And whatever is decoded was written so: the first octet tells its kind. */
  lemma {:induction false} DecodedAsWritten(b: Octets)
    requires D.Decode(b).Ok?
    ensures var v := D.Decode(b).value;
      && Written(v, b) && b != []
      && (b[0] / 32 == 0 <==> v.Int? && v.n >= 0) && (b[0] / 32 == 1 <==> v.Int? && v.n < 0)
      && (b[0] / 32 == 2 <==> v.Bytes?) && (b[0] / 32 == 3 <==> v.Text?)
      && (b[0] / 32 == 4 <==> v.Arr?) && (b[0] / 32 == 5 <==> v.Map?)
      && (b == [0xF4] <==> v == Bool(false)) && (b == [0xF5] <==> v == Bool(true)) && (b == [0xF6] <==> v == Null)
  {
    var v := D.Decode(b).value;
    assert Encode(v) == Ok(b);
    EncodedAsWritten(v);
    FirstOctet(v, b);
  }

  lemma {:induction false} FirstOctet(v: CborVal, b: Octets)
    requires Written(v, b)
    ensures b != []
    ensures b[0] / 32 == match v
      case Int(n) => (if n >= 0 then 0 else 1)
      case Bytes(_) => 2 case Text(_) => 3 case Arr(_) => 4 case Map(_) => 5
      case _ => 7
  {
    match v
    case Int(n) => HeadStarts(if n >= 0 then 0 else 1, if n >= 0 then n else -1 - n, []);
    case Bytes(d) => HeadStarts(2, |d|, d);
    case Text(t) => HeadStarts(3, |t|, t);
    case Arr(items) => HeadStarts(4, |items|, Concat(MapSeq(items, OctetsOf)));
    case Map(entries) =>
      var order :| multiset(order) == multiset(entries)
        && b == HeadOctets(5, |entries|) + Concat(MapSeq(order, PairOctets));
      HeadStarts(5, |entries|, Concat(MapSeq(order, PairOctets)));
    case _ =>
  }

  lemma HeadStarts(major: nat, n: nat, rest: Octets)
    requires major < 8
    ensures HeadOctets(major, n) != [] && HeadOctets(major, n)[0] / 32 == major
    ensures (HeadOctets(major, n) + rest)[0] == HeadOctets(major, n)[0]
  {
  }

  // ------------------------------------------------------------------- what is taken

  /** An integer of more than 2^53 - 1 either way is not written, and none is read. */
  lemma IntegersAreSafe(n: int)
    ensures Encode(Int(n)).Ok? <==> -9007199254740991 <= n <= 9007199254740991
  {
  }

  /** At most 65536 octets, 16 levels below the first, 4096 items or pairs, 16384 octets of text or bytes. */
  lemma {:induction false} DecoderBounds(b: Octets, v: CborVal)
    ensures D.Decode(b) == Ok(v) <==>
      && Encode(v) == Ok(b) && Canonical(v) && |b| <= 65536 && Fits(v, 0, Limits(16, 4096, 16384))
  {
    D.DecodeAcceptsExactlyCanonical(b, v);
    EncodeIsSpelling(v);
    if Canonical(v) { CanonOfCanonical(v); }
  }
}
