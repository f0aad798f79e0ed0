/** The decoder as it runs: a cursor over the octets that every read advances.
    Each method is proved to agree with the reading functions of CborDecoder. */
module CborReader {
  import opened Octets
  import opened Cbor
  import D = CborDecoder

  /** A cursor result agrees with a reading function: same value and same octets
      left over, or the same refusal. */
  ghost predicate Agrees<T(!new)>(r: Result<T>, left: Octets, spec: Result<D.Parsed<T>>) {
    match spec
    case Ok(p) => r == Ok(p.value) && left == p.rest
    case Err(e) => r == Err(e)
  }

  function Prepend<T>(read: seq<T>, more: Result<D.Parsed<seq<T>>>): Result<D.Parsed<seq<T>>> {
    match more
    case Ok(p) => Ok(D.Parsed(read + p.value, p.rest))
    case Err(e) => Err(e)
  }

  datatype Keyed = Keyed(entry: Entry, id: Octets)

  class Reader {
    const bytes: Octets
    var offset: nat

    ghost predicate Valid()
      reads this
    {
      offset <= |bytes|
    }

    ghost function Left(): Octets
      requires Valid()
      reads this
    {
      bytes[offset..]
    }

    constructor (b: Octets)
      ensures Valid() && bytes == b && offset == 0
    {
      bytes := b;
      offset := 0;
    }

    method Remaining() returns (n: nat)
      requires Valid()
      ensures n == |Left()|
    {
      n := |bytes| - offset;
    }

    method ReadFixed(width: nat) returns (r: Result<nat>)
      requires Valid()
      modifies this`offset
      ensures Valid() && offset >= old(offset)
      ensures Agrees(r, Left(), D.ReadFixed(old(Left()), width))
    {
      var left := Remaining();
      if left < width { return Err(Eof); }
      assert Left()[..width] == bytes[offset..offset + width];
      r := Ok(FromBigEndian(bytes[offset..offset + width]));
      offset := offset + width;
      assert Left() == old(Left())[width..];
    }

    method ReadLength(ai: nat) returns (r: Result<nat>)
      requires Valid()
      modifies this`offset
      ensures Valid() && offset >= old(offset)
      ensures Agrees(r, Left(), D.ReadLength(old(Left()), ai))
    {
      if ai < 24 {
        r := Ok(ai);
      } else if ai == 24 {
        r := ReadFixed(1);
      } else if ai == 25 {
        r := ReadFixed(2);
      } else if ai == 26 {
        r := ReadFixed(4);
      } else if ai == 27 {
        r := ReadFixed(8);
        if r.Ok? && r.value > MAX_SAFE { r := Err(TooLarge); }
      } else {
        r := Err(Indefinite);
      }
    }

    method ReadVal(depth: nat) returns (r: Result<CborVal>)
      requires Valid()
      modifies this`offset
      ensures Valid() && offset >= old(offset)
      ensures Agrees(r, Left(), D.ReadVal(old(Left()), depth, D.DECODER_LIMITS))
      decreases |bytes| - offset, 0
    {
      if depth > D.CBOR_MAX_DEPTH { return Err(TooDeep); }
      if offset == |bytes| { return Err(Eof); }
      var ib := bytes[offset];
      offset := offset + 1;
      assert Left() == old(Left())[1..];
      if ib == 0xF4 { return Ok(Bool(false)); }
      if ib == 0xF5 { return Ok(Bool(true)); }
      if ib == 0xF6 { return Ok(Null); }
      var major, ai := ib / 32, ib % 32;
      if major > MT_MAP { return Err(Unsupported); }
      var len := ReadLength(ai);
      if len.Err? { return Err(len.error); }
      r := ReadBody(major, len.value, depth);
    }

    method ReadBody(major: nat, n: nat, depth: nat) returns (r: Result<CborVal>)
      requires Valid()
      modifies this`offset
      ensures Valid() && offset >= old(offset)
      ensures Agrees(r, Left(), D.ReadBody(major, n, old(Left()), depth, D.DECODER_LIMITS))
      decreases |bytes| - offset, 3
    {
      var left := Remaining();
      if major == MT_UINT { return Ok(Int(n)); }
      if major == MT_NINT {
        if n >= MAX_SAFE { return Err(TooLarge); }
        return Ok(Int(-1 - n));
      }
      if major == MT_BSTR || major == MT_TSTR {
        if n > D.CBOR_MAX_STRING { return Err(TooLarge); }
        if n > left { return Err(Eof); }
        var slice := bytes[offset..offset + n];
        assert slice == Left()[..n];
        offset := offset + n;
        assert Left() == old(Left())[n..];
        if major == MT_BSTR { return Ok(Bytes(slice)); }
        if !WellFormedUtf8(slice) { return Err(InvalidText); }
        return Ok(Text(slice));
      }
      if n > D.CBOR_MAX_ELEMENTS { return Err(TooLarge); }
      if major == MT_ARRAY {
        if n > left { return Err(Eof); }
        var items := ReadItems(n, depth + 1);
        if items.Err? { return Err(items.error); }
        return Ok(Arr(items.value));
      }
      if n * 2 > left { return Err(Eof); }
      var entries := ReadEntries(n, depth + 1);
      if entries.Err? { return Err(entries.error); }
      return Ok(Map(entries.value));
    }

    method ReadItems(n: nat, depth: nat) returns (r: Result<seq<CborVal>>)
      requires Valid()
      modifies this`offset
      ensures Valid() && offset >= old(offset)
      ensures Agrees(r, Left(), D.ReadItems(old(Left()), n, depth, D.DECODER_LIMITS))
      decreases |bytes| - offset, 1
    {
      var arr: seq<CborVal> := [];
      ghost var all := D.ReadItems(Left(), n, depth, D.DECODER_LIMITS);
      PrependNothing(all);
      for i := 0 to n
        invariant Valid() && offset >= old(offset)
        invariant all == Prepend(arr, D.ReadItems(Left(), n - i, depth, D.DECODER_LIMITS))
      {
        var item := ReadVal(depth);
        if item.Err? { return Err(item.error); }
        PrependStep(arr, item.value, D.ReadItems(Left(), n - i - 1, depth, D.DECODER_LIMITS));
        arr := arr + [item.value];
      }
      assert arr + [] == arr;
      return Ok(arr);
    }

    /** One map entry and the octets of its key, which must be new. */
    method ReadEntry(n: nat, seen: set<Octets>, depth: nat) returns (r: Result<Keyed>)
      requires Valid() && n > 0
      modifies this`offset
      ensures Valid() && offset >= old(offset)
      ensures r.Err? ==> D.ReadEntries(old(Left()), n, seen, depth, D.DECODER_LIMITS) == Err(r.error)
      ensures r.Ok? ==>
        D.ReadEntries(old(Left()), n, seen, depth, D.DECODER_LIMITS)
        == Prepend([r.value.entry], D.ReadEntries(Left(), n - 1, seen + {r.value.id}, depth, D.DECODER_LIMITS))
      decreases |bytes| - offset, 1
    {
      var key := ReadVal(depth);
      if key.Err? { return Err(key.error); }
      var val := ReadVal(depth);
      if val.Err? { return Err(val.error); }
      var id := Encode(key.value);
      if id.Err? { return Err(id.error); }
      if id.value in seen { return Err(DuplicateKey); }
      return Ok(Keyed(Entry(key.value, val.value), id.value));
    }

    method ReadEntries(n: nat, depth: nat) returns (r: Result<seq<Entry>>)
      requires Valid()
      modifies this`offset
      ensures Valid() && offset >= old(offset)
      ensures Agrees(r, Left(), D.ReadEntries(old(Left()), n, {}, depth, D.DECODER_LIMITS))
      decreases |bytes| - offset, 2
    {
      var entries: seq<Entry> := [];
      var seen: set<Octets> := {};
      ghost var all := D.ReadEntries(Left(), n, seen, depth, D.DECODER_LIMITS);
      PrependNothing(all);
      for i := 0 to n
        invariant Valid() && offset >= old(offset)
        invariant all == Prepend(entries, D.ReadEntries(Left(), n - i, seen, depth, D.DECODER_LIMITS))
      {
        var next := ReadEntry(n - i, seen, depth);
        if next.Err? { return Err(next.error); }
        seen := seen + {next.value.id};
        PrependStep(entries, next.value.entry, D.ReadEntries(Left(), n - i - 1, seen, depth, D.DECODER_LIMITS));
        entries := entries + [next.value.entry];
      }
      assert entries + [] == entries;
      return Ok(entries);
    }
  }

  lemma PrependNothing<T>(more: Result<D.Parsed<seq<T>>>)
    ensures Prepend([], more) == more
  {
    if more.Ok? { assert [] + more.value.value == more.value.value; }
  }

  lemma PrependStep<T>(read: seq<T>, x: T, more: Result<D.Parsed<seq<T>>>)
    ensures Prepend(read + [x], more) == Prepend(read, Prepend([x], more))
  {
    if more.Ok? {
      assert read + [x] + more.value.value == read + ([x] + more.value.value);
    }
  }

  method SameOctets(a: Octets, b: Octets) returns (same: bool)
    ensures same <==> a == b
  {
    if |a| != |b| { return false; }
    for i := 0 to |b|
      invariant a[..i] == b[..i]
    {
      if a[i] != b[i] { return false; }
    }
    assert a[..|b|] == a && b[..|b|] == b;
    return true;
  }

  method ReadTop(bytes: Octets) returns (r: Result<CborVal>, offset: nat)
    ensures offset <= |bytes|
    ensures Agrees(r, bytes[offset..], D.ReadVal(bytes, 0, D.DECODER_LIMITS))
  {
    var reader := new Reader(bytes);
    assert reader.Left() == bytes;
    r := reader.ReadVal(0);
    offset := reader.offset;
  }

  /** decodeCbor: read one value, refuse trailing octets, and compare the octets
      with the re-encoding. */
  method DecodeCbor(bytes: Octets) returns (r: Result<CborVal>)
    ensures r == D.Decode(bytes)
  {
    if |bytes| > D.CBOR_MAX_BYTES { return Err(TooLarge); }
    var value, offset := ReadTop(bytes);
    if value.Err? { return value; }
    if offset != |bytes| { return Err(Trailing); }
    assert bytes[offset..] == [];
    var again := Encode(value.value);
    if again.Err? { return Err(again.error); }
    var same := SameOctets(again.value, bytes);
    if !same { return Err(NonDeterministic); }
    return value;
  }
}
