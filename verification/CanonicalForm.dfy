/** The canonical text against the words and numbers of RFC 8785: the literals and punctuation of section
    3.2.2, the one way each code unit is escaped (section 3.2.2.2), and members in the order of their names'
    code units (section 3.2.3), whatever order they were given in. */
module CanonicalForm {
  import opened CanonicalJson
  import opened JsonText
  import opened Options
  import O = Octets
  import Sealing

  // ------------------------------------------------------------------------- escapes

  /** The lower-case digit of a number below 16. */
  function LowerHex(n: nat): unit
    requires n < 16
  {
    if n < 10 then '0' as int + n else 'a' as int + n - 10
  }

  /** Backslash, u and four lower-case digits. */
  function HexEscape(u: unit): Units {
    ['\\' as int, 'u' as int, LowerHex(u / 4096), LowerHex(u / 256 % 16), LowerHex(u / 16 % 16), LowerHex(u % 16)]
  }

  /** How a code unit stands in a text: the two-character escapes where there is one, digits for the other
      controls, and itself otherwise. */
  function Escaped(u: unit): Units {
    if u == '"' as int then ['\\' as int, '"' as int]
    else if u == '\\' as int then ['\\' as int, '\\' as int]
    else if u == 8 then ['\\' as int, 'b' as int]
    else if u == 9 then ['\\' as int, 't' as int]
    else if u == 10 then ['\\' as int, 'n' as int]
    else if u == 12 then ['\\' as int, 'f' as int]
    else if u == 13 then ['\\' as int, 'r' as int]
    else if u < 32 then HexEscape(u)
    else [u]
  }

  /** A whole text between quotes; a high surrogate at its very end is escaped. */
  function EscapedBody(s: Units): Units {
    if s == [] then []
    else if |s| == 1 && 0xD800 <= s[0] <= 0xDBFF then HexEscape(s[0])
    else Escaped(s[0]) + EscapedBody(s[1..])
  }

  function InQuotes(s: Units): Units { ['"' as int] + EscapedBody(s) + ['"' as int] }

  lemma {:induction false} HexDigitIsLower(n: nat)
    requires n < 16
    ensures HexDigit(n) == LowerHex(n)
  {
  }

  lemma {:induction false} ControlEscaped(u: unit)
    requires u < 32
    ensures UnitText(Hex(0x30, 0x30, HexDigit(u / 16), HexDigit(u % 16))) == HexEscape(u)
  {
    HexDigitIsLower(u / 16);
    HexDigitIsLower(u % 16);
    assert u / 4096 == 0 && u / 256 == 0 && u / 16 < 16;
  }

  lemma {:induction false} UnitEscaped(u: unit)
    ensures UnitText(QuoteUnit(u)) == Escaped(u)
  {
    if u < 32 { ControlEscaped(u); }
  }

  lemma {:induction false} HighEscaped(u: unit)
    requires HighSurrogate(u)
    ensures UnitText(QuoteHigh(u)) == HexEscape(u)
  {
    HexDigitIsLower(u / 256 % 16);
    HexDigitIsLower(u / 16 % 16);
    HexDigitIsLower(u % 16);
    assert u / 4096 == 13;
  }

  lemma {:induction false} QuotedBody(s: Units)
    ensures BodyText(Quoted(s)) == EscapedBody(s)
  {
    if s != [] {
      if |s| == 1 && HighSurrogate(s[0]) {
        HighEscaped(s[0]);
        assert Quoted(s)[1..] == [];
      } else {
        UnitEscaped(s[0]);
        QuotedBody(s[1..]);
        assert Quoted(s) == [QuoteUnit(s[0])] + Quoted(s[1..]);
        assert Quoted(s)[1..] == Quoted(s[1..]);
      }
    }
  }

  lemma {:induction false} QuotedExactly(s: Units)
    ensures LiteralText(Quoted(s)) == InQuotes(s)
  {
    QuotedBody(s);
  }

  // ------------------------------------------------------------------------- the text

  function Ascii(s: string): Units
    requires forall i :: 0 <= i < |s| ==> s[i] as int < 128
  {
    seq(|s|, i requires 0 <= i < |s| => s[i] as int)
  }

  function TextOf(v: Val): Units { if Canonical(v).Some? then Canonical(v).value else [] }

  function MemberOf(p: Prop): Units { InQuotes(p.name) + [':' as int] + TextOf(p.val) }

  /** The parts with commas between. */
  function Commas(parts: seq<Units>): Units {
    if parts == [] then [] else if |parts| == 1 then parts[0] else parts[0] + [',' as int] + Commas(parts[1..])
  }

  /** Name by name, the code units of a come before those of b. */
  predicate Before(a: Units, b: Units) {
    b != [] && (a == [] || a[0] < b[0] || (a[0] == b[0] && Before(a[1..], b[1..])))
  }

  ghost predicate InOrder(props: seq<Prop>) {
    forall i, j :: 0 <= i < j < |props| ==> Before(props[i].name, props[j].name)
  }

  ghost predicate Written(v: Val, text: Units) {
    match v
    case VNull => text == Ascii("null")
    case VBool(b) => text == Ascii(if b then "true" else "false")
    case VNum(number) => text == number
    case VStr(s) => text == InQuotes(s)
    case VArr(items) => text == ['[' as int] + Commas(O.MapSeq(items, TextOf)) + [']' as int]
    case VObj(props) =>
      exists order :: multiset(order) == multiset(props) && InOrder(order)
        && text == ['{' as int] + Commas(O.MapSeq(order, MemberOf)) + ['}' as int]
  }

  lemma {:induction false} CommasJoin(parts: seq<Units>)
    ensures Commas(parts) == JoinTexts(parts)
  {
    if |parts| > 1 { CommasJoin(parts[1..]); }
  }

  lemma {:induction false} ItemsOf(items: seq<Val>)
    requires CanonicalItems(items).Some?
    ensures CanonicalItems(items).value == O.MapSeq(items, TextOf)
  {
    if items != [] {
      ItemsOf(items[1..]);
      assert O.MapSeq(items, TextOf) == [TextOf(items[0])] + O.MapSeq(items[1..], TextOf);
    }
  }

  function PropKey(p: Prop): O.Octets { NameKey(p.name) }

  function PropPart(p: Prop): Part { Part(p.name, TextOf(p.val)) }

  lemma {:induction false} PartsOf(props: seq<Prop>)
    requires CanonicalProps(props).Some?
    ensures CanonicalProps(props).value == O.MapSeq(props, PropPart)
  {
    if props != [] {
      PartsOf(props[1..]);
      assert O.MapSeq(props, PropPart) == [PropPart(props[0])] + O.MapSeq(props[1..], PropPart);
    }
  }

  lemma {:induction false} KeysInOrder(a: Units, b: Units)
    ensures O.LexLess(NameKey(a), NameKey(b)) <==> Before(a, b)
  {
    if a != [] && b != [] {
      var x, y := NameKey(a), NameKey(b);
      KeysInOrder(a[1..], b[1..]);
      assert x[1..] == [a[0] % 256] + NameKey(a[1..]) && y[1..] == [b[0] % 256] + NameKey(b[1..]);
      assert x[1..][1..] == NameKey(a[1..]) && y[1..][1..] == NameKey(b[1..]);
      assert a[0] == a[0] / 256 * 256 + a[0] % 256 && b[0] == b[0] / 256 * 256 + b[0] % 256;
    }
  }

  lemma {:induction false} NamesDiffer(props: seq<Prop>)
    requires forall i, j :: 0 <= i < j < |props| ==> props[i].name != props[j].name
    ensures O.DistinctKeys(props, PropKey)
  {
    forall i, j | 0 <= i < j < |props| ensures PropKey(props[i]) != PropKey(props[j]) {
      if PropKey(props[i]) == PropKey(props[j]) { NameKeyInjective(props[i].name, props[j].name); }
    }
  }

  lemma {:induction false} SortedIsInOrder(props: seq<Prop>)
    requires forall i, j :: 0 <= i < j < |props| ==> props[i].name != props[j].name
    ensures O.StrictlyAscending(O.SortBy(props, PropKey), PropKey) && InOrder(O.SortBy(props, PropKey))
  {
    var order := O.SortBy(props, PropKey);
    NamesDiffer(props);
    O.SortAscending(props, PropKey);
    O.SortDistinct(props, PropKey);
    O.AdjacentCheckIsComplete(order, PropKey);
    forall i, j | 0 <= i < j < |order| ensures Before(order[i].name, order[j].name) {
      KeysInOrder(order[i].name, order[j].name);
    }
  }

  lemma {:induction false} MembersWritten(order: seq<Prop>)
    ensures O.MapSeq(O.MapSeq(order, PropPart), PartText) == O.MapSeq(order, MemberOf)
  {
    forall i | 0 <= i < |order| ensures PartText(PropPart(order[i])) == MemberOf(order[i]) {
      QuotedExactly(order[i].name);
    }
  }

  lemma {:induction false} PartsSorted(props: seq<Prop>)
    requires CanonicalProps(props).Some?
    ensures O.SortBy(CanonicalProps(props).value, PartKey) == O.MapSeq(O.SortBy(props, PropKey), PropPart)
  {
    PartsOf(props);
    O.SortMapped(props, PropPart, PartKey, PropKey);
  }

  lemma {:induction false} MembersJoined(parts: seq<Part>, order: seq<Prop>)
    requires parts == O.MapSeq(order, PropPart)
    ensures JoinTexts(O.MapSeq(parts, PartText)) == Commas(O.MapSeq(order, MemberOf))
  {
    MembersWritten(order);
    CommasJoin(O.MapSeq(order, MemberOf));
  }

  lemma {:induction false} ObjectText(props: seq<Prop>)
    requires Canonical(VObj(props)).Some?
    ensures Canonical(VObj(props)).value ==
      ['{' as int] + Commas(O.MapSeq(O.SortBy(props, PropKey), MemberOf)) + ['}' as int]
  {
    assert CanonicalProps(props).Some?;
    PartsSorted(props);
    MembersJoined(O.SortBy(CanonicalProps(props).value, PartKey), O.SortBy(props, PropKey));
  }

  lemma {:induction false} WordsWritten()
    ensures TEXT_NULL == Ascii("null") && TEXT_TRUE == Ascii("true") && TEXT_FALSE == Ascii("false")
  {
  }

  /** Every canonical text is written in the words, the escapes and the order of the standard. */
  lemma {:induction false} CanonicalAsWritten(v: Val)
    requires IsValue(v) && Canonical(v).Some?
    ensures Written(v, Canonical(v).value)
  {
    match v
    case VStr(s) => QuotedExactly(s);
    case VArr(items) =>
      ItemsOf(items);
      CommasJoin(O.MapSeq(items, TextOf));
    case VObj(props) =>
      ObjectText(props);
      SortedIsInOrder(props);
    case VNum(_) =>
    case _ => WordsWritten();
  }

  /** The order in which the properties of an object are given does not show. */
  lemma {:induction false} GivenOrderIsIdle(a: seq<Prop>, b: seq<Prop>)
    requires IsValue(VObj(a)) && IsValue(VObj(b)) && multiset(a) == multiset(b)
    requires Canonical(VObj(a)).Some? && Canonical(VObj(b)).Some?
    ensures Canonical(VObj(a)) == Canonical(VObj(b))
  {
    ObjectText(a);
    ObjectText(b);
    SortedIsInOrder(a);
    SortedIsInOrder(b);
    Sealing.AscendingOnce(O.SortBy(a, PropKey), O.SortBy(b, PropKey), PropKey);
  }

  // ---------------------------------------------------------------------- what is refused

  /** Some text of the value, a name or a string at any depth, has a lone surrogate that is found. */
  ghost predicate HasLoneText(v: Val)
    decreases v
  {
    match v
    case VStr(s) => LoneSurrogate(s)
    case VArr(items) => exists i :: 0 <= i < |items| && HasLoneText(items[i])
    case VObj(props) => exists i :: 0 <= i < |props| && PropHasLone(props[i])
    case _ => false
  }

  ghost predicate PropHasLone(p: Prop)
    decreases p
  {
    LoneSurrogate(p.name) || HasLoneText(p.val)
  }

  /** Nothing else is refused. */
  lemma {:induction false} RefusedExactly(v: Val)
    ensures Canonical(v).None? <==> HasLoneText(v)
    decreases v, 1
  {
    match v
    case VArr(items) => ItemsRefused(items);
    case VObj(props) => PropsRefused(props);
    case _ =>
  }

  lemma {:induction false} ItemsRefused(items: seq<Val>)
    ensures CanonicalItems(items).None? <==> exists i :: 0 <= i < |items| && HasLoneText(items[i])
    decreases items, 0
  {
    if items != [] {
      var tail := items[1..];
      RefusedExactly(items[0]);
      ItemsRefused(tail);
      assert forall i :: 0 <= i < |tail| ==> tail[i] == items[i + 1];
      assert forall i :: 1 <= i < |items| ==> items[i] == tail[i - 1];
    }
  }

  lemma {:induction false} PropsRefused(props: seq<Prop>)
    ensures CanonicalProps(props).None? <==> exists i :: 0 <= i < |props| && PropHasLone(props[i])
    decreases props, 0
  {
    if props != [] {
      var tail := props[1..];
      RefusedExactly(props[0].val);
      PropsRefused(tail);
      assert forall i :: 0 <= i < |tail| ==> tail[i] == props[i + 1];
      assert forall i :: 1 <= i < |props| ==> props[i] == tail[i - 1];
    }
  }

  // ------------------------------------------------------------------- the text scanned

  /** The white space, the two-character escapes and the punctuation of section 2 and section 7 of RFC 8259. */
  lemma {:induction false} GrammarWords(u: unit)
    ensures IsSpace(u) <==> u == ' ' as int || u == 9 || u == 10 || u == 13
    ensures EscValue(u) ==
      if u == '"' as int || u == '\\' as int || u == '/' as int then Some(u)
      else if u == 'b' as int then Some(8) else if u == 'f' as int then Some(12)
      else if u == 'n' as int then Some(10) else if u == 'r' as int then Some(13)
      else if u == 't' as int then Some(9) else None
    ensures AtomUnit(u) <==>
      && !IsSpace(u) && u != '"' as int && u != '{' as int && u != '}' as int
      && u != '[' as int && u != ']' as int && u != ':' as int && u != ',' as int
    ensures UnitOk(Plain(u)) <==> u >= 32 && u != '"' as int && u != '\\' as int
  {
  }
}
