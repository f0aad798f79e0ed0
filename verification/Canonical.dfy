/** The canonical text of a value (section 3.2 of RFC 8785): sorted member names, no
    whitespace, one way to escape; and that the scanner accepts all of it. */
module CanonicalJson {
  import opened Options
  import opened JsonText
  import Octets

  /** A value with its own properties; a number comes with its printed text. */
  datatype Val =
    | VNull
    | VBool(b: bool)
    | VNum(text: Units)
    | VStr(s: Units)
    | VArr(items: seq<Val>)
    | VObj(props: seq<Prop>)

  datatype Prop = Prop(name: Units, val: Val)

  /** Own property names are distinct, and a number's text is an atom. */
  ghost predicate IsValue(v: Val)
    decreases v
  {
    match v
    case VNum(text) => text != [] && forall i :: 0 <= i < |text| ==> AtomUnit(text[i])
    case VArr(items) => forall i :: 0 <= i < |items| ==> IsValue(items[i])
    case VObj(props) =>
      && (forall i, j :: 0 <= i < j < |props| ==> props[i].name != props[j].name)
      && forall i :: 0 <= i < |props| ==> IsProp(props[i])
    case _ => true
  }

  ghost predicate IsProp(p: Prop)
    decreases p
  {
    IsValue(p.val)
  }

  // ----------------------------------------------------------------- lone surrogates

  predicate HighSurrogate(u: unit) { 0xD800 <= u <= 0xDBFF }

  predicate LowSurrogate(u: unit) { 0xDC00 <= u <= 0xDFFF }

  /** Whether the unit at i begins or ends a surrogate pair. */
  predicate Paired(s: Units, i: nat)
    requires i < |s|
  {
    || (HighSurrogate(s[i]) && i + 1 < |s| && LowSurrogate(s[i + 1]))
    || (LowSurrogate(s[i]) && i > 0 && HighSurrogate(s[i - 1]))
  }

  predicate Lone(s: Units, i: nat)
    requires i < |s|
  {
    (HighSurrogate(s[i]) || LowSurrogate(s[i])) && !Paired(s, i)
  }

  /** What a text may not hold (section 3.2.2.2 of RFC 8785). */
  predicate HoldsLone(s: Units) { exists i :: 0 <= i < |s| && Lone(s, i) }

  predicate EndsHigh(s: Units) { s != [] && HighSurrogate(s[|s| - 1]) }

  /** What the program finds: the comparison after a high surrogate is with the next code unit, and
      behind the last one there is none, which compares as neither below nor above. */
  predicate LoneSurrogate(s: Units) { exists i :: 0 <= i < |s| && Lone(s, i) && !(i + 1 == |s| && HighSurrogate(s[i])) }

  /** The walk that skips pairs whole misses no other lone surrogate and takes no pair apart. */
  method HasLoneSurrogate(s: Units) returns (lone: bool)
    ensures lone == LoneSurrogate(s)
  {
    var i := 0;
    while i < |s|
      invariant i <= |s| + 1
      invariant forall k :: 0 <= k < i && k + 1 < |s| ==> !Lone(s, k)
      invariant i >= |s| > 0 ==> !Lone(s, |s| - 1) || HighSurrogate(s[|s| - 1])
      invariant 0 < i < |s| && LowSurrogate(s[i]) ==> !HighSurrogate(s[i - 1])
    {
      var c := s[i];
      if HighSurrogate(c) {
        if i + 1 < |s| && !LowSurrogate(s[i + 1]) {
          assert Lone(s, i);
          return true;
        }
        i := i + 1;
      } else if LowSurrogate(c) {
        assert Lone(s, i);
        return true;
      }
      i := i + 1;
    }
    return false;
  }

  /** The check is the rule except, and always, for a text that ends in a high surrogate behind a
      text without a lone one. */
  lemma {:induction false} LoneFoundExactly(s: Units)
    ensures (LoneSurrogate(s) <==> HoldsLone(s)) <==> !(EndsHigh(s) && !HoldsLone(s[..|s| - 1]))
  {
    if EndsHigh(s) {
      var t := s[..|s| - 1];
      assert Lone(s, |s| - 1);
      forall i | 0 <= i < |t| ensures Lone(t, i) <==> Lone(s, i) {
        assert t[i] == s[i];
      }
      if HoldsLone(t) {
        var i :| 0 <= i < |t| && Lone(t, i);
        assert Lone(s, i);
      }
      if LoneSurrogate(s) {
        var i :| 0 <= i < |s| && Lone(s, i) && !(i + 1 == |s| && HighSurrogate(s[i]));
        assert Lone(t, i);
      }
    }
  }

  // -------------------------------------------------------------------- quoting

  function HexDigit(v: nat): (u: unit)
    requires v < 16
    ensures HexValue(u) == Some(v)
  {
    if v < 10 then 0x30 + v else 0x61 + v - 10
  }

  /** How JSON.stringify writes one unit. */
  function QuoteUnit(u: unit): (s: StrUnit)
    ensures UnitOk(s) && UnitValue(s) == u
  {
    if u == QUOTE || u == BACKSLASH then Esc(u)
    else if u == 0x08 then Esc(0x62)
    else if u == 0x09 then Esc(0x74)
    else if u == 0x0A then Esc(0x6E)
    else if u == 0x0C then Esc(0x66)
    else if u == 0x0D then Esc(0x72)
    else if u < 0x20 then Hex(0x30, 0x30, HexDigit(u / 16), HexDigit(u % 16))
    else Plain(u)
  }

  lemma {:induction false} HighDigits(u: unit)
    requires HighSurrogate(u)
    ensures u == 0xD * 0x1000 + u / 256 % 16 * 0x100 + u / 16 % 16 * 0x10 + u % 16
  {
    assert u / 256 == 0xD0 + u / 256 % 16;
    assert u / 16 == u / 256 * 16 + u / 16 % 16;
    assert u == u / 16 * 16 + u % 16;
  }

  /** A lone high surrogate is written as an escape. */
  function QuoteHigh(u: unit): (s: StrUnit)
    requires HighSurrogate(u)
    ensures UnitOk(s) && UnitValue(s) == u
  {
    HighDigits(u);
    Hex(0x64, HexDigit(u / 256 % 16), HexDigit(u / 16 % 16), HexDigit(u % 16))
  }

  /** JSON.stringify of a text whose only lone surrogate may be a high one at the end. */
  function Quoted(s: Units): (lit: Literal)
    ensures |lit| == |s| && LiteralOk(lit) && Unescaped(lit) == s
  {
    if s == [] then []
    else if |s| == 1 && HighSurrogate(s[0]) then [QuoteHigh(s[0])]
    else
      var lit := [QuoteUnit(s[0])] + Quoted(s[1..]);
      assert lit[1..] == Quoted(s[1..]);
      lit
  }

  // ----------------------------------------------------------- the canonical text

  const TEXT_NULL: Units := [0x6E, 0x75, 0x6C, 0x6C]
  const TEXT_TRUE: Units := [0x74, 0x72, 0x75, 0x65]
  const TEXT_FALSE: Units := [0x66, 0x61, 0x6C, 0x73, 0x65]

  /** A name's order among its siblings: by UTF-16 code units. */
  function NameKey(name: Units): Octets.Octets {
    if name == [] then [] else [name[0] / 256, name[0] % 256] + NameKey(name[1..])
  }

  lemma {:induction false} NameKeyInjective(a: Units, b: Units)
    requires NameKey(a) == NameKey(b)
    ensures a == b
  {
    if a != [] && b != [] {
      assert NameKey(a)[0] == NameKey(b)[0] && NameKey(a)[1] == NameKey(b)[1];
      assert a[0] == b[0];
      assert NameKey(a)[2..] == NameKey(a[1..]) && NameKey(b)[2..] == NameKey(b[1..]);
      NameKeyInjective(a[1..], b[1..]);
      assert a == [a[0]] + a[1..] && b == [b[0]] + b[1..];
    }
  }

  datatype Part = Part(name: Units, text: Units)

  function PartKey(p: Part): Octets.Octets { NameKey(p.name) }

  /** canonical: None when a lone surrogate is found in some text. */
  function Canonical(v: Val): Option<Units>
    decreases v
  {
    match v
    case VNull => Some(TEXT_NULL)
    case VBool(b) => Some(if b then TEXT_TRUE else TEXT_FALSE)
    case VNum(text) => Some(text)
    case VStr(s) => if LoneSurrogate(s) then None else Some(LiteralText(Quoted(s)))
    case VArr(items) =>
      var texts := CanonicalItems(items);
      if texts.None? then None else Some([LBRACKET] + JoinTexts(texts.value) + [RBRACKET])
    case VObj(props) =>
      var parts := CanonicalProps(props);
      if parts.None? then None
      else Some([LBRACE] + JoinTexts(Octets.MapSeq(Octets.SortBy(parts.value, PartKey), PartText)) + [RBRACE])
  }

  function CanonicalItems(items: seq<Val>): (r: Option<seq<Units>>)
    ensures r.Some? ==> |r.value| == |items|
    decreases items
  {
    if items == [] then Some([])
    else
      var first, rest := Canonical(items[0]), CanonicalItems(items[1..]);
      if first.None? || rest.None? then None else Some([first.value] + rest.value)
  }

  function CanonicalProps(props: seq<Prop>): (r: Option<seq<Part>>)
    ensures r.Some? ==> |r.value| == |props|
    decreases props
  {
    if props == [] then Some([])
    else
      var first, rest := CanonicalProp(props[0]), CanonicalProps(props[1..]);
      if first.None? || rest.None? then None else Some([first.value] + rest.value)
  }

  function CanonicalProp(p: Prop): Option<Part>
    decreases p
  {
    var text := Canonical(p.val);
    if LoneSurrogate(p.name) || text.None? then None else Some(Part(p.name, text.value))
  }

  function PartText(p: Part): Units { LiteralText(Quoted(p.name)) + [COLON] + p.text }

  /** Array.prototype.join with a comma. */
  function JoinTexts(texts: seq<Units>): Units {
    if texts == [] then []
    else if |texts| == 1 then texts[0]
    else texts[0] + [COMMA] + JoinTexts(texts[1..])
  }

  // ---------------------------------------------------- the text as a parsed document

  datatype Built = Built(name: Units, doc: Doc)

  function BuiltKey(b: Built): Octets.Octets { NameKey(b.name) }

  function BuiltMember(b: Built): Member { Member([], Quoted(b.name), [], b.doc) }

  function BuiltPart(b: Built): Part { Part(b.name, PrintDoc(b.doc)) }

  function ToJson(v: Val): Json
    decreases v, 0
  {
    match v
    case VNull => Atom(TEXT_NULL)
    case VBool(b) => Atom(if b then TEXT_TRUE else TEXT_FALSE)
    case VNum(text) => Atom(text)
    case VStr(s) => Str(Quoted(s))
    case VArr(items) => Arr([], ToDocs(items))
    case VObj(props) => Obj([], Octets.MapSeq(Octets.SortBy(Build(props), BuiltKey), BuiltMember))
  }

  function ToDoc(v: Val): Doc
    decreases v, 1
  {
    Doc([], ToJson(v), [])
  }

  function ToDocs(items: seq<Val>): (docs: seq<Doc>)
    ensures |docs| == |items|
    ensures forall i :: 0 <= i < |items| ==> docs[i] == ToDoc(items[i])
    decreases items
  {
    if items == [] then [] else [ToDoc(items[0])] + ToDocs(items[1..])
  }

  function BuildProp(p: Prop): Built
    decreases p
  {
    Built(p.name, ToDoc(p.val))
  }

  function Build(props: seq<Prop>): (b: seq<Built>)
    ensures |b| == |props|
    ensures forall i :: 0 <= i < |props| ==> b[i] == BuildProp(props[i])
    decreases props
  {
    if props == [] then [] else [BuildProp(props[0])] + Build(props[1..])
  }

  ghost predicate GoodDoc(d: Doc) { WellFormedDoc(d) && CleanDoc(d) }

  lemma {:induction false} ValueIsGood(v: Val)
    requires IsValue(v)
    ensures GoodDoc(ToDoc(v))
    decreases v
  {
    match v
    case VArr(items) =>
      var docs := ToDocs(items);
      forall i | 0 <= i < |docs| ensures GoodDoc(docs[i]) { ValueIsGood(items[i]); }
    case VObj(props) =>
      forall i | 0 <= i < |props| ensures GoodDoc(Build(props)[i].doc) {
        assert IsProp(props[i]);
        ValueIsGood(props[i].val);
      }
      ObjectIsGood(props);
    case VStr(s) =>
    case _ => assert GoodDoc(ToDoc(v));
  }

  lemma {:induction false} ObjectIsGood(props: seq<Prop>)
    requires forall i, j :: 0 <= i < j < |props| ==> props[i].name != props[j].name
    requires forall i :: 0 <= i < |props| ==> GoodDoc(Build(props)[i].doc)
    ensures GoodDoc(ToDoc(VObj(props)))
  {
    var built := Build(props);
    var sorted := Octets.SortBy(built, BuiltKey);
    var members := Octets.MapSeq(sorted, BuiltMember);
    assert GoodMembers(members) by {
      NamesStayDistinct(props, sorted);
      DocsStayGood(built, sorted);
      MembersAreGood(sorted);
    }
    DocOfMembers(members);
    assert ToDoc(VObj(props)) == Doc([], Obj([], members), []);
  }

  ghost predicate GoodMembers(members: seq<Member>) {
    && (forall i :: 0 <= i < |members| ==> WellFormedMember(members[i]) && CleanMember(members[i]))
    && (forall i, j :: 0 <= i < j < |members| ==> NameOf(members[i]) != NameOf(members[j]))
  }

  lemma {:induction false} DocOfMembers(members: seq<Member>)
    requires GoodMembers(members)
    ensures GoodDoc(Doc([], Obj([], members), []))
  {
  }

  lemma {:induction false} DocsStayGood(built: seq<Built>, sorted: seq<Built>)
    requires multiset(sorted) == multiset(built)
    requires forall i :: 0 <= i < |built| ==> GoodDoc(built[i].doc)
    ensures forall i :: 0 <= i < |sorted| ==> GoodDoc(sorted[i].doc)
  {
    forall i | 0 <= i < |sorted| ensures GoodDoc(sorted[i].doc) {
      assert sorted[i] in multiset(sorted);
      assert sorted[i] in built;
    }
  }

  lemma {:induction false} NamesStayDistinct(props: seq<Prop>, sorted: seq<Built>)
    requires forall i, j :: 0 <= i < j < |props| ==> props[i].name != props[j].name
    requires sorted == Octets.SortBy(Build(props), BuiltKey)
    ensures forall i, j :: 0 <= i < j < |sorted| ==> sorted[i].name != sorted[j].name
  {
    var built := Build(props);
    forall i, j | 0 <= i < j < |built| ensures BuiltKey(built[i]) != BuiltKey(built[j]) {
      if BuiltKey(built[i]) == BuiltKey(built[j]) { NameKeyInjective(props[i].name, props[j].name); }
    }
    Octets.SortDistinct(built, BuiltKey);
    forall i, j | 0 <= i < j < |sorted| ensures sorted[i].name != sorted[j].name {
      assert BuiltKey(sorted[i]) != BuiltKey(sorted[j]);
    }
  }

  lemma {:induction false} MembersAreGood(built: seq<Built>)
    requires forall i :: 0 <= i < |built| ==> GoodDoc(built[i].doc)
    requires forall i, j :: 0 <= i < j < |built| ==> built[i].name != built[j].name
    ensures GoodMembers(Octets.MapSeq(built, BuiltMember))
  {
    var members := Octets.MapSeq(built, BuiltMember);
    forall i | 0 <= i < |members|
      ensures WellFormedMember(members[i]) && CleanMember(members[i]) && NameOf(members[i]) == built[i].name
    {
      assert members[i] == BuiltMember(built[i]) && GoodDoc(built[i].doc);
    }
  }

  // --------------------------------------------------- the text is the printed document

  lemma {:induction false} TextIsPrinted(v: Val)
    requires Canonical(v).Some?
    ensures Canonical(v).value == PrintDoc(ToDoc(v))
    decreases v, 1
  {
    var d := ToDoc(v);
    assert PrintDoc(d) == Print(d.value);
    match v
    case VArr(items) =>
      ItemsArePrinted(items);
      JoinIsPrintedItems(ToDocs(items));
    case VObj(props) =>
      PropsArePrinted(props);
      Octets.SortMapped(Build(props), BuiltPart, PartKey, BuiltKey);
      JoinIsPrintedMembers(Octets.SortBy(Build(props), BuiltKey));
    case _ =>
  }

  lemma {:induction false} ItemsArePrinted(items: seq<Val>)
    requires CanonicalItems(items).Some?
    ensures CanonicalItems(items).value == Octets.MapSeq(ToDocs(items), PrintDoc)
    decreases items, 0
  {
    if items != [] {
      TextIsPrinted(items[0]);
      ItemsArePrinted(items[1..]);
      assert ToDocs(items)[1..] == ToDocs(items[1..]);
    }
  }

  lemma {:induction false} PropsArePrinted(props: seq<Prop>)
    requires CanonicalProps(props).Some?
    ensures CanonicalProps(props).value == Octets.MapSeq(Build(props), BuiltPart)
    decreases props, 0
  {
    if props != [] {
      PropIsPrinted(props[0]);
      PropsArePrinted(props[1..]);
      assert Build(props)[1..] == Build(props[1..]);
    }
  }

  lemma {:induction false} PropIsPrinted(p: Prop)
    requires CanonicalProp(p).Some?
    ensures CanonicalProp(p).value == BuiltPart(BuildProp(p))
    decreases p, 0
  {
    TextIsPrinted(p.val);
  }

  lemma {:induction false} JoinIsPrintedItems(docs: seq<Doc>)
    ensures JoinTexts(Octets.MapSeq(docs, PrintDoc)) == if docs == [] then [] else PrintItems(docs)
  {
    if docs != [] {
      assert Octets.MapSeq(docs, PrintDoc)[1..] == Octets.MapSeq(docs[1..], PrintDoc);
      JoinIsPrintedItems(docs[1..]);
    }
  }

  lemma {:induction false} JoinIsPrintedMembers(built: seq<Built>)
    ensures var members := Octets.MapSeq(built, BuiltMember);
            JoinTexts(Octets.MapSeq(Octets.MapSeq(built, BuiltPart), PartText))
              == if members == [] then [] else PrintMembers(members)
  {
    if built != [] {
      var members := Octets.MapSeq(built, BuiltMember);
      var texts := Octets.MapSeq(Octets.MapSeq(built, BuiltPart), PartText);
      assert members[1..] == Octets.MapSeq(built[1..], BuiltMember);
      assert texts[1..] == Octets.MapSeq(Octets.MapSeq(built[1..], BuiltPart), PartText);
      assert texts[0] == PrintMember(members[0]);
      JoinIsPrintedMembers(built[1..]);
    }
  }

  /** The canonical text of a value is a JSON text whose objects repeat no name, and
      the scanner reports nothing in it. */
  lemma {:induction false} CanonicalIsAccepted(v: Val)
    requires IsValue(v) && Canonical(v).Some?
    ensures Scan(Canonical(v).value, []) == None
  {
    TextIsPrinted(v);
    ValueIsGood(v);
    ScannerIsExact(ToDoc(v));
  }

  const LONE_HIGH: Units := [0xD800]

  /** A text that is one lone high surrogate is not refused: it is written as an escape. */
  lemma {:induction false} TrailingHighIsWritten()
    ensures HoldsLone(LONE_HIGH)
    ensures Canonical(VStr(LONE_HIGH)) == Some([QUOTE, BACKSLASH, LOWER_U, 0x64, 0x38, 0x30, 0x30, QUOTE])
  {
    assert Lone(LONE_HIGH, 0);
    assert !LoneSurrogate(LONE_HIGH);
    var lit := [Hex(0x64, 0x38, 0x30, 0x30)];
    assert Quoted(LONE_HIGH) == lit;
    assert lit[1..] == [];
    assert BodyText([]) == [];
    assert BodyText(lit) == UnitText(lit[0]) + BodyText(lit[1..]);
    assert LiteralText(lit) == [QUOTE, BACKSLASH, LOWER_U, 0x64, 0x38, 0x30, 0x30, QUOTE];
    assert Canonical(VStr(LONE_HIGH)) == Some(LiteralText(Quoted(LONE_HIGH)));
  }
}
