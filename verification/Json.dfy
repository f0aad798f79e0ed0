/** The scanner that looks for a repeated member name in JSON text, over UTF-16 code
    units, against the grammar of the text. */
module JsonText {
  import opened Options

  type unit = n: int | 0 <= n < 0x1_0000
  type Units = seq<unit>

  const QUOTE: unit := 0x22
  const BACKSLASH: unit := 0x5C
  const COLON: unit := 0x3A
  const COMMA: unit := 0x2C
  const LBRACE: unit := 0x7B
  const RBRACE: unit := 0x7D
  const LBRACKET: unit := 0x5B
  const RBRACKET: unit := 0x5D
  const LOWER_U: unit := 0x75

  predicate IsSpace(u: unit) { u == 0x20 || u == 0x09 || u == 0x0A || u == 0x0D }

  // -------------------------------------------------------------------- strings

  /** One unit of a string literal as it is written. */
  datatype StrUnit = Plain(u: unit) | Esc(c: unit) | Hex(a: unit, b: unit, c2: unit, d: unit)

  /** What a two-unit escape stands for. */
  function EscValue(c: unit): Option<unit> {
    if c == QUOTE || c == BACKSLASH || c == 0x2F then Some(c)
    else if c == 0x62 then Some(0x08)
    else if c == 0x66 then Some(0x0C)
    else if c == 0x6E then Some(0x0A)
    else if c == 0x72 then Some(0x0D)
    else if c == 0x74 then Some(0x09)
    else None
  }

  function HexValue(c: unit): (v: Option<nat>)
    ensures v.Some? ==> v.value < 16
  {
    if 0x30 <= c <= 0x39 then Some(c - 0x30)
    else if 0x41 <= c <= 0x46 then Some(c - 0x41 + 10)
    else if 0x61 <= c <= 0x66 then Some(c - 0x61 + 10)
    else None
  }

  function FourHex(a: unit, b: unit, c: unit, d: unit): Option<unit> {
    if HexValue(a).Some? && HexValue(b).Some? && HexValue(c).Some? && HexValue(d).Some? then
      Some(HexValue(a).value * 0x1000 + HexValue(b).value * 0x100 + HexValue(c).value * 0x10 + HexValue(d).value)
    else None
  }

  predicate UnitOk(s: StrUnit) {
    match s
    case Plain(u) => u >= 0x20 && u != QUOTE && u != BACKSLASH
    case Esc(c) => EscValue(c).Some?
    case Hex(a, b, c, d) => FourHex(a, b, c, d).Some?
  }

  function UnitValue(s: StrUnit): unit
    requires UnitOk(s)
  {
    match s
    case Plain(u) => u
    case Esc(c) => EscValue(c).value
    case Hex(a, b, c, d) => FourHex(a, b, c, d).value
  }

  function UnitText(s: StrUnit): Units {
    match s
    case Plain(u) => [u]
    case Esc(c) => [BACKSLASH, c]
    case Hex(a, b, c, d) => [BACKSLASH, LOWER_U, a, b, c, d]
  }

  type Literal = seq<StrUnit>

  predicate LiteralOk(s: Literal) { forall i :: 0 <= i < |s| ==> UnitOk(s[i]) }

  function BodyText(s: Literal): Units {
    if s == [] then [] else UnitText(s[0]) + BodyText(s[1..])
  }

  function LiteralText(s: Literal): Units { [QUOTE] + BodyText(s) + [QUOTE] }

  /** The name a literal stands for. */
  function Unescaped(s: Literal): (v: Units)
    requires LiteralOk(s)
    ensures |v| == |s|
  {
    if s == [] then [] else [UnitValue(s[0])] + Unescaped(s[1..])
  }

  /** JSON.parse of the body of a string literal: None when it is not one. */
  function ParseBody(b: Units): Option<Units> {
    if b == [] then Some([])
    else if b[0] == BACKSLASH then
      if |b| >= 2 && EscValue(b[1]).Some? then
        var rest := ParseBody(b[2..]);
        if rest.Some? then Some([EscValue(b[1]).value] + rest.value) else None
      else if |b| >= 6 && b[1] == LOWER_U && FourHex(b[2], b[3], b[4], b[5]).Some? then
        var rest := ParseBody(b[6..]);
        if rest.Some? then Some([FourHex(b[2], b[3], b[4], b[5]).value] + rest.value) else None
      else None
    else if b[0] < 0x20 || b[0] == QUOTE then None
    else
      var rest := ParseBody(b[1..]);
      if rest.Some? then Some([b[0]] + rest.value) else None
  }

  function ParseLiteral(raw: Units): Option<Units> {
    if |raw| >= 2 && raw[0] == QUOTE && raw[|raw| - 1] == QUOTE then ParseBody(raw[1..|raw| - 1]) else None
  }

  lemma {:induction false} ParseBodyOfText(s: Literal)
    requires LiteralOk(s)
    ensures ParseBody(BodyText(s)) == Some(Unescaped(s))
  {
    if s != [] {
      var b, rest := BodyText(s), BodyText(s[1..]);
      ParseBodyOfText(s[1..]);
      match s[0]
      case Plain(u) => assert b[1..] == rest;
      case Esc(c) => assert b[2..] == rest;
      case Hex(_, _, _, _) =>
        assert EscValue(LOWER_U).None?;
        assert b[6..] == rest;
    }
  }

  lemma {:induction false} ParseLiteralOfText(s: Literal)
    requires LiteralOk(s)
    ensures ParseLiteral(LiteralText(s)) == Some(Unescaped(s))
  {
    var raw := LiteralText(s);
    assert raw[1..|raw| - 1] == BodyText(s);
    ParseBodyOfText(s);
  }

  // ------------------------------------------------------------------ the scanner

  /** An open object with the names seen in it, or an open array. */
  datatype Frame = Names(names: set<Units>) | NoNames

  /** How far the string loop runs past an opening quote: over the closing quote, or
      to the end. */
  function BodyEnd(t: Units): (n: nat)
    ensures n <= |t|
  {
    if t == [] then 0
    else if t[0] == QUOTE then 1
    else if t[0] == BACKSLASH then
      if |t| == 1 then 1 else 2 + BodyEnd(t[2..])
    else 1 + BodyEnd(t[1..])
  }

  /** Whether the next unit after whitespace is a colon. */
  predicate ColonNext(t: Units) {
    t != [] && (t[0] == COLON || (IsSpace(t[0]) && ColonNext(t[1..])))
  }

  function Pop(stack: seq<Frame>): seq<Frame> {
    if stack == [] then [] else stack[..|stack| - 1]
  }

  function Scan(t: Units, stack: seq<Frame>): Option<Units>
    decreases |t|
  {
    if t == [] then None
    else if t[0] == QUOTE then
      var n := 1 + BodyEnd(t[1..]);
      var rest := t[n..];
      if ColonNext(rest) && stack != [] && stack[|stack| - 1].Names? then
        var name := ParseLiteral(t[..n]);
        if name.None? then None
        else if name.value in stack[|stack| - 1].names then name
        else Scan(rest, stack[|stack| - 1 := Names(stack[|stack| - 1].names + {name.value})])
      else Scan(rest, stack)
    else if t[0] == LBRACE then Scan(t[1..], stack + [Names({})])
    else if t[0] == LBRACKET then Scan(t[1..], stack + [NoNames])
    else if t[0] == RBRACE || t[0] == RBRACKET then Scan(t[1..], Pop(stack))
    else Scan(t[1..], stack)
  }

  /** jsonDuplicateMemberName: the index loop with its stack of name sets. */
  method JsonDuplicateMemberName(text: Units) returns (found: Option<Units>)
    ensures found == Scan(text, [])
  {
    var stack: seq<Frame> := [];
    var i, n := 0, |text|;
    assert text[0..] == text;
    while i < n
      invariant 0 <= i <= n
      invariant Scan(text[i..], stack) == Scan(text, [])
    {
      var c := text[i];
      if c == QUOTE {
        var start := i;
        i := SkipString(text, i + 1);
        var raw := text[start..i];
        assert raw == text[start..][..i - start] && text[start..][i - start..] == text[i..];
        var colon := LooksAtColon(text, i);
        if colon && stack != [] && stack[|stack| - 1].Names? {
          var top := stack[|stack| - 1];
          var name := ParseLiteral(raw);
          if name.None? { return None; }
          if name.value in top.names { return name; }
          stack := stack[|stack| - 1 := Names(top.names + {name.value})];
        }
      } else {
        assert text[i..][1..] == text[i + 1..];
        if c == LBRACE { stack := stack + [Names({})]; }
        else if c == LBRACKET { stack := stack + [NoNames]; }
        else if c == RBRACE || c == RBRACKET { stack := Pop(stack); }
        i := i + 1;
      }
    }
    assert text[i..] == [];
    return None;
  }

  method SkipString(text: Units, start: nat) returns (i: nat)
    requires 1 <= start <= |text|
    ensures i == start + BodyEnd(text[start..])
  {
    i := start;
    while i < |text| && text[i] != QUOTE
      invariant start <= i <= |text|
      invariant start + BodyEnd(text[start..]) == i + BodyEnd(text[i..])
    {
      if text[i] == BACKSLASH && i + 1 < |text| {
        assert text[i..][2..] == text[i + 2..];
        i := i + 2;
      } else {
        assert text[i..][1..] == text[i + 1..];
        i := i + 1;
      }
    }
    if i < |text| { i := i + 1; }
  }

  method LooksAtColon(text: Units, start: nat) returns (colon: bool)
    requires start <= |text|
    ensures colon == ColonNext(text[start..])
  {
    var j := start;
    while j < |text| && IsSpace(text[j])
      invariant start <= j <= |text|
      invariant ColonNext(text[start..]) == ColonNext(text[j..])
    {
      assert text[j..][1..] == text[j + 1..];
      j := j + 1;
    }
    colon := j < |text| && text[j] == COLON;
  }

  // ------------------------------------------------------------ the text's grammar

  /** A JSON text as it is written. An atom is a run of units with no quote, bracket,
      brace, colon, comma or whitespace, which every number and literal is. */
  datatype Json =
    | Atom(text: Units)
    | Str(lit: Literal)
    | Arr(pad: Units, items: seq<Doc>)
    | Obj(pad: Units, members: seq<Member>)

  /** A value between whitespace. */
  datatype Doc = Doc(before: Units, value: Json, after: Units)

  datatype Member = Member(before: Units, name: Literal, after: Units, value: Doc)

  predicate Spaces(s: Units) { forall i :: 0 <= i < |s| ==> IsSpace(s[i]) }

  predicate AtomUnit(u: unit) {
    && u != QUOTE && u != LBRACE && u != RBRACE && u != LBRACKET && u != RBRACKET
    && u != COLON && u != COMMA && !IsSpace(u)
  }

  ghost predicate WellFormed(v: Json)
    decreases v
  {
    match v
    case Atom(text) => text != [] && forall i :: 0 <= i < |text| ==> AtomUnit(text[i])
    case Str(lit) => LiteralOk(lit)
    case Arr(pad, items) => Spaces(pad) && forall i :: 0 <= i < |items| ==> WellFormedDoc(items[i])
    case Obj(pad, members) => Spaces(pad) && forall i :: 0 <= i < |members| ==> WellFormedMember(members[i])
  }

  ghost predicate WellFormedDoc(d: Doc)
    decreases d
  {
    Spaces(d.before) && WellFormed(d.value) && Spaces(d.after)
  }

  ghost predicate WellFormedMember(m: Member)
    decreases m
  {
    Spaces(m.before) && LiteralOk(m.name) && Spaces(m.after) && WellFormedDoc(m.value)
  }

  function Print(v: Json): Units
    decreases v
  {
    match v
    case Atom(text) => text
    case Str(lit) => LiteralText(lit)
    case Arr(pad, items) => [LBRACKET] + (if items == [] then pad else PrintItems(items)) + [RBRACKET]
    case Obj(pad, members) => [LBRACE] + (if members == [] then pad else PrintMembers(members)) + [RBRACE]
  }

  function PrintDoc(d: Doc): Units
    decreases d
  {
    d.before + Print(d.value) + d.after
  }

  function PrintMember(m: Member): Units
    decreases m
  {
    m.before + LiteralText(m.name) + m.after + [COLON] + PrintDoc(m.value)
  }

  function PrintItems(items: seq<Doc>): Units
    requires items != []
    decreases items
  {
    if |items| == 1 then PrintDoc(items[0]) else PrintDoc(items[0]) + [COMMA] + PrintItems(items[1..])
  }

  function PrintMembers(members: seq<Member>): Units
    requires members != []
    decreases members
  {
    if |members| == 1 then PrintMember(members[0])
    else PrintMember(members[0]) + [COMMA] + PrintMembers(members[1..])
  }

  // ---------------------------------------------------------- names that repeat

  /** The name a member writes, unescaped. */
  function NameOf(m: Member): Units
    requires WellFormedMember(m)
  {
    Unescaped(m.name)
  }

  /** No object at any depth writes one unescaped name twice. */
  ghost predicate Clean(v: Json)
    requires WellFormed(v)
    decreases v
  {
    match v
    case Arr(_, items) => forall i :: 0 <= i < |items| ==> CleanDoc(items[i])
    case Obj(_, members) =>
      && (forall i, j :: 0 <= i < j < |members| ==> NameOf(members[i]) != NameOf(members[j]))
      && forall i :: 0 <= i < |members| ==> CleanMember(members[i])
    case _ => true
  }

  ghost predicate CleanDoc(d: Doc)
    requires WellFormedDoc(d)
    decreases d
  {
    Clean(d.value)
  }

  ghost predicate CleanMember(m: Member)
    requires WellFormedMember(m)
    decreases m
  {
    CleanDoc(m.value)
  }

  /** The members write no name twice and none of those already seen. */
  ghost predicate CleanMembers(members: seq<Member>, seen: set<Units>)
    requires forall i :: 0 <= i < |members| ==> WellFormedMember(members[i])
    decreases |members|
  {
    members == [] ||
    (&& NameOf(members[0]) !in seen
     && CleanMember(members[0])
     && CleanMembers(members[1..], seen + {NameOf(members[0])}))
  }

  lemma {:induction false} CleanMembersMeans(members: seq<Member>, seen: set<Units>)
    requires forall i :: 0 <= i < |members| ==> WellFormedMember(members[i])
    ensures CleanMembers(members, seen) <==>
      && (forall i :: 0 <= i < |members| ==> NameOf(members[i]) !in seen)
      && (forall i, j :: 0 <= i < j < |members| ==> NameOf(members[i]) != NameOf(members[j]))
      && (forall i :: 0 <= i < |members| ==> CleanMember(members[i]))
    decreases |members|
  {
    if members != [] {
      var head, tail := members[0], members[1..];
      var name := NameOf(head);
      assert forall i :: 0 <= i < |tail| ==> tail[i] == members[i + 1];
      assert forall i :: 1 <= i < |members| ==> members[i] == tail[i - 1];
      CleanMembersMeans(tail, seen + {name});
    }
  }

  // ------------------------------------------------------ the scanner on printed text

  lemma {:induction false} BodyEndOfText(s: Literal, rest: Units)
    requires LiteralOk(s)
    ensures BodyEnd(BodyText(s) + [QUOTE] + rest) == |BodyText(s)| + 1
  {
    var t := BodyText(s) + [QUOTE] + rest;
    if s != [] {
      var behind := BodyText(s[1..]) + [QUOTE] + rest;
      BodyEndOfText(s[1..], rest);
      match s[0]
      case Plain(u) => assert t == [u] + behind;
      case Esc(c) =>
        assert t == [BACKSLASH, c] + behind;
        assert t[2..] == behind;
      case Hex(a, b, c, d) =>
        assert t == [BACKSLASH, LOWER_U, a, b, c, d] + behind;
        SkipHex(a, b, c, d, behind);
    }
  }

  lemma {:induction false} SkipHex(a: unit, b: unit, c: unit, d: unit, behind: Units)
    requires FourHex(a, b, c, d).Some?
    ensures BodyEnd([BACKSLASH, LOWER_U, a, b, c, d] + behind) == 6 + BodyEnd(behind)
  {
    SkipTwo(c, d, behind);
    SkipTwo(a, b, [c, d] + behind);
    HexText(a, b, c, d, behind);
  }

  lemma HexText(a: unit, b: unit, c: unit, d: unit, behind: Units)
    ensures ([BACKSLASH, LOWER_U, a, b, c, d] + behind)[2..] == [a, b] + ([c, d] + behind)
  {
  }

  lemma {:induction false} SkipTwo(a: unit, b: unit, behind: Units)
    requires a != QUOTE && a != BACKSLASH && b != QUOTE && b != BACKSLASH
    ensures BodyEnd([a, b] + behind) == 2 + BodyEnd(behind)
  {
    SkipOne(b, behind);
    SkipOne(a, [b] + behind);
    assert [a, b] + behind == [a] + ([b] + behind);
  }

  lemma {:induction false} SkipOne(u: unit, behind: Units)
    requires u != QUOTE && u != BACKSLASH
    ensures BodyEnd([u] + behind) == 1 + BodyEnd(behind)
  {
    assert ([u] + behind)[1..] == behind;
  }

  lemma {:induction false} ScanSpaces(s: Units, rest: Units, stack: seq<Frame>)
    requires Spaces(s)
    ensures Scan(s + rest, stack) == Scan(rest, stack)
    ensures ColonNext(s + rest) == ColonNext(rest)
  {
    if s == [] {
      assert s + rest == rest;
    } else {
      assert (s + rest)[1..] == s[1..] + rest;
      assert IsSpace(s[0]);
      ScanSpaces(s[1..], rest, stack);
    }
  }

  lemma {:induction false} ScanAtom(s: Units, rest: Units, stack: seq<Frame>)
    requires forall i :: 0 <= i < |s| ==> AtomUnit(s[i])
    ensures Scan(s + rest, stack) == Scan(rest, stack)
  {
    if s == [] {
      assert s + rest == rest;
    } else {
      assert (s + rest)[1..] == s[1..] + rest;
      assert AtomUnit(s[0]);
      ScanAtom(s[1..], rest, stack);
    }
  }

  /** What the scanner does at a string literal. */
  lemma {:induction false} ScanLiteral(s: Literal, rest: Units, stack: seq<Frame>)
    requires LiteralOk(s)
    ensures var t := LiteralText(s) + rest;
            var top := stack != [] && stack[|stack| - 1].Names?;
            Scan(t, stack) ==
              if ColonNext(rest) && top then
                if Unescaped(s) in stack[|stack| - 1].names then Some(Unescaped(s))
                else Scan(rest, stack[|stack| - 1 := Names(stack[|stack| - 1].names + {Unescaped(s)})])
              else Scan(rest, stack)
  {
    var t := LiteralText(s) + rest;
    assert t[1..] == BodyText(s) + [QUOTE] + rest;
    BodyEndOfText(s, rest);
    var n := 1 + BodyEnd(t[1..]);
    assert t[..n] == LiteralText(s) && t[n..] == rest;
    ParseLiteralOfText(s);
  }

  /** The outcome of scanning a part of the text: silent, so that the scan goes on
      behind it with the same stack, or a repeated name. */
  ghost predicate Outcome(clean: bool, t: Units, stack: seq<Frame>, rest: Units, stack': seq<Frame>) {
    if clean then Scan(t, stack) == Scan(rest, stack') else Scan(t, stack).Some?
  }

  lemma {:induction false} ScanValue(v: Json, rest: Units, stack: seq<Frame>)
    requires WellFormed(v) && !ColonNext(rest)
    ensures Outcome(Clean(v), Print(v) + rest, stack, rest, stack)
    decreases v, 2
  {
    match v
    case Atom(text) => ScanAtom(text, rest, stack);
    case Str(lit) => ScanLiteral(lit, rest, stack);
    case Arr(pad, items) => ScanArray(pad, items, rest, stack);
    case Obj(pad, members) => ScanObject(pad, members, rest, stack);
  }

  lemma ArrayText(pad: Units, items: seq<Doc>, rest: Units)
    ensures var t := Print(Arr(pad, items)) + rest;
      t[0] == LBRACKET && t[1..] == (if items == [] then pad else PrintItems(items)) + ([RBRACKET] + rest)
  {
    var inner := if items == [] then pad else PrintItems(items);
    assert Print(Arr(pad, items)) + rest == [LBRACKET] + (inner + ([RBRACKET] + rest));
  }

  lemma ObjectText(pad: Units, members: seq<Member>, rest: Units)
    ensures var t := Print(Obj(pad, members)) + rest;
      t[0] == LBRACE && t[1..] == (if members == [] then pad else PrintMembers(members)) + ([RBRACE] + rest)
  {
    var inner := if members == [] then pad else PrintMembers(members);
    assert Print(Obj(pad, members)) + rest == [LBRACE] + (inner + ([RBRACE] + rest));
  }

  lemma MemberText(m: Member, rest: Units)
    ensures PrintMember(m) + rest
      == m.before + (LiteralText(m.name) + (m.after + ([COLON] + (PrintDoc(m.value) + rest))))
  {
  }

  lemma {:induction false} ScanArray(pad: Units, items: seq<Doc>, rest: Units, stack: seq<Frame>)
    requires WellFormed(Arr(pad, items)) && !ColonNext(rest)
    ensures Outcome(Clean(Arr(pad, items)), Print(Arr(pad, items)) + rest, stack, rest, stack)
    decreases items, 1
  {
    var behind := [RBRACKET] + rest;
    assert behind[1..] == rest;
    ArrayText(pad, items, rest);
    var open := stack + [NoNames];
    assert Pop(open) == stack;
    if items == [] { ScanSpaces(pad, behind, open); } else { ScanItems(items, behind, open); }
  }

  lemma CleanSplit(items: seq<Doc>)
    requires items != [] && forall i :: 0 <= i < |items| ==> WellFormedDoc(items[i])
    ensures (forall i :: 0 <= i < |items| ==> CleanDoc(items[i])) <==>
      CleanDoc(items[0]) && forall i :: 0 <= i < |items[1..]| ==> CleanDoc(items[1..][i])
  {
    assert forall i :: 1 <= i < |items| ==> items[i] == items[1..][i - 1];
  }

  lemma PrintSplit(items: seq<Doc>, rest: Units)
    requires |items| > 1
    ensures PrintItems(items) + rest == PrintDoc(items[0]) + [COMMA] + (PrintItems(items[1..]) + rest)
  {
  }

  lemma {:induction false} ScanNext(head: Doc, behind: Units, stack: seq<Frame>)
    requires WellFormedDoc(head)
    ensures Outcome(CleanDoc(head), PrintDoc(head) + [COMMA] + behind, stack, behind, stack)
    decreases head, 2
  {
    var after := [COMMA] + behind;
    assert PrintDoc(head) + [COMMA] + behind == PrintDoc(head) + after;
    assert after[1..] == behind;
    ScanDoc(head, after, stack);
  }

  lemma {:induction false} ScanItems(items: seq<Doc>, rest: Units, stack: seq<Frame>)
    requires items != [] && (forall i :: 0 <= i < |items| ==> WellFormedDoc(items[i])) && !ColonNext(rest)
    ensures Outcome(forall i :: 0 <= i < |items| ==> CleanDoc(items[i]), PrintItems(items) + rest, stack, rest, stack)
    decreases items, 0
  {
    var head, tail := items[0], items[1..];
    CleanSplit(items);
    if |items| == 1 {
      ScanDoc(head, rest, stack);
    } else {
      PrintSplit(items, rest);
      ScanNext(head, PrintItems(tail) + rest, stack);
      ScanItems(tail, rest, stack);
    }
  }

  lemma {:induction false} ScanDoc(d: Doc, rest: Units, stack: seq<Frame>)
    requires WellFormedDoc(d) && !ColonNext(rest)
    ensures Outcome(CleanDoc(d), PrintDoc(d) + rest, stack, rest, stack)
    decreases d, 1
  {
    var behind := d.after + rest;
    ScanSpaces(d.after, rest, stack);
    assert PrintDoc(d) + rest == d.before + (Print(d.value) + behind);
    ScanSpaces(d.before, Print(d.value) + behind, stack);
    ScanValue(d.value, behind, stack);
  }

  lemma {:induction false} ScanObject(pad: Units, members: seq<Member>, rest: Units, stack: seq<Frame>)
    requires WellFormed(Obj(pad, members)) && !ColonNext(rest)
    ensures Outcome(Clean(Obj(pad, members)), Print(Obj(pad, members)) + rest, stack, rest, stack)
    decreases members, 1
  {
    var behind := [RBRACE] + rest;
    assert behind[1..] == rest;
    ObjectText(pad, members, rest);
    var open := stack + [Names({})];
    CleanMembersMeans(members, {});
    if members == [] {
      assert Pop(open) == stack;
      ScanSpaces(pad, behind, open);
    } else {
      var names := ScanMembers(members, {}, behind, stack);
      assert Pop(stack + [Names(names)]) == stack;
    }
  }

  lemma {:induction false} ScanMembers(members: seq<Member>, seen: set<Units>, rest: Units, stack: seq<Frame>)
    returns (names: set<Units>)
    requires members != [] && (forall i :: 0 <= i < |members| ==> WellFormedMember(members[i])) && !ColonNext(rest)
    ensures Outcome(CleanMembers(members, seen), PrintMembers(members) + rest, stack + [Names(seen)],
                    rest, stack + [Names(names)])
    decreases members, 0
  {
    var head, tail := members[0], members[1..];
    names := seen + {NameOf(head)};
    assert CleanMembers(members, seen) <==>
      NameOf(head) !in seen && CleanMember(head) && CleanMembers(tail, names);
    if |members| == 1 {
      ScanMember(head, seen, rest, stack);
      assert PrintMembers(members) == PrintMember(head);
    } else {
      var behind := PrintMembers(tail) + rest;
      var after := [COMMA] + behind;
      assert PrintMembers(members) + rest == PrintMember(head) + after;
      assert after[1..] == behind;
      assert forall i :: 0 <= i < |tail| ==> tail[i] == members[i + 1];
      ScanMember(head, seen, after, stack);
      names := ScanMembers(tail, names, rest, stack);
    }
  }

  lemma {:induction false} ScanMember(m: Member, seen: set<Units>, rest: Units, stack: seq<Frame>)
    requires WellFormedMember(m) && !ColonNext(rest)
    ensures Outcome(NameOf(m) !in seen && CleanMember(m), PrintMember(m) + rest, stack + [Names(seen)],
                    rest, stack + [Names(seen + {NameOf(m)})])
    decreases m, 0
  {
    var open := stack + [Names(seen)];
    var named := stack + [Names(seen + {NameOf(m)})];
    var value := PrintDoc(m.value) + rest;
    var colon := [COLON] + value;
    var behind := m.after + colon;
    MemberText(m, rest);
    ScanSpaces(m.before, LiteralText(m.name) + behind, open);
    ScanSpaces(m.after, colon, named);
    ScanLiteral(m.name, behind, open);
    assert open[|open| - 1 := Names(seen + {NameOf(m)})] == named;
    assert colon[1..] == value;
    ScanDoc(m.value, rest, named);
  }

  /** For every JSON text, however it is spaced and escaped: the scanner reports
      nothing exactly when no object in it, at any depth, repeats an unescaped name. */
  lemma {:induction false} ScannerIsExact(d: Doc)
    requires WellFormedDoc(d)
    ensures Scan(PrintDoc(d), []) == None <==> CleanDoc(d)
  {
    ScanDoc(d, [], []);
    assert PrintDoc(d) + [] == PrintDoc(d);
  }
}
