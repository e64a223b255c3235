/**
 Canonical printing (src/domain.ts:502-546): objects are printed with their keys sorted, so that two values print
 alike exactly when they are equal up to the order of object keys.  Texts are sequences of UTF-16 code units, as
 JavaScript strings are; string escaping follows section 7 of RFC 8259, with lone surrogates escaped too.
 */
module CanonicalJson {
  import opened Common

  type Unit = u: int | 0 <= u < 0x10000

  type Text = seq<Unit>

  const QUOTE: Unit := 34
  const COMMA: Unit := 44
  const COLON: Unit := 58
  const OPEN_BRACKET: Unit := 91
  const BACKSLASH: Unit := 92
  const CLOSE_BRACKET: Unit := 93
  const LETTER_U: Unit := 117
  const OPEN_BRACE: Unit := 123
  const CLOSE_BRACE: Unit := 125

  const TRUE: Text := [116, 114, 117, 101]
  const FALSE: Text := [102, 97, 108, 115, 101]
  const NULL: Text := [110, 117, 108, 108]
  const UNDEFINED: Text := [117, 110, 100, 101, 102, 105, 110, 101, 100]

  datatype Field = Field(key: Text, value: Json)

  /** A finite number is identified with the literal that `JSON.stringify` prints for it. */
  datatype Json =
    | Null
    | Undefined
    | Bool(b: bool)
    | Num(literal: Text)
    | Str(s: Text)
    | Arr(items: seq<Json>)
    | Obj(fields: seq<Field>)

  // ---------- Strings ----------

  predicate HighSurrogate(u: Unit) { 0xD800 <= u < 0xDC00 }

  predicate LowSurrogate(u: Unit) { 0xDC00 <= u < 0xE000 }

  function HexDigit(n: int): Unit
    requires 0 <= n < 16
  {
    if n < 10 then 48 + n else 87 + n
  }

  function Hex(u: Unit): Text {
    [HexDigit(u / 4096), HexDigit(u / 256 % 16), HexDigit(u / 16 % 16), HexDigit(u % 16)]
  }

  /** The letter of a two-unit escape, if there is one. */
  function ShortEscape(u: Unit): Text {
    match u
    case 34 => [34]
    case 92 => [92]
    case 8 => [98]
    case 12 => [102]
    case 10 => [110]
    case 13 => [114]
    case 9 => [116]
    case _ => []
  }

  function EscapeUnit(u: Unit): Text {
    if ShortEscape(u) != [] then [BACKSLASH] + ShortEscape(u)
    else if u < 32 || HighSurrogate(u) || LowSurrogate(u) then [BACKSLASH, LETTER_U] + Hex(u)
    else [u]
  }

  function Escape(s: Text): Text {
    if s == [] then []
    else if |s| > 1 && HighSurrogate(s[0]) && LowSurrogate(s[1]) then s[..2] + Escape(s[2..])
    else EscapeUnit(s[0]) + Escape(s[1..])
  }

  function Quote(s: Text): Text { [QUOTE] + Escape(s) + [QUOTE] }

  // ---------- Values ----------

  /** The order in which keys are sorted; `localeCompare` is assumed to be one. */
  type Order = (Text, Text) -> bool

  ghost predicate TotalOrder(before: Order) {
    && (forall a :: !before(a, a))
    && (forall a, b :: a != b ==> before(a, b) || before(b, a))
    && (forall a, b, c :: before(a, b) && before(b, c) ==> before(a, c))
  }

  datatype Printed = Printed(key: Text, text: Text)

  function Insert(ps: seq<Printed>, p: Printed, before: Order): seq<Printed> {
    if ps == [] then [p]
    else if before(ps[0].key, p.key) then [ps[0]] + Insert(ps[1..], p, before)
    else [p] + ps
  }

  function SortFields(ps: seq<Printed>, before: Order): seq<Printed> {
    if ps == [] then [] else Insert(SortFields(ps[1..], before), ps[0], before)
  }

  function Join(texts: seq<Text>): Text {
    if texts == [] then [] else if |texts| == 1 then texts[0] else texts[0] + [COMMA] + Join(texts[1..])
  }

  function FieldText(p: Printed): Text { Quote(p.key) + [COLON] + p.text }

  function FieldTexts(ps: seq<Printed>): seq<Text> {
    if ps == [] then [] else [FieldText(ps[0])] + FieldTexts(ps[1..])
  }

  /** `canonicalJson`; an `undefined` item joins as nothing, an `undefined` field prints as its name. */
  function Print(v: Json, before: Order): Text
    decreases v, 0
  {
    match v
    case Null => NULL
    case Undefined => UNDEFINED
    case Bool(b) => if b then TRUE else FALSE
    case Num(literal) => literal
    case Str(s) => Quote(s)
    case Arr(items) => [OPEN_BRACKET] + Join(PrintItems(items, before)) + [CLOSE_BRACKET]
    case Obj(fields) =>
      [OPEN_BRACE] + Join(FieldTexts(SortFields(PrintFields(fields, before), before))) + [CLOSE_BRACE]
  }

  function PrintItems(items: seq<Json>, before: Order): (r: seq<Text>)
    ensures |r| == |items|
    decreases items
  {
    if items == [] then []
    else [if items[0].Undefined? then [] else Print(items[0], before)] + PrintItems(items[1..], before)
  }

  function PrintFields(fields: seq<Field>, before: Order): (r: seq<Printed>)
    ensures |r| == |fields|
    decreases fields
  {
    if fields == [] then []
    else [Printed(fields[0].key, Print(fields[0].value, before))] + PrintFields(fields[1..], before)
  }

  /** Distinct keys, and number literals as JSON writes them. */
  predicate WellFormed(v: Json) {
    match v
    case Num(literal) => IsNumber(literal)
    case Arr(items) => forall i :: 0 <= i < |items| ==> WellFormed(items[i])
    case Obj(fields) => (forall i :: 0 <= i < |fields| ==> WellFormed(fields[i].value)) && DistinctKeys(fields)
    case _ => true
  }

  /** Well-formed, without an array whose one item is `undefined`. */
  predicate Proper(v: Json) {
    match v
    case Num(literal) => IsNumber(literal)
    case Arr(items) => items != [Undefined] && forall i :: 0 <= i < |items| ==> Proper(items[i])
    case Obj(fields) => (forall i :: 0 <= i < |fields| ==> Proper(fields[i].value)) && DistinctKeys(fields)
    case _ => true
  }

  predicate IsNumber(literal: Text) {
    literal != [] && NumberStart(literal[0]) && forall u :: u in literal ==> NumberUnit(u)
  }

  predicate NumberStart(u: Unit) { 48 <= u < 58 || u == 45 }

  predicate NumberUnit(u: Unit) { NumberStart(u) || u == 43 || u == 46 || u == 69 || u == 101 }

  function Lookup(fields: seq<Field>, key: Text): (r: Option<Json>)
    ensures r.Some? ==> Field(key, r.value) in fields
    ensures r.None? ==> forall f :: f in fields ==> f.key != key
  {
    if fields == [] then None else if fields[0].key == key then Some(fields[0].value) else Lookup(fields[1..], key)
  }

  /** Equality up to the order of object keys. */
  ghost predicate Same(a: Json, b: Json) {
    match (a, b)
    case (Arr(xs), Arr(ys)) => |xs| == |ys| && forall i :: 0 <= i < |xs| ==> Same(xs[i], ys[i])
    case (Obj(xs), Obj(ys)) =>
      && (forall i :: 0 <= i < |xs| ==>
                        Lookup(ys, xs[i].key).Some? && Same(xs[i].value, Lookup(ys, xs[i].key).value))
      && (forall j :: 0 <= j < |ys| ==> Lookup(xs, ys[j].key).Some?)
    case (_, _) => a == b
  }

  predicate DistinctKeys(fields: seq<Field>) { forall i, j :: 0 <= i < j < |fields| ==> fields[i].key != fields[j].key }

  lemma {:induction false} LookupAt(fields: seq<Field>, i: nat)
    requires DistinctKeys(fields) && i < |fields|
    ensures Lookup(fields, fields[i].key) == Some(fields[i].value)
  {
    if i > 0 {
      LookupAt(fields[1..], i - 1);
    }
  }

  // ---------- Reading strings back ----------

  function HexValue(u: Unit): int { if u < 58 then u - 48 else u - 87 }

  function Unhex(t: Text): int
    requires |t| == 4
  {
    HexValue(t[0]) * 4096 + HexValue(t[1]) * 256 + HexValue(t[2]) * 16 + HexValue(t[3])
  }

  function Unescaped(letter: Unit): int {
    match letter
    case 98 => 8
    case 102 => 12
    case 110 => 10
    case 114 => 13
    case 116 => 9
    case _ => letter
  }

  /** The reader of string bodies. */
  function Unescape(t: Text): seq<int> {
    if t == [] then []
    else if t[0] != BACKSLASH then [t[0]] + Unescape(t[1..])
    else if |t| >= 6 && t[1] == LETTER_U then [Unhex(t[2..6])] + Unescape(t[6..])
    else if |t| >= 2 then [Unescaped(t[1])] + Unescape(t[2..])
    else []
  }

  lemma HexReadsBack(u: Unit)
    ensures Unhex(Hex(u)) == u
  {
    var a := u / 16;
    var b := a / 16;
    assert u == a * 16 + u % 16 && a == b * 16 + a % 16 && b == b / 16 * 16 + b % 16;
    assert u / 256 == b && u / 4096 == b / 16;
    assert forall n :: 0 <= n < 16 ==> HexValue(HexDigit(n)) == n;
  }

  lemma UnitReadsBack(u: Unit, rest: Text)
    ensures Unescape(EscapeUnit(u) + rest) == [u] + Unescape(rest)
  {
    var e := EscapeUnit(u);
    HexReadsBack(u);
    assert (e + rest)[|e|..] == rest;
    if |e| == 6 {
      assert (e + rest)[2..6] == Hex(u);
    }
  }

  lemma {:induction false} StringReadsBack(s: Text)
    ensures Unescape(Escape(s)) == s
  {
    if s != [] {
      if |s| > 1 && HighSurrogate(s[0]) && LowSurrogate(s[1]) {
        StringReadsBack(s[2..]);
        var t := Escape(s[2..]);
        assert s[..2] + t == [s[0]] + ([s[1]] + t);
        assert ([s[0]] + ([s[1]] + t))[1..] == [s[1]] + t && ([s[1]] + t)[1..] == t;
        assert s == [s[0]] + ([s[1]] + s[2..]);
      } else {
        StringReadsBack(s[1..]);
        UnitReadsBack(s[0], Escape(s[1..]));
        assert s == [s[0]] + s[1..];
      }
    }
  }

  // ---------- Where a value ends ----------

  /** How much of `t` belongs to a string whose opening quote was just read, its closing quote included. */
  function StringEnd(t: Text): (n: nat)
    ensures n <= |t|
  {
    if t == [] then 0
    else if t[0] == QUOTE then 1
    else if t[0] != BACKSLASH then 1 + StringEnd(t[1..])
    else if |t| == 1 then 1
    else 2 + StringEnd(t[2..])
  }

  /** How much of `t` belongs to a value that is inside `depth` open brackets. */
  function End(t: Text, depth: nat): (n: nat)
    ensures n <= |t|
    decreases |t|
  {
    if t == [] then 0
    else if t[0] == QUOTE then
      var n := 1 + StringEnd(t[1..]);
      n + End(t[n..], depth)
    else if t[0] == OPEN_BRACKET || t[0] == OPEN_BRACE then 1 + End(t[1..], depth + 1)
    else if t[0] == CLOSE_BRACKET || t[0] == CLOSE_BRACE then if depth == 0 then 0 else 1 + End(t[1..], depth - 1)
    else if t[0] == COMMA && depth == 0 then 0
    else 1 + End(t[1..], depth)
  }

  /** A text that `End` passes over as a whole. */
  ghost predicate Whole(t: Text) { forall s: Text, depth: nat :: Passes(t, s, depth) }

  predicate Passes(t: Text, s: Text, depth: nat) { End(t + s, depth) == |t| + End(s, depth) }

  /** The same inside a string. */
  ghost predicate Inside(t: Text) { forall s: Text :: PassesInside(t, s) }

  predicate PassesInside(t: Text, s: Text) { StringEnd(t + s) == |t| + StringEnd(s) }

  lemma InsideAppends(t: Text, u: Text)
    requires Inside(t) && Inside(u)
    ensures Inside(t + u)
  {
    forall s: Text
      ensures PassesInside(t + u, s)
    {
      assert (t + u) + s == t + (u + s);
      assert PassesInside(t, u + s) && PassesInside(u, s);
    }
  }

  lemma PlainIsInside(u: Unit)
    requires u != QUOTE && u != BACKSLASH
    ensures Inside([u])
  {
    forall s: Text
      ensures PassesInside([u], s)
    {
      assert ([u] + s)[1..] == s;
    }
  }

  lemma EscapeIsInside(letter: Unit)
    ensures Inside([BACKSLASH, letter])
  {
    forall s: Text
      ensures PassesInside([BACKSLASH, letter], s)
    {
      assert ([BACKSLASH, letter] + s)[2..] == s;
    }
  }

  lemma UnitIsInside(u: Unit)
    ensures Inside(EscapeUnit(u))
  {
    if ShortEscape(u) != [] {
      EscapeIsInside(ShortEscape(u)[0]);
      assert EscapeUnit(u) == [BACKSLASH, ShortEscape(u)[0]];
    } else if u < 32 || HighSurrogate(u) || LowSurrogate(u) {
      EscapeIsInside(LETTER_U);
      var h := Hex(u);
      PlainIsInside(h[0]);
      PlainIsInside(h[1]);
      PlainIsInside(h[2]);
      PlainIsInside(h[3]);
      InsideAppends([BACKSLASH, LETTER_U], [h[0]]);
      InsideAppends([BACKSLASH, LETTER_U] + [h[0]], [h[1]]);
      InsideAppends([BACKSLASH, LETTER_U] + [h[0]] + [h[1]], [h[2]]);
      InsideAppends([BACKSLASH, LETTER_U] + [h[0]] + [h[1]] + [h[2]], [h[3]]);
      assert EscapeUnit(u) == [BACKSLASH, LETTER_U] + [h[0]] + [h[1]] + [h[2]] + [h[3]];
    } else {
      PlainIsInside(u);
    }
  }

  lemma {:induction false} EscapedIsInside(s: Text)
    ensures Inside(Escape(s))
  {
    if s == [] {
      forall t: Text
        ensures PassesInside([], t)
      {
        assert [] + t == t;
      }
    } else if |s| > 1 && HighSurrogate(s[0]) && LowSurrogate(s[1]) {
      EscapedIsInside(s[2..]);
      PlainIsInside(s[0]);
      PlainIsInside(s[1]);
      InsideAppends([s[0]], [s[1]]);
      assert s[..2] == [s[0]] + [s[1]];
      InsideAppends(s[..2], Escape(s[2..]));
    } else {
      EscapedIsInside(s[1..]);
      UnitIsInside(s[0]);
      InsideAppends(EscapeUnit(s[0]), Escape(s[1..]));
    }
  }

  lemma QuotedIsWhole(s: Text)
    ensures Whole(Quote(s))
  {
    EscapedIsInside(s);
    var e := Escape(s);
    forall t: Text, depth: nat
      ensures Passes(Quote(s), t, depth)
    {
      var all := Quote(s) + t;
      assert all[1..] == e + ([QUOTE] + t);
      assert PassesInside(e, [QUOTE] + t);
      assert all[|e| + 2..] == t;
    }
  }

  lemma WholeAppends(t: Text, u: Text)
    requires Whole(t) && Whole(u)
    ensures Whole(t + u)
  {
    forall s: Text, depth: nat
      ensures Passes(t + u, s, depth)
    {
      assert (t + u) + s == t + (u + s);
      assert Passes(t, u + s, depth) && Passes(u, s, depth);
    }
  }

  predicate Plain(u: Unit) {
    u != QUOTE && u != COMMA && u != OPEN_BRACKET && u != CLOSE_BRACKET && u != OPEN_BRACE && u != CLOSE_BRACE
  }

  lemma {:induction false} PlainIsWhole(t: Text)
    requires forall u :: u in t ==> Plain(u)
    ensures Whole(t)
  {
    if t == [] {
      forall s: Text, depth: nat
        ensures Passes([], s, depth)
      {
        assert [] + s == s;
      }
    } else {
      assert t[0] in t;
      forall s: Text, depth: nat
        ensures Passes([t[0]], s, depth)
      {
        assert ([t[0]] + s)[1..] == s;
      }
      PlainIsWhole(t[1..]);
      WholeAppends([t[0]], t[1..]);
      assert t == [t[0]] + t[1..];
    }
  }

  /** Whole texts with commas in between, followed by a closing bracket. */
  ghost predicate WholeInBrackets(t: Text) {
    forall s: Text, depth: nat :: depth > 0 ==> Passes(t, s, depth)
  }

  lemma {:induction false} JoinIsWhole(texts: seq<Text>)
    requires forall i :: 0 <= i < |texts| ==> Whole(texts[i])
    ensures WholeInBrackets(Join(texts))
  {
    if texts == [] {
      forall s: Text, depth: nat
        ensures Passes([], s, depth)
      {
        assert [] + s == s;
      }
    } else if |texts| > 1 {
      JoinIsWhole(texts[1..]);
      var rest := Join(texts[1..]);
      forall s: Text, depth: nat | depth > 0
        ensures Passes(Join(texts), s, depth)
      {
        assert Join(texts) + s == texts[0] + ([COMMA] + (rest + s));
        assert Passes(texts[0], [COMMA] + (rest + s), depth) && Passes(rest, s, depth);
        assert ([COMMA] + (rest + s))[1..] == rest + s;
      }
    }
  }

  lemma BracketsAreWhole(open: Unit, t: Text, close: Unit)
    requires (open == OPEN_BRACKET && close == CLOSE_BRACKET) || (open == OPEN_BRACE && close == CLOSE_BRACE)
    requires WholeInBrackets(t)
    ensures Whole([open] + t + [close])
  {
    forall s: Text, depth: nat
      ensures Passes([open] + t + [close], s, depth)
    {
      var all := [open] + t + [close] + s;
      assert all[1..] == t + ([close] + s);
      assert Passes(t, [close] + s, depth + 1);
      assert ([close] + s)[1..] == s;
    }
  }

  lemma FieldIsWhole(p: Printed)
    requires Whole(p.text)
    ensures Whole(FieldText(p))
  {
    QuotedIsWhole(p.key);
    PlainIsWhole([COLON]);
    WholeAppends(Quote(p.key), [COLON]);
    WholeAppends(Quote(p.key) + [COLON], p.text);
  }

  ghost predicate WholeFields(ps: seq<Printed>) { forall p :: p in ps ==> Whole(p.text) }

  lemma {:induction false} FieldTextsAt(ps: seq<Printed>)
    ensures |FieldTexts(ps)| == |ps|
    ensures forall i :: 0 <= i < |ps| ==> FieldTexts(ps)[i] == FieldText(ps[i])
  {
    if ps != [] {
      FieldTextsAt(ps[1..]);
    }
  }

  lemma {:induction false} PrintedAt(items: seq<Json>, before: Order)
    ensures forall i :: 0 <= i < |items| ==>
                          PrintItems(items, before)[i] == if items[i].Undefined? then [] else Print(items[i], before)
  {
    if items != [] {
      PrintedAt(items[1..], before);
    }
  }

  lemma {:induction false} PrintedFieldAt(fields: seq<Field>, before: Order)
    ensures forall i :: 0 <= i < |fields| ==>
                          PrintFields(fields, before)[i] == Printed(fields[i].key, Print(fields[i].value, before))
  {
    if fields != [] {
      PrintedFieldAt(fields[1..], before);
    }
  }

  lemma {:induction false} InsertAdds(ps: seq<Printed>, p: Printed, before: Order)
    ensures multiset(Insert(ps, p, before)) == multiset(ps) + multiset{p}
  {
    if ps != [] {
      assert ps == [ps[0]] + ps[1..];
      if before(ps[0].key, p.key) {
        InsertAdds(ps[1..], p, before);
      }
    }
  }

  lemma {:induction false} SortPermutes(ps: seq<Printed>, before: Order)
    ensures multiset(SortFields(ps, before)) == multiset(ps)
  {
    if ps != [] {
      SortPermutes(ps[1..], before);
      InsertAdds(SortFields(ps[1..], before), ps[0], before);
      assert ps == [ps[0]] + ps[1..];
    }
  }

  lemma SortKeepsMembers(ps: seq<Printed>, before: Order)
    ensures forall p :: p in SortFields(ps, before) <==> p in ps
  {
    SortPermutes(ps, before);
    forall p
      ensures p in SortFields(ps, before) <==> p in ps
    {
      assert p in ps <==> p in multiset(ps);
      assert p in SortFields(ps, before) <==> p in multiset(SortFields(ps, before));
    }
  }

  /** Every printed value is whole: what follows it tells where it ends. */
  lemma {:induction false} PrintedIsWhole(v: Json, before: Order)
    requires Proper(v)
    ensures Whole(Print(v, before))
  {
    match v
    case Null => PlainIsWhole(NULL);
    case Undefined => PlainIsWhole(UNDEFINED);
    case Bool(b) => PlainIsWhole(if b then TRUE else FALSE);
    case Num(literal) => PlainIsWhole(literal);
    case Str(s) => QuotedIsWhole(s);
    case Arr(items) =>
      PrintedAt(items, before);
      forall i | 0 <= i < |items|
        ensures Whole(PrintItems(items, before)[i])
      {
        if items[i].Undefined? {
          PlainIsWhole([]);
        } else {
          PrintedIsWhole(items[i], before);
        }
      }
      JoinIsWhole(PrintItems(items, before));
      BracketsAreWhole(OPEN_BRACKET, Join(PrintItems(items, before)), CLOSE_BRACKET);
    case Obj(fields) =>
      FieldsAreWhole(fields, before);
      var texts := FieldTexts(SortFields(PrintFields(fields, before), before));
      JoinIsWhole(texts);
      BracketsAreWhole(OPEN_BRACE, Join(texts), CLOSE_BRACE);
  }

  lemma {:induction false} FieldsAreWhole(fields: seq<Field>, before: Order)
    requires forall i :: 0 <= i < |fields| ==> Proper(fields[i].value)
    ensures var sorted := SortFields(PrintFields(fields, before), before);
            WholeFields(sorted) && forall i :: 0 <= i < |FieldTexts(sorted)| ==> Whole(FieldTexts(sorted)[i])
  {
    var printed := PrintFields(fields, before);
    var sorted := SortFields(printed, before);
    PrintedFieldAt(fields, before);
    forall i | 0 <= i < |fields|
      ensures Whole(printed[i].text)
    {
      PrintedIsWhole(fields[i].value, before);
    }
    SortKeepsMembers(printed, before);
    FieldTextsAt(sorted);
    forall i | 0 <= i < |sorted|
      ensures Whole(FieldTexts(sorted)[i])
    {
      assert sorted[i] in printed;
      FieldIsWhole(sorted[i]);
    }
  }

  // ---------- Equal texts come from equal values ----------

  lemma JoinHead(texts: seq<Text>)
    requires texts != [] && Whole(texts[0])
    ensures End(Join(texts), 0) == |texts[0]|
    ensures |texts| > 1 ==> Join(texts)[|texts[0]|..] == [COMMA] + Join(texts[1..])
    ensures |texts| == 1 ==> Join(texts)[|texts[0]|..] == []
  {
    var rest := if |texts| == 1 then [] else [COMMA] + Join(texts[1..]);
    assert Join(texts) == texts[0] + rest;
    assert Passes(texts[0], rest, 0);
  }

  ghost predicate WholeTexts(texts: seq<Text>) { forall t :: t in texts ==> Whole(t) }

  lemma RestIsWhole(texts: seq<Text>)
    requires WholeTexts(texts) && texts != []
    ensures WholeTexts(texts[1..])
  {
    assert forall t :: t in texts[1..] ==> t in texts;
  }

  /** Texts may be empty, but one empty text joins as none does. */
  lemma {:induction false} JoinIsInjective(xs: seq<Text>, ys: seq<Text>)
    requires WholeTexts(xs) && WholeTexts(ys) && Join(xs) == Join(ys)
    requires xs == [] <==> ys == []
    ensures xs == ys
  {
    if xs != [] {
      JoinHead(xs);
      JoinHead(ys);
      assert xs[0] in xs && ys[0] in ys;
      assert xs[0] == Join(xs)[..|xs[0]|] && ys[0] == Join(ys)[..|ys[0]|];
      if |xs| > 1 && |ys| > 1 {
        assert Join(xs[1..]) == ([COMMA] + Join(xs[1..]))[1..] && Join(ys[1..]) == ([COMMA] + Join(ys[1..]))[1..];
        RestIsWhole(xs);
        RestIsWhole(ys);
        JoinIsInjective(xs[1..], ys[1..]);
      }
      assert xs == [xs[0]] + xs[1..] && ys == [ys[0]] + ys[1..];
    }
  }

  lemma JoinedToNothing(texts: seq<Text>)
    ensures Join(texts) == [] ==> texts == [] || texts == [[]]
  {
    if |texts| > 1 {
      assert |Join(texts)| == |texts[0]| + 1 + |Join(texts[1..])|;
    } else if |texts| == 1 {
      assert texts == [texts[0]];
    }
  }

  lemma JoinIsInjectiveBut(xs: seq<Text>, ys: seq<Text>)
    requires WholeTexts(xs) && WholeTexts(ys) && Join(xs) == Join(ys) && xs != [[]] && ys != [[]]
    ensures xs == ys
  {
    if xs == [] && ys != [] {
      JoinedToNothing(ys);
    } else if xs != [] && ys == [] {
      JoinedToNothing(xs);
    } else {
      JoinIsInjective(xs, ys);
    }
  }

  /** Where the parts of a printed field are. */
  lemma FieldParts(p: Printed)
    ensures var t := FieldText(p);
            var n := StringEnd(t[1..]);
            n + 2 <= |t| && 0 < n && t[1..n] == Escape(p.key) && t[n + 2..] == p.text
  {
    var e := Escape(p.key);
    var rest := [QUOTE, COLON] + p.text;
    EscapedIsInside(p.key);
    assert FieldText(p)[1..] == e + rest;
    assert PassesInside(e, rest);
    assert StringEnd(rest) == 1;
    assert FieldText(p) == [QUOTE] + e + rest;
    assert FieldText(p)[1..|e| + 1] == e;
    assert FieldText(p)[|e| + 3..] == p.text;
  }

  lemma FieldTextIsInjective(p: Printed, q: Printed)
    requires FieldText(p) == FieldText(q)
    ensures p == q
  {
    FieldParts(p);
    FieldParts(q);
    StringReadsBack(p.key);
    StringReadsBack(q.key);
  }

  lemma FieldTextsAreInjective(ps: seq<Printed>, qs: seq<Printed>)
    requires FieldTexts(ps) == FieldTexts(qs)
    ensures ps == qs
  {
    FieldTextsAt(ps);
    FieldTextsAt(qs);
    forall i | 0 <= i < |ps|
      ensures ps[i] == qs[i]
    {
      assert FieldText(ps[i]) == FieldTexts(ps)[i] == FieldTexts(qs)[i] == FieldText(qs[i]);
      FieldTextIsInjective(ps[i], qs[i]);
    }
  }

  lemma PrintedIsNotEmpty(v: Json, before: Order)
    requires Proper(v)
    ensures Print(v, before) != []
  {
  }

  function ItemText(v: Json, before: Order): Text { if v.Undefined? then [] else Print(v, before) }

  lemma ItemTextIsEmptyIff(v: Json, before: Order)
    requires Proper(v)
    ensures ItemText(v, before) == [] <==> v.Undefined?
  {
    PrintedIsNotEmpty(v, before);
  }

  lemma HolesArePrintedEmpty(items: seq<Json>, before: Order)
    requires forall i :: 0 <= i < |items| ==> Proper(items[i])
    ensures forall i :: 0 <= i < |items| ==> (PrintItems(items, before)[i] == [] <==> items[i].Undefined?)
  {
    PrintedAt(items, before);
    forall i | 0 <= i < |items|
      ensures PrintItems(items, before)[i] == [] <==> items[i].Undefined?
    {
      ItemTextIsEmptyIff(items[i], before);
    }
  }

  lemma NotOneEmptyText(items: seq<Json>, before: Order)
    requires Proper(Arr(items))
    ensures PrintItems(items, before) != [[]]
  {
    HolesArePrintedEmpty(items, before);
    if |items| == 1 {
      assert items == [items[0]];
      assert PrintItems(items, before)[0] != [];
    }
  }

  lemma ItemTextsAreWhole(items: seq<Json>, before: Order)
    requires Proper(Arr(items))
    ensures WholeTexts(PrintItems(items, before))
  {
    PrintedAt(items, before);
    forall i | 0 <= i < |items|
      ensures Whole(PrintItems(items, before)[i])
    {
      if items[i].Undefined? {
        PlainIsWhole([]);
      } else {
        PrintedIsWhole(items[i], before);
      }
    }
  }

  lemma FieldTextsAreWhole(fields: seq<Field>, before: Order)
    requires Proper(Obj(fields))
    ensures var texts := FieldTexts(SortFields(PrintFields(fields, before), before)); WholeTexts(texts) && texts != [[]]
  {
    FieldsAreWhole(fields, before);
    FieldTextsAt(SortFields(PrintFields(fields, before), before));
  }

  /** The first unit tells the values apart that are not of the same kind. */
  lemma KindsDiffer(a: Json, b: Json, before: Order)
    requires Proper(a) && Proper(b) && Print(a, before) == Print(b, before)
    ensures (a.Arr? <==> b.Arr?) && (a.Obj? <==> b.Obj?) && (a.Str? <==> b.Str?) && (a.Num? <==> b.Num?)
    ensures a.Null? || a.Undefined? || a.Bool? || a.Num? ==> a == b
  {
    var first := Print(a, before)[0];
    assert first == Print(b, before)[0];
  }

  lemma SortedFieldsAgree(xs: seq<Field>, ys: seq<Field>, before: Order)
    requires Proper(Obj(xs)) && Proper(Obj(ys)) && Print(Obj(xs), before) == Print(Obj(ys), before)
    ensures SortFields(PrintFields(xs, before), before) == SortFields(PrintFields(ys, before), before)
  {
    var ps := SortFields(PrintFields(xs, before), before);
    var qs := SortFields(PrintFields(ys, before), before);
    FieldTextsAreWhole(xs, before);
    FieldTextsAreWhole(ys, before);
    var s, t := Print(Obj(xs), before), Print(Obj(ys), before);
    assert Join(FieldTexts(ps)) == s[1..|s| - 1] && Join(FieldTexts(qs)) == t[1..|t| - 1];
    JoinIsInjectiveBut(FieldTexts(ps), FieldTexts(qs));
    FieldTextsAreInjective(ps, qs);
  }

  /** Each printed field of one object is a printed field of the other. */
  lemma MatchingField(xs: seq<Field>, ys: seq<Field>, i: nat, before: Order) returns (j: nat)
    requires Proper(Obj(xs)) && Proper(Obj(ys)) && Print(Obj(xs), before) == Print(Obj(ys), before) && i < |xs|
    ensures j < |ys| && xs[i].key == ys[j].key && Print(xs[i].value, before) == Print(ys[j].value, before)
  {
    SortedFieldsAgree(xs, ys, before);
    PrintedFieldAt(xs, before);
    PrintedFieldAt(ys, before);
    SortKeepsMembers(PrintFields(xs, before), before);
    SortKeepsMembers(PrintFields(ys, before), before);
    var p := PrintFields(xs, before)[i];
    assert p in PrintFields(ys, before);
    j :| 0 <= j < |ys| && PrintFields(ys, before)[j] == p;
  }

  lemma QuoteIsInjective(s: Text, t: Text)
    requires Quote(s) == Quote(t)
    ensures s == t
  {
    assert Escape(s) == Quote(s)[1..|Quote(s)| - 1] && Escape(t) == Quote(t)[1..|Quote(t)| - 1];
    StringReadsBack(s);
    StringReadsBack(t);
  }

  lemma ItemsAgree(xs: seq<Json>, ys: seq<Json>, before: Order)
    requires Proper(Arr(xs)) && Proper(Arr(ys)) && Print(Arr(xs), before) == Print(Arr(ys), before)
    ensures |xs| == |ys| && forall i :: 0 <= i < |xs| ==> Print(xs[i], before) == Print(ys[i], before)
  {
    var ps, qs := PrintItems(xs, before), PrintItems(ys, before);
    var s, t := Print(Arr(xs), before), Print(Arr(ys), before);
    assert Join(ps) == s[1..|s| - 1] && Join(qs) == t[1..|t| - 1];
    ItemTextsAreWhole(xs, before);
    ItemTextsAreWhole(ys, before);
    NotOneEmptyText(xs, before);
    NotOneEmptyText(ys, before);
    HolesArePrintedEmpty(xs, before);
    HolesArePrintedEmpty(ys, before);
    JoinIsInjectiveBut(ps, qs);
    PrintedAt(xs, before);
    PrintedAt(ys, before);
    forall i | 0 <= i < |xs|
      ensures Print(xs[i], before) == Print(ys[i], before)
    {
      assert ps[i] == qs[i];
    }
  }

  lemma {:induction false} PrintIsInjective(a: Json, b: Json, before: Order)
    requires Proper(a) && Proper(b) && Print(a, before) == Print(b, before)
    ensures Same(a, b)
    decreases a
  {
    KindsDiffer(a, b, before);
    match a
    case Str(s) => QuoteIsInjective(s, b.s);
    case Arr(xs) =>
      ItemsAgree(xs, b.items, before);
      forall i | 0 <= i < |xs|
        ensures Same(xs[i], b.items[i])
      {
        PrintIsInjective(xs[i], b.items[i], before);
      }
    case Obj(xs) => ObjectIsInjective(xs, b.fields, before);
    case _ =>
  }

  lemma {:induction false} ObjectIsInjective(xs: seq<Field>, ys: seq<Field>, before: Order)
    requires Proper(Obj(xs)) && Proper(Obj(ys)) && Print(Obj(xs), before) == Print(Obj(ys), before)
    ensures Same(Obj(xs), Obj(ys))
    decreases xs
  {
    forall i | 0 <= i < |xs|
      ensures Lookup(ys, xs[i].key).Some? && Same(xs[i].value, Lookup(ys, xs[i].key).value)
    {
      var j := MatchingField(xs, ys, i, before);
      LookupAt(ys, j);
      PrintIsInjective(xs[i].value, ys[j].value, before);
    }
    forall j | 0 <= j < |ys|
      ensures Lookup(xs, ys[j].key).Some?
    {
      var i := MatchingField(ys, xs, j, before);
      LookupAt(xs, i);
    }
  }

  // ---------- Equal values give equal texts ----------

  ghost predicate Ascending(ps: seq<Printed>, before: Order) {
    forall i, j :: 0 <= i < j < |ps| ==> before(ps[i].key, ps[j].key)
  }

  lemma {:induction false} InsertAscends(ps: seq<Printed>, p: Printed, before: Order)
    requires TotalOrder(before) && Ascending(ps, before) && forall q :: q in ps ==> q.key != p.key
    ensures Ascending(Insert(ps, p, before), before)
    ensures forall q :: q in Insert(ps, p, before) ==> q == p || q in ps
  {
    if ps != [] {
      assert ps[0] in ps;
      if before(ps[0].key, p.key) {
        InsertAscends(ps[1..], p, before);
        forall q | q in Insert(ps[1..], p, before)
          ensures before(ps[0].key, q.key)
        {
        }
      }
    }
  }

  lemma {:induction false} SortAscends(ps: seq<Printed>, before: Order)
    requires TotalOrder(before) && forall i, j :: 0 <= i < j < |ps| ==> ps[i].key != ps[j].key
    ensures Ascending(SortFields(ps, before), before)
  {
    if ps != [] {
      SortAscends(ps[1..], before);
      SortKeepsMembers(ps[1..], before);
      forall q | q in SortFields(ps[1..], before)
        ensures q.key != ps[0].key
      {
        assert q in ps[1..];
      }
      InsertAscends(SortFields(ps[1..], before), ps[0], before);
    }
  }

  lemma HeadIsLeast(ps: seq<Printed>, p: Printed, before: Order)
    requires TotalOrder(before) && Ascending(ps, before) && p in ps
    ensures p == ps[0] || before(ps[0].key, p.key)
  {
  }

  lemma {:induction false} AscendingIsUnique(ps: seq<Printed>, qs: seq<Printed>, before: Order)
    requires TotalOrder(before) && Ascending(ps, before) && Ascending(qs, before)
    requires forall p :: p in ps <==> p in qs
    ensures ps == qs
  {
    assert ps != [] ==> ps[0] in qs;
    assert qs != [] ==> qs[0] in ps;
    if ps != [] {
      HeadIsLeast(ps, qs[0], before);
      HeadIsLeast(qs, ps[0], before);
      assert ps[0] == qs[0];
      TailHasOthers(ps, before);
      TailHasOthers(qs, before);
      AscendingIsUnique(ps[1..], qs[1..], before);
      assert ps == [ps[0]] + ps[1..] && qs == [qs[0]] + qs[1..];
    }
  }

  lemma TailHasOthers(ps: seq<Printed>, before: Order)
    requires TotalOrder(before) && Ascending(ps, before) && ps != []
    ensures forall p :: p in ps[1..] <==> p in ps && p != ps[0]
  {
    forall p | p in ps && p != ps[0]
      ensures p in ps[1..]
    {
      var i :| 0 <= i < |ps| && ps[i] == p;
      assert ps[1..][i - 1] == p;
    }
  }

  ghost predicate FieldsAlike(xs: seq<Field>, ys: seq<Field>, before: Order) {
    && (forall i :: 0 <= i < |xs| ==>
                      Lookup(ys, xs[i].key).Some? &&
                      Print(xs[i].value, before) == Print(Lookup(ys, xs[i].key).value, before))
    && (forall j :: 0 <= j < |ys| ==> Lookup(xs, ys[j].key).Some?)
  }

  lemma PrintedMember(fields: seq<Field>, f: Field, before: Order)
    requires f in fields
    ensures Printed(f.key, Print(f.value, before)) in PrintFields(fields, before)
  {
    PrintedFieldAt(fields, before);
    var i :| 0 <= i < |fields| && fields[i] == f;
    assert PrintFields(fields, before)[i] == Printed(f.key, Print(f.value, before));
  }

  lemma AlikeMembers(xs: seq<Field>, ys: seq<Field>, p: Printed, before: Order)
    requires FieldsAlike(xs, ys, before) && p in PrintFields(xs, before)
    ensures p in PrintFields(ys, before)
  {
    PrintedFieldAt(xs, before);
    var i :| 0 <= i < |xs| && PrintFields(xs, before)[i] == p;
    PrintedMember(ys, Field(xs[i].key, Lookup(ys, xs[i].key).value), before);
  }

  lemma AlikeIsSymmetric(xs: seq<Field>, ys: seq<Field>, before: Order)
    requires DistinctKeys(xs) && DistinctKeys(ys) && FieldsAlike(xs, ys, before)
    ensures FieldsAlike(ys, xs, before)
  {
    forall j | 0 <= j < |ys|
      ensures Print(ys[j].value, before) == Print(Lookup(xs, ys[j].key).value, before)
    {
      var f := Field(ys[j].key, Lookup(xs, ys[j].key).value);
      var i :| 0 <= i < |xs| && xs[i] == f;
      LookupAt(ys, j);
    }
    forall i | 0 <= i < |xs|
      ensures Lookup(ys, xs[i].key).Some?
    {
    }
  }

  lemma PrintedKeysDiffer(fields: seq<Field>, before: Order)
    requires DistinctKeys(fields)
    ensures forall i, j :: 0 <= i < j < |fields| ==> PrintFields(fields, before)[i].key != PrintFields(fields, before)[j].key
  {
    PrintedFieldAt(fields, before);
  }

  /** Objects with the same keys, and alike values under each, print alike. */
  lemma FieldsPrintAlike(xs: seq<Field>, ys: seq<Field>, before: Order)
    requires TotalOrder(before) && DistinctKeys(xs) && DistinctKeys(ys) && FieldsAlike(xs, ys, before)
    ensures Print(Obj(xs), before) == Print(Obj(ys), before)
  {
    var ps, qs := PrintFields(xs, before), PrintFields(ys, before);
    AlikeIsSymmetric(xs, ys, before);
    forall p
      ensures p in ps <==> p in qs
    {
      if p in ps {
        AlikeMembers(xs, ys, p, before);
      }
      if p in qs {
        AlikeMembers(ys, xs, p, before);
      }
    }
    SortKeepsMembers(ps, before);
    SortKeepsMembers(qs, before);
    PrintedKeysDiffer(xs, before);
    PrintedKeysDiffer(ys, before);
    SortAscends(ps, before);
    SortAscends(qs, before);
    AscendingIsUnique(SortFields(ps, before), SortFields(qs, before), before);
  }

  lemma ItemsPrintAlike(xs: seq<Json>, ys: seq<Json>, before: Order)
    requires Proper(Arr(xs)) && Proper(Arr(ys)) && |xs| == |ys|
    requires forall i :: 0 <= i < |xs| ==> Print(xs[i], before) == Print(ys[i], before)
    ensures Print(Arr(xs), before) == Print(Arr(ys), before)
  {
    PrintedAt(xs, before);
    PrintedAt(ys, before);
    forall i | 0 <= i < |xs|
      ensures PrintItems(xs, before)[i] == PrintItems(ys, before)[i]
    {
      KindsDiffer(xs[i], ys[i], before);
    }
    assert PrintItems(xs, before) == PrintItems(ys, before);
  }

  lemma {:induction false} SamePrints(a: Json, b: Json, before: Order)
    requires TotalOrder(before) && Proper(a) && Proper(b) && Same(a, b)
    ensures Print(a, before) == Print(b, before)
    decreases a
  {
    match a
    case Arr(xs) =>
      forall i | 0 <= i < |xs|
        ensures Print(xs[i], before) == Print(b.items[i], before)
      {
        SamePrints(xs[i], b.items[i], before);
      }
      ItemsPrintAlike(xs, b.items, before);
    case Obj(xs) => SameObjectsPrint(xs, b.fields, before);
    case _ =>
  }

  lemma {:induction false} SameObjectsPrint(xs: seq<Field>, ys: seq<Field>, before: Order)
    requires TotalOrder(before) && Proper(Obj(xs)) && Proper(Obj(ys)) && Same(Obj(xs), Obj(ys))
    ensures Print(Obj(xs), before) == Print(Obj(ys), before)
    decreases xs
  {
    forall i | 0 <= i < |xs|
      ensures Print(xs[i].value, before) == Print(Lookup(ys, xs[i].key).value, before)
    {
      var value := Lookup(ys, xs[i].key).value;
      assert Field(xs[i].key, value) in ys && Proper(value);
      SamePrints(xs[i].value, value, before);
    }
    FieldsPrintAlike(xs, ys, before);
  }

  // ---------- Main results ----------

  /** Every array whose one item is `undefined` is replaced by an empty one. */
  function Filled(v: Json): Json {
    match v
    case Arr(items) => if items == [Undefined] then Arr([]) else Arr(FilledItems(items))
    case Obj(fields) => Obj(FilledFields(fields))
    case _ => v
  }

  function FilledItems(items: seq<Json>): (r: seq<Json>)
    ensures |r| == |items| && forall i :: 0 <= i < |items| ==> r[i] == Filled(items[i])
    ensures r == [Undefined] ==> items == [Undefined]
  {
    if items == [] then [] else [Filled(items[0])] + FilledItems(items[1..])
  }

  function FilledFields(fields: seq<Field>): (r: seq<Field>)
    ensures |r| == |fields|
    ensures forall i :: 0 <= i < |fields| ==> r[i] == Field(fields[i].key, Filled(fields[i].value))
  {
    if fields == [] then [] else [Field(fields[0].key, Filled(fields[0].value))] + FilledFields(fields[1..])
  }

  lemma {:induction false} FilledIsProper(v: Json)
    requires WellFormed(v)
    ensures Proper(Filled(v))
  {
    match v
    case Arr(items) =>
      forall i | 0 <= i < |items| ensures Proper(Filled(items[i])) {
        FilledIsProper(items[i]);
      }
    case Obj(fields) =>
      forall i | 0 <= i < |fields| ensures Proper(Filled(fields[i].value)) {
        FilledIsProper(fields[i].value);
      }
    case _ =>
  }

  lemma {:induction false} ProperIsFilled(v: Json)
    requires Proper(v)
    ensures WellFormed(v) && Filled(v) == v
  {
    match v
    case Arr(items) =>
      forall i | 0 <= i < |items| ensures WellFormed(items[i]) && Filled(items[i]) == items[i] {
        ProperIsFilled(items[i]);
      }
      assert FilledItems(items) == items;
    case Obj(fields) =>
      forall i | 0 <= i < |fields| ensures WellFormed(fields[i].value) && Filled(fields[i].value) == fields[i].value {
        ProperIsFilled(fields[i].value);
      }
      assert FilledFields(fields) == fields;
    case _ =>
  }

  lemma {:induction false} FilledPrintsAlike(v: Json, before: Order)
    ensures Print(Filled(v), before) == Print(v, before)
  {
    match v
    case Arr(items) =>
      if items == [Undefined] {
        LoneHole(before);
      } else {
        forall i | 0 <= i < |items| ensures Print(Filled(items[i]), before) == Print(items[i], before) {
          FilledPrintsAlike(items[i], before);
        }
        PrintedAt(items, before);
        PrintedAt(FilledItems(items), before);
        assert PrintItems(FilledItems(items), before) == PrintItems(items, before);
      }
    case Obj(fields) =>
      forall i | 0 <= i < |fields| ensures Print(Filled(fields[i].value), before) == Print(fields[i].value, before) {
        FilledPrintsAlike(fields[i].value, before);
      }
      PrintedFieldAt(fields, before);
      PrintedFieldAt(FilledFields(fields), before);
      assert PrintFields(FilledFields(fields), before) == PrintFields(fields, before);
    case _ =>
  }

  lemma LoneHole(before: Order)
    ensures Print(Arr([Undefined]), before) == Print(Arr([]), before)
  {
    assert PrintItems([Undefined], before) == [[]];
  }

  /**
   Two values print alike if and only if they are equal up to the order of object keys and up to the one thing that
   is not told apart, an array whose only item is `undefined` and an empty array.
   */
  lemma CanonicalIff(a: Json, b: Json, before: Order)
    requires TotalOrder(before) && WellFormed(a) && WellFormed(b)
    ensures Print(a, before) == Print(b, before) <==> Same(Filled(a), Filled(b))
  {
    FilledIsProper(a);
    FilledIsProper(b);
    FilledPrintsAlike(a, before);
    FilledPrintsAlike(b, before);
    if Print(a, before) == Print(b, before) {
      PrintIsInjective(Filled(a), Filled(b), before);
    }
    if Same(Filled(a), Filled(b)) {
      SamePrints(Filled(a), Filled(b), before);
    }
  }

  /** So without such arrays, print alike means equal up to the order of object keys. */
  lemma ProperIff(a: Json, b: Json, before: Order)
    requires TotalOrder(before) && Proper(a) && Proper(b)
    ensures Print(a, before) == Print(b, before) <==> Same(a, b)
  {
    ProperIsFilled(a);
    ProperIsFilled(b);
    CanonicalIff(a, b, before);
  }

  /** The collision: a lone `undefined` item prints as nothing.  Next to another item it is told apart. */
  lemma HolesCollide(before: Order)
    ensures Print(Arr([Undefined]), before) == Print(Arr([]), before) && !Same(Arr([Undefined]), Arr([]))
    ensures Print(Arr([Undefined, Undefined]), before) == [OPEN_BRACKET, COMMA, CLOSE_BRACKET]
  {
    LoneHole(before);
    PrintedAt([Undefined, Undefined], before);
    assert PrintItems([Undefined, Undefined], before) == [[], []];
  }

  function Code(c: char): Unit { if c < 128 as char then c as int else 63 }

  function Ascii(s: string): (t: Text)
    ensures |t| == |s| && forall i :: 0 <= i < |s| ==> t[i] == Code(s[i])
  {
    seq(|s|, i requires 0 <= i < |s| => Code(s[i]))
  }

  const POLICY_KEYS: seq<Text> := [
    Ascii("model"), Ascii("fallbackModels"), Ascii("router"), Ascii("slackEnabled"), Ascii("access"), Ascii("logLevel"),
    Ascii("otel"), Ascii("appliance"), Ascii("credentialsGeneration")]

  /** What `childPolicyHash` digests; an appliance may be `Undefined`. */
  datatype PolicyFields = PolicyFields(
    model: Json, fallbackModels: Json, router: Json, slackEnabled: Json, access: Json, logLevel: Json, otel: Json,
    appliance: Json, credentialsGeneration: Json)

  function PolicyValues(p: PolicyFields): seq<Json> {
    [p.model, p.fallbackModels, p.router, p.slackEnabled, p.access, p.logLevel, p.otel, p.appliance,
     p.credentialsGeneration]
  }

  function Fields(keys: seq<Text>, values: seq<Json>): seq<Field>
    requires |keys| == |values|
  {
    seq(|keys|, i requires 0 <= i < |keys| => Field(keys[i], values[i]))
  }

  function PolicyJson(p: PolicyFields): Json { Obj(Fields(POLICY_KEYS, PolicyValues(p))) }

  /** Objects with the same keys in the same order. */
  lemma SameObjectIff(xs: seq<Field>, ys: seq<Field>)
    requires DistinctKeys(xs) && DistinctKeys(ys)
    requires |xs| == |ys| && forall i :: 0 <= i < |xs| ==> xs[i].key == ys[i].key
    ensures Same(Obj(xs), Obj(ys)) <==> forall i :: 0 <= i < |xs| ==> Same(xs[i].value, ys[i].value)
  {
    forall i | 0 <= i < |xs|
      ensures Lookup(ys, xs[i].key) == Some(ys[i].value) && Lookup(xs, ys[i].key) == Some(xs[i].value)
    {
      LookupAt(ys, i);
      LookupAt(xs, i);
    }
  }

  predicate ProperValues(values: seq<Json>) { forall v :: v in values ==> Proper(v) }

  predicate Distinct(keys: seq<Text>) { forall i, j :: 0 <= i < j < |keys| ==> keys[i] != keys[j] }

  lemma PolicyKeysDiffer()
    ensures Distinct(POLICY_KEYS)
  {
    assert POLICY_KEYS[2][0] == Code('r') && POLICY_KEYS[4][0] == Code('a');
    assert |POLICY_KEYS[0]| == 5 && |POLICY_KEYS[1]| == 14 && |POLICY_KEYS[2]| == 6 && |POLICY_KEYS[3]| == 12 &&
           |POLICY_KEYS[4]| == 6 && |POLICY_KEYS[5]| == 8 && |POLICY_KEYS[6]| == 4 && |POLICY_KEYS[7]| == 9 &&
           |POLICY_KEYS[8]| == 21;
  }

  /** Objects with the same keys print alike exactly when their values are the same, key by key. */
  lemma KeyedTextsAgreeIff(keys: seq<Text>, xs: seq<Json>, ys: seq<Json>, before: Order)
    requires TotalOrder(before) && Distinct(keys) && |xs| == |keys| && |ys| == |keys|
    requires ProperValues(xs) && ProperValues(ys)
    ensures Print(Obj(Fields(keys, xs)), before) == Print(Obj(Fields(keys, ys)), before) <==>
            forall i :: 0 <= i < |keys| ==> Same(xs[i], ys[i])
  {
    var fields, others := Fields(keys, xs), Fields(keys, ys);
    ProperIff(Obj(fields), Obj(others), before);
    SameObjectIff(fields, others);
    if forall i :: 0 <= i < |fields| ==> Same(fields[i].value, others[i].value) {
      forall i | 0 <= i < |keys|
        ensures Same(xs[i], ys[i])
      {
        assert Same(fields[i].value, others[i].value);
      }
    }
    if forall i :: 0 <= i < |keys| ==> Same(xs[i], ys[i]) {
      forall i | 0 <= i < |fields|
        ensures Same(fields[i].value, others[i].value)
      {
        assert Same(xs[i], ys[i]);
      }
    }
  }

  /** What is digested for two desired states agrees exactly when all nine hashed fields agree. */
  lemma PolicyTextsAgreeIff(p: PolicyFields, q: PolicyFields, before: Order)
    requires TotalOrder(before) && ProperValues(PolicyValues(p)) && ProperValues(PolicyValues(q))
    ensures Print(PolicyJson(p), before) == Print(PolicyJson(q), before) <==>
            && Same(p.model, q.model) && Same(p.fallbackModels, q.fallbackModels) && Same(p.router, q.router)
            && Same(p.slackEnabled, q.slackEnabled) && Same(p.access, q.access) && Same(p.logLevel, q.logLevel)
            && Same(p.otel, q.otel) && Same(p.appliance, q.appliance)
            && Same(p.credentialsGeneration, q.credentialsGeneration)
  {
    PolicyKeysDiffer();
    KeyedTextsAgreeIff(POLICY_KEYS, PolicyValues(p), PolicyValues(q), before);
    NineValues(PolicyValues(p), PolicyValues(q));
  }

  lemma NineValues(xs: seq<Json>, ys: seq<Json>)
    requires |xs| == 9 && |ys| == 9
    ensures (forall i :: 0 <= i < 9 ==> Same(xs[i], ys[i])) <==>
            && Same(xs[0], ys[0]) && Same(xs[1], ys[1]) && Same(xs[2], ys[2]) && Same(xs[3], ys[3])
            && Same(xs[4], ys[4]) && Same(xs[5], ys[5]) && Same(xs[6], ys[6]) && Same(xs[7], ys[7])
            && Same(xs[8], ys[8])
  {
  }
}
