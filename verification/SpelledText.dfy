/**
A text form that reads back: that a JSON library with the properties `Sanitizer` asks for can exist.
Every value starts with a letter for its kind and says how long it is, so no text spells two values.
*/
module SpelledText {
  import opened Wrappers
  import opened JsonValues
  import opened Sanitizer

  /** `n` strokes and a stop. */
  function Strokes(n: nat): string {
    if n == 0 then "." else "1" + Strokes(n - 1)
  }

  function SpellText(s: string): string { Strokes(|s|) + s }

  function Spell(v: Json): string
    decreases v
  {
    match v
    case Null => "n"
    case Bool(b) => if b then "t" else "f"
    case Num(n) => if n < 0 then "-" + Strokes(-n) else "+" + Strokes(n)
    case Str(s) => "s" + SpellText(s)
    case Arr(items) => "a" + SpellItems(items)
    case Obj(fields) => "o" + SpellFields(fields)
  }

  function SpellItems(items: seq<Json>): string
    decreases items
  {
    if items == [] then "]" else "," + (Spell(items[0]) + SpellItems(items[1..]))
  }

  function SpellFields(fields: seq<(string, Json)>): string
    decreases fields
  {
    if fields == [] then "]" else
      var field := fields[0];
      assert field.1 < field;
      "," + (SpellText(field.0) + (Spell(field.1) + SpellFields(fields[1..])))
  }

  // ----- no text spells two values

  lemma {:induction false} StrokesEnd(m: nat, n: nat, a: string, b: string)
    requires Strokes(m) + a == Strokes(n) + b
    ensures m == n && a == b
  {
    var s, t := Strokes(m) + a, Strokes(n) + b;
    assert s[0] == t[0];
    if m == 0 || n == 0 {
      assert a == s[1..] && b == t[1..];
    } else {
      assert s[1..] == Strokes(m - 1) + a && t[1..] == Strokes(n - 1) + b;
      StrokesEnd(m - 1, n - 1, a, b);
    }
  }

  lemma TextEnds(x: string, y: string, a: string, b: string)
    requires SpellText(x) + a == SpellText(y) + b
    ensures x == y && a == b
  {
    assert SpellText(x) + a == Strokes(|x|) + (x + a) && SpellText(y) + b == Strokes(|y|) + (y + b);
    StrokesEnd(|x|, |y|, x + a, y + b);
    assert (x + a)[..|x|] == x && (y + b)[..|x|] == y;
    assert (x + a)[|x|..] == a && (y + b)[|x|..] == b;
  }

  /** Two texts that agree agree after their first letters. */
  lemma AfterFirst(x: string, p: string, a: string, y: string, q: string, b: string)
    requires |x| == |y| == 1 && (x + p) + a == (y + q) + b
    ensures x == y && p + a == q + b
  {
    var s, t := (x + p) + a, (y + q) + b;
    assert s[0] == x[0] && t[0] == y[0];
    assert s[1..] == p + a && t[1..] == q + b;
  }

  lemma OneLetter(x: string, a: string, y: string, b: string)
    requires |x| == |y| == 1 && x + a == y + b
    ensures x == y && a == b
  {
    var s, t := x + a, y + b;
    assert s[0] == x[0] && t[0] == y[0];
    assert s[1..] == a && t[1..] == b;
  }

  lemma FirstLetters(v: Json, w: Json, a: string, b: string)
    requires Spell(v) + a == Spell(w) + b
    ensures Spell(v)[0] == Spell(w)[0]
  {
    assert (Spell(v) + a)[0] == Spell(v)[0] && (Spell(w) + b)[0] == Spell(w)[0];
  }

  /** The keys agree, and what follows them does. */
  lemma FieldStarts(field: (string, Json), other: (string, Json), r: string, s: string, a: string, b: string)
    requires "," + (SpellText(field.0) + (Spell(field.1) + r)) + a
          == "," + (SpellText(other.0) + (Spell(other.1) + s)) + b
    ensures field.0 == other.0 && Spell(field.1) + (r + a) == Spell(other.1) + (s + b)
  {
    var p, q := Spell(field.1) + r, Spell(other.1) + s;
    AfterFirst(",", SpellText(field.0) + p, a, ",", SpellText(other.0) + q, b);
    assert (SpellText(field.0) + p) + a == SpellText(field.0) + (p + a);
    assert (SpellText(other.0) + q) + b == SpellText(other.0) + (q + b);
    TextEnds(field.0, other.0, p + a, q + b);
    assert p + a == Spell(field.1) + (r + a) && q + b == Spell(other.1) + (s + b);
  }

  lemma {:induction false} ValueEnds(v: Json, w: Json, a: string, b: string)
    requires Spell(v) + a == Spell(w) + b
    ensures v == w && a == b
    decreases v, 1
  {
    FirstLetters(v, w, a, b);
    match v
    case Null => OneLetter("n", a, "n", b);
    case Bool(c) => OneLetter(Spell(v), a, Spell(w), b);
    case Num(n) =>
      var sign := if n < 0 then "-" else "+";
      AfterFirst(sign, Strokes(if n < 0 then -n else n), a, sign, Strokes(if w.n < 0 then -w.n else w.n), b);
      StrokesEnd(if n < 0 then -n else n, if w.n < 0 then -w.n else w.n, a, b);
    case Str(s) =>
      AfterFirst("s", SpellText(s), a, "s", SpellText(w.s), b);
      TextEnds(s, w.s, a, b);
    case Arr(items) =>
      AfterFirst("a", SpellItems(items), a, "a", SpellItems(w.items), b);
      ItemsEnd(items, w.items, a, b);
    case Obj(fields) =>
      AfterFirst("o", SpellFields(fields), a, "o", SpellFields(w.fields), b);
      FieldsEnd(fields, w.fields, a, b);
  }

  lemma {:induction false} ItemsEnd(x: seq<Json>, y: seq<Json>, a: string, b: string)
    requires SpellItems(x) + a == SpellItems(y) + b
    ensures x == y && a == b
    decreases x, 0
  {
    assert (SpellItems(x) + a)[0] == SpellItems(x)[0] && (SpellItems(y) + b)[0] == SpellItems(y)[0];
    assert x == [] <==> y == [];
    if x == [] {
      OneLetter("]", a, "]", b);
    } else {
      var p, q := Spell(x[0]) + SpellItems(x[1..]), Spell(y[0]) + SpellItems(y[1..]);
      AfterFirst(",", p, a, ",", q, b);
      assert p + a == Spell(x[0]) + (SpellItems(x[1..]) + a) && q + b == Spell(y[0]) + (SpellItems(y[1..]) + b);
      ValueEnds(x[0], y[0], SpellItems(x[1..]) + a, SpellItems(y[1..]) + b);
      ItemsEnd(x[1..], y[1..], a, b);
      assert x == [x[0]] + x[1..] && y == [y[0]] + y[1..];
    }
  }

  lemma {:induction false} FieldsEnd(x: seq<(string, Json)>, y: seq<(string, Json)>, a: string, b: string)
    requires SpellFields(x) + a == SpellFields(y) + b
    ensures x == y && a == b
    decreases x, 0
  {
    assert (SpellFields(x) + a)[0] == SpellFields(x)[0] && (SpellFields(y) + b)[0] == SpellFields(y)[0];
    assert x == [] <==> y == [];
    if x == [] {
      OneLetter("]", a, "]", b);
    } else {
      var field, other := x[0], y[0];
      assert field.1 < field;
      var r, s := SpellFields(x[1..]), SpellFields(y[1..]);
      FieldStarts(field, other, r, s, a, b);
      ValueEnds(field.1, other.1, r + a, s + b);
      FieldsEnd(x[1..], y[1..], a, b);
      assert x == [field] + x[1..] && y == [other] + y[1..];
    }
  }

  /** A value's text is at least as long as its weight. */
  lemma {:induction false} StrokesCount(n: nat)
    ensures |Strokes(n)| == n + 1
  {
    if n > 0 { StrokesCount(n - 1); }
  }

  lemma {:induction false} TextIsLongEnough(v: Json)
    ensures Weight(v) <= |Spell(v)|
    decreases v, 1
  {
    match v
    case Str(s) => StrokesCount(|s|);
    case Arr(items) => ItemsAreLongEnough(items);
    case Obj(fields) => FieldsAreLongEnough(fields);
    case _ =>
  }

  lemma {:induction false} ItemsAreLongEnough(items: seq<Json>)
    ensures ItemsWeight(items) + 1 <= |SpellItems(items)|
    decreases items, 0
  {
    if items != [] {
      TextIsLongEnough(items[0]);
      ItemsAreLongEnough(items[1..]);
    }
  }

  lemma {:induction false} FieldsAreLongEnough(fields: seq<(string, Json)>)
    ensures FieldsWeight(fields) + 1 <= |SpellFields(fields)|
    decreases fields, 0
  {
    if fields != [] {
      var field := fields[0];
      assert field.1 < field;
      StrokesCount(|field.0|);
      TextIsLongEnough(field.1);
      FieldsAreLongEnough(fields[1..]);
    }
  }

  // ----- the library

  ghost function ReadBack(s: string): Option<Json> {
    if exists v :: UniqueThroughout(v) && Spell(v) == s then
      var v :| UniqueThroughout(v) && Spell(v) == s; Some(v)
    else None
  }

  lemma ReadsBack(v: Json)
    requires UniqueThroughout(v)
    ensures ReadBack(Spell(v)) == Some(v)
  {
    var w :| UniqueThroughout(w) && Spell(w) == Spell(v) && ReadBack(Spell(v)) == Some(w);
    assert Spell(v) + "" == Spell(w) + "";
    ValueEnds(v, w, "", "");
  }

  /** What `ReadBack` reads is never longer than its text and repeats no key. */
  lemma ReadingIsLawful(l: Library)
    requires forall s :: l.parse(s) == ReadBack(s)
    ensures Lawful(l)
  {
    forall s: string | l.parse(s).Some?
      ensures Weight(l.parse(s).value) <= |s| && UniqueThroughout(l.parse(s).value)
    {
      TextIsLongEnough(l.parse(s).value);
    }
  }

  lemma ReadingReadsDumps(l: Library)
    requires (forall s :: l.parse(s) == ReadBack(s)) && forall v :: l.dump(v) == Spell(v)
    ensures ReadsDumps(l)
  {
    forall v: Json | v.Obj? && UniqueThroughout(v)
      ensures l.parse(l.dump(v)) == Some(v)
    {
      ReadsBack(v);
    }
  }

  /** Some library parses everything this spelling writes, yields no repeated key and nothing longer than its text. */
  lemma LibraryExists(text: string -> string, sensitive: string -> bool, str: Json -> string) returns (c: Cleaner)
    ensures c.text == text && c.sensitive == sensitive && c.codec.str == str
    ensures Spells(c, Spell) && ReadsDumps(c.codec)
    ensures forall s :: c.codec.parse(s) == ReadBack(s)
    ensures forall v :: c.codec.dump(v) == Spell(v)
  {
    var library := Library(s => ReadBack(s), Spell, str);
    ReadingIsLawful(library);
    ReadingReadsDumps(library);
    c := Cleaner(library, text, sensitive);
    forall v: Json | UniqueThroughout(v)
      ensures c.codec.parse(Spell(v)) == Some(v)
    {
      ReadsBack(v);
    }
  }

  /** Text that nests a list or an object starts with its kind's letter and goes on. */
  lemma NestedStarts(s: string)
    requires ReadBack(s).Some? && (ReadBack(s).value.Obj? || ReadBack(s).value.Arr?)
    ensures |s| > 1 && (s[0] == 'o' || s[0] == 'a')
  {
    var v := ReadBack(s).value;
    assert Spell(v) == s;
    match v
    case Arr(items) => assert |SpellItems(items)| > 0;
    case Obj(fields) => assert |SpellFields(fields)| > 0;
  }
}
