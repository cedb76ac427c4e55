/**
`Sanitizer.clean`: redact values under sensitive keys at any depth, also inside strings that hold
nested JSON, and bound every list. The regular expressions of `text` and of the key test, and the
JSON text library, are parameters.
*/
module Sanitizer {
  import opened Wrappers
  import opened JsonValues

  const MAX_ITEMS := 1000
  const REDACTED := Str("[REDACTED]")

  datatype Cleaner = Cleaner(codec: Codec, text: string -> string, sensitive: string -> bool)

  predicate IsNested(c: Cleaner, s: string) {
    c.codec.parse(s).Some? && (c.codec.parse(s).value.Obj? || c.codec.parse(s).value.Arr?)
  }

  lemma {:induction false} ItemsWeightPrefix(items: seq<Json>, n: nat)
    requires n <= |items|
    ensures ItemsWeight(items[..n]) <= ItemsWeight(items)
  {
    if n > 0 {
      ItemsWeightPrefix(items[1..], n - 1);
      assert items[..n][1..] == items[1..][..n - 1];
    }
  }

  // ----- cleaning

  function Bounded(items: seq<Json>): (r: seq<Json>)
    ensures ItemsWeight(r) <= ItemsWeight(items)
  {
    if |items| <= MAX_ITEMS then items else
      ItemsWeightPrefix(items, MAX_ITEMS);
      items[..MAX_ITEMS]
  }

  function Clean(c: Cleaner, v: Json): Json
    decreases Weight(v), 1
  {
    match v
    case Str(s) => if IsNested(c, s) then Str(c.codec.dump(Clean(c, c.codec.parse(s).value))) else Str(c.text(s))
    case Arr(items) => Arr(CleanItems(c, Bounded(items)))
    case Obj(fields) => Obj(CleanFields(c, fields, []))
    case _ => v
  }

  function CleanItems(c: Cleaner, items: seq<Json>): (r: seq<Json>)
    ensures |r| == |items|
    decreases ItemsWeight(items), 2
  {
    if items == [] then [] else [Clean(c, items[0])] + CleanItems(c, items[1..])
  }

  /** Keys are rewritten too, so a later field may land on an earlier one. */
  function CleanFields(c: Cleaner, fields: seq<(string, Json)>, result: seq<(string, Json)>): seq<(string, Json)>
    decreases FieldsWeight(fields), 2
  {
    if fields == [] then result else
      var (key, item) := fields[0];
      CleanFields(c, fields[1..], Put(result, c.text(key), if c.sensitive(key) then REDACTED else Clean(c, item)))
  }

  // ----- fields of a cleaned object

  /** Cleaning leaves this key and its value's place alone, and turns no other key into it. */
  ghost predicate KeepsKey(c: Cleaner, key: string) {
    !c.sensitive(key) && forall s :: c.text(s) == key <==> s == key
  }

  lemma {:induction false} CleanedLookup(c: Cleaner, fields: seq<(string, Json)>, result: seq<(string, Json)>,
                                         key: string)
    requires UniqueKeys(fields) && KeepsKey(c, key)
    ensures
      Lookup(CleanFields(c, fields, result), key) ==
      if HasKey(fields, key) then Some(Clean(c, Lookup(fields, key).value)) else Lookup(result, key)
    decreases |fields|
  {
    if fields != [] {
      var (first, item) := fields[0];
      var value := if c.sensitive(first) then REDACTED else Clean(c, item);
      CleanedLookup(c, fields[1..], Put(result, c.text(first), value), key);
      LookupPut(result, c.text(first), value, key);
      if first == key {
        LookupMiss(fields[1..], key);
      }
    }
  }

  /** A field that cleaning keeps holds its own value, cleaned. */
  lemma CleanedField(c: Cleaner, v: Json, key: string)
    requires UniqueThroughout(v) && KeepsKey(c, key)
    ensures Field(Clean(c, v), key) == Clean(c, Field(v, key))
  {
    if v.Obj? {
      CleanedLookup(c, v.fields, [], key);
    }
  }

  lemma FieldIsUnique(v: Json, key: string)
    requires UniqueThroughout(v)
    ensures UniqueThroughout(Field(v, key))
  {
    if v.Obj? && HasKey(v.fields, key) {
      var i := LookupIndex(v.fields, key);
    }
  }

  /** Cleaning leaves this key alone. */
  predicate PlainKey(c: Cleaner, key: string) {
    !c.sensitive(key) && c.text(key) == key
  }

  predicate PlainKeys(c: Cleaner, fields: seq<(string, Json)>) {
    forall i :: 0 <= i < |fields| ==> PlainKey(c, fields[i].0)
  }

  /** No key is rewritten or repeated, and `shown` is every field cleaned in its place. */
  predicate CleanedInPlace(c: Cleaner, fields: seq<(string, Json)>, shown: seq<(string, Json)>) {
    && PlainKeys(c, fields) && UniqueKeys(fields) && |shown| == |fields|
    && forall i :: 0 <= i < |fields| ==> shown[i].0 == fields[i].0 && shown[i].1 == Clean(c, fields[i].1)
  }

  lemma {:induction false} PutAppends(fields: seq<(string, Json)>, key: string, value: Json)
    requires forall i :: 0 <= i < |fields| ==> fields[i].0 != key
    ensures Put(fields, key, value) == fields + [(key, value)]
  {
    if fields != [] {
      PutAppends(fields[1..], key, value);
    }
  }

  predicate KeysApart(f: seq<(string, Json)>, g: seq<(string, Json)>) {
    forall i, j :: 0 <= i < |f| && 0 <= j < |g| ==> f[i].0 != g[j].0
  }

  lemma PlainFieldPut(c: Cleaner, fields: seq<(string, Json)>, shown: seq<(string, Json)>, result: seq<(string, Json)>)
    requires fields != [] && CleanedInPlace(c, fields, shown) && KeysApart(result, fields)
    ensures CleanedInPlace(c, fields[1..], shown[1..]) && KeysApart(result + [shown[0]], fields[1..])
    ensures CleanFields(c, fields, result) == CleanFields(c, fields[1..], result + [shown[0]])
  {
    assert PlainKey(c, fields[0].0);
    PutAppends(result, fields[0].0, shown[0].1);
  }

  lemma {:induction false} PlainFieldsStay(c: Cleaner, fields: seq<(string, Json)>, shown: seq<(string, Json)>,
                                           result: seq<(string, Json)>)
    requires CleanedInPlace(c, fields, shown) && KeysApart(result, fields)
    ensures CleanFields(c, fields, result) == result + shown
    decreases |fields|
  {
    if fields != [] {
      var rest, others, next := fields[1..], shown[1..], result + [shown[0]];
      assert next + others == result + shown;
      assert CleanFields(c, fields, result) == next + others by {
        PlainFieldPut(c, fields, shown, result);
        PlainFieldsStay(c, rest, others, next);
      }
    }
  }

  /** Where no key is rewritten, every field is cleaned in its place. */
  lemma PlainObjectStays(c: Cleaner, fields: seq<(string, Json)>, shown: seq<(string, Json)>)
    requires CleanedInPlace(c, fields, shown)
    ensures Clean(c, Obj(fields)) == Obj(shown)
  {
    PlainFieldsStay(c, fields, shown, []);
  }

  /** What is something stays something: text is never rewritten to nothing, nor nothing to text. */
  ghost predicate KeepsSubstance(c: Cleaner) {
    && (forall s :: c.text(s) == "" <==> s == "")
    && (forall v: Json :: v.Obj? || v.Arr? ==> c.codec.dump(v) != "")
  }

  lemma {:induction false} CleanedNotEmpty(c: Cleaner, fields: seq<(string, Json)>, result: seq<(string, Json)>)
    requires fields != [] || result != []
    ensures CleanFields(c, fields, result) != []
    decreases |fields|
  {
    if fields != [] {
      var (key, item) := fields[0];
      CleanedNotEmpty(c, fields[1..], Put(result, c.text(key), if c.sensitive(key) then REDACTED else Clean(c, item)));
    }
  }

  lemma CleanedTruth(c: Cleaner, v: Json)
    requires KeepsSubstance(c)
    ensures Truthy(Clean(c, v)) <==> Truthy(v)
  {
    match v
    case Str(s) =>
      if IsNested(c, s) {
        var cleaned := Clean(c, c.codec.parse(s).value);
        assert cleaned.Obj? || cleaned.Arr?;
      }
    case Obj(fields) => if fields != [] { CleanedNotEmpty(c, fields, []); }
    case _ =>
  }

  /** Cleaning leaves this word alone and makes it of nothing else. */
  ghost predicate KeepsWord(c: Cleaner, word: string) {
    && !IsNested(c, word)
    && (forall s :: c.text(s) == word <==> s == word)
    && (forall v: Json :: v.Obj? || v.Arr? ==> c.codec.dump(v) != word)
  }

  lemma CleanedWord(c: Cleaner, v: Json, word: string)
    requires KeepsWord(c, word)
    ensures Clean(c, v) == Str(word) <==> v == Str(word)
  {
    match v
    case Str(s) =>
      if IsNested(c, s) {
        var cleaned := Clean(c, c.codec.parse(s).value);
        assert cleaned.Obj? || cleaned.Arr?;
      }
    case _ =>
  }

  // ----- cleaned values written as text and read again

  /** The objects agree on every field that is not itself a list or an object. */
  ghost predicate AgreePlainly(v: Json, w: Json) {
    v.Obj? && w.Obj?
    && forall key: string :: Hashable(Field(v, key)) || Hashable(Field(w, key)) ==> Field(w, key) == Field(v, key)
  }

  /** An object's text reads back with the same plain fields; sorting keys changes at most their order. */
  ghost predicate ReadsDumps(l: Library) {
    forall v: Json :: v.Obj? && UniqueThroughout(v) ==>
      l.parse(l.dump(v)).Some? && AgreePlainly(v, l.parse(l.dump(v)).value)
  }

  predicate UniqueFields(fields: seq<(string, Json)>) {
    UniqueKeys(fields) && forall i :: 0 <= i < |fields| ==> UniqueThroughout(fields[i].1)
  }

  predicate Named(fields: seq<(string, Json)>, key: string) {
    exists i :: 0 <= i < |fields| && fields[i].0 == key
  }

  lemma {:induction false} PutKeepsUnique(fields: seq<(string, Json)>, key: string, value: Json)
    requires UniqueFields(fields) && UniqueThroughout(value)
    ensures UniqueFields(Put(fields, key, value))
    ensures forall i :: 0 <= i < |Put(fields, key, value)| ==>
      Put(fields, key, value)[i].0 == key || Named(fields, Put(fields, key, value)[i].0)
  {
    if fields != [] && fields[0].0 != key {
      PutKeepsUnique(fields[1..], key, value);
    }
  }

  /** Cleaning repeats no key, even where it rewrites several to one. */
  lemma {:induction false} CleanIsUnique(c: Cleaner, v: Json)
    ensures UniqueThroughout(Clean(c, v))
    decreases Weight(v), 1
  {
    match v
    case Arr(items) => CleanItemsUnique(c, Bounded(items));
    case Obj(fields) => CleanFieldsUnique(c, fields, []);
    case _ =>
  }

  lemma {:induction false} CleanItemsUnique(c: Cleaner, items: seq<Json>)
    ensures forall i :: 0 <= i < |items| ==> UniqueThroughout(CleanItems(c, items)[i])
    decreases ItemsWeight(items), 2
  {
    if items != [] {
      CleanIsUnique(c, items[0]);
      CleanItemsUnique(c, items[1..]);
    }
  }

  lemma {:induction false} CleanFieldsUnique(c: Cleaner, fields: seq<(string, Json)>, result: seq<(string, Json)>)
    requires UniqueFields(result)
    ensures UniqueFields(CleanFields(c, fields, result))
    decreases FieldsWeight(fields), 2
  {
    if fields != [] {
      var (key, item) := fields[0];
      if !c.sensitive(key) {
        CleanIsUnique(c, item);
      }
      var value := if c.sensitive(key) then REDACTED else Clean(c, item);
      PutKeepsUnique(result, c.text(key), value);
      CleanFieldsUnique(c, fields[1..], Put(result, c.text(key), value));
    }
  }

  // ----- noninterference

  /**
  The values differ at most under sensitive keys, past the list bound, or in JSON text that itself
  differs only so.
  */
  predicate Alike(c: Cleaner, v: Json, w: Json)
    decreases Weight(v), 1
  {
    || v == w
    || (v.Arr? && w.Arr? && AlikeItems(c, Bounded(v.items), Bounded(w.items)))
    || (v.Obj? && w.Obj? && AlikeFields(c, v.fields, w.fields))
    || (v.Str? && w.Str? && IsNested(c, v.s) && IsNested(c, w.s)
        && Alike(c, c.codec.parse(v.s).value, c.codec.parse(w.s).value))
  }

  predicate AlikeItems(c: Cleaner, a: seq<Json>, b: seq<Json>)
    decreases ItemsWeight(a), 2
  {
    if a == [] then b == []
    else b != [] && Alike(c, a[0], b[0]) && AlikeItems(c, a[1..], b[1..])
  }

  predicate AlikeFields(c: Cleaner, f: seq<(string, Json)>, g: seq<(string, Json)>)
    decreases FieldsWeight(f), 2
  {
    if f == [] then g == []
    else
      && g != [] && f[0].0 == g[0].0 && (c.sensitive(f[0].0) || Alike(c, f[0].1, g[0].1))
      && AlikeFields(c, f[1..], g[1..])
  }

  /** What a sensitive key holds never shows in the output. */
  lemma {:induction false} CleanIsNoninterfering(c: Cleaner, v: Json, w: Json)
    requires Alike(c, v, w)
    ensures Clean(c, v) == Clean(c, w)
    decreases Weight(v), 1
  {
    if v != w {
      match v
      case Str(s) => CleanIsNoninterfering(c, c.codec.parse(s).value, c.codec.parse(w.s).value);
      case Arr(items) => ItemsNoninterfering(c, Bounded(items), Bounded(w.items));
      case Obj(fields) => FieldsNoninterfering(c, fields, w.fields, []);
      case _ =>
    }
  }

  lemma {:induction false} ItemsNoninterfering(c: Cleaner, a: seq<Json>, b: seq<Json>)
    requires AlikeItems(c, a, b)
    ensures CleanItems(c, a) == CleanItems(c, b)
    decreases ItemsWeight(a), 2
  {
    if a != [] {
      CleanIsNoninterfering(c, a[0], b[0]);
      ItemsNoninterfering(c, a[1..], b[1..]);
    }
  }

  lemma {:induction false} FieldsNoninterfering(c: Cleaner, f: seq<(string, Json)>, g: seq<(string, Json)>,
                                                result: seq<(string, Json)>)
    requires AlikeFields(c, f, g)
    ensures CleanFields(c, f, result) == CleanFields(c, g, result)
    decreases FieldsWeight(f), 2
  {
    if f != [] {
      var key := f[0].0;
      if !c.sensitive(key) {
        CleanIsNoninterfering(c, f[0].1, g[0].1);
      }
      var next := Put(result, c.text(key), if c.sensitive(key) then REDACTED else Clean(c, f[0].1));
      FieldsNoninterfering(c, f[1..], g[1..], next);
    }
  }

  // ----- the output needs no sensitive value at all

  /** Text in which fields keep their order, as an unsorted `json.dumps` writes it, parses back to its value. */
  ghost predicate Spells(c: Cleaner, spell: Json -> string) {
    forall v: Json :: UniqueThroughout(v) ==> c.codec.parse(spell(v)) == Some(v)
  }

  /** The value with everything under sensitive keys taken away, inside nested JSON text too. */
  function Blank(c: Cleaner, spell: Json -> string, v: Json): Json
    decreases Weight(v), 1
  {
    match v
    case Str(s) => if IsNested(c, s) then Str(spell(Blank(c, spell, c.codec.parse(s).value))) else v
    case Arr(items) => Arr(BlankItems(c, spell, Bounded(items)))
    case Obj(fields) => Obj(BlankFields(c, spell, fields))
    case _ => v
  }

  function BlankItems(c: Cleaner, spell: Json -> string, items: seq<Json>): (r: seq<Json>)
    ensures |r| == |items|
    decreases ItemsWeight(items), 2
  {
    if items == [] then [] else [Blank(c, spell, items[0])] + BlankItems(c, spell, items[1..])
  }

  function BlankFields(c: Cleaner, spell: Json -> string, fields: seq<(string, Json)>): (r: seq<(string, Json)>)
    ensures |r| == |fields| && forall i :: 0 <= i < |r| ==> r[i].0 == fields[i].0
    decreases FieldsWeight(fields), 2
  {
    if fields == [] then [] else
      var (key, item) := fields[0];
      [(key, if c.sensitive(key) then Null else Blank(c, spell, item))] + BlankFields(c, spell, fields[1..])
  }

  /** Taking values away repeats no key. */
  lemma {:induction false} BlankIsUnique(c: Cleaner, spell: Json -> string, v: Json)
    requires UniqueThroughout(v)
    ensures UniqueThroughout(Blank(c, spell, v))
    decreases Weight(v), 1
  {
    match v
    case Arr(items) => BlankItemsUnique(c, spell, Bounded(items));
    case Obj(fields) => BlankFieldsUnique(c, spell, fields);
    case _ =>
  }

  lemma {:induction false} BlankItemsUnique(c: Cleaner, spell: Json -> string, items: seq<Json>)
    requires forall i :: 0 <= i < |items| ==> UniqueThroughout(items[i])
    ensures forall i :: 0 <= i < |items| ==> UniqueThroughout(BlankItems(c, spell, items)[i])
    decreases ItemsWeight(items), 2
  {
    if items != [] {
      BlankIsUnique(c, spell, items[0]);
      BlankItemsUnique(c, spell, items[1..]);
    }
  }

  lemma {:induction false} BlankFieldsUnique(c: Cleaner, spell: Json -> string, fields: seq<(string, Json)>)
    requires forall i :: 0 <= i < |fields| ==> UniqueThroughout(fields[i].1)
    ensures forall i :: 0 <= i < |fields| ==> UniqueThroughout(BlankFields(c, spell, fields)[i].1)
    decreases FieldsWeight(fields), 2
  {
    if fields != [] {
      if !c.sensitive(fields[0].0) {
        BlankIsUnique(c, spell, fields[0].1);
      }
      BlankFieldsUnique(c, spell, fields[1..]);
    }
  }

  lemma {:induction false} BlankIsAlike(c: Cleaner, spell: Json -> string, v: Json)
    requires Spells(c, spell)
    ensures Alike(c, v, Blank(c, spell, v))
    decreases Weight(v), 1
  {
    match v
    case Str(s) =>
      if IsNested(c, s) {
        BlankIsAlike(c, spell, c.codec.parse(s).value);
        BlankIsUnique(c, spell, c.codec.parse(s).value);
      }
    case Arr(items) => BlankItemsAlike(c, spell, Bounded(items));
    case Obj(fields) => BlankFieldsAlike(c, spell, fields);
    case _ =>
  }

  lemma {:induction false} BlankItemsAlike(c: Cleaner, spell: Json -> string, items: seq<Json>)
    requires Spells(c, spell)
    ensures AlikeItems(c, items, BlankItems(c, spell, items))
    decreases ItemsWeight(items), 2
  {
    if items != [] {
      BlankIsAlike(c, spell, items[0]);
      BlankItemsAlike(c, spell, items[1..]);
    }
  }

  lemma {:induction false} BlankFieldsAlike(c: Cleaner, spell: Json -> string, fields: seq<(string, Json)>)
    requires Spells(c, spell)
    ensures AlikeFields(c, fields, BlankFields(c, spell, fields))
    decreases FieldsWeight(fields), 2
  {
    if fields != [] {
      if !c.sensitive(fields[0].0) {
        BlankIsAlike(c, spell, fields[0].1);
      }
      BlankFieldsAlike(c, spell, fields[1..]);
    }
  }

  /** Cleaning a value and cleaning it with all sensitive content removed beforehand give the same output. */
  lemma CleanIgnoresSensitiveContent(c: Cleaner, spell: Json -> string, v: Json)
    requires Spells(c, spell)
    ensures Clean(c, v) == Clean(c, Blank(c, spell, v))
  {
    BlankIsAlike(c, spell, v);
    CleanIsNoninterfering(c, v, Blank(c, spell, v));
  }

  // ----- bounded lists

  predicate ListsBounded(v: Json)
    decreases v
  {
    match v
    case Arr(items) => |items| <= MAX_ITEMS && forall i :: 0 <= i < |items| ==> ListsBounded(items[i])
    case Obj(fields) => forall i :: 0 <= i < |fields| ==> ListsBounded(fields[i].1)
    case _ => true
  }

  predicate FieldsBounded(fields: seq<(string, Json)>) {
    forall i :: 0 <= i < |fields| ==> ListsBounded(fields[i].1)
  }

  lemma {:induction false} PutKeepsBounded(fields: seq<(string, Json)>, key: string, value: Json)
    requires FieldsBounded(fields) && ListsBounded(value)
    ensures FieldsBounded(Put(fields, key, value))
  {
    if fields != [] && fields[0].0 != key {
      PutKeepsBounded(fields[1..], key, value);
    }
  }

  lemma {:induction false} CleanListsAreBounded(c: Cleaner, v: Json)
    ensures ListsBounded(Clean(c, v))
    decreases Weight(v), 1
  {
    match v
    case Arr(items) => CleanItemsBounded(c, Bounded(items));
    case Obj(fields) => CleanFieldsBounded(c, fields, []);
    case _ =>
  }

  lemma {:induction false} CleanItemsBounded(c: Cleaner, items: seq<Json>)
    ensures forall i :: 0 <= i < |items| ==> ListsBounded(CleanItems(c, items)[i])
    decreases ItemsWeight(items), 2
  {
    if items != [] {
      CleanListsAreBounded(c, items[0]);
      CleanItemsBounded(c, items[1..]);
    }
  }

  lemma {:induction false} CleanFieldsBounded(c: Cleaner, fields: seq<(string, Json)>, result: seq<(string, Json)>)
    requires FieldsBounded(result)
    ensures FieldsBounded(CleanFields(c, fields, result))
    decreases FieldsWeight(fields), 2
  {
    if fields != [] {
      var (key, item) := fields[0];
      if !c.sensitive(key) {
        CleanListsAreBounded(c, item);
      }
      var value := if c.sensitive(key) then REDACTED else Clean(c, item);
      PutKeepsBounded(result, c.text(key), value);
      CleanFieldsBounded(c, fields[1..], Put(result, c.text(key), value));
    }
  }
}
