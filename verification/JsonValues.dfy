/**
JSON values as Python holds them. An object is its key/value pairs in insertion order, because
rewriting keys can make later pairs overwrite earlier ones.
*/
module JsonValues {
  import opened Wrappers

  datatype Json =
    | Null
    | Bool(b: bool)
    | Num(n: int)
    | Str(s: string)
    | Arr(items: seq<Json>)
    | Obj(fields: seq<(string, Json)>)

  predicate UniqueKeys(fields: seq<(string, Json)>) {
    forall i, j :: 0 <= i < j < |fields| ==> fields[i].0 != fields[j].0
  }

  /** No object in the value repeats a key. */
  predicate UniqueThroughout(v: Json)
    decreases v
  {
    match v
    case Arr(items) => forall i :: 0 <= i < |items| ==> UniqueThroughout(items[i])
    case Obj(fields) => UniqueKeys(fields) && forall i :: 0 <= i < |fields| ==> UniqueThroughout(fields[i].1)
    case _ => true
  }

  /** A value as a Python dictionary or list can hold it. */
  type Value = v: Json | UniqueThroughout(v) witness Null

  /** JSON text is at least as long as this. */
  function Weight(v: Json): (n: nat)
    ensures n > 0
    decreases v
  {
    match v
    case Str(s) => |s| + 2
    case Arr(items) => 2 + ItemsWeight(items)
    case Obj(fields) => 2 + FieldsWeight(fields)
    case _ => 1
  }

  function ItemsWeight(items: seq<Json>): nat
    decreases items
  {
    if items == [] then 0 else Weight(items[0]) + ItemsWeight(items[1..])
  }

  function FieldsWeight(fields: seq<(string, Json)>): nat
    decreases fields
  {
    if fields == [] then 0 else
      var field := fields[0];
      assert field.1 < field;
      |field.0| + 2 + Weight(field.1) + FieldsWeight(fields[1..])
  }

  /** The text side of the JSON library and of `str`, kept abstract. */
  datatype Library = Library(parse: string -> Option<Json>, dump: Json -> string, str: Json -> string)

  /** Parsing never yields more than its text spells out, nor an object that repeats a key. */
  ghost predicate Lawful(l: Library) {
    forall s: string :: l.parse(s).Some? ==> Weight(l.parse(s).value) <= |s| && UniqueThroughout(l.parse(s).value)
  }

  type Codec = l: Library | Lawful(l) witness Library((_: string) => None, (_: Json) => "", (_: Json) => "")

  function Lookup(fields: seq<(string, Json)>, key: string): Option<Json> {
    if fields == [] then None
    else if fields[0].0 == key then Some(fields[0].1)
    else Lookup(fields[1..], key)
  }

  predicate HasKey(fields: seq<(string, Json)>, key: string) {
    Lookup(fields, key).Some?
  }

  /** `value.get(key)` on a dictionary; anything that is not one has no fields. */
  function Field(v: Json, key: string): Json {
    if v.Obj? && Lookup(v.fields, key).Some? then Lookup(v.fields, key).value else Null
  }

  lemma {:induction false} LookupAt(fields: seq<(string, Json)>, key: string, i: nat)
    requires i < |fields| && fields[i].0 == key
    requires forall j :: 0 <= j < i ==> fields[j].0 != key
    ensures Lookup(fields, key) == Some(fields[i].1)
  {
    if i > 0 {
      LookupAt(fields[1..], key, i - 1);
    }
  }

  lemma {:induction false} LookupIndex(fields: seq<(string, Json)>, key: string) returns (i: nat)
    requires HasKey(fields, key)
    ensures i < |fields| && fields[i] == (key, Lookup(fields, key).value)
  {
    if fields[0].0 == key {
      i := 0;
    } else {
      i := LookupIndex(fields[1..], key);
      i := i + 1;
    }
  }

  lemma {:induction false} LookupMiss(fields: seq<(string, Json)>, key: string)
    requires forall i :: 0 <= i < |fields| ==> fields[i].0 != key
    ensures Lookup(fields, key).None?
  {
    if fields != [] {
      LookupMiss(fields[1..], key);
    }
  }

  /** `value.get(key, default)`. */
  function FieldOr(v: Json, key: string, default: Json): Json {
    if v.Obj? && Lookup(v.fields, key).Some? then Lookup(v.fields, key).value else default
  }

  predicate Truthy(v: Json) {
    match v
    case Null => false
    case Bool(b) => b
    case Num(n) => n != 0
    case Str(s) => s != ""
    case Arr(items) => items != []
    case Obj(fields) => fields != []
  }

  /** Nothing, false, zero and whatever is empty; everything else is truthy. */
  lemma FalsyIff(v: Json)
    ensures !Truthy(v) <==> v in {Null, Bool(false), Num(0), Str(""), Arr([]), Obj([])}
  {
  }

  predicate Hashable(v: Json) {
    !v.Arr? && !v.Obj?
  }

  /** `d[key] = value`: in place when the key exists, else appended. */
  function Put(fields: seq<(string, Json)>, key: string, value: Json): (r: seq<(string, Json)>) {
    if fields == [] then [(key, value)]
    else if fields[0].0 == key then [(key, value)] + fields[1..]
    else [fields[0]] + Put(fields[1..], key, value)
  }

  /** `d.pop(key, None)`. */
  function Remove(fields: seq<(string, Json)>, key: string): (r: seq<(string, Json)>) {
    if fields == [] then []
    else if fields[0].0 == key then fields[1..]
    else [fields[0]] + Remove(fields[1..], key)
  }

  lemma {:induction false} LookupPut(fields: seq<(string, Json)>, key: string, value: Json, other: string)
    ensures Lookup(Put(fields, key, value), other) == if other == key then Some(value) else Lookup(fields, other)
  {
    if fields != [] && fields[0].0 != key {
      LookupPut(fields[1..], key, value, other);
    }
  }

  lemma {:induction false} PutPut(fields: seq<(string, Json)>, key: string, v: Json, w: Json)
    ensures Put(Put(fields, key, v), key, w) == Put(fields, key, w)
  {
    if fields != [] && fields[0].0 != key {
      PutPut(fields[1..], key, v, w);
    }
  }

  lemma {:induction false} PutSame(fields: seq<(string, Json)>, key: string)
    requires Lookup(fields, key).Some?
    ensures Put(fields, key, Lookup(fields, key).value) == fields
  {
    if fields[0].0 != key {
      PutSame(fields[1..], key);
    }
  }

  /** Updating a key that is already there commutes with updating another one. */
  lemma {:induction false} PutSwap(fields: seq<(string, Json)>, a: string, x: Json, b: string, y: Json)
    requires a != b && HasKey(fields, a)
    ensures Put(Put(fields, b, y), a, x) == Put(Put(fields, a, x), b, y)
  {
    if fields[0].0 != a && fields[0].0 != b {
      PutSwap(fields[1..], a, x, b, y);
    }
  }

  lemma {:induction false} RemovePut(fields: seq<(string, Json)>, key: string, value: Json)
    ensures Remove(Put(fields, key, value), key) == Remove(fields, key)
  {
    if fields != [] && fields[0].0 != key {
      RemovePut(fields[1..], key, value);
    }
  }

  lemma {:induction false} LookupRemove(fields: seq<(string, Json)>, key: string, other: string)
    requires other != key
    ensures Lookup(Remove(fields, key), other) == Lookup(fields, other)
  {
    if fields != [] && fields[0].0 != key {
      LookupRemove(fields[1..], key, other);
    }
  }

  lemma {:induction false} RemoveShortens(fields: seq<(string, Json)>, key: string)
    ensures HasKey(fields, key) ==> |Remove(fields, key)| == |fields| - 1
    ensures !HasKey(fields, key) ==> Remove(fields, key) == fields
  {
    if fields != [] && fields[0].0 != key {
      RemoveShortens(fields[1..], key);
    }
  }

  /** Substring test. */
  predicate Includes(s: string, part: string) {
    exists i :: 0 <= i <= |s| && part <= s[i..]
  }

  lemma IncludesIff(s: string, part: string)
    ensures Includes(s, part) <==> exists before, after :: s == before + part + after
  {
    if Includes(s, part) {
      var i :| 0 <= i <= |s| && part <= s[i..];
      assert s == s[..i] + part + s[i + |part|..];
    }
    if before, after :| s == before + part + after {
      assert s[|before|..] == part + after;
    }
  }

  lemma {:induction false} NoKeyNowhere(fields: seq<(string, Json)>, key: string, i: nat)
    requires !HasKey(fields, key) && i < |fields|
    ensures fields[i].0 != key
  {
    if i > 0 {
      NoKeyNowhere(fields[1..], key, i - 1);
    }
  }

  /** `value.get(key)`: the member of that name, null when there is none. */
  lemma FieldIff(v: Json, key: string, found: Json)
    requires UniqueThroughout(v)
    ensures Field(v, key) == found <==>
      || (v.Obj? && (key, found) in v.fields)
      || (found == Null && (v.Obj? ==> forall i :: 0 <= i < |v.fields| ==> v.fields[i].0 != key))
  {
    if v.Obj? {
      if HasKey(v.fields, key) {
        var i := LookupIndex(v.fields, key);
        assert v.fields[i].0 == key && (key, Field(v, key)) in v.fields;
      } else {
        forall i | 0 <= i < |v.fields|
          ensures v.fields[i].0 != key
        {
          NoKeyNowhere(v.fields, key, i);
        }
      }
      if (key, found) in v.fields {
        var i :| 0 <= i < |v.fields| && v.fields[i] == (key, found);
        LookupAt(v.fields, key, i);
      } else if forall i :: 0 <= i < |v.fields| ==> v.fields[i].0 != key {
        LookupMiss(v.fields, key);
      }
    }
  }

  /** `value.get(key, default)`: the default only when there is no such member. */
  lemma FieldOrIff(v: Json, key: string, default: Json)
    ensures v.Obj? && HasKey(v.fields, key) ==> FieldOr(v, key, default) == Field(v, key)
    ensures !v.Obj? || !HasKey(v.fields, key) ==> FieldOr(v, key, default) == default
  {
  }
}
