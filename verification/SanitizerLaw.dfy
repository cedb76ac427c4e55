/**
What cleaning makes of a value, place by place: a relation between input and output that says nothing
of how the output is computed, and that no other output satisfies.
*/
module SanitizerLaw {
  import opened Wrappers
  import opened JsonValues
  import opened Sanitizer

  // ----- weights, for values inside values

  lemma {:induction false} ItemWeighsLess(items: seq<Json>, i: nat)
    requires i < |items|
    ensures Weight(items[i]) <= ItemsWeight(items)
  {
    if i > 0 {
      ItemWeighsLess(items[1..], i - 1);
    }
  }

  lemma {:induction false} FieldWeighsLess(fields: seq<(string, Json)>, i: nat)
    requires i < |fields|
    ensures Weight(fields[i].1) < FieldsWeight(fields)
  {
    if i > 0 {
      FieldWeighsLess(fields[1..], i - 1);
    }
  }

  // ----- the relation

  /** Text that spells a list or an object. */
  predicate SpellsNested(c: Cleaner, s: string) {
    c.codec.parse(s).Some? && (c.codec.parse(s).value.Arr? || c.codec.parse(s).value.Obj?)
  }

  /** The names that fields get, one for each. */
  function Landed(c: Cleaner, fields: seq<(string, Json)>): (names: seq<string>)
    ensures |names| == |fields| && forall i :: 0 <= i < |fields| ==> names[i] == c.text(fields[i].0)
  {
    seq(|fields|, i requires 0 <= i < |fields| => c.text(fields[i].0))
  }

  function Names(fields: seq<(string, Json)>): (names: seq<string>)
    ensures |names| == |fields| && forall i :: 0 <= i < |fields| ==> names[i] == fields[i].0
  {
    seq(|fields|, i requires 0 <= i < |fields| => fields[i].0)
  }

  /** Each name once, where it first stood. */
  function Distinct(names: seq<string>): seq<string> {
    if names == [] then [] else
      var kept := Distinct(names[..|names| - 1]);
      if names[|names| - 1] in kept then kept else kept + [names[|names| - 1]]
  }

  /** Field `i` is the last of those that get this name. */
  predicate LastNamed(names: seq<string>, i: nat, name: string) {
    i < |names| && names[i] == name && forall j :: i < j < |names| ==> names[j] != name
  }

  /**
  `w` is `v` cleaned: a list has its first thousand items, each cleaned in its place; a field shows
  its last value, cleaned, or that it was redacted; text that nests a list or an object is the text of
  that, cleaned; other text is rewritten; every other value stays.
  */
  ghost predicate Cleans(c: Cleaner, v: Json, w: Json)
    decreases Weight(v)
  {
    match v
    case Str(s) =>
      if SpellsNested(c, s) then exists x :: w == Str(c.codec.dump(x)) && Cleans(c, c.codec.parse(s).value, x)
      else w == Str(c.text(s))
    case Arr(items) =>
      && w.Arr? && |w.items| == (if |items| < 1000 then |items| else 1000)
      && forall i :: 0 <= i < |w.items| ==> (ItemWeighsLess(items, i); Cleans(c, items[i], w.items[i]))
    case Obj(fields) =>
      && w.Obj? && Names(w.fields) == Distinct(Landed(c, fields))
      && forall j, i: nat :: 0 <= j < |w.fields| && LastNamed(Landed(c, fields), i, w.fields[j].0) ==>
           (FieldWeighsLess(fields, i);
            if c.sensitive(fields[i].0) then w.fields[j].1 == Str("[REDACTED]")
            else Cleans(c, fields[i].1, w.fields[j].1))
    case _ => w == v
  }

  // ----- cleaning meets it

  lemma {:induction false} CleanedItem(c: Cleaner, items: seq<Json>, i: nat)
    requires i < |items|
    ensures CleanItems(c, items)[i] == Clean(c, items[i])
  {
    if i > 0 {
      CleanedItem(c, items[1..], i - 1);
    }
  }

  lemma {:induction false} DistinctHolds(names: seq<string>)
    ensures forall name :: name in Distinct(names) <==> name in names
    ensures forall i, j :: 0 <= i < j < |Distinct(names)| ==> Distinct(names)[i] != Distinct(names)[j]
  {
    if names != [] {
      DistinctHolds(names[..|names| - 1]);
      assert names == names[..|names| - 1] + [names[|names| - 1]];
    }
  }

  lemma NamesCons(field: (string, Json), rest: seq<(string, Json)>)
    ensures Names([field] + rest) == [field.0] + Names(rest)
  {
  }

  lemma ConsNames(name: string, rest: seq<string>, key: string)
    requires name != key
    ensures key in [name] + rest <==> key in rest
    ensures [name] + (rest + [key]) == ([name] + rest) + [key]
  {
  }

  /** Where a key is put: in its place when it is there, else at the end. */
  lemma {:induction false} PutNames(fields: seq<(string, Json)>, key: string, value: Json)
    ensures Names(Put(fields, key, value)) == if key in Names(fields) then Names(fields) else Names(fields) + [key]
  {
    if fields != [] {
      var first, rest := fields[0], fields[1..];
      assert fields == [first] + rest;
      NamesCons(first, rest);
      if first.0 == key {
        NamesCons((key, value), rest);
        assert Names(fields)[0] == key;
      } else {
        PutNames(rest, key, value);
        NamesCons(first, Put(rest, key, value));
        ConsNames(first.0, Names(rest), key);
      }
    }
  }

  lemma {:induction false} PutValues(fields: seq<(string, Json)>, key: string, value: Json)
    requires UniqueKeys(fields)
    ensures
      var after := Put(fields, key, value);
      forall j :: 0 <= j < |after| ==>
        if after[j].0 == key then after[j].1 == value else j < |fields| && after[j] == fields[j]
  {
    if fields != [] && fields[0].0 != key {
      PutValues(fields[1..], key, value);
    }
  }

  // ----- cleaning meets the relation

  ghost predicate ValueShown(c: Cleaner, field: (string, Json), shown: Json) {
    if c.sensitive(field.0) then shown == Str("[REDACTED]") else Cleans(c, field.1, shown)
  }

  /** `shown` is what the fields become: each name once, with its last value as shown. */
  ghost predicate FieldsShown(c: Cleaner, fields: seq<(string, Json)>, shown: seq<(string, Json)>) {
    && Names(shown) == Distinct(Landed(c, fields))
    && forall j, i: nat :: 0 <= j < |shown| && LastNamed(Landed(c, fields), i, shown[j].0) ==>
         ValueShown(c, fields[i], shown[j].1)
  }

  lemma ObjectCleansIff(c: Cleaner, fields: seq<(string, Json)>, shown: seq<(string, Json)>)
    ensures Cleans(c, Obj(fields), Obj(shown)) <==> FieldsShown(c, fields, shown)
  {
  }

  lemma LandedOneMore(c: Cleaner, fields: seq<(string, Json)>, field: (string, Json))
    ensures Landed(c, fields + [field]) == Landed(c, fields) + [c.text(field.0)]
    ensures Landed(c, fields + [field])[..|fields|] == Landed(c, fields)
  {
  }

  lemma ShownNames(c: Cleaner, fields: seq<(string, Json)>, shown: seq<(string, Json)>, field: (string, Json),
                   value: Json)
    requires Names(shown) == Distinct(Landed(c, fields))
    ensures Names(Put(shown, c.text(field.0), value)) == Distinct(Landed(c, fields + [field]))
    ensures UniqueKeys(shown)
  {
    PutNames(shown, c.text(field.0), value);
    LandedOneMore(c, fields, field);
    DistinctHolds(Landed(c, fields));
    assert forall i :: 0 <= i < |shown| ==> Names(shown)[i] == shown[i].0;
  }

  lemma FieldsShownOneMore(c: Cleaner, fields: seq<(string, Json)>, shown: seq<(string, Json)>, field: (string, Json),
                           value: Json)
    requires FieldsShown(c, fields, shown) && ValueShown(c, field, value)
    ensures FieldsShown(c, fields + [field], Put(shown, c.text(field.0), value))
  {
    var name, more := c.text(field.0), fields + [field];
    var after := Put(shown, name, value);
    ShownNames(c, fields, shown, field, value);
    PutValues(shown, name, value);
    LandedOneMore(c, fields, field);
    forall j, i: nat | 0 <= j < |after| && LastNamed(Landed(c, more), i, after[j].0)
      ensures ValueShown(c, more[i], after[j].1)
    {
      if after[j].0 == name {
        assert i == |fields|;
      } else {
        assert LastNamed(Landed(c, fields), i, shown[j].0);
      }
    }
  }

  /** What one field becomes. */
  function CleanedValue(c: Cleaner, field: (string, Json)): Json {
    if c.sensitive(field.0) then REDACTED else Clean(c, field.1)
  }

  /** The fields up to `n` are shown in `result`. */
  ghost predicate ShownUpTo(c: Cleaner, fields: seq<(string, Json)>, n: nat, result: seq<(string, Json)>)
    requires n <= |fields|
  {
    FieldsShown(c, fields[..n], result)
  }

  lemma CleanOneField(c: Cleaner, fields: seq<(string, Json)>, n: nat, result: seq<(string, Json)>)
    requires n < |fields|
    ensures CleanFields(c, fields[n..], result) ==
      CleanFields(c, fields[n + 1..], Put(result, c.text(fields[n].0), CleanedValue(c, fields[n])))
  {
    assert fields[n..][1..] == fields[n + 1..];
  }

  lemma {:induction false} CleanCleans(c: Cleaner, v: Json)
    ensures Cleans(c, v, Clean(c, v))
    decreases Weight(v), 1
  {
    match v
    case Str(s) =>
      if SpellsNested(c, s) {
        CleanCleans(c, c.codec.parse(s).value);
      }
    case Arr(items) => CleanItemsCleans(c, items);
    case Obj(fields) =>
      CleanFieldsShown(c, fields, 0, []);
      assert fields[0..] == fields && fields[..|fields|] == fields;
      ObjectCleansIff(c, fields, CleanFields(c, fields, []));
    case _ =>
  }

  lemma CleanItemsCleans(c: Cleaner, items: seq<Json>)
    ensures Cleans(c, Arr(items), Arr(CleanItems(c, Bounded(items))))
    decreases Weight(Arr(items)), 0
  {
    var bounded := Bounded(items);
    forall i | 0 <= i < |bounded|
      ensures Cleans(c, items[i], CleanItems(c, bounded)[i])
    {
      CleanedItem(c, bounded, i);
      ItemWeighsLess(items, i);
      CleanCleans(c, items[i]);
    }
  }

  lemma CleanedValueShown(c: Cleaner, field: (string, Json))
    ensures ValueShown(c, field, CleanedValue(c, field))
    decreases Weight(field.1), 2
  {
    if !c.sensitive(field.0) {
      CleanCleans(c, field.1);
    }
  }

  lemma OneFieldShown(c: Cleaner, fields: seq<(string, Json)>, n: nat, result: seq<(string, Json)>)
    requires n < |fields| && ShownUpTo(c, fields, n, result)
    ensures ShownUpTo(c, fields, n + 1, Put(result, c.text(fields[n].0), CleanedValue(c, fields[n])))
    decreases FieldsWeight(fields), 2
  {
    var before, field := fields[..n], fields[n];
    assert fields[..n + 1] == before + [field];
    assert ValueShown(c, field, CleanedValue(c, field)) by {
      FieldWeighsLess(fields, n);
      CleanedValueShown(c, field);
    }
    FieldsShownOneMore(c, before, result, field, CleanedValue(c, field));
  }

  lemma {:induction false} CleanFieldsShown(c: Cleaner, fields: seq<(string, Json)>, n: nat,
                                            result: seq<(string, Json)>)
    requires n <= |fields| && ShownUpTo(c, fields, n, result)
    ensures ShownUpTo(c, fields, |fields|, CleanFields(c, fields[n..], result))
    decreases FieldsWeight(fields), 3, |fields| - n
  {
    if n == |fields| {
      assert CleanFields(c, fields[n..], result) == result;
    } else {
      var next := Put(result, c.text(fields[n].0), CleanedValue(c, fields[n]));
      OneFieldShown(c, fields, n, result);
      assert ShownUpTo(c, fields, |fields|, CleanFields(c, fields[n + 1..], next)) by {
        CleanFieldsShown(c, fields, n + 1, next);
      }
      CleanOneField(c, fields, n, result);
    }
  }

  // ----- nothing else meets it

  lemma {:induction false} LastExists(names: seq<string>, name: string) returns (i: nat)
    requires name in names
    ensures LastNamed(names, i, name)
  {
    var last := |names| - 1;
    if names[last] == name {
      i := last;
    } else {
      assert name in names[..last];
      i := LastExists(names[..last], name);
    }
  }

  lemma {:induction false} OnlyOneCleans(c: Cleaner, v: Json, w: Json, x: Json)
    requires Cleans(c, v, w) && Cleans(c, v, x)
    ensures w == x
    decreases Weight(v), 1
  {
    match v
    case Str(s) =>
      if SpellsNested(c, s) {
        var y :| w == Str(c.codec.dump(y)) && Cleans(c, c.codec.parse(s).value, y);
        var z :| x == Str(c.codec.dump(z)) && Cleans(c, c.codec.parse(s).value, z);
        OnlyOneCleans(c, c.codec.parse(s).value, y, z);
      }
    case Arr(items) =>
      forall i | 0 <= i < |w.items|
        ensures w.items[i] == x.items[i]
      {
        ItemWeighsLess(items, i);
        OnlyOneCleans(c, items[i], w.items[i], x.items[i]);
      }
    case Obj(fields) =>
      ObjectCleansIff(c, fields, w.fields);
      ObjectCleansIff(c, fields, x.fields);
      FieldsShownOnce(c, fields, w.fields, x.fields);
    case _ =>
  }

  lemma FieldsShownOnce(c: Cleaner, fields: seq<(string, Json)>, a: seq<(string, Json)>, b: seq<(string, Json)>)
    requires FieldsShown(c, fields, a) && FieldsShown(c, fields, b)
    ensures a == b
    decreases FieldsWeight(fields), 0
  {
    var names := Landed(c, fields);
    DistinctHolds(names);
    assert Names(a) == Names(b);
    forall j | 0 <= j < |a|
      ensures a[j] == b[j]
    {
      assert Names(a)[j] == Names(b)[j];
      var i := LastExists(names, a[j].0);
      FieldWeighsLess(fields, i);
      assert ValueShown(c, fields[i], a[j].1) && ValueShown(c, fields[i], b[j].1);
      if !c.sensitive(fields[i].0) {
        OnlyOneCleans(c, fields[i].1, a[j].1, b[j].1);
      }
    }
  }

  /** What cleaning makes of a value is exactly what the relation allows. */
  lemma CleanIff(c: Cleaner, v: Json, w: Json)
    ensures w == Clean(c, v) <==> Cleans(c, v, w)
  {
    CleanCleans(c, v);
    if Cleans(c, v, w) {
      OnlyOneCleans(c, v, w, Clean(c, v));
    }
  }
}
