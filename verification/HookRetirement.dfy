/** `retired_config`: the configuration with the one duplicate deny entry taken out and nothing else touched. */
module HookRetirement {
  import opened Wrappers
  import opened JsonValues

  const DENY := "@aws-enforcement/crew_denied"
  const HOOKS := "hooks"
  const DENY_LIST := "auto_deny_tools"

  datatype Failure = InvalidHooks | InvalidDenyList | DuplicateDenyEntries

  function Count(items: seq<Json>, text: string): nat {
    if items == [] then 0 else (if items[0] == Str(text) then 1 else 0) + Count(items[1..], text)
  }

  function Without(items: seq<Json>, text: string): seq<Json> {
    if items == [] then []
    else (if items[0] == Str(text) then [] else [items[0]]) + Without(items[1..], text)
  }

  function Hooks(config: Json): Json { FieldOr(config, HOOKS, Obj([])) }

  function DenyList(config: Json): Json { FieldOr(Hooks(config), DENY_LIST, Arr([])) }

  predicate AllText(items: seq<Json>) {
    forall i :: 0 <= i < |items| ==> items[i].Str?
  }

  function RetiredConfig(config: Json): Result<Json, Failure>
    requires config.Obj?
  {
    var hooks := Hooks(config);
    if !hooks.Obj? then Err(InvalidHooks)
    else
      var entries := DenyList(config);
      if !entries.Arr? || !AllText(entries.items) then Err(InvalidDenyList)
      else if Count(entries.items, DENY) > 1 then Err(DuplicateDenyEntries)
      else if Str(DENY) in entries.items then
        Ok(Obj(Put(config.fields, HOOKS, Obj(Put(hooks.fields, DENY_LIST, Arr(Without(entries.items, DENY)))))))
      else Ok(config)
  }

  lemma {:induction false} CountMember(items: seq<Json>, text: string)
    ensures Count(items, text) > 0 <==> Str(text) in items
  {
    if items != [] {
      CountMember(items[1..], text);
    }
  }

  lemma {:induction false} WithoutNone(items: seq<Json>, text: string)
    requires Str(text) !in items
    ensures Without(items, text) == items
  {
    if items != [] {
      WithoutNone(items[1..], text);
    }
  }

  /** The list without its `k`-th entry, seen from its first one. */
  lemma CutLater(items: seq<Json>, j: nat)
    requires items != [] && j < |items[1..]|
    ensures [items[0]] + (items[1..][..j] + items[1..][j + 1..]) == items[..j + 1] + items[j + 2..]
  {
    assert items[..j + 1] == [items[0]] + items[1..][..j];
    assert items[1..][j + 1..] == items[j + 2..];
  }

  /** Taking out an entry that occurs once leaves what stood before and after it, in order. */
  lemma {:induction false} WithoutOne(items: seq<Json>, text: string) returns (k: nat)
    requires Count(items, text) == 1
    ensures k < |items| && items[k] == Str(text)
    ensures Without(items, text) == items[..k] + items[k + 1..] && Str(text) !in Without(items, text)
  {
    CountMember(items[1..], text);
    if items[0] == Str(text) {
      k := 0;
      WithoutNone(items[1..], text);
    } else {
      var j := WithoutOne(items[1..], text);
      k := j + 1;
      CutLater(items, j);
    }
  }

  /** The change is exactly one list entry: every other entry, hook and top-level field is as before. */
  lemma RetiredRemovesOneEntry(config: Json) returns (k: nat)
    requires config.Obj? && RetiredConfig(config).Ok? && RetiredConfig(config).value != config
    ensures
      var retired := RetiredConfig(config).value;
      && retired.Obj? && Hooks(config).Obj? && Hooks(retired).Obj?
      && DenyList(config).Arr? && k < |DenyList(config).items| && DenyList(config).items[k] == Str(DENY)
      && DenyList(retired) == Arr(DenyList(config).items[..k] + DenyList(config).items[k + 1..])
      && Str(DENY) !in DenyList(retired).items
      && (forall key :: key != HOOKS ==> Lookup(retired.fields, key) == Lookup(config.fields, key))
      && (forall key :: key != DENY_LIST ==> Lookup(Hooks(retired).fields, key) == Lookup(Hooks(config).fields, key))
  {
    var retired := RetiredConfig(config).value;
    var hooks, entries := Hooks(config), DenyList(config).items;
    CountMember(entries, DENY);
    k := WithoutOne(entries, DENY);
    var newHooks := Put(hooks.fields, DENY_LIST, Arr(Without(entries, DENY)));
    forall key
      ensures Lookup(retired.fields, key) == if key == HOOKS then Some(Obj(newHooks)) else Lookup(config.fields, key)
      ensures Lookup(newHooks, key) ==
              if key == DENY_LIST then Some(Arr(Without(entries, DENY))) else Lookup(hooks.fields, key)
    {
      LookupPut(config.fields, HOOKS, Obj(newHooks), key);
      LookupPut(hooks.fields, DENY_LIST, Arr(Without(entries, DENY)), key);
    }
  }

  /** The configuration changes exactly when the entry is there. */
  lemma RetiredChangesIff(config: Json)
    requires config.Obj? && RetiredConfig(config).Ok?
    ensures RetiredConfig(config).value != config <==> Str(DENY) in DenyList(config).items
  {
    var hooks, entries := Hooks(config), DenyList(config).items;
    if Str(DENY) in entries {
      CountMember(entries, DENY);
      var k := WithoutOne(entries, DENY);
      var newHooks := Put(hooks.fields, DENY_LIST, Arr(Without(entries, DENY)));
      LookupPut(config.fields, HOOKS, Obj(newHooks), HOOKS);
      LookupPut(hooks.fields, DENY_LIST, Arr(Without(entries, DENY)), DENY_LIST);
      assert DenyList(RetiredConfig(config).value) == Arr(Without(entries, DENY));
    }
  }

  /** Putting the saved list back undoes the retirement exactly, order of fields included. */
  lemma BackupRestores(config: Json)
    requires config.Obj? && RetiredConfig(config).Ok? && RetiredConfig(config).value != config
    ensures
      var retired := RetiredConfig(config).value;
      && retired.Obj? && Hooks(retired).Obj?
      && Obj(Put(retired.fields, HOOKS, Obj(Put(Hooks(retired).fields, DENY_LIST, DenyList(config))))) == config
  {
    var retired := RetiredConfig(config).value;
    var hooks, entries := Hooks(config), DenyList(config);
    RetiredChangesIff(config);
    var newHooks := Put(hooks.fields, DENY_LIST, Arr(Without(entries.items, DENY)));
    LookupPut(config.fields, HOOKS, Obj(newHooks), HOOKS);
    PutPut(hooks.fields, DENY_LIST, Arr(Without(entries.items, DENY)), entries);
    PutPut(config.fields, HOOKS, Obj(newHooks), Obj(Put(newHooks, DENY_LIST, entries)));
    PutSame(hooks.fields, DENY_LIST);
    PutSame(config.fields, HOOKS);
  }

  lemma RetiredTwice(config: Json)
    requires config.Obj? && RetiredConfig(config).Ok?
    ensures RetiredConfig(config).value.Obj? && RetiredConfig(RetiredConfig(config).value) == RetiredConfig(config)
  {
    var retired := RetiredConfig(config).value;
    if retired != config {
      var k := RetiredRemovesOneEntry(config);
      CountMember(DenyList(retired).items, DENY);
    }
  }

  // ----- what is accepted and left, field by field

  /** The object under this name, with no fields when there is none. */
  predicate HasObject(fields: seq<(string, Json)>, key: string, found: seq<(string, Json)>) {
    Lookup(fields, key) == Some(Obj(found)) || (Lookup(fields, key).None? && found == [])
  }

  predicate HasList(fields: seq<(string, Json)>, key: string, found: seq<Json>) {
    Lookup(fields, key) == Some(Arr(found)) || (Lookup(fields, key).None? && found == [])
  }

  /** The configuration has these hooks, and in them this list of denied tools. */
  predicate Denies(config: Json, hooks: seq<(string, Json)>, denied: seq<Json>) {
    config.Obj? && HasObject(config.fields, "hooks", hooks) && HasList(hooks, "auto_deny_tools", denied)
  }

  /** The denied tools are texts, and the demo's own is among them at most once. */
  predicate IsRetirable(denied: seq<Json>) {
    && (forall i :: 0 <= i < |denied| ==> denied[i].Str?)
    && forall i, j :: 0 <= i < j < |denied| ==>
         !(denied[i] == denied[j] == Str("@aws-enforcement/crew_denied"))
  }

  lemma DeniesIs(config: Json, hooks: seq<(string, Json)>, denied: seq<Json>)
    ensures Denies(config, hooks, denied) <==>
      config.Obj? && Hooks(config) == Obj(hooks) && DenyList(config) == Arr(denied)
  {
  }

  lemma {:induction false} CountsTwice(items: seq<Json>, text: string)
    ensures Count(items, text) > 1 <==> exists i, j :: 0 <= i < j < |items| && items[i] == items[j] == Str(text)
  {
    if items != [] {
      var rest := items[1..];
      CountMember(rest, text);
      CountsTwice(rest, text);
      assert forall k :: 0 < k < |items| ==> items[k] == rest[k - 1];
      if items[0] == Str(text) && Str(text) in rest {
        var j :| 0 <= j < |rest| && rest[j] == Str(text);
        assert items[0] == items[j + 1] == Str(text);
      }
      if i, j :| 0 <= i < j < |rest| && rest[i] == rest[j] == Str(text) {
        assert items[i + 1] == items[j + 1] == Str(text);
      }
    }
  }

  /** A configuration is accepted exactly when its list of denied tools can be read and is not ambiguous. */
  lemma RetiredAcceptsIff(config: Json)
    requires config.Obj?
    ensures RetiredConfig(config).Ok? <==> exists hooks, denied :: Denies(config, hooks, denied) && IsRetirable(denied)
  {
    if Hooks(config).Obj? && DenyList(config).Arr? {
      var hooks, denied := Hooks(config).fields, DenyList(config).items;
      DeniesIs(config, hooks, denied);
      CountsTwice(denied, DENY);
    }
    if hooks, denied :| Denies(config, hooks, denied) && IsRetirable(denied) {
      DeniesIs(config, hooks, denied);
      CountsTwice(denied, DENY);
    }
  }

  /**
  The demo's own entry goes from the list, wherever it stands; every other entry keeps its order, and
  every other hook and field its value.
  */
  lemma RetiredGives(config: Json, hooks: seq<(string, Json)>, denied: seq<Json>, k: nat, key: string)
    requires config.Obj? && RetiredConfig(config).Ok? && Denies(config, hooks, denied)
    requires k < |denied| && denied[k] == Str("@aws-enforcement/crew_denied")
    ensures
      var retired := RetiredConfig(config).value;
      && retired.Obj? && (key != "hooks" ==> Lookup(retired.fields, key) == Lookup(config.fields, key))
      && exists newHooks ::
           && Lookup(retired.fields, "hooks") == Some(Obj(newHooks))
           && Lookup(newHooks, "auto_deny_tools") == Some(Arr(denied[..k] + denied[k + 1..]))
           && (key != "auto_deny_tools" ==> Lookup(newHooks, key) == Lookup(hooks, key))
  {
    DeniesIs(config, hooks, denied);
    assert Str(DENY) in denied;
    CountMember(denied, DENY);
    CountsTwice(denied, DENY);
    var j := WithoutOne(denied, DENY);
    assert j == k;
    var newHooks := Put(hooks, DENY_LIST, Arr(Without(denied, DENY)));
    LookupPut(config.fields, HOOKS, Obj(newHooks), HOOKS);
    LookupPut(config.fields, HOOKS, Obj(newHooks), key);
    LookupPut(hooks, DENY_LIST, Arr(Without(denied, DENY)), DENY_LIST);
    LookupPut(hooks, DENY_LIST, Arr(Without(denied, DENY)), key);
  }
}
