/**
Pointing the desktop client at the remote Gateway and taking it back: `_client_change` of the setup
helper and `restore_local_client` of the cloud helper, on the same configuration file.
*/
module DesktopCutover {
  import opened Wrappers
  import opened JsonValues

  const HOSTS := "remoteHosts"
  const LOCAL := "runLocalGateway"
  const OWNER_HELPER := "/usr/local/bin/kirocrew-owner-token"
  const DEMO_COMMAND := "/usr/local/bin/kirocrew-demo"
  const REMOTE_PATH := "/opt/kirocrew/venv/bin:/usr/local/bin:/usr/bin:/bin"

  /** The deployment settings both helpers read. */
  datatype Setup = Setup(port: string, adminAlias: string, gatewayAlias: string, remotePort: string)

  datatype Failure = NotAnObject | HostsNotAnObject | UnsafePort | EntryNotAnObject | EntryOfAnother

  /** The entry the client gets under the local port. */
  function Wanted(setup: Setup): seq<(string, Json)> {
    [("host", Str(setup.adminAlias)), ("binPath", Str(OWNER_HELPER)),
     ("remotePort", Str(setup.remotePort)), ("remotePath", Str(REMOTE_PATH))]
  }

  /** `{**current, **wanted}`. */
  function Merged(current: seq<(string, Json)>, wanted: seq<(string, Json)>): seq<(string, Json)>
    decreases |wanted|
  {
    if wanted == [] then current else Merged(Put(current, wanted[0].0, wanted[0].1), wanted[1..])
  }

  /** No wanted field is already there with another value. */
  predicate Compatible(current: seq<(string, Json)>, wanted: seq<(string, Json)>) {
    forall i :: 0 <= i < |wanted| ==>
      Lookup(current, wanted[i].0).None? || Lookup(current, wanted[i].0) == Some(wanted[i].1)
  }

  function Hosts(config: Json): Json { FieldOr(config, HOSTS, Obj([])) }

  function Entry(setup: Setup, config: Json): Json { FieldOr(Hosts(config), setup.port, Obj([])) }

  function ClientChange(setup: Setup, config: Json): Result<Json, Failure> {
    if !config.Obj? then Err(NotAnObject)
    else if !Hosts(config).Obj? then Err(HostsNotAnObject)
    else if setup.port == "80" then Err(UnsafePort)
    else if !Entry(setup, config).Obj? then Err(EntryNotAnObject)
    else if !Compatible(Entry(setup, config).fields, Wanted(setup)) then Err(EntryOfAnother)
    else
      var entry := Obj(Merged(Entry(setup, config).fields, Wanted(setup)));
      Ok(Obj(Put(Put(config.fields, LOCAL, Bool(false)), HOSTS, Obj(Put(Hosts(config).fields, setup.port, entry)))))
  }

  /** The entry under the port is absent, null, or one of the two accepted host and helper pairs. */
  predicate Acceptable(setup: Setup, hosts: seq<(string, Json)>) {
    var remote := Lookup(hosts, setup.port);
    || remote.None? || remote.value.Null?
    || (remote.value.Obj?
        && var pair := (Field(remote.value, "host"), Field(remote.value, "binPath"));
        pair == (Str(setup.gatewayAlias), Str(DEMO_COMMAND)) || pair == (Str(setup.adminAlias), Str(OWNER_HELPER)))
  }

  function RestoreLocal(setup: Setup, config: Json): Result<Json, Failure> {
    if !config.Obj? then Err(NotAnObject)
    else if !Hosts(config).Obj? then Err(HostsNotAnObject)
    else if !Acceptable(setup, Hosts(config).fields) then Err(EntryOfAnother)
    else Ok(Obj(Put(Put(config.fields, LOCAL, Bool(true)), HOSTS, Obj(Remove(Hosts(config).fields, setup.port)))))
  }

  // ----- merging

  predicate DistinctKeys(wanted: seq<(string, Json)>) {
    forall i, j :: 0 <= i < j < |wanted| ==> wanted[i].0 != wanted[j].0
  }

  lemma {:induction false} MergedLookup(current: seq<(string, Json)>, wanted: seq<(string, Json)>, key: string)
    requires DistinctKeys(wanted)
    ensures forall i :: 0 <= i < |wanted| && wanted[i].0 == key ==>
      Lookup(Merged(current, wanted), key) == Some(wanted[i].1)
    ensures (forall i :: 0 <= i < |wanted| ==> wanted[i].0 != key) ==>
      Lookup(Merged(current, wanted), key) == Lookup(current, key)
    decreases |wanted|
  {
    if wanted != [] {
      var next, rest := Put(current, wanted[0].0, wanted[0].1), wanted[1..];
      MergedLookup(next, rest, key);
      LookupPut(current, wanted[0].0, wanted[0].1, key);
      assert forall i :: 0 < i < |wanted| ==> wanted[i] == rest[i - 1];
    }
  }

  /** Merging fields that are already there with these values changes nothing. */
  lemma {:induction false} MergedAgain(current: seq<(string, Json)>, wanted: seq<(string, Json)>)
    requires forall i :: 0 <= i < |wanted| ==> Lookup(current, wanted[i].0) == Some(wanted[i].1)
    ensures Merged(current, wanted) == current
  {
    if wanted != [] {
      PutSame(current, wanted[0].0);
      assert forall i :: 0 <= i < |wanted[1..]| ==> wanted[1..][i] == wanted[i + 1];
      MergedAgain(current, wanted[1..]);
    }
  }

  /** What the cutover leaves: the local Gateway off, and under the port everything wanted. */
  lemma CutoverResult(setup: Setup, config: Json)
    requires ClientChange(setup, config).Ok?
    ensures
      var changed := ClientChange(setup, config).value;
      && changed.Obj? && Lookup(changed.fields, LOCAL) == Some(Bool(false))
      && Lookup(changed.fields, HOSTS) == Some(Hosts(changed)) && Hosts(changed).Obj?
      && Lookup(Hosts(changed).fields, setup.port) == Some(Entry(setup, changed)) && Entry(setup, changed).Obj?
      && (forall i :: 0 <= i < |Wanted(setup)| ==>
          Lookup(Entry(setup, changed).fields, Wanted(setup)[i].0) == Some(Wanted(setup)[i].1))
      && Hosts(changed).fields == Put(Hosts(config).fields, setup.port, Entry(setup, changed))
      && changed.fields == Put(Put(config.fields, LOCAL, Bool(false)), HOSTS, Hosts(changed))
  {
    var entry := Obj(Merged(Entry(setup, config).fields, Wanted(setup)));
    var hosts := Obj(Put(Hosts(config).fields, setup.port, entry));
    LookupPut(Put(config.fields, LOCAL, Bool(false)), HOSTS, hosts, HOSTS);
    LookupPut(Put(config.fields, LOCAL, Bool(false)), HOSTS, hosts, LOCAL);
    LookupPut(config.fields, LOCAL, Bool(false), LOCAL);
    LookupPut(Hosts(config).fields, setup.port, entry, setup.port);
    forall i | 0 <= i < |Wanted(setup)|
      ensures Lookup(entry.fields, Wanted(setup)[i].0) == Some(Wanted(setup)[i].1)
    {
      MergedLookup(Entry(setup, config).fields, Wanted(setup), Wanted(setup)[i].0);
    }
  }

  /** Running the cutover again changes nothing. */
  lemma CutoverIsIdempotent(setup: Setup, config: Json)
    requires ClientChange(setup, config).Ok?
    ensures ClientChange(setup, ClientChange(setup, config).value) == ClientChange(setup, config)
  {
    var changed := ClientChange(setup, config).value;
    CutoverResult(setup, config);
    MergedAgain(Entry(setup, changed).fields, Wanted(setup));
    PutSame(Hosts(changed).fields, setup.port);
    PutSame(changed.fields, LOCAL);
    PutSame(changed.fields, HOSTS);
  }

  /** The rollback accepts every configuration the cutover produces. */
  lemma RollbackAcceptsCutover(setup: Setup, config: Json)
    requires ClientChange(setup, config).Ok?
    ensures RestoreLocal(setup, ClientChange(setup, config).value).Ok?
  {
    CutoverResult(setup, config);
    var entry := Entry(setup, ClientChange(setup, config).value);
    assert Wanted(setup)[0] == ("host", Str(setup.adminAlias)) && Wanted(setup)[1] == ("binPath", Str(OWNER_HELPER));
    assert Lookup(entry.fields, "host") == Some(Str(setup.adminAlias));
    assert Lookup(entry.fields, "binPath") == Some(Str(OWNER_HELPER));
  }

  /** Both ways and back: the original, field order included, with the local Gateway on and the one port entry gone. */
  lemma RollbackAfterCutover(setup: Setup, config: Json)
    requires ClientChange(setup, config).Ok?
    ensures
      RestoreLocal(setup, ClientChange(setup, config).value)
      == Ok(Obj(Put(Put(config.fields, LOCAL, Bool(true)), HOSTS, Obj(Remove(Hosts(config).fields, setup.port)))))
  {
    RollbackAcceptsCutover(setup, config);
    CutoverResult(setup, config);
    var changed := ClientChange(setup, config).value;
    var off, hosts := Put(config.fields, LOCAL, Bool(false)), Hosts(changed);
    var removed := Obj(Remove(hosts.fields, setup.port));
    RemovePut(Hosts(config).fields, setup.port, Entry(setup, changed));
    assert changed.fields == Put(off, HOSTS, hosts);
    LookupPut(config.fields, LOCAL, Bool(false), LOCAL);
    PutSwap(off, LOCAL, Bool(true), HOSTS, hosts);
    PutPut(config.fields, LOCAL, Bool(false), Bool(true));
    PutPut(Put(config.fields, LOCAL, Bool(true)), HOSTS, hosts, removed);
  }

  /** Every other field and every other host is as it was. */
  lemma RollbackKeepsTheRest(setup: Setup, config: Json, key: string)
    requires ClientChange(setup, config).Ok?
    ensures
      var back := RestoreLocal(setup, ClientChange(setup, config).value);
      && back.Ok? && back.value.Obj? && Hosts(back.value).Obj?
      && (key != LOCAL && key != HOSTS ==> Lookup(back.value.fields, key) == Lookup(config.fields, key))
      && (key != setup.port ==> Lookup(Hosts(back.value).fields, key) == Lookup(Hosts(config).fields, key))
      && Lookup(back.value.fields, LOCAL) == Some(Bool(true))
  {
    RollbackAfterCutover(setup, config);
    var removed := Obj(Remove(Hosts(config).fields, setup.port));
    forall k
      ensures Lookup(Put(Put(config.fields, LOCAL, Bool(true)), HOSTS, removed), k) ==
        if k == HOSTS then Some(removed) else if k == LOCAL then Some(Bool(true)) else Lookup(config.fields, k)
    {
      LookupPut(Put(config.fields, LOCAL, Bool(true)), HOSTS, removed, k);
      LookupPut(config.fields, LOCAL, Bool(true), k);
    }
    if key != setup.port {
      LookupRemove(Hosts(config).fields, setup.port, key);
    }
  }

  /**
  The round trip is the original with only the local Gateway switched on exactly when the original
  had a hosts object without this port: a hosts object that was missing comes back empty, and an
  entry that was already there is gone.
  */
  lemma RoundTripIsOriginalIff(setup: Setup, config: Json)
    requires ClientChange(setup, config).Ok?
    ensures
      RestoreLocal(setup, ClientChange(setup, config).value) == Ok(Obj(Put(config.fields, LOCAL, Bool(true))))
      <==> HasKey(config.fields, HOSTS) && !HasKey(Hosts(config).fields, setup.port)
  {
    RollbackAfterCutover(setup, config);
    var on := Put(config.fields, LOCAL, Bool(true));
    var removed := Obj(Remove(Hosts(config).fields, setup.port));
    RemoveShortens(Hosts(config).fields, setup.port);
    LookupPut(config.fields, LOCAL, Bool(true), HOSTS);
    LookupPut(on, HOSTS, removed, HOSTS);
    if HasKey(config.fields, HOSTS) && !HasKey(Hosts(config).fields, setup.port) {
      PutSame(on, HOSTS);
    }
  }

  // ----- what either accepts and leaves, field by field

  /** The configuration is an object with these remote hosts; none when it names none. */
  predicate HasHosts(config: Json, hosts: seq<(string, Json)>) {
    && config.Obj?
    && (Lookup(config.fields, "remoteHosts") == Some(Obj(hosts))
        || (Lookup(config.fields, "remoteHosts").None? && hosts == []))
  }

  /** The port's entry is an object with these fields; none when there is no entry. */
  predicate HasEntry(hosts: seq<(string, Json)>, port: string, entry: seq<(string, Json)>) {
    Lookup(hosts, port) == Some(Obj(entry)) || (Lookup(hosts, port).None? && entry == [])
  }

  /** The entry says nothing else under this name. */
  predicate Allows(entry: seq<(string, Json)>, key: string, value: string) {
    Lookup(entry, key).None? || Lookup(entry, key) == Some(Str(value))
  }

  /** The entry says nothing that the cutover would overwrite. */
  predicate IsFree(setup: Setup, entry: seq<(string, Json)>) {
    && Allows(entry, "host", setup.adminAlias) && Allows(entry, "binPath", "/usr/local/bin/kirocrew-owner-token")
    && Allows(entry, "remotePort", setup.remotePort)
    && Allows(entry, "remotePath", "/opt/kirocrew/venv/bin:/usr/local/bin:/usr/bin:/bin")
  }

  lemma CompatibleIff(setup: Setup, entry: seq<(string, Json)>)
    ensures Compatible(entry, Wanted(setup)) <==> IsFree(setup, entry)
  {
    var wanted := Wanted(setup);
    assert wanted[0] == ("host", Str(setup.adminAlias));
    assert wanted[1] == ("binPath", Str("/usr/local/bin/kirocrew-owner-token"));
    assert wanted[2] == ("remotePort", Str(setup.remotePort));
    assert wanted[3] == ("remotePath", Str("/opt/kirocrew/venv/bin:/usr/local/bin:/usr/bin:/bin"));
  }

  lemma HostsAre(config: Json, hosts: seq<(string, Json)>)
    ensures HasHosts(config, hosts) <==> config.Obj? && Hosts(config) == Obj(hosts)
  {
  }

  lemma EntryIs(setup: Setup, config: Json, hosts: seq<(string, Json)>, entry: seq<(string, Json)>)
    requires Hosts(config) == Obj(hosts)
    ensures HasEntry(hosts, setup.port, entry) <==> Entry(setup, config) == Obj(entry)
  {
  }

  /** The cutover goes ahead exactly when there is room for the entry under a port that can be selected. */
  lemma CutoverAcceptsIff(setup: Setup, config: Json)
    ensures ClientChange(setup, config).Ok? <==>
      exists hosts, entry ::
        HasHosts(config, hosts) && setup.port != "80" && HasEntry(hosts, setup.port, entry) && IsFree(setup, entry)
  {
    if config.Obj? && Hosts(config).Obj? {
      HostsAre(config, Hosts(config).fields);
      if Entry(setup, config).Obj? {
        EntryIs(setup, config, Hosts(config).fields, Entry(setup, config).fields);
        CompatibleIff(setup, Entry(setup, config).fields);
      }
    }
    if hosts, entry :|
      HasHosts(config, hosts) && setup.port != "80" && HasEntry(hosts, setup.port, entry) && IsFree(setup, entry)
    {
      HostsAre(config, hosts);
      EntryIs(setup, config, hosts, entry);
      CompatibleIff(setup, entry);
    }
  }

  /** One entry's fields after the cutover: the four it wants, and the rest as they were. */
  predicate EntryGiven(setup: Setup, before: seq<(string, Json)>, after: seq<(string, Json)>, key: string) {
    Lookup(after, key) ==
      if key == "host" then Some(Str(setup.adminAlias))
      else if key == "binPath" then Some(Str("/usr/local/bin/kirocrew-owner-token"))
      else if key == "remotePort" then Some(Str(setup.remotePort))
      else if key == "remotePath" then Some(Str("/opt/kirocrew/venv/bin:/usr/local/bin:/usr/bin:/bin"))
      else Lookup(before, key)
  }

  lemma MergedGives(setup: Setup, entry: seq<(string, Json)>, key: string)
    ensures EntryGiven(setup, entry, Merged(entry, Wanted(setup)), key)
  {
    var wanted := Wanted(setup);
    assert wanted[0] == ("host", Str(setup.adminAlias)) && wanted[1] == ("binPath", Str(OWNER_HELPER));
    assert wanted[2] == ("remotePort", Str(setup.remotePort)) && wanted[3] == ("remotePath", Str(REMOTE_PATH));
    assert "host" != "binPath" && "remotePort" != "remotePath";
    MergedLookup(entry, wanted, key);
  }

  /** After the cutover the local Gateway is off, the port has its entry, and everything else is as it was. */
  lemma CutoverGives(setup: Setup, config: Json, hosts: seq<(string, Json)>, entry: seq<(string, Json)>, key: string)
    requires ClientChange(setup, config).Ok? && HasHosts(config, hosts) && HasEntry(hosts, setup.port, entry)
    ensures
      var changed := ClientChange(setup, config).value;
      && changed.Obj? && Lookup(changed.fields, "runLocalGateway") == Some(Bool(false))
      && (key != "runLocalGateway" && key != "remoteHosts" ==>
          Lookup(changed.fields, key) == Lookup(config.fields, key))
      && exists newHosts, newEntry ::
           && Lookup(changed.fields, "remoteHosts") == Some(Obj(newHosts))
           && Lookup(newHosts, setup.port) == Some(Obj(newEntry)) && EntryGiven(setup, entry, newEntry, key)
           && (key != setup.port ==> Lookup(newHosts, key) == Lookup(hosts, key))
  {
    HostsAre(config, hosts);
    EntryIs(setup, config, hosts, entry);
    var newEntry := Merged(entry, Wanted(setup));
    var newHosts, off := Put(hosts, setup.port, Obj(newEntry)), Put(config.fields, LOCAL, Bool(false));
    MergedGives(setup, entry, key);
    LookupPut(hosts, setup.port, Obj(newEntry), setup.port);
    LookupPut(hosts, setup.port, Obj(newEntry), key);
    LookupPut(off, HOSTS, Obj(newHosts), HOSTS);
    LookupPut(off, HOSTS, Obj(newHosts), LOCAL);
    LookupPut(off, HOSTS, Obj(newHosts), key);
    LookupPut(config.fields, LOCAL, Bool(false), LOCAL);
    LookupPut(config.fields, LOCAL, Bool(false), key);
    assert EntryGiven(setup, entry, newEntry, key);
  }

  /** The port's entry may go: there is none, or it is one of the two that this demo makes. */
  ghost predicate MayGo(setup: Setup, hosts: seq<(string, Json)>) {
    || Lookup(hosts, setup.port).None? || Lookup(hosts, setup.port) == Some(Null)
    || exists entry ::
         && Lookup(hosts, setup.port) == Some(Obj(entry))
         && ((Lookup(entry, "host") == Some(Str(setup.gatewayAlias))
              && Lookup(entry, "binPath") == Some(Str("/usr/local/bin/kirocrew-demo")))
             || (Lookup(entry, "host") == Some(Str(setup.adminAlias))
                 && Lookup(entry, "binPath") == Some(Str("/usr/local/bin/kirocrew-owner-token"))))
  }

  lemma RollbackAcceptsIff(setup: Setup, config: Json)
    ensures RestoreLocal(setup, config).Ok? <==> exists hosts :: HasHosts(config, hosts) && MayGo(setup, hosts)
  {
    if config.Obj? && Hosts(config).Obj? {
      HostsAre(config, Hosts(config).fields);
      assert Acceptable(setup, Hosts(config).fields) <==> MayGo(setup, Hosts(config).fields);
    }
    if hosts :| HasHosts(config, hosts) && MayGo(setup, hosts) {
      HostsAre(config, hosts);
      assert Acceptable(setup, hosts);
    }
  }

  lemma {:induction false} RemovedIsGone(fields: seq<(string, Json)>, key: string)
    requires UniqueKeys(fields)
    ensures Lookup(Remove(fields, key), key).None?
  {
    if fields != [] {
      if fields[0].0 == key {
        LookupMiss(fields[1..], key);
      } else {
        RemovedIsGone(fields[1..], key);
      }
    }
  }

  /** After the rollback the local Gateway is on, the port has no entry, and everything else is as it was. */
  lemma RollbackGives(setup: Setup, config: Json, hosts: seq<(string, Json)>, key: string)
    requires RestoreLocal(setup, config).Ok? && HasHosts(config, hosts)
    ensures
      var changed := RestoreLocal(setup, config).value;
      && changed.Obj? && Lookup(changed.fields, "runLocalGateway") == Some(Bool(true))
      && (key != "runLocalGateway" && key != "remoteHosts" ==>
          Lookup(changed.fields, key) == Lookup(config.fields, key))
      && exists newHosts ::
           && Lookup(changed.fields, "remoteHosts") == Some(Obj(newHosts))
           && (key != setup.port ==> Lookup(newHosts, key) == Lookup(hosts, key))
           && (UniqueKeys(hosts) ==> Lookup(newHosts, setup.port).None?)
  {
    HostsAre(config, hosts);
    var newHosts, on := Remove(hosts, setup.port), Put(config.fields, LOCAL, Bool(true));
    LookupPut(on, HOSTS, Obj(newHosts), HOSTS);
    LookupPut(on, HOSTS, Obj(newHosts), LOCAL);
    LookupPut(on, HOSTS, Obj(newHosts), key);
    LookupPut(config.fields, LOCAL, Bool(true), LOCAL);
    LookupPut(config.fields, LOCAL, Bool(true), key);
    if key != setup.port {
      LookupRemove(hosts, setup.port, key);
    }
    if UniqueKeys(hosts) {
      RemovedIsGone(hosts, setup.port);
    }
  }
}
