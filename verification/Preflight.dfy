/**
The network part of `preflight`: pick the subnet's route table, sweep it for every destination, and
draw coverage warnings and gateway checks from the segments. Proved to say exactly what a
per-address lookup over the whole table would say.
*/
module Preflight {
  import opened Wrappers
  import opened Ipv4
  import opened RouteSweep

  // ----- the subnet's route table

  datatype Association = Association(subnetId: Option<string>, isMain: bool)

  datatype Table = Table(associations: seq<Association>, routes: seq<Route>)

  datatype Failure = NotExactlyOneTable(found: nat) | InvalidBlock

  predicate NamesSubnet(t: Table, subnet: string) {
    exists i :: 0 <= i < |t.associations| && t.associations[i].subnetId == Some(subnet)
  }

  predicate IsMainTable(t: Table) {
    exists i :: 0 <= i < |t.associations| && t.associations[i].isMain
  }

  function Selected(tables: seq<Table>, p: Table -> bool): seq<Table> {
    if tables == [] then [] else (if p(tables[0]) then [tables[0]] else []) + Selected(tables[1..], p)
  }

  function Only(tables: seq<Table>): Result<Table, Failure> {
    if |tables| == 1 then Ok(tables[0]) else Err(NotExactlyOneTable(|tables|))
  }

  function EffectiveTable(tables: seq<Table>, subnet: string): Result<Table, Failure> {
    var explicit := Selected(tables, t => NamesSubnet(t, subnet));
    if explicit != [] then Only(explicit) else Only(Selected(tables, t => IsMainTable(t)))
  }

  predicate OnlyAt(tables: seq<Table>, p: Table -> bool, i: nat) {
    i < |tables| && p(tables[i]) && forall j :: 0 <= j < |tables| && p(tables[j]) ==> j == i
  }

  lemma {:induction false} SelectedOne(tables: seq<Table>, p: Table -> bool)
    ensures Selected(tables, p) == [] <==> forall j :: 0 <= j < |tables| ==> !p(tables[j])
    ensures |Selected(tables, p)| == 1 <==> exists i: nat :: OnlyAt(tables, p, i)
    ensures forall i: nat :: OnlyAt(tables, p, i) ==> Selected(tables, p) == [tables[i]]
  {
    if tables != [] {
      var rest := tables[1..];
      SelectedOne(rest, p);
      assert forall j :: 0 < j < |tables| ==> tables[j] == rest[j - 1];
      forall i: nat
        ensures OnlyAt(tables, p, i) <==>
          if i == 0 then p(tables[0]) && Selected(rest, p) == [] else !p(tables[0]) && OnlyAt(rest, p, i - 1)
      {
        if i > 0 && OnlyAt(tables, p, i) {
          assert forall j :: 0 <= j < |rest| && p(rest[j]) ==> p(tables[j + 1]);
        }
      }
      if |Selected(tables, p)| == 1 {
        if p(tables[0]) {
          assert OnlyAt(tables, p, 0);
        } else {
          var i: nat :| OnlyAt(rest, p, i);
          assert OnlyAt(tables, p, i + 1);
        }
      }
    }
  }

  /** Table `i` has an association with this subnet. */
  ghost predicate Names(tables: seq<Table>, subnet: string, i: nat) {
    i < |tables| && exists main :: Association(Some(subnet), main) in tables[i].associations
  }

  /** Table `i` is marked as a main one, with or without a subnet. */
  ghost predicate IsMain(tables: seq<Table>, i: nat) {
    i < |tables| && exists a :: a in tables[i].associations && a.isMain
  }

  /** The table that governs a subnet: the only one naming it, or the only main one when none does. */
  ghost predicate Governs(tables: seq<Table>, subnet: string, i: nat) {
    || (Names(tables, subnet, i) && forall j: nat :: Names(tables, subnet, j) ==> j == i)
    || ((forall j: nat :: !Names(tables, subnet, j))
        && IsMain(tables, i) && forall j: nat :: IsMain(tables, j) ==> j == i)
  }

  lemma NamesIff(tables: seq<Table>, subnet: string, i: nat)
    requires i < |tables|
    ensures NamesSubnet(tables[i], subnet) <==> Names(tables, subnet, i)
    ensures IsMainTable(tables[i]) <==> IsMain(tables, i)
  {
    var associations := tables[i].associations;
    if NamesSubnet(tables[i], subnet) {
      var k :| 0 <= k < |associations| && associations[k].subnetId == Some(subnet);
      assert associations[k] == Association(Some(subnet), associations[k].isMain);
    }
  }

  lemma GovernsIff(tables: seq<Table>, subnet: string, i: nat)
    ensures Governs(tables, subnet, i) <==>
      || OnlyAt(tables, t => NamesSubnet(t, subnet), i)
      || ((forall j :: 0 <= j < |tables| ==> !NamesSubnet(tables[j], subnet)) && OnlyAt(tables, t => IsMainTable(t), i))
  {
    forall j: nat | j < |tables|
      ensures NamesSubnet(tables[j], subnet) <==> Names(tables, subnet, j)
      ensures IsMainTable(tables[j]) <==> IsMain(tables, j)
    {
      NamesIff(tables, subnet, j);
    }
  }

  lemma EffectiveTableGoverns(tables: seq<Table>, subnet: string)
    ensures EffectiveTable(tables, subnet).Ok? <==> exists i: nat :: Governs(tables, subnet, i)
    ensures forall i: nat :: Governs(tables, subnet, i) ==> EffectiveTable(tables, subnet) == Ok(tables[i])
  {
    SelectedOne(tables, t => NamesSubnet(t, subnet));
    SelectedOne(tables, t => IsMainTable(t));
    forall i: nat
      ensures Governs(tables, subnet, i) <==>
        || OnlyAt(tables, t => NamesSubnet(t, subnet), i)
        || ((forall j :: 0 <= j < |tables| ==> !NamesSubnet(tables[j], subnet))
            && OnlyAt(tables, t => IsMainTable(t), i))
    {
      GovernsIff(tables, subnet, i);
    }
    if EffectiveTable(tables, subnet).Ok? {
      if Selected(tables, t => NamesSubnet(t, subnet)) != [] {
        var i: nat :| OnlyAt(tables, t => NamesSubnet(t, subnet), i);
        assert Governs(tables, subnet, i);
      } else {
        var i: nat :| OnlyAt(tables, t => IsMainTable(t), i);
        assert Governs(tables, subnet, i);
      }
    }
  }

  // ----- gateways

  const TARGET_KEYS: seq<string> := [
    "NatGatewayId", "TransitGatewayId", "VpcPeeringConnectionId", "NetworkInterfaceId", "InstanceId",
    "VpcEndpointId", "GatewayId", "LocalGatewayId", "CarrierGatewayId", "CoreNetworkArn"]

  /** An absent attribute and an empty one are both falsy. */
  function Field(route: Route, key: string): string {
    if key in route.fields then route.fields[key] else ""
  }

  type Target = Option<(string, string)>

  function FirstField(route: Route, keys: seq<string>): Target {
    if keys == [] then None
    else if Field(route, keys[0]) != "" then Some((keys[0], Field(route, keys[0])))
    else FirstField(route, keys[1..])
  }

  function RouteTarget(route: Route): Target {
    FirstField(route, TARGET_KEYS)
  }

  /** The target is the first attribute, in the fixed key order, that is set. */
  lemma {:induction false} FirstFieldIsFirst(route: Route, keys: seq<string>)
    ensures FirstField(route, keys).None? <==> forall i :: 0 <= i < |keys| ==> Field(route, keys[i]) == ""
    ensures FirstField(route, keys).Some? ==>
      exists i :: 0 <= i < |keys| && FirstField(route, keys).value == (keys[i], Field(route, keys[i]))
        && Field(route, keys[i]) != "" && forall j :: 0 <= j < i ==> Field(route, keys[j]) == ""
  {
    if keys != [] && Field(route, keys[0]) == "" {
      var rest := keys[1..];
      FirstFieldIsFirst(route, rest);
      assert forall i :: 0 < i < |keys| ==> keys[i] == rest[i - 1];
      if FirstField(route, rest).Some? {
        var i :| 0 <= i < |rest| && FirstField(route, rest).value == (rest[i], Field(route, rest[i]))
          && Field(route, rest[i]) != "" && forall j :: 0 <= j < i ==> Field(route, rest[j]) == "";
        assert FirstField(route, keys).value == (keys[i + 1], Field(route, keys[i + 1]));
      }
    }
  }

  predicate IsInternetGateway(id: string) {
    "igw-" <= id
  }

  // ----- what one address deserves

  datatype Name = AdministratorReturnPath | HttpsDestinations | HttpDestinations

  datatype Plan = Plan(allowed: Cidr, httpsEgress: Cidr, httpEgress: Cidr, allowHttp: bool, publicAddress: bool)

  datatype Warning =
    | MissingOrInactive(name: Name, low: nat, through: nat)
    | NatReturnPath
    | DirectGateway(name: Name)

  function Destinations(plan: Plan): seq<(Name, Cidr)> {
    [(AdministratorReturnPath, plan.allowed), (HttpsDestinations, plan.httpsEgress)]
    + if plan.allowHttp then [(HttpDestinations, plan.httpEgress)] else []
  }

  predicate IsActive(route: Option<Route>) {
    route.Some? && route.value.state == Some("active")
  }

  datatype Verdict = Uncovered | NatReturn | Unreachable | Covered

  /** The branch order of the loop: coverage first, then NAT for the return path, then public reachability. */
  function Judge(name: Name, route: Option<Route>, publicAddress: bool): Verdict {
    if !IsActive(route) then Uncovered
    else if name == AdministratorReturnPath && Field(route.value, "NatGatewayId") != "" then NatReturn
    else if IsInternetGateway(Field(route.value, "GatewayId")) && !publicAddress then Unreachable
    else Covered
  }

  predicate InBlock(c: Cidr, a: nat)
    requires c.prefixLen <= 32
  {
    c.base <= a < Stop(c)
  }

  function WarningFor(name: Name, s: Segment, publicAddress: bool): Option<Warning> {
    match Judge(name, s.route, publicAddress)
    case Uncovered => Some(MissingOrInactive(name, s.low, s.through))
    case NatReturn => Some(NatReturnPath)
    case Unreachable => Some(DirectGateway(name))
    case Covered => None
  }

  // ----- the order of the report

  function Rank(name: Name): nat {
    match name case AdministratorReturnPath => 0 case HttpsDestinations => 1 case HttpDestinations => 2
  }

  /** The destination a warning is about; only the return path is warned about NAT. */
  function About(w: Warning): Name {
    match w
    case MissingOrInactive(name, _, _) => name
    case NatReturnPath => AdministratorReturnPath
    case DirectGateway(name) => name
  }

  /** Destinations keep their order, and so do the ranges without a route within each. */
  predicate MayPrecede(v: Warning, w: Warning) {
    || Rank(About(v)) < Rank(About(w))
    || (About(v) == About(w) && (v.MissingOrInactive? && w.MissingOrInactive? ==> v.low < w.low))
  }

  predicate InOrder(ws: seq<Warning>) {
    forall i, j :: 0 <= i < j < |ws| ==> MayPrecede(ws[i], ws[j])
  }

  predicate AllAbout(ws: seq<Warning>, name: Name) {
    forall i :: 0 <= i < |ws| ==> About(ws[i]) == name
  }

  predicate LowsBelow(ws: seq<Warning>, bound: nat) {
    forall i :: 0 <= i < |ws| && ws[i].MissingOrInactive? ==> ws[i].low < bound
  }

  predicate Ascending(segments: seq<Segment>) {
    forall i, j :: 0 <= i < j < |segments| ==> segments[i].low < segments[j].low
  }

  /** The warnings of the first `k` segments are about this destination and in order. */
  predicate Advanced(segments: seq<Segment>, k: nat, name: Name, ws: seq<Warning>) {
    && AllAbout(ws, name)
    && (Ascending(segments) ==> InOrder(ws) && (k < |segments| ==> LowsBelow(ws, segments[k].low)))
  }

  lemma {:induction false} TilesAscend(segments: seq<Segment>, start: nat, stop: nat)
    requires Tiles(segments, start, stop)
    ensures Ascending(segments)
  {
    var last := |segments| - 1;
    if last > 0 {
      var init := segments[..last];
      assert Tiles(init, start, segments[last].low);
      TilesAscend(init, start, segments[last].low);
      TilesOrdered(init, start, segments[last].low);
      forall i, j | 0 <= i < j < |segments|
        ensures segments[i].low < segments[j].low
      {
        assert init[i] == segments[i] && (j < last ==> init[j] == segments[j]);
      }
    }
  }

  lemma WarningAdvances(segments: seq<Segment>, k: nat, name: Name, ws: seq<Warning>)
    requires k < |segments| && Advanced(segments, k, name, ws)
    ensures Advanced(segments, k + 1, name, ws)
    ensures forall w :: About(w) == name && (w.MissingOrInactive? ==> w.low == segments[k].low) ==>
      Advanced(segments, k + 1, name, ws + [w])
  {
  }

  lemma OrderGrows(ws: seq<Warning>, more: seq<Warning>)
    requires InOrder(ws) && InOrder(more) && forall v, w :: v in ws && w in more ==> MayPrecede(v, w)
    ensures InOrder(ws + more)
  {
    var all := ws + more;
    forall i, j | 0 <= i < j < |all|
      ensures MayPrecede(all[i], all[j])
    {
      if i < |ws| <= j {
        assert all[i] in ws && all[j] in more;
      }
    }
  }

  // ----- the loops

  /** Some occurrence of `x` comes before every occurrence of `y`. */
  predicate OccursBefore(ws: seq<Warning>, x: Warning, y: Warning) {
    exists n :: 0 <= n < |ws| && ws[n] == x && y !in ws[..n + 1]
  }

  lemma OrderSurvives(ws: seq<Warning>, r: seq<Warning>)
    requires InOrder(ws) && forall w :: w in r ==> w in ws
    requires forall i, j :: 0 <= i < j < |r| ==> OccursBefore(ws, r[i], r[j])
    ensures InOrder(r)
  {
    forall i, j | 0 <= i < j < |r|
      ensures MayPrecede(r[i], r[j])
    {
      var n :| 0 <= n < |ws| && ws[n] == r[i] && r[j] !in ws[..n + 1];
      assert r[j] in r;
      var m :| 0 <= m < |ws| && ws[m] == r[j];
      assert forall k :: 0 <= k <= n ==> ws[..n + 1][k] == ws[k];
    }
  }

  /** `dict.fromkeys`: each warning once, in the order of first occurrences. */
  method Deduplicate(ws: seq<Warning>) returns (r: seq<Warning>)
    ensures forall w :: w in r <==> w in ws
    ensures forall i, j :: 0 <= i < j < |r| ==> OccursBefore(ws, r[i], r[j])
    ensures InOrder(ws) ==> InOrder(r)
  {
    r := [];
    for i := 0 to |ws|
      invariant forall w :: w in r <==> w in ws[..i]
      invariant forall k, j :: 0 <= k < j < |r| ==> OccursBefore(ws, r[k], r[j])
    {
      assert ws[..i + 1] == ws[..i] + [ws[i]];
      if ws[i] !in r {
        forall k | 0 <= k < |r|
          ensures OccursBefore(ws, r[k], ws[i])
        {
          assert r[k] in ws[..i];
          var n :| 0 <= n < i && ws[n] == r[k];
          assert ws[..n + 1] == ws[..i][..n + 1];
        }
        r := r + [ws[i]];
      }
    }
    assert ws[..|ws|] == ws;
    if InOrder(ws) {
      OrderSurvives(ws, r);
    }
  }

  /** What one destination's segments contribute. */
  ghost predicate Contributes(segments: seq<Segment>, name: Name, publicAddress: bool, w: Warning) {
    exists k: nat :: k < |segments| && WarningFor(name, segments[k], publicAddress) == Some(w)
  }

  ghost predicate Targets(segments: seq<Segment>, t: Target) {
    exists k: nat :: k < |segments| && IsActive(segments[k].route) && RouteTarget(segments[k].route.value) == t
  }

  lemma ContributionsGrow(segments: seq<Segment>, k: nat, name: Name, publicAddress: bool)
    requires k < |segments|
    ensures forall w :: Contributes(segments[..k + 1], name, publicAddress, w) <==>
                        Contributes(segments[..k], name, publicAddress, w) ||
                          WarningFor(name, segments[k], publicAddress) == Some(w)
    ensures forall t :: Targets(segments[..k + 1], t) <==>
                        Targets(segments[..k], t) ||
                          (IsActive(segments[k].route) && RouteTarget(segments[k].route.value) == t)
  {
    var longer, shorter := segments[..k + 1], segments[..k];
    assert longer == shorter + [segments[k]];
    forall w
      ensures Contributes(longer, name, publicAddress, w) <==>
              Contributes(shorter, name, publicAddress, w) || WarningFor(name, segments[k], publicAddress) == Some(w)
    {
      if Contributes(shorter, name, publicAddress, w) {
        var j: nat :| j < |shorter| && WarningFor(name, shorter[j], publicAddress) == Some(w);
        assert longer[j] == shorter[j];
      }
      if WarningFor(name, segments[k], publicAddress) == Some(w) {
        assert longer[k] == segments[k];
      }
    }
    forall t
      ensures Targets(longer, t) <==>
              Targets(shorter, t) || (IsActive(segments[k].route) && RouteTarget(segments[k].route.value) == t)
    {
      if Targets(shorter, t) {
        var j: nat :| j < |shorter| && IsActive(shorter[j].route) && RouteTarget(shorter[j].route.value) == t;
        assert longer[j] == shorter[j];
      }
      if IsActive(segments[k].route) && RouteTarget(segments[k].route.value) == t {
        assert longer[k] == segments[k];
      }
    }
  }

  /** These are the warnings and targets of the segments. */
  ghost predicate Drawn(segments: seq<Segment>, name: Name, publicAddress: bool, ws: seq<Warning>, ts: set<Target>) {
    && (forall w :: w in ws <==> Contributes(segments, name, publicAddress, w))
    && (forall t :: t in ts <==> Targets(segments, t))
  }

  /** The warning of one segment, if it deserves one. */
  function Drawing(name: Name, s: Segment, publicAddress: bool): seq<Warning> {
    match WarningFor(name, s, publicAddress) case None => [] case Some(w) => [w]
  }

  function Leading(route: Option<Route>): set<Target> {
    if IsActive(route) then {RouteTarget(route.value)} else {}
  }

  lemma DrawnGrows(segments: seq<Segment>, k: nat, name: Name, publicAddress: bool, ws: seq<Warning>, ts: set<Target>)
    requires k < |segments| && Drawn(segments[..k], name, publicAddress, ws, ts)
    requires Advanced(segments, k, name, ws)
    ensures
      var more := ws + Drawing(name, segments[k], publicAddress);
      && Drawn(segments[..k + 1], name, publicAddress, more, ts + Leading(segments[k].route))
      && Advanced(segments, k + 1, name, more)
  {
    ContributionsGrow(segments, k, name, publicAddress);
    WarningAdvances(segments, k, name, ws);
    assert ws + [] == ws;
  }

  /** The loop's body: one segment's warning, and where its route leads. */
  method ReviewSegment(segment: Segment, name: Name, publicAddress: bool)
    returns (warnings: seq<Warning>, targets: set<Target>)
    ensures warnings == Drawing(name, segment, publicAddress) && targets == Leading(segment.route)
  {
    if !IsActive(segment.route) {
      return [MissingOrInactive(name, segment.low, segment.through)], {};
    }
    var route := segment.route.value;
    warnings, targets := [], {RouteTarget(route)};
    if name == AdministratorReturnPath && Field(route, "NatGatewayId") != "" {
      warnings := [NatReturnPath];
    } else if IsInternetGateway(Field(route, "GatewayId")) && !publicAddress {
      warnings := [DirectGateway(name)];
    }
  }

  method ReviewSegments(segments: seq<Segment>, name: Name, publicAddress: bool)
    returns (warnings: seq<Warning>, targets: set<Target>)
    ensures forall w :: w in warnings <==> Contributes(segments, name, publicAddress, w)
    ensures forall t :: t in targets <==> Targets(segments, t)
    ensures AllAbout(warnings, name) && (Ascending(segments) ==> InOrder(warnings))
  {
    warnings, targets := [], {};
    for k := 0 to |segments|
      invariant Drawn(segments[..k], name, publicAddress, warnings, targets)
      invariant Advanced(segments, k, name, warnings)
    {
      var ws, ts := ReviewSegment(segments[k], name, publicAddress);
      DrawnGrows(segments, k, name, publicAddress, warnings, targets);
      warnings, targets := warnings + ws, targets + ts;
    }
    assert segments[..|segments|] == segments;
  }

  // ----- from segments to addresses

  /** What carries each address. */
  type Lookups = nat -> Option<Route>

  /** Forwarding by the table: the longest-prefix route of an address. */
  ghost function Forwarding(routes: seq<Route>): Lookups
    requires WellFormed(routes)
  {
    (a: nat) => if WellFormed(routes) then EffectiveRoute(routes, a) else None
  }

  ghost predicate LabelledBy(lookup: Lookups, segments: seq<Segment>) {
    forall k: nat, a: nat :: Holds(segments, k, a) ==> segments[k].route == lookup(a)
  }

  lemma LabelsAreForwarding(routes: seq<Route>, segments: seq<Segment>)
    requires WellFormed(routes) && Labelled(routes, segments)
    ensures LabelledBy(Forwarding(routes), segments)
  {
    forall k: nat, a: nat | Holds(segments, k, a)
      ensures segments[k].route == Forwarding(routes)(a)
    {
      EffectiveIsUnique(routes, a, segments[k].route, EffectiveRoute(routes, a));
    }
  }

  /** Some address of the block gets this verdict from its own longest-prefix lookup. */
  ghost predicate SomeAddress(lookup: Lookups, name: Name, c: Cidr, publicAddress: bool, v: Verdict)
    requires Valid(c)
  {
    exists a: nat :: InBlock(c, a) && Judge(name, lookup(a), publicAddress) == v
  }

  /** `w` reports a range of the block that contains `a`. */
  predicate Reports(w: Warning, name: Name, a: nat) {
    w.MissingOrInactive? && w.name == name && w.low <= a <= w.through
  }

  /** The warnings about one destination say exactly what its addresses deserve. */
  ghost predicate WarningsExact(lookup: Lookups, name: Name, c: Cidr, publicAddress: bool, ws: seq<Warning>)
    requires Valid(c)
  {
    && (forall a: nat :: InBlock(c, a) ==>
        ((exists w :: w in ws && Reports(w, name, a)) <==> !IsActive(lookup(a))))
    && (forall w :: w in ws && w.MissingOrInactive? && w.name == name ==> c.base <= w.low <= w.through < Stop(c))
    && (DirectGateway(name) in ws <==> SomeAddress(lookup, name, c, publicAddress, Unreachable))
    && (name == AdministratorReturnPath ==>
        (NatReturnPath in ws <==> SomeAddress(lookup, name, c, publicAddress, NatReturn)))
  }

  /** A property of routes holds of some segment exactly when it holds at some address. */
  lemma SegmentsSeeAddresses(lookup: Lookups, c: Cidr, segments: seq<Segment>, p: Option<Route> -> bool)
    requires Valid(c)
    requires Tiles(segments, c.base, Stop(c)) && LabelledBy(lookup, segments)
    ensures (exists k: nat :: k < |segments| && p(segments[k].route)) <==>
            (exists a: nat :: InBlock(c, a) && p(lookup(a)))
  {
    if k: nat :| k < |segments| && p(segments[k].route) {
      var a := segments[k].low;
      assert Holds(segments, k, a);
      TilesPartition(segments, c.base, Stop(c), a);
      assert InBlock(c, a) && p(lookup(a));
    }
    if a: nat :| InBlock(c, a) && p(lookup(a)) {
      TilesPartition(segments, c.base, Stop(c), a);
      var k: nat :| Holds(segments, k, a);
    }
  }

  lemma HoldingSegment(lookup: Lookups, c: Cidr, segments: seq<Segment>, a: nat) returns (k: nat)
    requires Valid(c) && InBlock(c, a)
    requires Tiles(segments, c.base, Stop(c)) && LabelledBy(lookup, segments)
    ensures Holds(segments, k, a) && segments[k].route == lookup(a)
    ensures forall j: nat :: Holds(segments, j, a) ==> j == k
  {
    TilesPartition(segments, c.base, Stop(c), a);
    k :| Holds(segments, k, a);
  }

  lemma ReportedExactly(lookup: Lookups, name: Name, c: Cidr, publicAddress: bool, segments: seq<Segment>,
                        ws: seq<Warning>, a: nat)
    requires Valid(c) && InBlock(c, a)
    requires Tiles(segments, c.base, Stop(c)) && LabelledBy(lookup, segments)
    requires forall w :: About(w) == name ==> (w in ws <==> Contributes(segments, name, publicAddress, w))
    ensures (exists w :: w in ws && Reports(w, name, a)) <==> !IsActive(lookup(a))
  {
    var k := HoldingSegment(lookup, c, segments, a);
    var w := MissingOrInactive(name, segments[k].low, segments[k].through);
    if !IsActive(segments[k].route) {
      assert WarningFor(name, segments[k], publicAddress) == Some(w);
      assert Contributes(segments, name, publicAddress, w);
      assert w in ws && Reports(w, name, a);
    }
    if v :| v in ws && Reports(v, name, a) {
      assert Contributes(segments, name, publicAddress, v);
      var j: nat :| j < |segments| && WarningFor(name, segments[j], publicAddress) == Some(v);
      assert Holds(segments, j, a);
    }
  }

  lemma ContributionAtAddress(lookup: Lookups, name: Name, c: Cidr, publicAddress: bool, segments: seq<Segment>,
                              w: Warning, v: Verdict)
    requires Valid(c)
    requires Tiles(segments, c.base, Stop(c)) && LabelledBy(lookup, segments)
    requires (w == DirectGateway(name) && v == Unreachable) || (w == NatReturnPath && v == NatReturn)
    ensures Contributes(segments, name, publicAddress, w) <==> SomeAddress(lookup, name, c, publicAddress, v)
  {
    var p := (r: Option<Route>) => Judge(name, r, publicAddress) == v;
    SegmentsSeeAddresses(lookup, c, segments, p);
    assert Contributes(segments, name, publicAddress, w) <==> exists k: nat :: k < |segments| && p(segments[k].route);
    if a: nat :| InBlock(c, a) && p(lookup(a)) {
      assert SomeAddress(lookup, name, c, publicAddress, v);
    }
  }

  lemma ContributionsExact(lookup: Lookups, name: Name, c: Cidr, publicAddress: bool, segments: seq<Segment>,
                           ws: seq<Warning>)
    requires Valid(c)
    requires Tiles(segments, c.base, Stop(c)) && LabelledBy(lookup, segments)
    requires forall w :: About(w) == name ==> (w in ws <==> Contributes(segments, name, publicAddress, w))
    ensures WarningsExact(lookup, name, c, publicAddress, ws)
  {
    forall a: nat | InBlock(c, a)
      ensures (exists w :: w in ws && Reports(w, name, a)) <==> !IsActive(lookup(a))
    {
      ReportedExactly(lookup, name, c, publicAddress, segments, ws, a);
    }
    TilesOrdered(segments, c.base, Stop(c));
    ContributionAtAddress(lookup, name, c, publicAddress, segments, DirectGateway(name), Unreachable);
    if name == AdministratorReturnPath {
      ContributionAtAddress(lookup, name, c, publicAddress, segments, NatReturnPath, NatReturn);
    }
  }

  predicate LeadsTo(r: Option<Route>, t: Target) {
    IsActive(r) && RouteTarget(r.value) == t
  }

  /** `t` is where an active route carries some address of the block. */
  ghost predicate Reaches(lookup: Lookups, c: Cidr, t: Target)
    requires Valid(c)
  {
    exists a: nat :: InBlock(c, a) && LeadsTo(lookup(a), t)
  }

  lemma TargetsExact(lookup: Lookups, c: Cidr, segments: seq<Segment>, t: Target)
    requires Valid(c)
    requires Tiles(segments, c.base, Stop(c)) && LabelledBy(lookup, segments)
    ensures Targets(segments, t) <==> Reaches(lookup, c, t)
  {
    var p := (r: Option<Route>) => LeadsTo(r, t);
    SegmentsSeeAddresses(lookup, c, segments, p);
    assert Targets(segments, t) <==> exists k: nat :: k < |segments| && p(segments[k].route);
    if a: nat :| InBlock(c, a) && p(lookup(a)) {
      assert LeadsTo(lookup(a), t);
    }
  }

  datatype Review = Review(warnings: seq<Warning>, targets: set<Target>)

  predicate AllValid(destinations: seq<(Name, Cidr)>) {
    forall d :: 0 <= d < |destinations| ==> Valid(destinations[d].1)
  }

  /** The report is what per-address lookups over the whole table justify, no more and no less. */
  ghost predicate IsExact(routes: seq<Route>, plan: Plan, review: Review)
    requires WellFormed(routes) && AllValid(Destinations(plan))
  {
    var destinations := Destinations(plan);
    && (forall d :: 0 <= d < |destinations| ==>
        WarningsExact(Forwarding(routes), destinations[d].0, destinations[d].1, plan.publicAddress, review.warnings))
    && (forall t :: t in review.targets <==>
        exists d :: 0 <= d < |destinations| && Reaches(Forwarding(routes), destinations[d].1, t))
  }

  ghost predicate Contributed(destinations: seq<(Name, Cidr)>, plan: Plan, swept: seq<seq<Segment>>, w: Warning)
    requires |swept| == |destinations|
  {
    exists e :: 0 <= e < |swept| && Contributes(swept[e], destinations[e].0, plan.publicAddress, w)
  }

  ghost predicate Targeted(swept: seq<seq<Segment>>, t: Target) {
    exists e :: 0 <= e < |swept| && Targets(swept[e], t)
  }

  lemma SweptGrows(destinations: seq<(Name, Cidr)>, d: nat, plan: Plan, swept: seq<seq<Segment>>,
                   segments: seq<Segment>)
    requires |swept| == d < |destinations|
    ensures forall w :: Contributed(destinations[..d + 1], plan, swept + [segments], w) <==>
      Contributed(destinations[..d], plan, swept, w) || Contributes(segments, destinations[d].0, plan.publicAddress, w)
    ensures forall t :: Targeted(swept + [segments], t) <==> Targeted(swept, t) || Targets(segments, t)
  {
    var longer := swept + [segments];
    assert longer[d] == segments && forall e :: 0 <= e < d ==> longer[e] == swept[e];
  }

  ghost predicate Sweeps(routes: seq<Route>, c: Cidr, segments: seq<Segment>) {
    Valid(c) && WellFormed(routes) && Tiles(segments, c.base, Stop(c)) && Labelled(routes, segments)
  }

  /** Every warning about a destination comes from that destination's own segments. */
  lemma OwnWarnings(destinations: seq<(Name, Cidr)>, plan: Plan, swept: seq<seq<Segment>>, d: nat, ws: seq<Warning>)
    requires destinations == Destinations(plan) && |swept| == |destinations| && d < |destinations|
    requires forall w :: w in ws <==> Contributed(destinations, plan, swept, w)
    ensures forall w :: About(w) == destinations[d].0 ==>
      (w in ws <==> Contributes(swept[d], destinations[d].0, plan.publicAddress, w))
  {
    forall w | About(w) == destinations[d].0 && w in ws
      ensures Contributes(swept[d], destinations[d].0, plan.publicAddress, w)
    {
      var e :| 0 <= e < |destinations| && Contributes(swept[e], destinations[e].0, plan.publicAddress, w);
      assert About(w) == destinations[e].0;
    }
  }

  lemma SweptIsExact(routes: seq<Route>, plan: Plan, swept: seq<seq<Segment>>, review: Review)
    requires WellFormed(routes) && AllValid(Destinations(plan)) && |swept| == |Destinations(plan)|
    requires forall e :: 0 <= e < |swept| ==> Sweeps(routes, Destinations(plan)[e].1, swept[e])
    requires forall w :: w in review.warnings <==> Contributed(Destinations(plan), plan, swept, w)
    requires forall t :: t in review.targets <==> Targeted(swept, t)
    ensures IsExact(routes, plan, review)
  {
    var destinations := Destinations(plan);
    forall d | 0 <= d < |destinations|
      ensures WarningsExact(Forwarding(routes), destinations[d].0, destinations[d].1, plan.publicAddress,
        review.warnings)
    {
      assert Sweeps(routes, destinations[d].1, swept[d]);
      OwnWarnings(destinations, plan, swept, d, review.warnings);
      LabelsAreForwarding(routes, swept[d]);
      ContributionsExact(Forwarding(routes), destinations[d].0, destinations[d].1, plan.publicAddress, swept[d],
        review.warnings);
    }
    forall t, d | 0 <= d < |destinations|
      ensures Targets(swept[d], t) <==> Reaches(Forwarding(routes), destinations[d].1, t)
    {
      assert Sweeps(routes, destinations[d].1, swept[d]);
      LabelsAreForwarding(routes, swept[d]);
      TargetsExact(Forwarding(routes), destinations[d].1, swept[d], t);
    }
  }

  // ----- the report, said of addresses

  /** The route carries traffic. */
  predicate Serves(r: Option<Route>) { r.Some? && r.value.state == Some("active") }

  predicate IsSet(route: Route, key: string) { key in route.fields && route.fields[key] != "" }

  /** The route is active and goes to a NAT gateway. */
  predicate ThroughNat(r: Option<Route>) { Serves(r) && IsSet(r.value, "NatGatewayId") }

  /** The route is active and goes straight to an internet gateway. */
  predicate ThroughInternet(r: Option<Route>) {
    Serves(r) && IsSet(r.value, "GatewayId") && "igw-" <= r.value.fields["GatewayId"]
  }

  /** Straight to an internet gateway; for the return path a NAT gateway comes first. */
  predicate StraightOut(name: Name, r: Option<Route>) {
    ThroughInternet(r) && (name == AdministratorReturnPath ==> !ThroughNat(r))
  }

  /** Where the route leads: the first of these attributes that is set, or nowhere. */
  predicate IsTarget(route: Route, t: Target) {
    var keys := ["NatGatewayId", "TransitGatewayId", "VpcPeeringConnectionId", "NetworkInterfaceId", "InstanceId",
                 "VpcEndpointId", "GatewayId", "LocalGatewayId", "CarrierGatewayId", "CoreNetworkArn"];
    match t
    case None => forall i :: 0 <= i < |keys| ==> !IsSet(route, keys[i])
    case Some(target) =>
      exists i :: 0 <= i < |keys| && target.0 == keys[i] && IsSet(route, keys[i])
        && target.1 == route.fields[keys[i]] && forall j :: 0 <= j < i ==> !IsSet(route, keys[j])
  }

  /** What is said of one destination: its ranges without a route, and what its addresses' routes lead through. */
  ghost predicate DestinationExact(lookup: Lookups, name: Name, c: Cidr, publicAddress: bool, ws: seq<Warning>)
    requires Valid(c)
  {
    && (forall a: nat :: InBlock(c, a) ==> ((exists w :: w in ws && Reports(w, name, a)) <==> !Serves(lookup(a))))
    && (forall w :: w in ws && w.MissingOrInactive? && w.name == name ==> c.base <= w.low <= w.through < Stop(c))
    && (DirectGateway(name) in ws <==>
        !publicAddress && exists a: nat :: InBlock(c, a) && StraightOut(name, lookup(a)))
    && (name == AdministratorReturnPath ==>
        (NatReturnPath in ws <==> exists a: nat :: InBlock(c, a) && ThroughNat(lookup(a))))
  }

  ghost predicate ReachedFrom(lookup: Lookups, c: Cidr, t: Target)
    requires Valid(c)
  {
    exists a: nat :: InBlock(c, a) && Serves(lookup(a)) && IsTarget(lookup(a).value, t)
  }

  predicate PlanIsValid(plan: Plan) {
    Valid(plan.allowed) && Valid(plan.httpsEgress) && (plan.allowHttp ==> Valid(plan.httpEgress))
  }

  /**
  The report on each destination is what its addresses' own routes justify; plain HTTP is looked at
  only when it is allowed, and the targets are those of all addresses looked at.
  */
  ghost predicate SaysExactly(lookup: Lookups, plan: Plan, review: Review)
    requires PlanIsValid(plan)
  {
    var ws := review.warnings;
    && DestinationExact(lookup, AdministratorReturnPath, plan.allowed, plan.publicAddress, ws)
    && DestinationExact(lookup, HttpsDestinations, plan.httpsEgress, plan.publicAddress, ws)
    && (if plan.allowHttp then DestinationExact(lookup, HttpDestinations, plan.httpEgress, plan.publicAddress, ws)
        else forall w :: w in ws ==> About(w) != HttpDestinations)
    && forall t :: t in review.targets <==>
         || ReachedFrom(lookup, plan.allowed, t) || ReachedFrom(lookup, plan.httpsEgress, t)
         || (plan.allowHttp && ReachedFrom(lookup, plan.httpEgress, t))
  }

  lemma ServesIff(r: Option<Route>)
    ensures IsActive(r) <==> Serves(r)
  {
  }

  lemma JudgedIff(name: Name, r: Option<Route>, publicAddress: bool)
    ensures Judge(name, r, publicAddress) == NatReturn <==> name == AdministratorReturnPath && ThroughNat(r)
    ensures Judge(name, r, publicAddress) == Unreachable <==>
      !publicAddress && StraightOut(name, r)
  {
    ServesIff(r);
  }

  lemma DestinationIff(lookup: Lookups, name: Name, c: Cidr, publicAddress: bool, ws: seq<Warning>)
    requires Valid(c) && WarningsExact(lookup, name, c, publicAddress, ws)
    ensures DestinationExact(lookup, name, c, publicAddress, ws)
  {
    forall a: nat
      ensures IsActive(lookup(a)) <==> Serves(lookup(a))
      ensures Judge(name, lookup(a), publicAddress) == NatReturn <==>
        name == AdministratorReturnPath && ThroughNat(lookup(a))
      ensures Judge(name, lookup(a), publicAddress) == Unreachable <==>
        !publicAddress && StraightOut(name, lookup(a))
    {
      ServesIff(lookup(a));
      JudgedIff(name, lookup(a), publicAddress);
    }
  }

  /** The target the code computes is the one target there is. */
  lemma RouteTargetIs(route: Route, t: Target)
    ensures RouteTarget(route) == t <==> IsTarget(route, t)
  {
    FirstFieldIsFirst(route, TARGET_KEYS);
    forall key
      ensures Field(route, key) != "" <==> IsSet(route, key)
      ensures IsSet(route, key) ==> Field(route, key) == route.fields[key]
    {
    }
  }

  lemma ReachedIff(lookup: Lookups, c: Cidr, t: Target)
    requires Valid(c)
    ensures Reaches(lookup, c, t) <==> ReachedFrom(lookup, c, t)
  {
    forall a: nat
      ensures LeadsTo(lookup(a), t) <==> Serves(lookup(a)) && IsTarget(lookup(a).value, t)
    {
      if lookup(a).Some? {
        RouteTargetIs(lookup(a).value, t);
      }
    }
  }

  lemma TargetsSay(lookup: Lookups, plan: Plan, targets: set<Target>)
    requires AllValid(Destinations(plan)) && PlanIsValid(plan)
    requires forall t :: t in targets <==>
      exists d :: 0 <= d < |Destinations(plan)| && Reaches(lookup, Destinations(plan)[d].1, t)
    requires forall d, t :: 0 <= d < |Destinations(plan)| ==>
      (Reaches(lookup, Destinations(plan)[d].1, t) <==> ReachedFrom(lookup, Destinations(plan)[d].1, t))
    ensures forall t :: t in targets <==>
      || ReachedFrom(lookup, plan.allowed, t) || ReachedFrom(lookup, plan.httpsEgress, t)
      || (plan.allowHttp && ReachedFrom(lookup, plan.httpEgress, t))
  {
    var destinations := Destinations(plan);
    assert destinations[0].1 == plan.allowed && destinations[1].1 == plan.httpsEgress;
    assert plan.allowHttp ==> destinations[2].1 == plan.httpEgress;
  }

  lemma ExactSays(routes: seq<Route>, plan: Plan, review: Review)
    requires WellFormed(routes) && AllValid(Destinations(plan)) && IsExact(routes, plan, review)
    requires forall w :: w in review.warnings ==> Rank(About(w)) < |Destinations(plan)|
    ensures PlanIsValid(plan) && SaysExactly(Forwarding(routes), plan, review)
  {
    var lookup, destinations := Forwarding(routes), Destinations(plan);
    forall d | 0 <= d < |destinations|
      ensures DestinationExact(lookup, destinations[d].0, destinations[d].1, plan.publicAddress, review.warnings)
      ensures forall t :: Reaches(lookup, destinations[d].1, t) <==> ReachedFrom(lookup, destinations[d].1, t)
    {
      DestinationIff(lookup, destinations[d].0, destinations[d].1, plan.publicAddress, review.warnings);
      forall t
        ensures Reaches(lookup, destinations[d].1, t) <==> ReachedFrom(lookup, destinations[d].1, t)
      {
        ReachedIff(lookup, destinations[d].1, t);
      }
    }
    assert destinations[0] == (AdministratorReturnPath, plan.allowed);
    assert destinations[1] == (HttpsDestinations, plan.httpsEgress);
    assert plan.allowHttp ==> destinations[2] == (HttpDestinations, plan.httpEgress);
    TargetsSay(lookup, plan, review.targets);
  }

  lemma ValidPlanIff(plan: Plan)
    ensures AllValid(Destinations(plan)) <==> PlanIsValid(plan)
  {
    var destinations := Destinations(plan);
    assert destinations[0].1 == plan.allowed && destinations[1].1 == plan.httpsEgress;
    assert plan.allowHttp ==> destinations[2].1 == plan.httpEgress;
  }

  /** The warnings so far, in order and about the destinations so far. */
  predicate Ordered(ws: seq<Warning>, d: nat) {
    InOrder(ws) && forall w :: w in ws ==> Rank(About(w)) < d
  }

  lemma OrderedGrows(ws: seq<Warning>, d: nat, more: seq<Warning>, name: Name)
    requires Ordered(ws, d) && Rank(name) == d && AllAbout(more, name) && InOrder(more)
    ensures Ordered(ws + more, d + 1)
  {
    forall v, w | v in ws && w in more
      ensures MayPrecede(v, w)
    {
      assert About(w) == name;
    }
    OrderGrows(ws, more);
  }

  method ReviewRoutes(tables: seq<Table>, subnet: string, plan: Plan) returns (r: Result<Review, Failure>)
    ensures
      var table := EffectiveTable(tables, subnet);
      r.Ok? <==> table.Ok? && WellFormed(table.value.routes) && PlanIsValid(plan)
    ensures r.Ok? ==> SaysExactly(Forwarding(EffectiveTable(tables, subnet).value.routes), plan, r.value)
    ensures r.Ok? ==> forall i, j :: 0 <= i < j < |r.value.warnings| ==> r.value.warnings[i] != r.value.warnings[j]
    ensures r.Ok? ==> InOrder(r.value.warnings)
  {
    ValidPlanIff(plan);
    var table := EffectiveTable(tables, subnet);
    if table.Err? {
      return Err(table.error);
    }
    var routes := table.value.routes;
    var destinations := Destinations(plan);
    var warnings: seq<Warning>, targets: set<Target> := [], {};
    ghost var swept: seq<seq<Segment>> := [];
    for d := 0 to |destinations|
      invariant |swept| == d && Ordered(warnings, d)
      invariant forall e :: 0 <= e < d ==> Sweeps(routes, destinations[e].1, swept[e])
      invariant forall w :: w in warnings <==> Contributed(destinations[..d], plan, swept, w)
      invariant forall t :: t in targets <==> Targeted(swept, t)
    {
      var (name, block) := destinations[d];
      var segments := RouteSegments(routes, block);
      if segments.Err? {
        return Err(InvalidBlock);
      }
      var ws, ts := ReviewSegments(segments.value, name, plan.publicAddress);
      SweptGrows(destinations, d, plan, swept, segments.value);
      TilesAscend(segments.value, block.base, Stop(block));
      OrderedGrows(warnings, d, ws, name);
      warnings, targets, swept := warnings + ws, targets + ts, swept + [segments.value];
    }
    assert destinations[..|destinations|] == destinations;
    var unique := Deduplicate(warnings);
    assert Sweeps(routes, destinations[0].1, swept[0]);
    SweptIsExact(routes, plan, swept, Review(unique, targets));
    ExactSays(routes, plan, Review(unique, targets));
    return Ok(Review(unique, targets));
  }
}
