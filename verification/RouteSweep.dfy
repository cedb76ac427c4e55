/**
The interval sweep of `route_segments`: clip every route to the requested block, cut the block at the
clipped ends, and look one address up per gap. Proved to agree with a longest-prefix lookup at every
single address.
*/
module RouteSweep {
  import opened Wrappers
  import opened Ipv4
  import opened Sorting

  /**
  One row of a route table. `dest` is the IPv4 destination block, absent for prefix-list and IPv6
  rows; `fields` holds the remaining string attributes (gateway identifiers and the like).
  */
  datatype Route = Route(dest: Option<Cidr>, state: Option<string>, fields: map<string, string>)

  datatype Error = InvalidNetwork

  /** An inclusive address range with the one route that carries it. */
  datatype Segment = Segment(low: nat, through: nat, route: Option<Route>)

  // ----- the reference: longest-prefix lookup at one address

  predicate WellFormed(routes: seq<Route>) {
    forall i :: 0 <= i < |routes| ==> routes[i].dest.Some? ==> Valid(routes[i].dest.value)
  }

  predicate Matches(routes: seq<Route>, i: nat, a: nat)
    requires WellFormed(routes)
  {
    i < |routes| && routes[i].dest.Some? && Contains(routes[i].dest.value, a)
  }

  /** Route `i` is the longest match for `a`, the earliest one among equal prefixes. */
  ghost predicate IsLongestMatch(routes: seq<Route>, i: nat, a: nat)
    requires WellFormed(routes)
  {
    && Matches(routes, i, a)
    && forall j: nat :: Matches(routes, j, a) ==>
        && routes[j].dest.value.prefixLen <= routes[i].dest.value.prefixLen
        && (routes[j].dest.value.prefixLen == routes[i].dest.value.prefixLen ==> i <= j)
  }

  /** `r` is what forwarding does with `a`: its longest match, or nothing when nothing matches. */
  ghost predicate IsEffective(routes: seq<Route>, a: nat, r: Option<Route>)
    requires WellFormed(routes)
  {
    match r
    case None => forall j: nat :: !Matches(routes, j, a)
    case Some(route) => exists i: nat :: IsLongestMatch(routes, i, a) && routes[i] == route
  }

  /** Forwarding is a function of the address. */
  lemma EffectiveIsUnique(routes: seq<Route>, a: nat, r: Option<Route>, s: Option<Route>)
    requires WellFormed(routes)
    requires IsEffective(routes, a, r) && IsEffective(routes, a, s)
    ensures r == s
  {
    if r.Some? && s.Some? {
      var i: nat :| IsLongestMatch(routes, i, a) && routes[i] == r.value;
      var j: nat :| IsLongestMatch(routes, j, a) && routes[j] == s.value;
      assert i == j;
    }
  }

  /** The index of the longest match, found by scanning the whole table. */
  ghost function LongestMatch(routes: seq<Route>, a: nat): (r: Option<nat>)
    requires WellFormed(routes)
    ensures r.None? ==> forall j: nat :: !Matches(routes, j, a)
    ensures r.Some? ==> IsLongestMatch(routes, r.value, a)
  {
    if routes == [] then None else
      var last := |routes| - 1;
      var init := routes[..last];
      var best := LongestMatch(init, a);
      assert forall j: nat :: j < last ==> (Matches(routes, j, a) <==> Matches(init, j, a));
      assert best.Some? ==> Matches(init, best.value, a);
      if Matches(routes, last, a) &&
        (best.None? || routes[best.value].dest.value.prefixLen < routes[last].dest.value.prefixLen)
      then Some(last) else best
  }

  ghost function EffectiveRoute(routes: seq<Route>, a: nat): (r: Option<Route>)
    requires WellFormed(routes)
    ensures IsEffective(routes, a, r)
  {
    var best := LongestMatch(routes, a);
    if best.None? then None else Some(routes[best.value])
  }

  /** The block of a longest match is contained in the block of every other match. */
  lemma LongestMatchIsInnermost(routes: seq<Route>, i: nat, j: nat, a: nat)
    requires WellFormed(routes)
    requires IsLongestMatch(routes, i, a) && Matches(routes, j, a)
    ensures routes[j].dest.value.base <= routes[i].dest.value.base
    ensures Stop(routes[i].dest.value) <= Stop(routes[j].dest.value)
    ensures forall b: nat :: Contains(routes[i].dest.value, b) ==> Contains(routes[j].dest.value, b)
  {
    NestedOrDisjoint(routes[j].dest.value, routes[i].dest.value, a);
  }

  // ----- the sweep

  /** Where a route's block meets the requested range [start, stop): its clipped low end. */
  function ClipLow(start: nat, c: Cidr): nat {
    if start < c.base then c.base else start
  }

  function ClipHigh(stop: nat, c: Cidr): nat
    requires c.prefixLen <= 32
  {
    if Ipv4.Stop(c) < stop then Ipv4.Stop(c) else stop
  }

  /** Every route block that meets the range has both clipped ends among the cuts. */
  ghost predicate CutsClosed(routes: seq<Route>, start: nat, stop: nat, cuts: set<nat>)
    requires WellFormed(routes)
  {
    forall i :: 0 <= i < |routes| ==> routes[i].dest.Some? ==>
      var c := routes[i].dest.value;
      ClipLow(start, c) < ClipHigh(stop, c) ==> ClipLow(start, c) in cuts && ClipHigh(stop, c) in cuts
  }

  /** Candidates are the route indices that meet the range, in table order. */
  ghost predicate IsCandidates(routes: seq<Route>, start: nat, stop: nat, candidates: seq<nat>)
    requires WellFormed(routes)
  {
    && StrictlySorted(candidates)
    && forall i: nat :: i in candidates <==>
        && i < |routes| && routes[i].dest.Some?
        && ClipLow(start, routes[i].dest.value) < ClipHigh(stop, routes[i].dest.value)
  }

  /** Between neighbouring cuts no route starts or ends to match. */
  lemma MatchesConstant(routes: seq<Route>, start: nat, stop: nat, cuts: set<nat>, low: nat, high: nat, a: nat, i: nat)
    requires WellFormed(routes) && CutsClosed(routes, start, stop, cuts)
    requires start <= low <= a < high <= stop
    requires forall x :: x in cuts ==> x <= low || high <= x
    ensures Matches(routes, i, a) <==> Matches(routes, i, low)
  {
    if i < |routes| && routes[i].dest.Some? {
      ContainsIsInterval(routes[i].dest.value, a);
      ContainsIsInterval(routes[i].dest.value, low);
    }
  }

  /** One lookup at the low end of a gap answers for the whole gap. */
  lemma EffectiveConstant(routes: seq<Route>, start: nat, stop: nat, cuts: set<nat>, low: nat, high: nat, a: nat,
                          r: Option<Route>)
    requires WellFormed(routes) && CutsClosed(routes, start, stop, cuts)
    requires start <= low <= a < high <= stop
    requires forall x :: x in cuts ==> x <= low || high <= x
    requires IsEffective(routes, low, r)
    ensures IsEffective(routes, a, r)
  {
    forall i: nat
      ensures Matches(routes, i, a) <==> Matches(routes, i, low)
    {
      MatchesConstant(routes, start, stop, cuts, low, high, a, i);
    }
    if r.Some? {
      var i: nat :| IsLongestMatch(routes, i, low) && routes[i] == r.value;
      assert IsLongestMatch(routes, i, a);
    }
  }

  /** The lookup at one address over the clipped candidates: the first longest match. */
  method Lookup(routes: seq<Route>, start: nat, stop: nat, candidates: seq<nat>, address: nat)
    returns (r: Option<Route>)
    requires WellFormed(routes) && IsCandidates(routes, start, stop, candidates)
    requires start <= address < stop
    ensures IsEffective(routes, address, r)
  {
    var best: Option<nat> := None;
    for k := 0 to |candidates|
      invariant best.None? ==> forall j :: 0 <= j < k ==> !Matches(routes, candidates[j], address)
      invariant best.Some? ==> best.value in candidates[..k] && Matches(routes, best.value, address)
      invariant best.Some? ==> forall j :: 0 <= j < k && Matches(routes, candidates[j], address) ==>
          && routes[candidates[j]].dest.value.prefixLen <= routes[best.value].dest.value.prefixLen
          && (routes[candidates[j]].dest.value.prefixLen == routes[best.value].dest.value.prefixLen ==>
              best.value <= candidates[j])
    {
      var i := candidates[k];
      assert i in candidates;
      if Contains(routes[i].dest.value, address) {
        if best.None? || routes[best.value].dest.value.prefixLen < routes[i].dest.value.prefixLen {
          best := Some(i);
        }
      }
    }
    forall j: nat | Matches(routes, j, address)
      ensures j in candidates
    {
      ContainsIsInterval(routes[j].dest.value, address);
    }
    if best.None? {
      r := None;
      assert forall j: nat :: !Matches(routes, j, address);
    } else {
      r := Some(routes[best.value]);
      assert IsLongestMatch(routes, best.value, address);
    }
  }

  /** Nonempty, contiguous, in order, and covering exactly [start, stop). */
  predicate Tiles(segments: seq<Segment>, start: nat, stop: nat) {
    && |segments| > 0
    && segments[0].low == start
    && segments[|segments| - 1].through + 1 == stop
    && (forall k :: 0 <= k < |segments| ==> segments[k].low <= segments[k].through)
    && (forall k :: 0 < k < |segments| ==> segments[k].low == segments[k - 1].through + 1)
  }

  /** The segment that holds an address. */
  predicate Holds(segments: seq<Segment>, k: nat, a: nat) {
    k < |segments| && segments[k].low <= a <= segments[k].through
  }

  lemma {:induction false} TilesOrdered(segments: seq<Segment>, start: nat, stop: nat)
    requires Tiles(segments, start, stop)
    ensures start < stop
    ensures forall k :: 0 <= k < |segments| ==> start <= segments[k].low && segments[k].through < stop
  {
    var last := |segments| - 1;
    if last > 0 {
      assert Tiles(segments[..last], start, segments[last].low);
      TilesOrdered(segments[..last], start, segments[last].low);
      forall k | 0 <= k < |segments|
        ensures start <= segments[k].low && segments[k].through < stop
      {
        if k < last { assert segments[..last][k] == segments[k]; }
      }
    }
  }

  /** A tiling holds every address of its range, and only those, exactly once. */
  lemma {:induction false} TilesPartition(segments: seq<Segment>, start: nat, stop: nat, a: nat)
    requires Tiles(segments, start, stop)
    ensures start <= a < stop <==> exists k: nat :: Holds(segments, k, a)
    ensures forall j: nat, k: nat :: Holds(segments, j, a) && Holds(segments, k, a) ==> j == k
  {
    var last := |segments| - 1;
    if last == 0 {
      assert Holds(segments, 0, a) <==> start <= a < stop;
    } else {
      var init := segments[..last];
      assert Tiles(init, start, segments[last].low);
      TilesPartition(init, start, segments[last].low, a);
      TilesOrdered(init, start, segments[last].low);
      forall k: nat
        ensures Holds(segments, k, a) <==> (Holds(init, k, a) || (k == last && Holds(segments, last, a)))
      {
      }
      if start <= a < segments[last].low {
        var k: nat :| Holds(init, k, a);
        assert Holds(segments, k, a);
      } else if a < stop && start <= a {
        assert Holds(segments, last, a);
      }
    }
  }

  /** Every address of every segment, not only its low end, is carried by the segment's route. */
  ghost predicate Labelled(routes: seq<Route>, segments: seq<Segment>)
    requires WellFormed(routes)
  {
    forall k: nat, a: nat :: Holds(segments, k, a) ==> IsEffective(routes, a, segments[k].route)
  }

  lemma CandidatesGrow(routes: seq<Route>, i: nat, start: nat, stop: nat, candidates: seq<nat>)
    requires i < |routes| && WellFormed(routes[..i])
    requires routes[i].dest.Some? ==> Valid(routes[i].dest.value)
    requires IsCandidates(routes[..i], start, stop, candidates)
    ensures WellFormed(routes[..i + 1])
    ensures
      var meets := routes[i].dest.Some? && ClipLow(start, routes[i].dest.value) < ClipHigh(stop, routes[i].dest.value);
      IsCandidates(routes[..i + 1], start, stop, if meets then candidates + [i] else candidates)
  {
    assert routes[..i + 1] == routes[..i] + [routes[i]];
    forall j | 0 <= j < |candidates|
      ensures candidates[j] < i
    {
      assert candidates[j] in candidates;
    }
  }

  lemma CardinalityOfPair(s: set<nat>, x: nat, y: nat)
    ensures |s + {x, y}| <= |s| + 2
  {
    assert |{x, y}| <= 2 by {
      if x == y { assert {x, y} == {x}; }
    }
  }

  /** The first loop: the routes that meet the range, and the range's ends plus their clipped ends. */
  method ClipRoutes(routes: seq<Route>, start: nat, stop: nat) returns (r: Result<(seq<nat>, set<nat>), Error>)
    requires start < stop
    ensures r.Ok? <==> WellFormed(routes)
    ensures r.Ok? ==> IsCandidates(routes, start, stop, r.value.0)
    ensures r.Ok? ==> CutsClosed(routes, start, stop, r.value.1)
    ensures r.Ok? ==> start in r.value.1 && stop in r.value.1 && forall x :: x in r.value.1 ==> start <= x <= stop
    ensures r.Ok? ==> |r.value.1| <= 2 * |routes| + 2
  {
    var candidates: seq<nat>, cuts: set<nat> := [], {start, stop};
    for i := 0 to |routes|
      invariant WellFormed(routes[..i])
      invariant IsCandidates(routes[..i], start, stop, candidates)
      invariant CutsClosed(routes[..i], start, stop, cuts)
      invariant start in cuts && stop in cuts && forall x :: x in cuts ==> start <= x <= stop
      invariant |cuts| <= 2 * i + 2
    {
      if routes[i].dest.Some? {
        var network := routes[i].dest.value;
        if !Valid(network) {
          return Err(InvalidNetwork);
        }
        var low, high := ClipLow(start, network), ClipHigh(stop, network);
        if low < high {
          CandidatesGrow(routes, i, start, stop, candidates);
          candidates := candidates + [i];
          CardinalityOfPair(cuts, low, high);
          cuts := cuts + {low, high};
        } else {
          CandidatesGrow(routes, i, start, stop, candidates);
        }
      } else {
        CandidatesGrow(routes, i, start, stop, candidates);
      }
    }
    assert routes[..|routes|] == routes;
    return Ok((candidates, cuts));
  }

  lemma NoCutBetween(ordered: seq<nat>, cuts: set<nat>, k: nat)
    requires StrictlySorted(ordered) && k + 1 < |ordered|
    requires forall x :: x in cuts <==> x in ordered
    ensures forall x :: x in cuts ==> x <= ordered[k] || ordered[k + 1] <= x
    ensures ordered[k] in cuts && ordered[k + 1] in cuts
  {
    assert ordered[k] in ordered && ordered[k + 1] in ordered;
    forall x | x in cuts
      ensures x <= ordered[k] || ordered[k + 1] <= x
    {
      var j :| 0 <= j < |ordered| && ordered[j] == x;
    }
  }

  lemma LabelledGrows(routes: seq<Route>, segments: seq<Segment>, segment: Segment)
    requires WellFormed(routes) && Labelled(routes, segments)
    requires forall a: nat :: segment.low <= a <= segment.through ==> IsEffective(routes, a, segment.route)
    ensures Labelled(routes, segments + [segment])
  {
    forall k: nat, a: nat | Holds(segments + [segment], k, a)
      ensures IsEffective(routes, a, (segments + [segment])[k].route)
    {
      assert k < |segments| ==> Holds(segments, k, a);
    }
  }

  lemma GapsTile(ordered: seq<nat>, segments: seq<Segment>)
    requires StrictlySorted(ordered) && |ordered| >= 2 && |segments| == |ordered| - 1
    requires forall j :: 0 <= j < |segments| ==>
      segments[j].low == ordered[j] && segments[j].through + 1 == ordered[j + 1]
    ensures Tiles(segments, ordered[0], ordered[|ordered| - 1])
  {
    forall k | 0 <= k < |segments|
      ensures segments[k].low <= segments[k].through
      ensures k > 0 ==> segments[k].low == segments[k - 1].through + 1
    {
      assert ordered[k] < ordered[k + 1];
    }
  }

  /** A segment spans one gap and carries the route looked up at the gap's low end. */
  ghost predicate IsGap(routes: seq<Route>, low: nat, high: nat, segment: Segment)
    requires WellFormed(routes)
  {
    segment.low == low && segment.through + 1 == high && IsEffective(routes, low, segment.route)
  }

  lemma GapLabelled(routes: seq<Route>, start: nat, stop: nat, cuts: set<nat>, ordered: seq<nat>, k: nat,
                    segment: Segment)
    requires WellFormed(routes) && CutsClosed(routes, start, stop, cuts)
    requires StrictlySorted(ordered) && forall x :: x in cuts <==> x in ordered
    requires forall x :: x in ordered ==> start <= x <= stop
    requires k + 1 < |ordered| && IsGap(routes, ordered[k], ordered[k + 1], segment)
    ensures forall a: nat :: segment.low <= a <= segment.through ==> IsEffective(routes, a, segment.route)
  {
    NoCutBetween(ordered, cuts, k);
    assert ordered[k] in ordered && ordered[k + 1] in ordered;
    forall a: nat | segment.low <= a <= segment.through
      ensures IsEffective(routes, a, segment.route)
    {
      EffectiveConstant(routes, start, stop, cuts, ordered[k], ordered[k + 1], a, segment.route);
    }
  }

  /** The second loop: one lookup per pair of neighbouring cuts. */
  method LabelGaps(routes: seq<Route>, start: nat, stop: nat, candidates: seq<nat>, ghost cuts: set<nat>,
                   ordered: seq<nat>)
    returns (segments: seq<Segment>)
    requires WellFormed(routes)
    requires IsCandidates(routes, start, stop, candidates) && CutsClosed(routes, start, stop, cuts)
    requires StrictlySorted(ordered) && forall x :: x in cuts <==> x in ordered
    requires |ordered| >= 2 && ordered[0] == start && ordered[|ordered| - 1] == stop
    requires forall x :: x in ordered ==> start <= x <= stop
    ensures |segments| == |ordered| - 1
    ensures Tiles(segments, start, stop) && Labelled(routes, segments)
  {
    segments := [];
    for k := 0 to |ordered| - 1
      invariant |segments| == k
      invariant forall j :: 0 <= j < k ==> segments[j].low == ordered[j] && segments[j].through + 1 == ordered[j + 1]
      invariant Labelled(routes, segments)
    {
      var low, high := ordered[k], ordered[k + 1];
      assert low in ordered;
      var route := Lookup(routes, start, stop, candidates, low);
      var segment := Segment(low, high - 1, route);
      GapLabelled(routes, start, stop, cuts, ordered, k, segment);
      LabelledGrows(routes, segments, segment);
      segments := segments + [segment];
    }
    GapsTile(ordered, segments);
  }

  lemma SortedEnds(ordered: seq<nat>, start: nat, stop: nat)
    requires StrictlySorted(ordered)
    requires start < stop && start in ordered && stop in ordered
    requires forall x :: x in ordered ==> start <= x <= stop
    ensures |ordered| >= 2 && ordered[0] == start && ordered[|ordered| - 1] == stop
  {
    var i :| 0 <= i < |ordered| && ordered[i] == start;
    var j :| 0 <= j < |ordered| && ordered[j] == stop;
    assert ordered[0] in ordered && ordered[|ordered| - 1] in ordered;
  }

  /** A route matches an address exactly when the address begins with its prefix. */
  lemma MatchesIsPrefix(routes: seq<Route>, i: nat, a: nat)
    requires WellFormed(routes)
    ensures Matches(routes, i, a) <==>
      i < |routes| && routes[i].dest.Some? && SharesPrefix(routes[i].dest.value, a)
  {
    if i < |routes| && routes[i].dest.Some? {
      if Contains(routes[i].dest.value, a) {
        ContainsInSpace(routes[i].dest.value, a);
      }
      if a < ADDRESS_SPACE {
        ContainsIsPrefix(routes[i].dest.value, a);
      }
    }
  }

  /** A tiling of a block holds its share of the address space: the addresses that begin with its prefix. */
  lemma TilesAreBlock(segments: seq<Segment>, c: Cidr)
    requires Valid(c) && Tiles(segments, c.base, Stop(c))
    ensures (segments[|segments| - 1].through + 1 - segments[0].low) * Pow2(c.prefixLen) == 0x1_0000_0000
    ensures forall a: nat :: SharesPrefix(c, a) <==> exists k: nat :: Holds(segments, k, a)
  {
    SizeIsExact(c);
    forall a: nat
      ensures SharesPrefix(c, a) <==> exists k: nat :: Holds(segments, k, a)
    {
      TilesPartition(segments, c.base, Stop(c), a);
      ContainsIsInterval(c, a);
      if Contains(c, a) {
        ContainsInSpace(c, a);
      }
      if a < ADDRESS_SPACE {
        ContainsIsPrefix(c, a);
      }
    }
  }

  method RouteSegments(routes: seq<Route>, destination: Cidr) returns (r: Result<seq<Segment>, Error>)
    ensures r.Ok? <==> Valid(destination) && WellFormed(routes)
    ensures r.Ok? ==> Tiles(r.value, destination.base, Stop(destination))
    ensures r.Ok? ==>
      (r.value[|r.value| - 1].through + 1 - r.value[0].low) * Pow2(destination.prefixLen) == 0x1_0000_0000
    ensures r.Ok? ==> forall a: nat :: SharesPrefix(destination, a) <==> exists k: nat :: Holds(r.value, k, a)
    ensures r.Ok? ==> Labelled(routes, r.value)
    ensures r.Ok? ==> |r.value| <= 2 * |routes| + 1
  {
    if !Valid(destination) {
      return Err(InvalidNetwork);
    }
    var start, stop := destination.base, Stop(destination);
    var clipped := ClipRoutes(routes, start, stop);
    if clipped.Err? {
      return Err(InvalidNetwork);
    }
    var (candidates, cuts) := clipped.value;
    var ordered := SortedSet(cuts);
    SortedEnds(ordered, start, stop);
    var segments := LabelGaps(routes, start, stop, candidates, cuts, ordered);
    TilesAreBlock(segments, destination);
    return Ok(segments);
  }
}
