/**
Replacing a node's drawing inside a balanced document: `node_span` counts group tags from the node's
opening tag, `replace_node` swaps everything but that tag and the title. The document is its stream
of group tags, titles and other text.
*/
module NodeSpans {
  import opened Wrappers

  /** An opening `<g ...>` with its node id if it has one, `</g>`, a title element, or anything between. */
  datatype Token = Open(id: Option<string>, attributes: string) | Close | Title(text: string) | Other(text: string)

  type Document = seq<Token>

  const LEGEND := "data-legend=\"\""

  datatype Failure = NoSuchNode | NeverCloses | NoTitle

  function Delta(t: Token): int {
    match t
    case Open(_, _) => 1
    case Close => -1
    case _ => 0
  }

  function Depth(s: Document): int {
    if s == [] then 0 else Depth(s[..|s| - 1]) + Delta(s[|s| - 1])
  }

  /** Every closing tag has its opening tag before it, and all are closed. */
  predicate Balanced(s: Document) {
    Depth(s) == 0 && forall k :: 0 <= k <= |s| ==> Depth(s[..k]) >= 0
  }

  /** One balanced element and no shorter one: it stays open until its last token. */
  predicate IsElement(s: Document) {
    s != [] && Depth(s) == 0 && forall k :: 0 < k < |s| ==> Depth(s[..k]) > 0
  }

  lemma {:induction false} DepthConcat(a: Document, b: Document)
    ensures Depth(a + b) == Depth(a) + Depth(b)
  {
    if b == [] {
      assert a + b == a;
    } else {
      assert (a + b)[..|a + b| - 1] == a + b[..|b| - 1];
      DepthConcat(a, b[..|b| - 1]);
    }
  }

  // ----- finding a node's span

  predicate IsNode(t: Token, id: string) {
    t.Open? && t.id == Some(id)
  }

  /** `s.index('<g id="node-..."')`: the first opening tag of the node. */
  function FindNode(s: Document, id: string): (r: Option<nat>)
    ensures r.Some? ==> r.value < |s| && IsNode(s[r.value], id) && forall i :: 0 <= i < r.value ==> !IsNode(s[i], id)
    ensures r.None? ==> forall i :: 0 <= i < |s| ==> !IsNode(s[i], id)
  {
    if s == [] then None
    else if IsNode(s[0], id) then Some(0)
    else
      var rest := FindNode(s[1..], id);
      if rest.None? then None else Some(rest.value + 1)
  }

  /** Counting tags from the front until the depth returns to zero at a tag. */
  function Scan(s: Document, depth: int): (r: Option<nat>)
    ensures r.Some? ==> 0 < r.value <= |s|
  {
    if s == [] then None
    else if Delta(s[0]) != 0 && depth + Delta(s[0]) == 0 then Some(1)
    else
      var rest := Scan(s[1..], depth + Delta(s[0]));
      if rest.None? then None else Some(rest.value + 1)
  }

  lemma DepthCons(s: Document)
    requires s != []
    ensures Depth(s) == Delta(s[0]) + Depth(s[1..])
  {
    DepthConcat([s[0]], s[1..]);
    assert [s[0]][..0] == [];
    assert s == [s[0]] + s[1..];
  }

  /** From a positive depth the scan stops at the first prefix that undoes it. */
  lemma {:induction false} ScanStopsFirst(s: Document, depth: int)
    requires depth > 0
    ensures
      var r := Scan(s, depth);
      && (r.Some? ==> depth + Depth(s[..r.value]) == 0 && forall k :: 0 <= k < r.value ==> depth + Depth(s[..k]) > 0)
      && (r.None? ==> forall k :: 0 <= k <= |s| ==> depth + Depth(s[..k]) > 0)
  {
    if s != [] {
      var next := depth + Delta(s[0]);
      forall k | 1 <= k <= |s|
        ensures Depth(s[..k]) == Delta(s[0]) + Depth(s[1..][..k - 1])
      {
        DepthCons(s[..k]);
        assert s[..k][1..] == s[1..][..k - 1];
      }
      if next > 0 {
        ScanStopsFirst(s[1..], next);
      }
    }
  }

  lemma PrefixDepth(s: Document, k: nat)
    requires 1 <= k <= |s|
    ensures Depth(s[..k]) == Delta(s[0]) + Depth(s[1..][..k - 1])
  {
    DepthCons(s[..k]);
    assert s[..k][1..] == s[1..][..k - 1];
  }

  /** Counting from an opening tag stops exactly at the end of a balanced element. */
  lemma ScanFindsElement(s: Document)
    requires s != [] && s[0].Open? && Scan(s, 0).Some?
    ensures IsElement(s[..Scan(s, 0).value])
  {
    ScanStopsFirst(s[1..], 1);
    var n := Scan(s, 0).value;
    PrefixDepth(s, n);
    forall k | 0 < k < n
      ensures Depth(s[..n][..k]) > 0
    {
      assert s[..n][..k] == s[..k];
      PrefixDepth(s, k);
    }
  }

  /** Seen from past its opening tag, a balanced element first goes below its level at its end. */
  lemma ElementDepths(s: Document, rest: Document, n: nat)
    requires s != [] && s[0].Open? && rest == s[1..] && n <= |s| && IsElement(s[..n])
    ensures n >= 1 && Depth(rest[..n - 1]) == -1
    ensures forall j :: 0 <= j < n - 1 ==> Depth(rest[..j]) >= 0
  {
    forall j | 0 <= j <= n - 1
      ensures Depth(rest[..j]) == Depth(s[..n][..j + 1]) - 1
    {
      PrefixDepth(s, j + 1);
      assert s[..n][..j + 1] == s[..j + 1];
    }
    assert s[..n][..n] == s[..n];
  }

  /** Only one stop fits: the first place where the depth goes below zero. */
  lemma StopsOnce(rest: Document, m: nat, r: Option<nat>)
    requires m <= |rest| && Depth(rest[..m]) == -1 && forall j :: 0 <= j < m ==> Depth(rest[..j]) >= 0
    requires r.Some? ==> 0 < r.value <= |rest| && 1 + Depth(rest[..r.value]) == 0
    requires r.Some? ==> forall k :: 0 <= k < r.value ==> 1 + Depth(rest[..k]) > 0
    requires r.None? ==> forall k :: 0 <= k <= |rest| ==> 1 + Depth(rest[..k]) > 0
    ensures r == Some(m)
  {
    assert r.Some? ==> Depth(rest[..r.value]) == -1;
  }

  lemma ScanEndsAt(rest: Document, m: nat)
    requires m <= |rest| && Depth(rest[..m]) == -1 && forall j :: 0 <= j < m ==> Depth(rest[..j]) >= 0
    ensures Scan(rest, 1) == Some(m)
  {
    ScanStopsFirst(rest, 1);
    StopsOnce(rest, m, Scan(rest, 1));
  }

  lemma ElementEndsScan(s: Document, n: nat)
    requires s != [] && s[0].Open? && n <= |s| && IsElement(s[..n])
    ensures Scan(s, 0) == Some(n)
  {
    ElementDepths(s, s[1..], n);
    ScanEndsAt(s[1..], n - 1);
  }

  /** Counting from an opening tag finds the shortest balanced element there, if there is any. */
  lemma SpanIsElement(s: Document)
    requires s != [] && s[0].Open?
    ensures
      var r := Scan(s, 0);
      && (r.Some? ==> IsElement(s[..r.value]))
      && (forall n :: 0 <= n <= |s| && IsElement(s[..n]) ==> r == Some(n))
  {
    if Scan(s, 0).Some? {
      ScanFindsElement(s);
    }
    forall n | 0 <= n <= |s| && IsElement(s[..n])
      ensures Scan(s, 0) == Some(n)
    {
      ElementEndsScan(s, n);
    }
  }

  /** In a balanced document every opening tag is closed. */
  lemma BalancedCloses(s: Document, a: nat)
    requires Balanced(s) && a < |s| && s[a].Open?
    ensures Scan(s[a..], 0).Some?
  {
    var tail := s[a..];
    DepthConcat(s[..a], tail);
    assert s[..a] + tail == s;
    DepthCons(tail);
    ScanStopsFirst(tail[1..], 1);
    assert tail[1..][..|tail| - 1] == tail[1..];
  }

  function NodeSpan(s: Document, id: string): Result<(nat, nat), Failure> {
    var start := FindNode(s, id);
    if start.None? then Err(NoSuchNode)
    else
      var length := Scan(s[start.value..], 0);
      if length.None? then Err(NeverCloses) else Ok((start.value, start.value + length.value))
  }

  // ----- replacing

  function FindTitle(s: Document): (r: Option<nat>)
    ensures r.Some? ==> r.value < |s| && s[r.value].Title? && forall i :: 0 <= i < r.value ==> !s[i].Title?
    ensures r.None? ==> forall i :: 0 <= i < |s| ==> !s[i].Title?
  {
    if s == [] then None
    else if s[0].Title? then Some(0)
    else
      var rest := FindTitle(s[1..]);
      if rest.None? then None else Some(rest.value + 1)
  }

  /** The node's new element: its own opening tag, the first title inside it, the body, a closing tag. */
  function Redrawn(element: Document, body: Document): Option<Document>
    requires element != []
  {
    var title := FindTitle(element);
    if title.None? then None else Some([element[0], element[title.value]] + body + [Close])
  }

  function Replaced(s: Document, id: string, body: Document): Result<Document, Failure> {
    var span := NodeSpan(s, id);
    if span.Err? then Err(span.error)
    else
      var (a, b) := span.value;
      var element := if a < b <= |s| then s[a..b] else [Close];
      var redrawn := Redrawn(element, body);
      if redrawn.None? || b > |s| then Err(NoTitle) else Ok(s[..a] + redrawn.value + s[b..])
  }

  predicate IsLegend(t: Token) {
    t.Open? && t.id.None? && LEGEND <= t.attributes
  }

  /** The first opening tag of a legend. */
  function FindLegend(s: Document): (r: Option<nat>)
    ensures r.Some? ==> r.value < |s| && IsLegend(s[r.value]) && forall i :: 0 <= i < r.value ==> !IsLegend(s[i])
    ensures r.None? ==> forall i :: 0 <= i < |s| ==> !IsLegend(s[i])
  {
    if s == [] then None
    else if IsLegend(s[0]) then Some(0)
    else
      var rest := FindLegend(s[1..]);
      if rest.None? then None else Some(rest.value + 1)
  }

  function WithoutLegend(s: Document): Document {
    var start := FindLegend(s);
    if start.None? then s
    else
      var length := Scan(s[start.value..], 0);
      if length.None? || start.value + length.value > |s| then s
      else s[..start.value] + s[start.value + length.value..]
  }

  function Shifted(r: Option<nat>, n: nat): Option<nat> {
    if r.None? then None else Some(r.value + n)
  }

  /** The script's document variable. */
  class Canvas {
    var s: Document

    constructor (source: Document)
      ensures s == source
    {
      s := source;
    }

    /** The counting loop, from an opening tag to where its element ends. */
    method EndOf(start: nat) returns (end: Option<nat>)
      requires start <= |s|
      ensures end == Shifted(Scan(s[start..], 0), start)
    {
      var depth, i := 0, start;
      while i < |s|
        invariant start <= i <= |s|
        invariant Scan(s[start..], 0) == Shifted(Scan(s[i..], depth), i - start)
      {
        var tag := s[i];
        depth, i := depth + Delta(tag), i + 1;
        assert s[i - 1..][1..] == s[i..];
        if Delta(tag) != 0 && depth == 0 {
          return Some(i);
        }
      }
      return None;
    }

    method Span(id: string) returns (r: Result<(nat, nat), Failure>)
      ensures r == NodeSpan(s, id)
    {
      var start := FindNode(s, id);
      if start.None? {
        return Err(NoSuchNode);
      }
      var end := EndOf(start.value);
      return if end.None? then Err(NeverCloses) else Ok((start.value, end.value));
    }

    method ReplaceNode(id: string, body: Document) returns (failure: Option<Failure>)
      modifies this
      ensures Replaced(old(s), id, body).Ok? ==> failure.None? && s == Replaced(old(s), id, body).value
      ensures Replaced(old(s), id, body).Err? ==> failure == Some(Replaced(old(s), id, body).error) && s == old(s)
    {
      var span := Span(id);
      if span.Err? {
        return Some(span.error);
      }
      var (start, end) := span.value;
      var element := s[start..end];
      var title := FindTitle(element);
      if title.None? {
        return Some(NoTitle);
      }
      s := s[..start] + ([element[0], element[title.value]] + body + [Close]) + s[end..];
      return None;
    }

    /** The legend loop: cut the legend's element out; a legend that never closes stays. */
    method RemoveLegend() returns (failure: Option<Failure>)
      modifies this
      ensures failure == if FindLegend(old(s)).None? then Some(NoSuchNode) else None
      ensures s == WithoutLegend(old(s))
    {
      var start := FindLegend(s);
      if start.None? {
        return Some(NoSuchNode);
      }
      var end := EndOf(start.value);
      if end.Some? {
        s := s[..start.value] + s[end.value..];
      }
      return None;
    }
  }

  // ----- what replacing keeps

  lemma DepthOfPrefix(a: Document, x: Document, b: Document, k: nat)
    requires k <= |a + x + b|
    ensures Depth((a + x + b)[..k]) ==
      if k <= |a| then Depth(a[..k])
      else if k <= |a| + |x| then Depth(a) + Depth(x[..k - |a|])
      else Depth(a) + Depth(x) + Depth(b[..k - |a| - |x|])
  {
    var s := a + x + b;
    if k <= |a| {
      assert s[..k] == a[..k];
    } else if k <= |a| + |x| {
      assert s[..k] == a + x[..k - |a|];
      DepthConcat(a, x[..k - |a|]);
    } else {
      assert s[..k] == (a + x) + b[..k - |a| - |x|];
      DepthConcat(a + x, b[..k - |a| - |x|]);
      DepthConcat(a, x);
    }
  }

  /** Swapping one balanced stretch for another keeps the whole balanced. */
  lemma SwapKeepsBalanced(a: Document, x: Document, y: Document, b: Document)
    requires Balanced(a + x + b) && Balanced(x) && Balanced(y)
    ensures Balanced(a + y + b)
  {
    var before, after := a + x + b, a + y + b;
    forall k | 0 <= k <= |after|
      ensures Depth(after[..k]) >= 0
    {
      DepthOfPrefix(a, y, b, k);
      var j := if k <= |a| then k else if k <= |a| + |y| then |a| else k - |y| + |x|;
      DepthOfPrefix(a, x, b, j);
      assert a[..|a|] == a && b[..0] == [] && x[..|x|] == x;
    }
    DepthConcat(a + x, b);
    DepthConcat(a, x);
    DepthConcat(a + y, b);
    DepthConcat(a, y);
  }

  lemma ElementIsBalanced(x: Document)
    requires IsElement(x)
    ensures Balanced(x)
  {
    forall k | 0 <= k <= |x|
      ensures Depth(x[..k]) >= 0
    {
      if k == |x| { assert x[..k] == x; }
    }
  }

  lemma RedrawnIsElement(element: Document, body: Document)
    requires element != [] && element[0].Open? && Redrawn(element, body).Some? && Balanced(body)
    ensures IsElement(Redrawn(element, body).value)
  {
    var redrawn := Redrawn(element, body).value;
    var head := redrawn[..2];
    assert redrawn == head + body + [Close];
    assert head[1..] == [head[1]] && [head[1]][..0] == [];
    DepthCons(head);
    assert Depth(head) == 1;
    assert [head[0]][..0] == [] && head[..1] == [head[0]];
    DepthConcat(head, body);
    DepthConcat(head + body, [Close]);
    assert [Close][..0] == [];
    forall k | 0 < k < |redrawn|
      ensures Depth(redrawn[..k]) > 0
    {
      if k == 1 {
        assert redrawn[..1] == head[..1];
      } else {
        assert redrawn[..k] == head + body[..k - 2];
        DepthConcat(head, body[..k - 2]);
      }
    }
  }

  /** A successful replacement touches the node's element and nothing before or after it. */
  lemma ReplacedShape(s: Document, id: string, body: Document) returns (a: nat, b: nat)
    requires Replaced(s, id, body).Ok?
    ensures NodeSpan(s, id) == Ok((a, b)) && a < b <= |s| && IsElement(s[a..b]) && IsNode(s[a], id)
    ensures Redrawn(s[a..b], body).Some? &&
      Replaced(s, id, body).value == s[..a] + Redrawn(s[a..b], body).value + s[b..]
  {
    var span := NodeSpan(s, id).value;
    a, b := span.0, span.1;
    SpanIsElement(s[a..]);
    assert s[a..][..b - a] == s[a..b];
  }

  lemma SwapAt(s: Document, a: nat, b: nat, body: Document)
    requires Balanced(s) && Balanced(body) && a < b <= |s| && IsElement(s[a..b]) && s[a].Open?
    requires Redrawn(s[a..b], body).Some?
    ensures Balanced(s[..a] + Redrawn(s[a..b], body).value + s[b..])
  {
    var element, redrawn := s[a..b], Redrawn(s[a..b], body).value;
    ElementIsBalanced(element);
    RedrawnIsElement(element, body);
    ElementIsBalanced(redrawn);
    assert s == s[..a] + element + s[b..];
    SwapKeepsBalanced(s[..a], element, redrawn, s[b..]);
  }

  lemma ReplacedIsBalanced(s: Document, id: string, body: Document)
    requires Balanced(s) && Balanced(body) && Replaced(s, id, body).Ok?
    ensures Balanced(Replaced(s, id, body).value)
  {
    var a, b := ReplacedShape(s, id, body);
    SwapAt(s, a, b, body);
  }

  /** In a balanced document an element starts at every opening tag. */
  lemma ElementAt(s: Document, a: nat) returns (b: nat)
    requires Balanced(s) && a < |s| && s[a].Open?
    ensures a < b <= |s| && Scan(s[a..], 0) == Some(b - a) && IsElement(s[a..b])
  {
    BalancedCloses(s, a);
    SpanIsElement(s[a..]);
    b := a + Scan(s[a..], 0).value;
    assert s[a..][..b - a] == s[a..b];
  }

  lemma CutKeepsBalanced(a: Document, x: Document, b: Document)
    requires Balanced(a + x + b) && IsElement(x)
    ensures Balanced(a + b)
  {
    ElementIsBalanced(x);
    SwapKeepsBalanced(a, x, [], b);
    assert a + [] + b == a + b;
  }

  /** An opening tag whose first attribute marks a legend. */
  predicate OpensLegend(t: Token) { t.Open? && t.id.None? && "data-legend=\"\"" <= t.attributes }

  /** Cutting the legend out of a balanced document takes exactly its element and leaves a balanced document. */
  lemma RemovalIsBalanced(s: Document) returns (a: nat, b: nat)
    requires Balanced(s) && FindLegend(s).Some?
    ensures FindLegend(s) == Some(a) && a < b <= |s| && IsElement(s[a..b])
    ensures OpensLegend(s[a]) && forall i :: 0 <= i < a ==> !OpensLegend(s[i])
    ensures WithoutLegend(s) == s[..a] + s[b..] && Balanced(WithoutLegend(s))
  {
    a := FindLegend(s).value;
    b := ElementAt(s, a);
    assert s[..b] == s[..a] + s[a..b];
    assert s == s[..b] + s[b..];
    CutKeepsBalanced(s[..a], s[a..b], s[b..]);
  }

  // ----- two nodes

  predicate Mentions(s: Document, id: string) {
    exists i :: 0 <= i < |s| && IsNode(s[i], id)
  }

  lemma {:induction false} FindAfter(p: Document, t: Document, id: string)
    requires !Mentions(p, id)
    ensures FindNode(p + t, id) == Shifted(FindNode(t, id), |p|)
  {
    if p == [] {
      assert p + t == t;
    } else {
      assert p[0] == (p + t)[0] && !IsNode(p[0], id);
      assert (p + t)[1..] == p[1..] + t;
      assert forall i :: 0 <= i < |p[1..]| ==> p[1..][i] == p[i + 1];
      FindAfter(p[1..], t, id);
    }
  }

  /** Where a node's element stands, whatever surrounds it. */
  lemma SpanAt(p: Document, x: Document, t: Document, id: string)
    requires !Mentions(p, id) && IsElement(x) && IsNode(x[0], id)
    ensures NodeSpan(p + x + t, id) == Ok((|p|, |p| + |x|))
  {
    var s := p + x + t;
    assert s == p + (x + t);
    FindAfter(p, x + t, id);
    assert FindNode(x + t, id) == Some(0);
    assert s[|p|..] == x + t;
    assert (x + t)[..|x|] == x;
    SpanIsElement(x + t);
  }

  lemma ReplacedAt(p: Document, x: Document, t: Document, id: string, body: Document)
    requires !Mentions(p, id) && IsElement(x) && IsNode(x[0], id)
    ensures Redrawn(x, body).Some? ==> Replaced(p + x + t, id, body) == Ok(p + Redrawn(x, body).value + t)
    ensures Redrawn(x, body).None? ==> Replaced(p + x + t, id, body) == Err(NoTitle)
  {
    SpanAt(p, x, t, id);
    var s := p + x + t;
    assert s[|p|..|p| + |x|] == x && s[..|p|] == p && s[|p| + |x|..] == t;
  }

  /** Two disjoint nodes: `x` first, then `y`, with text around and between. */
  predicate TwoNodes(p: Document, x: Document, m: Document, y: Document, idX: string, idY: string) {
    && IsElement(x) && IsNode(x[0], idX) && IsElement(y) && IsNode(y[0], idY) && idX != idY
    && !Mentions(p, idX) && !Mentions(p + x + m, idY)
  }

  lemma StillUnmentioned(p: Document, x: Document, m: Document, body: Document, idY: string)
    requires x != [] && !Mentions(p + x + m, idY) && !Mentions(body, idY) && Redrawn(x, body).Some?
    ensures !Mentions(p + Redrawn(x, body).value + m, idY)
  {
    var redrawn := Redrawn(x, body).value;
    var after, before := p + redrawn + m, p + x + m;
    forall i | 0 <= i < |after|
      ensures !IsNode(after[i], idY)
    {
      if i < |p| {
        assert after[i] == before[i];
      } else if i == |p| {
        assert after[i] == x[0] == before[|p|];
      } else if i < |p + redrawn| {
        var j := i - |p|;
        assert after[i] == redrawn[j];
        if 2 <= j < |redrawn| - 1 { assert redrawn[j] == body[j - 2]; }
      } else {
        assert after[i] == m[i - |p + redrawn|] == before[i - |p + redrawn| + |p + x|];
      }
    }
  }

  lemma Regroup(p: Document, x: Document, m: Document, y: Document, t: Document)
    ensures p + x + m + y + t == p + x + (m + y + t)
    ensures p + x + m + y + t == (p + x + m) + y + t
  {
    assert p + x + m + y + t == (p + x) + (m + y + t);
  }

  lemma FirstReplaced(p: Document, x: Document, m: Document, y: Document, t: Document, id: string, body: Document)
    requires !Mentions(p, id) && IsElement(x) && IsNode(x[0], id) && Redrawn(x, body).Some?
    ensures Replaced(p + x + m + y + t, id, body) == Ok(p + Redrawn(x, body).value + m + y + t)
  {
    Regroup(p, x, m, y, t);
    Regroup(p, Redrawn(x, body).value, m, y, t);
    ReplacedAt(p, x, m + y + t, id, body);
  }

  lemma SecondReplaced(p: Document, x: Document, m: Document, y: Document, t: Document, id: string, body: Document)
    requires !Mentions(p + x + m, id) && IsElement(y) && IsNode(y[0], id) && Redrawn(y, body).Some?
    ensures Replaced(p + x + m + y + t, id, body) == Ok(p + x + m + Redrawn(y, body).value + t)
  {
    Regroup(p, x, m, y, t);
    ReplacedAt(p + x + m, y, t, id, body);
  }

  /** The node's element in this document is `x`, with `before` characters of the document before it. */
  predicate StandsAt(s: Document, id: string, before: nat, x: Document) {
    NodeSpan(s, id) == Ok((before, before + |x|)) && before + |x| <= |s| && s[before..before + |x|] == x
  }

  /** An element that nothing before it mentions stands where it is. */
  lemma ElementStands(front: Document, x: Document, back: Document, id: string)
    requires !Mentions(front, id) && IsElement(x) && IsNode(x[0], id)
    ensures StandsAt(front + x + back, id, |front|, x)
  {
    SpanAt(front, x, back, id);
  }

  lemma LaterStands(p: Document, x: Document, m: Document, y: Document, t: Document, idX: string, idY: string,
                    body: Document)
    requires TwoNodes(p, x, m, y, idX, idY) && !Mentions(body, idY) && Redrawn(x, body).Some?
    ensures var front := p + Redrawn(x, body).value + m; StandsAt(front + y + t, idY, |front|, y)
  {
    StillUnmentioned(p, x, m, body, idY);
    ElementStands(p + Redrawn(x, body).value + m, y, t, idY);
  }

  /** Replacing `x` leaves the later node's element as it was, moved by the change in length. */
  lemma LaterNodeUnchanged(p: Document, x: Document, m: Document, y: Document, t: Document, idX: string, idY: string,
                           body: Document)
    requires TwoNodes(p, x, m, y, idX, idY) && !Mentions(body, idY) && Redrawn(x, body).Some?
    ensures
      var after := Replaced(p + x + m + y + t, idX, body);
      after.Ok? && StandsAt(after.value, idY, |p + Redrawn(x, body).value + m|, y)
  {
    FirstReplaced(p, x, m, y, t, idX, body);
    LaterStands(p, x, m, y, t, idX, idY, body);
  }

  lemma EarlierStands(p: Document, x: Document, m: Document, y: Document, t: Document, id: string)
    requires !Mentions(p, id) && IsElement(x) && IsNode(x[0], id)
    ensures StandsAt(p + x + m + y + t, id, |p|, x)
  {
    Regroup(p, x, m, y, t);
    ElementStands(p, x, m + y + t, id);
  }

  /** Replacing `y` leaves the earlier node's element where and as it was. */
  lemma EarlierNodeUnchanged(p: Document, x: Document, m: Document, y: Document, t: Document, idX: string, idY: string,
                             body: Document)
    requires TwoNodes(p, x, m, y, idX, idY) && Redrawn(y, body).Some?
    ensures
      var after := Replaced(p + x + m + y + t, idY, body);
      after.Ok? && StandsAt(after.value, idX, |p|, x)
  {
    SecondReplaced(p, x, m, y, t, idY, body);
    EarlierStands(p, x, m, Redrawn(y, body).value, t, idX);
  }

  /** The order in which two disjoint nodes are replaced does not matter. */
  lemma ReplacementsCommute(p: Document, x: Document, m: Document, y: Document, t: Document, idX: string, idY: string,
                            bodyX: Document, bodyY: Document)
    requires TwoNodes(p, x, m, y, idX, idY) && !Mentions(bodyX, idY)
    requires Redrawn(x, bodyX).Some? && Redrawn(y, bodyY).Some?
    ensures
      var s := p + x + m + y + t;
      var afterX, afterY := Replaced(s, idX, bodyX), Replaced(s, idY, bodyY);
      && afterX.Ok? && afterY.Ok?
      && Replaced(afterX.value, idY, bodyY) == Replaced(afterY.value, idX, bodyX)
      && Replaced(afterX.value, idY, bodyY).Ok?
  {
    FirstReplaced(p, x, m, y, t, idX, bodyX);
    StillUnmentioned(p, x, m, bodyX, idY);
    SecondReplaced(p, Redrawn(x, bodyX).value, m, y, t, idY, bodyY);
    SecondReplaced(p, x, m, y, t, idY, bodyY);
    FirstReplaced(p, x, m, Redrawn(y, bodyY).value, t, idX, bodyX);
  }

  // ----- exactly when the order matters

  /** Of two documents that agree, elements at the same place agree too. */
  lemma ElementsAgree(x: Document, t: Document, y: Document, u: Document)
    requires IsElement(x) && IsElement(y) && x[0].Open? && y[0].Open? && x + t == y + u
    ensures x == y && t == u
  {
    var s := x + t;
    assert s[..|x|] == x && s[..|y|] == y;
    ElementEndsScan(s, |x|);
    ElementEndsScan(s, |y|);
    assert s[|x|..] == t && s[|y|..] == u;
  }

  lemma InThree(s: Document, k: nat, e: nat)
    requires k <= e <= |s|
    ensures s == s[..k] + s[k..e] + s[e..]
  {
  }

  /** Where a node stands in a body that mentions it. */
  lemma MentionedElement(body: Document, id: string) returns (q: Document, z: Document, r: Document)
    requires Balanced(body) && Mentions(body, id)
    ensures body == q + z + r && !Mentions(q, id) && IsElement(z) && IsNode(z[0], id)
  {
    var k := FindNode(body, id).value;
    var e := ElementAt(body, k);
    q, z, r := body[..k], body[k..e], body[e..];
    InThree(body, k, e);
    assert forall i :: 0 <= i < |q| ==> q[i] == body[i];
  }

  /** What stands before and after a mention of the later node once the earlier one is redrawn. */
  function Front(p: Document, x: Document, q: Document): Document
    requires x != [] && FindTitle(x).Some?
  {
    p + [x[0], x[FindTitle(x).value]] + q
  }

  function Back(r: Document, m: Document): Document { r + [Close] + m }

  lemma MentionInPlace(p: Document, x: Document, m: Document, y: Document, t: Document, q: Document, z: Document,
                       r: Document)
    requires x != [] && FindTitle(x).Some?
    ensures p + Redrawn(x, q + z + r).value + m + y + t == Front(p, x, q) + z + (Back(r, m) + y + t)
  {
    var head := [x[0], x[FindTitle(x).value]];
    assert head + (q + z + r) + [Close] == head + q + z + r + [Close];
    assert p + (head + q + z + r + [Close]) + m == p + head + q + z + (r + [Close] + m);
  }

  lemma FrontUnmentioned(p: Document, x: Document, m: Document, q: Document, id: string)
    requires x != [] && FindTitle(x).Some? && !Mentions(p + x + m, id) && !Mentions(q, id)
    ensures !Mentions(Front(p, x, q), id)
  {
    var front := Front(p, x, q);
    StillUnmentioned(p, x, m, q, id);
    var early := p + Redrawn(x, q).value + m;
    assert forall i :: 0 <= i < |front| ==> front[i] == early[i];
  }

  /** Swapping inside agreeing surroundings: equal results mean equal parts. */
  lemma SwapsAgree(front: Document, z: Document, w: Document, back: Document, y: Document, v: Document, t: Document)
    requires IsElement(z) && IsElement(w) && z[0].Open? && w[0].Open?
    ensures front + w + (back + y + t) == front + z + (back + v + t) <==> w == z && y == v
  {
    if front + w + (back + y + t) == front + z + (back + v + t) {
      var n := |front|;
      assert (front + w + (back + y + t))[n..] == w + (back + y + t);
      assert (front + z + (back + v + t))[n..] == z + (back + v + t);
      ElementsAgree(w, back + y + t, z, back + v + t);
      var k := |back|;
      assert (back + y + t)[k..] == y + t && (back + v + t)[k..] == v + t;
      assert (y + t)[..|y|] == y && (v + t)[..|v|] == v;
    }
  }

  /** Both orders of replacement. */
  function XThenY(s: Document, idX: string, bodyX: Document, idY: string, bodyY: Document): Result<Document, Failure> {
    var first := Replaced(s, idX, bodyX);
    if first.Err? then first else Replaced(first.value, idY, bodyY)
  }

  /** The element is an opening tag, a title, this body, and a closing tag. */
  predicate HasDrawing(x: Document, body: Document) {
    |x| == |body| + 3 && x[1].Title? && x[2..|x| - 1] == body && x[|x| - 1] == Close
  }

  /** The node already has the second body, where the first body mentions it and in the document. */
  predicate AlreadyDrawn(bodyX: Document, y: Document, idY: string, bodyY: Document) {
    && NodeSpan(bodyX, idY).Ok?
    && var (a, b) := NodeSpan(bodyX, idY).value;
    a < b <= |bodyX| && HasDrawing(bodyX[a..b], bodyY) && HasDrawing(y, bodyY)
  }

  /** Redrawing an element changes nothing exactly when it already has this drawing. */
  lemma RedrawnIsSameIff(x: Document, body: Document)
    requires x != [] && x[0].Open?
    ensures Redrawn(x, body) == Some(x) <==> HasDrawing(x, body)
  {
    if Redrawn(x, body) == Some(x) {
      var head := [x[0], x[FindTitle(x).value]];
      assert x == head + body + [Close];
      assert x[1] == head[1] && x[2..|x| - 1] == body;
    }
    if HasDrawing(x, body) {
      assert FindTitle(x) == Some(1);
      assert x == [x[0], x[1]] + x[2..|x| - 1] + [x[|x| - 1]];
    }
  }

  /** The earlier node first: its body's mention is then what gets replaced. */
  lemma EarlierFirst(p: Document, x: Document, m: Document, y: Document, t: Document, idX: string, idY: string,
                     q: Document, z: Document, r: Document, bodyY: Document)
    requires TwoNodes(p, x, m, y, idX, idY) && FindTitle(x).Some?
    requires !Mentions(q, idY) && IsElement(z) && IsNode(z[0], idY)
    ensures XThenY(p + x + m + y + t, idX, q + z + r, idY, bodyY) ==
      if Redrawn(z, bodyY).None? then Err(NoTitle)
      else Ok(Front(p, x, q) + Redrawn(z, bodyY).value + (Back(r, m) + y + t))
  {
    FirstReplaced(p, x, m, y, t, idX, q + z + r);
    MentionInPlace(p, x, m, y, t, q, z, r);
    FrontUnmentioned(p, x, m, q, idY);
    ReplacedAt(Front(p, x, q), z, Back(r, m) + y + t, idY, bodyY);
  }

  lemma LaterFirst(p: Document, x: Document, m: Document, y: Document, t: Document, idX: string, idY: string,
                   q: Document, z: Document, r: Document, bodyY: Document)
    requires TwoNodes(p, x, m, y, idX, idY) && FindTitle(x).Some? && Redrawn(y, bodyY).Some?
    ensures XThenY(p + x + m + y + t, idY, bodyY, idX, q + z + r) ==
      Ok(Front(p, x, q) + z + (Back(r, m) + Redrawn(y, bodyY).value + t))
  {
    SecondReplaced(p, x, m, y, t, idY, bodyY);
    FirstReplaced(p, x, m, Redrawn(y, bodyY).value, t, idX, q + z + r);
    MentionInPlace(p, x, m, Redrawn(y, bodyY).value, t, q, z, r);
  }

  lemma AlreadyDrawnIff(q: Document, z: Document, r: Document, y: Document, idY: string, bodyY: Document)
    requires !Mentions(q, idY) && IsElement(z) && IsNode(z[0], idY) && y != [] && y[0].Open?
    ensures AlreadyDrawn(q + z + r, y, idY, bodyY) <==> Redrawn(z, bodyY) == Some(z) && Redrawn(y, bodyY) == Some(y)
  {
    SpanAt(q, z, r, idY);
    assert (q + z + r)[|q|..|q| + |z|] == z;
    RedrawnIsSameIff(z, bodyY);
    RedrawnIsSameIff(y, bodyY);
  }

  lemma MentionedOrder(p: Document, x: Document, m: Document, y: Document, t: Document, idX: string, idY: string,
                       q: Document, z: Document, r: Document, bodyY: Document)
    requires TwoNodes(p, x, m, y, idX, idY) && Balanced(bodyY)
    requires !Mentions(q, idY) && IsElement(z) && IsNode(z[0], idY)
    requires FindTitle(x).Some? && Redrawn(y, bodyY).Some?
    ensures
      var s, bodyX := p + x + m + y + t, q + z + r;
      XThenY(s, idX, bodyX, idY, bodyY) == XThenY(s, idY, bodyY, idX, bodyX) <==> AlreadyDrawn(bodyX, y, idY, bodyY)
  {
    EarlierFirst(p, x, m, y, t, idX, idY, q, z, r, bodyY);
    LaterFirst(p, x, m, y, t, idX, idY, q, z, r, bodyY);
    AlreadyDrawnIff(q, z, r, y, idY, bodyY);
    if Redrawn(z, bodyY).Some? {
      RedrawnIsElement(z, bodyY);
      SwapsAgree(Front(p, x, q), z, Redrawn(z, bodyY).value, Back(r, m), y, Redrawn(y, bodyY).value, t);
    }
  }

  /**
  Replacing two disjoint nodes with balanced bodies commutes if and only if the body of the earlier
  one does not mention the later one's identifier, or where it does, and in the document, the later
  node already has the body it would be redrawn with.
  */
  lemma ReplacementsCommuteIff(p: Document, x: Document, m: Document, y: Document, t: Document, idX: string,
                               idY: string,
                               bodyX: Document, bodyY: Document)
    requires TwoNodes(p, x, m, y, idX, idY) && Balanced(bodyX) && Balanced(bodyY)
    requires Redrawn(x, bodyX).Some? && Redrawn(y, bodyY).Some?
    ensures
      var s := p + x + m + y + t;
      XThenY(s, idX, bodyX, idY, bodyY) == XThenY(s, idY, bodyY, idX, bodyX)
      <==> !Mentions(bodyX, idY) || AlreadyDrawn(bodyX, y, idY, bodyY)
  {
    if Mentions(bodyX, idY) {
      var q, z, r := MentionedElement(bodyX, idY);
      MentionedOrder(p, x, m, y, t, idX, idY, q, z, r, bodyY);
    } else {
      ReplacementsCommute(p, x, m, y, t, idX, idY, bodyX, bodyY);
    }
  }

  // ----- an order that matters

  function Drawing(id: string, title: string): Document {
    [Open(Some(id), ""), Title(title), Close]
  }

  lemma DrawingIsElement(id: string, title: string)
    ensures IsElement(Drawing(id, title)) && Balanced(Drawing(id, title))
  {
    var d := Drawing(id, title);
    assert d[..1][..0] == [] && d[..2][..1] == d[..1];
    assert Depth(d[..1]) == 1;
    assert Depth(d[..2]) == Depth(d[..1]) + Delta(d[1]);
    assert Depth(d) == 0;
    ElementIsBalanced(d);
  }

  lemma DrawingRedrawn(id: string, title: string, body: Document)
    ensures Redrawn(Drawing(id, title), body) == Some([Open(Some(id), ""), Title(title)] + body + [Close])
  {
    assert Drawing(id, title)[1..][0] == Title(title);
  }

  /** Node "a" is redrawn with a body that draws a node "b" of its own; then "b" is redrawn. */
  lemma OrderCanMatter()
    ensures
      var s := Drawing("a", "A") + Drawing("b", "B");
      && Balanced(Drawing("b", "C")) && Balanced([Other("!")])
      && XThenY(s, "a", Drawing("b", "C"), "b", [Other("!")]) != XThenY(s, "b", [Other("!")], "a", Drawing("b", "C"))
  {
    var x, y, bodyX, bodyY := Drawing("a", "A"), Drawing("b", "B"), Drawing("b", "C"), [Other("!")];
    DrawingIsElement("a", "A");
    DrawingIsElement("b", "B");
    DrawingIsElement("b", "C");
    DrawingRedrawn("a", "A", bodyX);
    DrawingRedrawn("b", "B", bodyY);
    assert [Other("!")][..0] == [];
    assert Balanced(bodyY);
    assert [] + x + [] + y + [] == x + y;
    assert |Redrawn(y, bodyY).value| != |y|;
    assert IsNode(bodyX[0], "b");
    ReplacementsCommuteIff([], x, [], y, [], "a", "b", bodyX, bodyY);
  }
}
