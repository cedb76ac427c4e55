/**
The descendant walk of the namespace readback: a queue of processes, a set of those seen, children
confirmed by their parent identifier, and a bound of 64, over a process table that stands still.
*/
module ProcessWalk {
  import opened Wrappers
  import opened Sorting

  const BOUND := 64

  /** What `/proc` says of a process; `children` is the union over its tasks. */
  datatype Process = Process(ppid: nat, uids: seq<nat>, children: set<nat>)

  type Table = map<nat, Process>

  datatype Failure = DescendantBound | UidMismatch | NoSuchProcess

  /** A listed child that names this process as its parent. */
  predicate Edge(table: Table, p: nat, c: nat) {
    p in table && c in table[p].children && c in table && table[c].ppid == p
  }

  predicate IsPath(table: Table, path: seq<nat>) {
    path != [] && forall i :: 0 <= i < |path| - 1 ==> Edge(table, path[i], path[i + 1])
  }

  ghost predicate Reachable(table: Table, root: nat, pid: nat) {
    exists path :: IsPath(table, path) && path[0] == root && path[|path| - 1] == pid
  }

  ghost function Descendants(table: Table, root: nat): set<nat> {
    set pid | pid in table.Keys + {root} && Reachable(table, root, pid)
  }

  /** Nothing about this process makes the walk raise. */
  predicate Healthy(table: Table, uid: nat, pid: nat) {
    && pid in table
    && (forall i :: 0 <= i < |table[pid].uids| ==> table[pid].uids[i] == uid)
    && table[pid].children <= table.Keys
  }

  ghost predicate AllHealthy(table: Table, uid: nat, root: nat) {
    forall pid :: Reachable(table, root, pid) ==> Healthy(table, uid, pid)
  }

  lemma RootReachable(table: Table, root: nat)
    ensures Reachable(table, root, root)
  {
    assert IsPath(table, [root]);
  }

  lemma ReachableStep(table: Table, root: nat, p: nat, c: nat)
    requires Reachable(table, root, p) && Edge(table, p, c)
    ensures Reachable(table, root, c)
  {
    var path :| IsPath(table, path) && path[0] == root && path[|path| - 1] == p;
    assert IsPath(table, path + [c]);
  }

  lemma {:induction false} PathStays(table: Table, path: seq<nat>, closed: set<nat>, k: nat)
    requires IsPath(table, path) && k < |path| && path[0] in closed
    requires forall p, c :: p in closed && Edge(table, p, c) ==> c in closed
    ensures path[k] in closed
  {
    if k > 0 {
      PathStays(table, path, closed, k - 1);
      assert Edge(table, path[k - 1], path[k]);
    }
  }

  /** A set with the root that is closed under confirmed edges holds every descendant. */
  lemma ClosedHoldsAll(table: Table, root: nat, closed: set<nat>, pid: nat)
    requires root in closed && forall p, c :: p in closed && Edge(table, p, c) ==> c in closed
    requires Reachable(table, root, pid)
    ensures pid in closed
  {
    var path :| IsPath(table, path) && path[0] == root && path[|path| - 1] == pid;
    PathStays(table, path, closed, |path| - 1);
  }

  /** Every row after the root comes after the row of its parent. */
  predicate ParentsFirst(table: Table, rows: seq<nat>) {
    forall i :: 0 < i < |rows| ==> rows[i] in table && table[rows[i]].ppid in rows[..i]
  }

  predicate Precedes(rows: seq<nat>, a: nat, b: nat) {
    exists k, l :: 0 <= k < l < |rows| && rows[k] == a && rows[l] == b
  }

  predicate Before(table: Table, rows: seq<nat>, x: nat, y: nat) {
    && x in table && y in table
    && (table[x].ppid == table[y].ppid ==> x < y)
    && (table[x].ppid != table[y].ppid ==> Precedes(rows, table[x].ppid, table[y].ppid))
  }

  /**
  Breadth first: of two processes listed after the root, the earlier one's parent is not listed
  after the later one's, and among children of one parent the smaller identifier comes first.
  */
  predicate BreadthFirst(table: Table, root: nat, rows: seq<nat>, order: seq<nat>) {
    forall i, j :: 0 <= i < j < |order| && order[i] != root && order[j] != root ==>
      Before(table, rows, order[i], order[j])
  }

  // ----- the state of the walk

  predicate Distinct(rows: seq<nat>) {
    forall i, j :: 0 <= i < j < |rows| ==> rows[i] != rows[j]
  }

  ghost predicate Visited(table: Table, uid: nat, root: nat, rows: seq<nat>, seen: set<nat>) {
    && (forall x :: x in rows <==> x in seen)
    && Distinct(rows)
    && |rows| == |seen| <= BOUND
    && (rows != [] ==> rows[0] == root)
    && (forall x :: x in rows ==> Reachable(table, root, x) && Healthy(table, uid, x))
    && ParentsFirst(table, rows)
  }

  /** What waits in the queue was reached from a row; what a row leads to is seen or waits. */
  ghost predicate Waiting(table: Table, root: nat, rows: seq<nat>, seen: set<nat>, queue: seq<nat>) {
    && (root in seen || root in queue)
    && (rows == [] ==> queue == [root])
    && (forall x :: x in queue ==> x == root || (x in table && table[x].ppid in rows && Edge(table, table[x].ppid, x)))
    && (forall p, c :: p in rows && Edge(table, p, c) ==> c in seen || c in queue)
  }

  method ConfirmedChildren(table: Table, pid: nat) returns (confirmed: Option<seq<nat>>)
    requires pid in table
    ensures confirmed.Some? <==> table[pid].children <= table.Keys
    ensures confirmed.Some? ==> forall c :: c in confirmed.value <==> Edge(table, pid, c)
    ensures confirmed.Some? ==> StrictlySorted(confirmed.value)
  {
    var children := SortedSet(table[pid].children);
    var kept: seq<nat> := [];
    for i := 0 to |children|
      invariant forall j :: 0 <= j < i ==> children[j] in table
      invariant forall c :: c in kept <==> c in children[..i] && Edge(table, pid, c)
      invariant StrictlySorted(kept) && (kept != [] ==> i > 0 && kept[|kept| - 1] <= children[i - 1])
    {
      assert children[i] in children;
      assert children[..i + 1] == children[..i] + [children[i]];
      if children[i] !in table {
        return None;
      }
      if table[children[i]].ppid == pid {
        kept := kept + [children[i]];
      }
    }
    assert children[..|children|] == children;
    return Some(kept);
  }

  lemma ParentsGrow(table: Table, rows: seq<nat>, pid: nat)
    requires ParentsFirst(table, rows) && (rows != [] ==> pid in table && table[pid].ppid in rows)
    ensures ParentsFirst(table, rows + [pid])
  {
    var after := rows + [pid];
    forall i | 0 < i < |after|
      ensures after[i] in table && table[after[i]].ppid in after[..i]
    {
      assert after[..i] == rows[..i];
    }
  }

  lemma VisitedGrows(table: Table, uid: nat, root: nat, rows: seq<nat>, seen: set<nat>, pid: nat)
    requires Visited(table, uid, root, rows, seen) && pid !in seen && |seen| < BOUND
    requires Healthy(table, uid, pid) && Reachable(table, root, pid)
    requires if rows == [] then pid == root else table[pid].ppid in rows
    ensures Visited(table, uid, root, rows + [pid], seen + {pid})
  {
    ParentsGrow(table, rows, pid);
  }

  lemma WaitingGrows(table: Table, root: nat, rows: seq<nat>, seen: set<nat>, queue: seq<nat>, pid: nat,
                     children: seq<nat>)
    requires Waiting(table, root, rows, seen, [pid] + queue)
    requires forall c :: c in children <==> Edge(table, pid, c)
    ensures Waiting(table, root, rows + [pid], seen + {pid}, queue + children)
  {
    assert forall x :: x in [pid] + queue <==> x == pid || x in queue;
    forall x | x in queue + children
      ensures x == root || (x in table && table[x].ppid in rows + [pid] && Edge(table, table[x].ppid, x))
    {
      if x in children {
        assert Edge(table, pid, x);
      }
    }
  }

  lemma FrontsParent(table: Table, root: nat, rows: seq<nat>, seen: set<nat>, queue: seq<nat>, pid: nat)
    requires Waiting(table, root, rows, seen, [pid] + queue) && (rows != [] ==> root in rows) && pid !in rows &&
      pid in table
    ensures if rows == [] then pid == root else table[pid].ppid in rows
  {
    assert ([pid] + queue)[0] == pid;
    assert pid in [pid] + queue;
  }

  lemma QueuedReachable(table: Table, uid: nat, root: nat, rows: seq<nat>, seen: set<nat>, queue: seq<nat>, pid: nat)
    requires Visited(table, uid, root, rows, seen) && Waiting(table, root, rows, seen, queue) && pid in queue
    ensures Reachable(table, root, pid) && pid in table.Keys + {root}
  {
    if pid == root {
      RootReachable(table, root);
    } else {
      ReachableStep(table, root, table[pid].ppid, pid);
    }
  }

  lemma VisitOne(table: Table, uid: nat, root: nat, rows: seq<nat>, seen: set<nat>, queue: seq<nat>, pid: nat,
                 children: seq<nat>)
    requires Visited(table, uid, root, rows, seen) && Waiting(table, root, rows, seen, [pid] + queue)
    requires pid !in seen && |seen| < BOUND && Healthy(table, uid, pid)
    requires forall c :: c in children <==> Edge(table, pid, c)
    ensures Visited(table, uid, root, rows + [pid], seen + {pid})
    ensures Waiting(table, root, rows + [pid], seen + {pid}, queue + children)
  {
    assert pid in [pid] + queue;
    QueuedReachable(table, uid, root, rows, seen, [pid] + queue, pid);
    FrontsParent(table, root, rows, seen, queue, pid);
    VisitedGrows(table, uid, root, rows, seen, pid);
    WaitingGrows(table, root, rows, seen, queue, pid, children);
  }

  lemma RowsExtend(table: Table, root: nat, rows: seq<nat>, pid: nat, order: seq<nat>)
    requires BreadthFirst(table, root, rows, order)
    ensures BreadthFirst(table, root, rows + [pid], order)
  {
    var longer := rows + [pid];
    forall i, j | 0 <= i < j < |order| && order[i] != root && order[j] != root
      ensures Before(table, longer, order[i], order[j])
    {
      var x, y := order[i], order[j];
      assert Before(table, rows, x, y);
      if table[x].ppid != table[y].ppid {
        var k, l :| 0 <= k < l < |rows| && rows[k] == table[x].ppid && rows[l] == table[y].ppid;
        assert longer[k] == rows[k] && longer[l] == rows[l];
      }
    }
  }

  /** The children of the process just listed come after everything that was waiting. */
  lemma ChildrenWaitLast(table: Table, root: nat, rows: seq<nat>, pid: nat, order: seq<nat>, children: seq<nat>)
    requires BreadthFirst(table, root, rows, order) && pid !in rows
    requires forall x :: x in order && x != root ==> x in table && table[x].ppid in rows
    requires StrictlySorted(children) && forall c :: c in children ==> Edge(table, pid, c)
    ensures BreadthFirst(table, root, rows + [pid], order + children)
  {
    RowsExtend(table, root, rows, pid, order);
    var longer, after := rows + [pid], order + children;
    forall i, j | 0 <= i < j < |after| && after[i] != root && after[j] != root
      ensures Before(table, longer, after[i], after[j])
    {
      var x, y := after[i], after[j];
      if j < |order| {
        assert x == order[i] && y == order[j];
      } else {
        assert y == children[j - |order|] && y in children && Edge(table, pid, y);
        if i < |order| {
          assert x in order;
          var k :| 0 <= k < |rows| && rows[k] == table[x].ppid;
          assert longer[k] == table[x].ppid && longer[|rows|] == pid;
        } else {
          assert x == children[i - |order|] && x in children && Edge(table, pid, x);
        }
      }
    }
  }

  lemma SeenDropped(table: Table, root: nat, rows: seq<nat>, pid: nat, queue: seq<nat>)
    requires BreadthFirst(table, root, rows, rows + ([pid] + queue))
    ensures BreadthFirst(table, root, rows, rows + queue)
  {
    var before, after := rows + ([pid] + queue), rows + queue;
    assert forall i :: 0 <= i < |after| ==> after[i] == before[if i < |rows| then i else i + 1];
  }

  /** Everything listed or waiting, the root aside, has its parent among the rows. */
  lemma OrderParents(table: Table, uid: nat, root: nat, rows: seq<nat>, seen: set<nat>, queue: seq<nat>)
    requires Visited(table, uid, root, rows, seen) && Waiting(table, root, rows, seen, queue)
    ensures forall x :: x in rows + queue && x != root ==> x in table && table[x].ppid in rows
  {
    forall x | x in rows + queue && x != root
      ensures x in table && table[x].ppid in rows
    {
      if x in rows {
        var i :| 0 <= i < |rows| && rows[i] == x;
        assert table[rows[i]].ppid in rows[..i];
      } else {
        assert x in queue;
      }
    }
  }

  /** Listing the front of the queue and queueing its children keeps the order breadth first. */
  lemma OrderKept(table: Table, root: nat, rows: seq<nat>, queue: seq<nat>, pid: nat, children: seq<nat>)
    requires BreadthFirst(table, root, rows, rows + ([pid] + queue)) && pid !in rows
    requires forall x :: x in rows + ([pid] + queue) && x != root ==> x in table && table[x].ppid in rows
    requires StrictlySorted(children) && forall c :: c in children ==> Edge(table, pid, c)
    ensures BreadthFirst(table, root, rows + [pid], (rows + [pid]) + (queue + children))
  {
    ChildrenWaitLast(table, root, rows, pid, rows + ([pid] + queue), children);
    assert (rows + ([pid] + queue)) + children == (rows + [pid]) + (queue + children);
  }

  lemma SeenWithin(table: Table, uid: nat, root: nat, rows: seq<nat>, seen: set<nat>)
    requires Visited(table, uid, root, rows, seen)
    ensures seen <= Descendants(table, root)
  {
    forall x | x in seen
      ensures x in Descendants(table, root)
    {
      assert x in rows;
    }
  }

  lemma SubsetSize(a: set<nat>, b: set<nat>)
    requires a <= b
    ensures |a| <= |b|
  {
    assert b == a + (b - a);
  }

  lemma BoundExceeded(table: Table, uid: nat, root: nat, rows: seq<nat>, seen: set<nat>, pid: nat)
    requires Visited(table, uid, root, rows, seen) && |seen| == BOUND
    requires pid !in seen && Reachable(table, root, pid) && pid in table.Keys + {root}
    ensures |Descendants(table, root)| > BOUND
  {
    SeenWithin(table, uid, root, rows, seen);
    assert seen + {pid} <= Descendants(table, root);
    SubsetSize(seen + {pid}, Descendants(table, root));
  }

  lemma WalkIsComplete(table: Table, uid: nat, root: nat, rows: seq<nat>, seen: set<nat>)
    requires Visited(table, uid, root, rows, seen) && Waiting(table, root, rows, seen, [])
    ensures seen == Descendants(table, root)
    ensures forall pid :: Reachable(table, root, pid) <==> pid in rows
  {
    SeenWithin(table, uid, root, rows, seen);
    forall pid | Reachable(table, root, pid)
      ensures pid in seen
    {
      ClosedHoldsAll(table, root, seen, pid);
    }
  }

  /** A complete listing: the root first, everything once, parents first, breadth first. */
  predicate Listing(table: Table, root: nat, rows: seq<nat>) {
    && rows != [] && rows[0] == root
    && Distinct(rows) && ParentsFirst(table, rows) && BreadthFirst(table, root, rows, rows)
  }

  /** Both parents are listed in `w`, and by parent and then by identifier `x` goes before `y`. */
  predicate Ahead(table: Table, w: seq<nat>, x: nat, y: nat) {
    x in table && y in table
    && if table[x].ppid == table[y].ppid then x < y else Precedes(w, table[x].ppid, table[y].ppid)
  }

  lemma EarlyPrecedes(a: seq<nat>, k: nat, p: nat, q: nat)
    requires Distinct(a) && k <= |a| && Precedes(a, p, q) && q in a[..k]
    ensures Precedes(a[..k], p, q)
  {
    var i, j :| 0 <= i < j < |a| && a[i] == p && a[j] == q;
    var l :| 0 <= l < k && a[..k][l] == q;
    assert a[l] == q;
    assert a[..k][i] == p && a[..k][j] == q;
  }

  /** The next process listed goes before every other one whose parent is listed already. */
  lemma NextIsLeast(table: Table, root: nat, a: seq<nat>, k: nat, y: nat)
    requires Listing(table, root, a) && 0 < k < |a| && y in a[k + 1..] && y in table && table[y].ppid in a[..k]
    ensures Ahead(table, a[..k], a[k], y)
  {
    var i :| k < i < |a| && a[i] == y;
    var x := a[k];
    assert Before(table, a, x, y);
    if table[x].ppid != table[y].ppid {
      EarlyPrecedes(a, k, table[x].ppid, table[y].ppid);
    }
  }

  /** What is listed after the first `k` is listed there in the other order too. */
  lemma SameRest(a: seq<nat>, b: seq<nat>, k: nat, x: nat)
    requires Distinct(b) && k < |a| && k < |b| && a[..k] == b[..k] && x in a && x != a[k] && x in b[k..]
    ensures x in a[k + 1..]
  {
    var i :| 0 <= i < |a| && a[i] == x;
    var j :| k <= j < |b| && b[j] == x;
    assert forall l :: 0 <= l < k ==> a[l] == a[..k][l] && b[l] == b[..k][l];
    assert i > k;
    assert a[k + 1..][i - k - 1] == x;
  }

  lemma NextIsSame(table: Table, root: nat, a: seq<nat>, b: seq<nat>, k: nat)
    requires Listing(table, root, a) && Listing(table, root, b) && forall x :: x in a <==> x in b
    requires 0 < k < |a| && k < |b| && a[..k] == b[..k]
    ensures a[k] == b[k]
  {
    var w, x, y := a[..k], a[k], b[k];
    assert x in table && table[x].ppid in w && y in table && table[y].ppid in w;
    assert x in b && y in a && x in a[k..] && y in b[k..];
    if y in a[k + 1..] {
      NextIsLeast(table, root, a, k, y);
    } else if y != x {
      SameRest(a, b, k, y);
    }
    if x in b[k + 1..] {
      NextIsLeast(table, root, b, k, x);
    } else if y != x {
      SameRest(b, a, k, x);
    }
  }

  lemma PrefixGrows(a: seq<nat>, b: seq<nat>, k: nat)
    requires k < |a| && k < |b| && a[..k] == b[..k] && a[k] == b[k]
    ensures a[..k + 1] == b[..k + 1]
  {
    assert a[..k + 1] == a[..k] + [a[k]];
    assert b[..k + 1] == b[..k] + [b[k]];
  }

  lemma {:induction false} PrefixIsSame(table: Table, root: nat, a: seq<nat>, b: seq<nat>, k: nat)
    requires Listing(table, root, a) && Listing(table, root, b) && forall x :: x in a <==> x in b
    requires 0 < k <= |a| == |b|
    ensures a[..k] == b[..k]
  {
    if k > 1 {
      PrefixIsSame(table, root, a, b, k - 1);
      NextIsSame(table, root, a, b, k - 1);
      PrefixGrows(a, b, k - 1);
    }
  }

  function Members(rows: seq<nat>): set<nat> { set x | x in rows }

  lemma {:induction false} DistinctSize(a: seq<nat>)
    requires Distinct(a)
    ensures |Members(a)| == |a|
  {
    if a != [] {
      var init, last := a[..|a| - 1], a[|a| - 1];
      DistinctSize(init);
      assert last !in Members(init);
      assert a == init + [last];
      assert Members(a) == Members(init) + {last};
    }
  }

  lemma SameLength(a: seq<nat>, b: seq<nat>)
    requires Distinct(a) && Distinct(b) && forall x :: x in a <==> x in b
    ensures |a| == |b|
  {
    DistinctSize(a);
    DistinctSize(b);
    assert Members(a) == Members(b);
  }

  /** The promises of the walk leave one possible result. */
  lemma ListingIsUnique(table: Table, root: nat, a: seq<nat>, b: seq<nat>)
    requires Listing(table, root, a) && Listing(table, root, b) && forall x :: x in a <==> x in b
    ensures a == b
  {
    SameLength(a, b);
    PrefixIsSame(table, root, a, b, |a|);
    assert a[..|a|] == a && b[..|a|] == b;
  }

  /** The walk has listed these rows, seen these processes, and has this queue before it. */
  ghost predicate Walking(table: Table, uid: nat, root: nat, rows: seq<nat>, seen: set<nat>, queue: seq<nat>) {
    && Visited(table, uid, root, rows, seen) && Waiting(table, root, rows, seen, queue)
    && BreadthFirst(table, root, rows, rows + queue)
  }

  lemma FrontReachable(table: Table, uid: nat, root: nat, rows: seq<nat>, seen: set<nat>, pid: nat, queue: seq<nat>)
    requires Walking(table, uid, root, rows, seen, [pid] + queue)
    ensures Reachable(table, root, pid) && pid in table.Keys + {root}
  {
    assert pid in [pid] + queue;
    QueuedReachable(table, uid, root, rows, seen, [pid] + queue, pid);
  }

  lemma WalkDrops(table: Table, uid: nat, root: nat, rows: seq<nat>, seen: set<nat>, pid: nat, queue: seq<nat>)
    requires Walking(table, uid, root, rows, seen, [pid] + queue) && pid in seen
    ensures Walking(table, uid, root, rows, seen, queue)
  {
    SeenDropped(table, root, rows, pid, queue);
  }

  lemma WalkVisits(table: Table, uid: nat, root: nat, rows: seq<nat>, seen: set<nat>, pid: nat, queue: seq<nat>,
                   children: seq<nat>)
    requires Walking(table, uid, root, rows, seen, [pid] + queue)
    requires pid !in seen && |seen| < BOUND && Healthy(table, uid, pid)
    requires StrictlySorted(children) && forall c :: c in children <==> Edge(table, pid, c)
    ensures Walking(table, uid, root, rows + [pid], seen + {pid}, queue + children)
  {
    VisitOne(table, uid, root, rows, seen, queue, pid, children);
    OrderParents(table, uid, root, rows, seen, [pid] + queue);
    OrderKept(table, root, rows, queue, pid, children);
  }

  lemma WalkEnds(table: Table, uid: nat, root: nat, rows: seq<nat>, seen: set<nat>)
    requires Walking(table, uid, root, rows, seen, [])
    ensures AllHealthy(table, uid, root) && |Descendants(table, root)| <= BOUND
    ensures forall pid :: pid in rows <==> Reachable(table, root, pid)
    ensures Listing(table, root, rows)
  {
    WalkIsComplete(table, uid, root, rows, seen);
    assert rows + [] == rows;
  }

  /** What the loop reads of one process: the children to queue, or why the walk fails. */
  method Inspect(table: Table, uid: nat, pid: nat) returns (r: Result<seq<nat>, Failure>)
    ensures r.Ok? <==> Healthy(table, uid, pid)
    ensures r.Ok? ==> StrictlySorted(r.value) && forall c :: c in r.value <==> Edge(table, pid, c)
    ensures r != Err(DescendantBound)
  {
    if pid !in table {
      return Err(NoSuchProcess);
    }
    if exists i :: 0 <= i < |table[pid].uids| && table[pid].uids[i] != uid {
      return Err(UidMismatch);
    }
    var confirmed := ConfirmedChildren(table, pid);
    return if confirmed.None? then Err(NoSuchProcess) else Ok(confirmed.value);
  }

  method Walk(table: Table, root: nat, uid: nat) returns (r: Result<seq<nat>, Failure>)
    ensures r.Ok? <==> AllHealthy(table, uid, root) && |Descendants(table, root)| <= 64
    ensures r.Ok? ==> forall pid :: pid in r.value <==> Reachable(table, root, pid)
    ensures r.Ok? ==> Listing(table, root, r.value)
    ensures AllHealthy(table, uid, root) ==> (r == Err(DescendantBound) <==> |Descendants(table, root)| > 64)
  {
    var rows: seq<nat>, queue: seq<nat>, seen: set<nat> := [], [root], {};
    while queue != []
      invariant Walking(table, uid, root, rows, seen, queue)
      invariant |seen| <= BOUND
      decreases BOUND - |seen|, |queue|
    {
      var pid := queue[0];
      assert queue == [pid] + queue[1..];
      queue := queue[1..];
      FrontReachable(table, uid, root, rows, seen, pid, queue);
      if pid in seen {
        WalkDrops(table, uid, root, rows, seen, pid, queue);
        continue;
      }
      if |seen| >= BOUND {
        BoundExceeded(table, uid, root, rows, seen, pid);
        return Err(DescendantBound);
      }
      var children := Inspect(table, uid, pid);
      if children.Err? {
        return Err(children.error);
      }
      WalkVisits(table, uid, root, rows, seen, pid, queue, children.value);
      rows, seen, queue := rows + [pid], seen + {pid}, queue + children.value;
    }
    WalkEnds(table, uid, root, rows, seen);
    return Ok(rows);
  }
}
