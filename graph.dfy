/**
 * Walks over a directed graph given by adjacency lists on the vertices
 * `0 .. |adj| - 1`: the reference definitions the breadth-first searches
 * over the room lattice are proved against.
 */
module Graphs {

  /** `adj[u]` lists the successors of vertex `u`, in the order a search visits them. */
  type Adj = seq<seq<nat>>

  predicate WellFormed(adj: Adj) {
    forall u, i :: 0 <= u < |adj| && 0 <= i < |adj[u]| ==> adj[u][i] < |adj|
  }

  /** A hop count from the source: finite, or `float('inf')` for a vertex no walk reaches. */
  datatype Distance = Finite(n: nat) | Infinite

  /** The `i`-th step of `p` follows an edge. */
  ghost predicate EdgeAt(adj: Adj, p: seq<nat>, i: nat)
    requires i + 1 < |p|
  {
    p[i] < |adj| && p[i + 1] in adj[p[i]]
  }

  ghost predicate IsWalk(adj: Adj, p: seq<nat>) {
    |p| > 0 && p[0] < |adj| &&
    forall i: nat :: i + 1 < |p| ==> EdgeAt(adj, p, i)
  }

  /** `t` is reached from `s` by a walk of exactly `k` edges. */
  ghost predicate WalkOf(adj: Adj, s: nat, t: nat, k: nat) {
    exists p :: IsWalk(adj, p) && |p| == k + 1 && p[0] == s && p[k] == t
  }

  ghost predicate Reachable(adj: Adj, s: nat, t: nat) {
    exists k :: WalkOf(adj, s, t, k)
  }

  /** The numbers below `n`. */
  function Below(n: nat): (vs: set<nat>)
    ensures forall v: nat :: v in vs <==> v < n
    ensures |vs| == n
  {
    if n == 0 then {} else Below(n - 1) + {n - 1}
  }

  lemma WalkZero(adj: Adj, s: nat)
    requires s < |adj|
    ensures WalkOf(adj, s, s, 0)
  {
    assert IsWalk(adj, [s]);
  }

  lemma WalkZeroIsStart(adj: Adj, s: nat, t: nat)
    requires WalkOf(adj, s, t, 0)
    ensures t == s
  {
  }

  /** A walk to `u` followed by an edge of `u` is a walk one edge longer. */
  lemma WalkExtend(adj: Adj, s: nat, u: nat, k: nat, w: nat)
    requires WalkOf(adj, s, u, k) && u < |adj| && w in adj[u]
    ensures WalkOf(adj, s, w, k + 1)
  {
    var p :| IsWalk(adj, p) && |p| == k + 1 && p[0] == s && p[k] == u;
    var q := p + [w];
    assert IsWalk(adj, q) by {
      forall i: nat | i + 1 < |q|
        ensures EdgeAt(adj, q, i)
      {
        if i + 1 < |p| {
          assert EdgeAt(adj, p, i);
          assert q[i] == p[i] && q[i + 1] == p[i + 1];
        }
      }
    }
    assert q[k + 1] == w;
  }

  /** The last edge of a walk of `k > 0` edges comes from a vertex reached in `k - 1`. */
  lemma WalkLast(adj: Adj, s: nat, t: nat, k: nat) returns (u: nat)
    requires WalkOf(adj, s, t, k) && k > 0
    ensures WalkOf(adj, s, u, k - 1) && u < |adj| && t in adj[u]
  {
    var p :| IsWalk(adj, p) && |p| == k + 1 && p[0] == s && p[k] == t;
    u := p[k - 1];
    assert EdgeAt(adj, p, k - 1);
    var q := p[..k];
    assert IsWalk(adj, q) by {
      forall i: nat | i + 1 < |q|
        ensures EdgeAt(adj, q, i)
      {
        assert EdgeAt(adj, p, i);
        assert q[i] == p[i] && q[i + 1] == p[i + 1];
      }
    }
    assert q[k - 1] == u;
  }

  /** Every walk of a well-formed graph ends at a vertex. */
  lemma WalkEndsAtVertex(adj: Adj, s: nat, t: nat, k: nat)
    requires WellFormed(adj) && WalkOf(adj, s, t, k)
    ensures t < |adj|
  {
    if k > 0 {
      var u := WalkLast(adj, s, t, k);
      var i :| 0 <= i < |adj[u]| && adj[u][i] == t;
    }
  }

  /**
   * A set that holds the source and every successor of its members holds
   * every vertex reachable from the source.
   */
  lemma {:induction false} ClosedHoldsWalks(adj: Adj, s: nat, S: set<nat>, t: nat, k: nat)
    requires s in S && Closed(adj, S)
    ensures WalkOf(adj, s, t, k) ==> t in S
    decreases k
  {
    if WalkOf(adj, s, t, k) && k > 0 {
      var u := WalkLast(adj, s, t, k);
      ClosedHoldsWalks(adj, s, S, u, k - 1);
    }
  }

  /** A finite set of numbers below `n` has at most `n` members. */
  lemma {:induction false} BoundedSetSize(vs: set<nat>, n: nat)
    requires forall v :: v in vs ==> v < n
    ensures |vs| <= n
    decreases n
  {
    if n > 0 {
      BoundedSetSize(vs - {n - 1}, n - 1);
    } else {
      assert vs == {};
    }
  }

  /** `S` holds every successor of each of its members. */
  ghost predicate Closed(adj: Adj, S: set<nat>) {
    forall v, w :: v in S && v < |adj| && w in adj[v] ==> w in S
  }

  /** `t` is at hop distance `d` from `s`: `d` edges reach it and fewer do not, or nothing does. */
  ghost predicate IsHopDistance(adj: Adj, s: nat, t: nat, d: Distance) {
    match d
    case Finite(n) => WalkOf(adj, s, t, n) && forall k: nat :: k < n ==> !WalkOf(adj, s, t, k)
    case Infinite => forall k :: !WalkOf(adj, s, t, k)
  }

  lemma HopDistanceUnique(adj: Adj, s: nat, t: nat, d1: Distance, d2: Distance)
    requires IsHopDistance(adj, s, t, d1) && IsHopDistance(adj, s, t, d2)
    ensures d1 == d2
  {
  }

  // Breadth-first search bookkeeping over a queue of (vertex, hops) pairs.

  /** The vertices waiting in the queue. */
  function QueuedVertices(queue: seq<(nat, nat)>): set<nat> {
    set j | 0 <= j < |queue| :: queue[j].0
  }

  lemma QueuedAppend(queue: seq<(nat, nat)>, e: (nat, nat))
    ensures QueuedVertices(queue + [e]) == QueuedVertices(queue) + {e.0}
  {
    var q := queue + [e];
    assert forall j :: 0 <= j < |queue| ==> q[j] == queue[j];
    assert q[|queue|] == e;
  }

  lemma QueuedTail(queue: seq<(nat, nat)>)
    requires queue != []
    ensures QueuedVertices(queue) == QueuedVertices(queue[1..]) + {queue[0].0}
  {
    var q := queue[1..];
    assert forall j :: 0 <= j < |q| ==> q[j] == queue[j + 1];
    forall v | v in QueuedVertices(queue)
      ensures v in QueuedVertices(q) + {queue[0].0}
    {
      var j :| 0 <= j < |queue| && queue[j].0 == v;
      if j > 0 {
        assert q[j - 1].0 == v;
      }
    }
  }

  /** Every visited vertex has a recorded hop count that some walk from `s` realises. */
  ghost predicate DistSound(adj: Adj, s: nat, visited: set<nat>, dist: map<nat, nat>) {
    forall v :: v in visited ==> v in dist && v < |adj| && WalkOf(adj, s, v, dist[v])
  }

  /** No walk to a visited vertex is shorter than its recorded hop count. */
  ghost predicate DistMinimal(adj: Adj, s: nat, visited: set<nat>, dist: map<nat, nat>) {
    forall v, k :: v in visited && v in dist && WalkOf(adj, s, v, k) ==> dist[v] <= k
  }

  /** Every visited vertex not in `pending` has had all its successors visited. */
  ghost predicate ExpandedOutside(adj: Adj, visited: set<nat>, pending: set<nat>) {
    forall v, w :: v in visited && v !in pending && v < |adj| && w in adj[v] ==> w in visited
  }

  /** Every vertex reached from `s` in at most `bound` edges is visited. */
  ghost predicate CompleteUpTo(adj: Adj, s: nat, visited: set<nat>, bound: nat) {
    forall v, k: nat :: k <= bound && WalkOf(adj, s, v, k) ==> v in visited
  }

  /**
   * The layer argument of breadth-first search: once the queue holds only
   * vertices further than `bound`, every vertex one edge further is visited.
   */
  lemma CompleteStep(adj: Adj, s: nat, visited: set<nat>, dist: map<nat, nat>,
                     pending: set<nat>, bound: nat)
    requires CompleteUpTo(adj, s, visited, bound)
    requires DistMinimal(adj, s, visited, dist) && forall v :: v in visited ==> v in dist
    requires ExpandedOutside(adj, visited, pending)
    requires forall v :: v in pending && v in dist ==> dist[v] > bound
    ensures CompleteUpTo(adj, s, visited, bound + 1)
  {
    forall v, k: nat | k <= bound + 1 && WalkOf(adj, s, v, k)
      ensures v in visited
    {
      if k == bound + 1 {
        var u := WalkLast(adj, s, v, k);
        assert u in visited && dist[u] <= bound;
      }
    }
  }

  /** Visiting a new vertex and queueing it keeps every other vertex's expansion. */
  lemma ExpandedVisit(adj: Adj, visited: set<nat>, pending: set<nat>, w: nat)
    requires ExpandedOutside(adj, visited, pending)
    ensures ExpandedOutside(adj, visited + {w}, pending + {w})
  {
  }

  /** A vertex whose successors are all visited leaves the pending set. */
  lemma ExpandedDone(adj: Adj, visited: set<nat>, pending: set<nat>, u: nat)
    requires ExpandedOutside(adj, visited, pending + {u})
    requires u < |adj| ==> forall w :: w in adj[u] ==> w in visited
    ensures ExpandedOutside(adj, visited, pending)
  {
  }

  /** Recording a new vertex at its hop distance keeps the recorded distances exact. */
  lemma DistVisit(adj: Adj, s: nat, visited: set<nat>, dist: map<nat, nat>, w: nat, dw: nat)
    requires DistSound(adj, s, visited, dist) && DistMinimal(adj, s, visited, dist)
    requires w !in visited && w < |adj| && IsHopDistance(adj, s, w, Finite(dw))
    ensures DistSound(adj, s, visited + {w}, dist[w := dw])
    ensures DistMinimal(adj, s, visited + {w}, dist[w := dw])
  {
  }

  /** The source is visited, the target is not, and every visited number is a vertex. */
  ghost predicate SearchBasics(n: nat, s: nat, target: nat, visited: set<nat>) {
    s in visited && target !in visited && (forall v :: v in visited ==> v < n) && |visited| <= n
  }

  /**
   * The queue holds distinct visited vertices with their recorded hop counts,
   * in non-decreasing order, all `lo` or `lo + 1`.
   */
  ghost predicate QueueLayered(queue: seq<(nat, nat)>, visited: set<nat>, dist: map<nat, nat>, lo: nat) {
    (forall j :: 0 <= j < |queue| ==>
       queue[j].0 in visited && queue[j].0 in dist && queue[j].1 == dist[queue[j].0]) &&
    (forall j, l :: 0 <= j < l < |queue| ==> queue[j].0 != queue[l].0) &&
    (forall j, l :: 0 <= j <= l < |queue| ==> queue[j].1 <= queue[l].1) &&
    (forall j :: 0 <= j < |queue| ==> lo <= queue[j].1 <= lo + 1)
  }

  /** The recorded hop counts are exact and every vertex within `lo` hops is visited. */
  ghost predicate DistancesExact(adj: Adj, s: nat, visited: set<nat>, dist: map<nat, nat>, lo: nat) {
    DistSound(adj, s, visited, dist) && DistMinimal(adj, s, visited, dist) && CompleteUpTo(adj, s, visited, lo)
  }

  /** What holds of the search from `s` for `target` between two turns of its loop. */
  ghost predicate SearchInv(adj: Adj, s: nat, target: nat, visited: set<nat>,
                            queue: seq<(nat, nat)>, dist: map<nat, nat>) {
    SearchBasics(|adj|, s, target, visited) &&
    (queue != [] ==> QueueLayered(queue, visited, dist, queue[0].1)) &&
    (queue != [] ==> DistancesExact(adj, s, visited, dist, queue[0].1)) &&
    ExpandedOutside(adj, visited, QueuedVertices(queue))
  }

  /** What holds while the successors of `u`, reached in `du` hops, are being scanned. */
  ghost predicate ScanInv(adj: Adj, s: nat, target: nat, u: nat, du: nat, visited: set<nat>,
                          queue: seq<(nat, nat)>, dist: map<nat, nat>) {
    SearchBasics(|adj|, s, target, visited) &&
    u in visited && u in dist && dist[u] == du && u !in QueuedVertices(queue) &&
    QueueLayered(queue, visited, dist, du) &&
    DistancesExact(adj, s, visited, dist, du) &&
    ExpandedOutside(adj, visited, QueuedVertices(queue) + {u})
  }

  /** The search starts with the source queued at 0 hops. */
  lemma SearchStart(adj: Adj, s: nat, target: nat)
    requires WellFormed(adj) && s < |adj| && target != s
    ensures SearchInv(adj, s, target, {s}, [(s, 0)], map[s := 0])
  {
    WalkZero(adj, s);
    BoundedSetSize({s}, |adj|);
    QueuedAppend([], (s, 0));
    assert [] + [(s, 0)] == [(s, 0)];
    forall v, k: nat | k <= 0 && WalkOf(adj, s, v, k)
      ensures v in {s}
    {
      WalkZeroIsStart(adj, s, v);
    }
  }

  /** Taking the front off the queue starts the scan of its successors. */
  lemma SearchPop(adj: Adj, s: nat, target: nat, visited: set<nat>, queue: seq<(nat, nat)>, dist: map<nat, nat>)
    requires SearchInv(adj, s, target, visited, queue, dist) && queue != []
    ensures ScanInv(adj, s, target, queue[0].0, queue[0].1, visited, queue[1..], dist)
  {
    QueuedTail(queue);
    var rest := queue[1..];
    assert forall l :: 0 <= l < |rest| ==> rest[l] == queue[l + 1];
  }

  lemma QueueLayeredAppend(queue: seq<(nat, nat)>, visited: set<nat>, dist: map<nat, nat>, lo: nat, w: nat)
    requires QueueLayered(queue, visited, dist, lo) && w !in visited
    ensures QueueLayered(queue + [(w, lo + 1)], visited + {w}, dist[w := lo + 1], lo)
  {
    var q := queue + [(w, lo + 1)];
    assert forall l :: 0 <= l < |queue| ==> q[l] == queue[l];
    assert q[|queue|] == (w, lo + 1);
  }

  lemma DistancesExactVisit(adj: Adj, s: nat, visited: set<nat>, dist: map<nat, nat>, lo: nat, w: nat)
    requires DistancesExact(adj, s, visited, dist, lo)
    requires w !in visited && w < |adj| && WalkOf(adj, s, w, lo + 1)
    ensures DistancesExact(adj, s, visited + {w}, dist[w := lo + 1], lo)
  {
    DistVisit(adj, s, visited, dist, w, lo + 1);
  }

  /** Queueing an unvisited successor `w` of `u` at `du + 1` hops keeps the scan's invariant. */
  lemma SearchEnqueue(adj: Adj, s: nat, target: nat, u: nat, du: nat, visited: set<nat>,
                      queue: seq<(nat, nat)>, dist: map<nat, nat>, w: nat)
    requires ScanInv(adj, s, target, u, du, visited, queue, dist)
    requires u < |adj| && w in adj[u] && w < |adj| && w !in visited && w != target
    ensures ScanInv(adj, s, target, u, du, visited + {w}, queue + [(w, du + 1)], dist[w := du + 1])
    ensures |visited + {w}| == |visited| + 1
  {
    WalkExtend(adj, s, u, du, w);
    QueuedAppend(queue, (w, du + 1));
    ExpandedVisit(adj, visited, QueuedVertices(queue) + {u}, w);
    assert QueuedVertices(queue) + {u} + {w} == QueuedVertices(queue + [(w, du + 1)]) + {u};
    DistancesExactVisit(adj, s, visited, dist, du, w);
    QueueLayeredAppend(queue, visited, dist, du, w);
    BoundedSetSize(visited + {w}, |adj|);
  }

  /** The target among the successors of `u` is exactly `du + 1` hops away. */
  lemma SearchHit(adj: Adj, s: nat, target: nat, u: nat, du: nat, visited: set<nat>,
                  queue: seq<(nat, nat)>, dist: map<nat, nat>)
    requires ScanInv(adj, s, target, u, du, visited, queue, dist)
    requires u < |adj| && target in adj[u]
    ensures IsHopDistance(adj, s, target, Finite(du + 1))
  {
    WalkExtend(adj, s, u, du, target);
  }

  /** Once every successor of `u` is visited, the loop's invariant holds again. */
  lemma SearchExpanded(adj: Adj, s: nat, target: nat, u: nat, du: nat, visited: set<nat>,
                       queue: seq<(nat, nat)>, dist: map<nat, nat>)
    requires ScanInv(adj, s, target, u, du, visited, queue, dist)
    requires u < |adj| ==> forall w :: w in adj[u] ==> w in visited
    ensures SearchInv(adj, s, target, visited, queue, dist)
  {
    ExpandedDone(adj, visited, QueuedVertices(queue), u);
    if queue != [] && queue[0].1 == du + 1 {
      forall v | v in QueuedVertices(queue) && v in dist
        ensures dist[v] > du
      {
        var l :| 0 <= l < |queue| && queue[l].0 == v;
      }
      CompleteStep(adj, s, visited, dist, QueuedVertices(queue), du);
    }
  }

  /** A search whose queue ran dry has visited everything the source reaches. */
  lemma SearchExhausted(adj: Adj, s: nat, target: nat, visited: set<nat>, dist: map<nat, nat>)
    requires SearchInv(adj, s, target, visited, [], dist)
    ensures IsHopDistance(adj, s, target, Infinite)
  {
    forall k: nat
      ensures !WalkOf(adj, s, target, k)
    {
      ClosedHoldsWalks(adj, s, visited, target, k);
    }
  }
}
