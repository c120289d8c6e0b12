/**
 Syscall graphs and the path an application takes through one.

 A node is a syscall with one outgoing edge, or a branch with several.  An edge out of a branch may
 be a back edge that increments one dimension of the epoch.  Reference -1 is the end of the graph.
 */
module Graphs {

  type Epoch = seq<nat>

  /** The arguments of a call. */
  type Args = seq<int>

  datatype Node =
    | SyscallNode(next: int, weak: bool, pure: bool, dims: set<nat>)
    | BranchNode(children: seq<int>, backDims: seq<int>, dims: set<nat>)

  /**
   A graph with the answers of the plugin: which child a branch takes, what a syscall's arguments
   are, whether it is linked to its successor and whether its destination is known by then, each at a
   given epoch.
   */
  datatype World = World(nodes: seq<Node>, start: int, ndims: nat,
                         decide: (int, Epoch) -> nat,
                         argsOf: (int, Epoch) -> Args,
                         linkOf: (int, Epoch) -> bool,
                         destKnown: (int, Epoch) -> bool)

  /** A place on the path: a node reference and the epoch. */
  datatype Cursor = Cursor(node: int, epoch: Epoch)

  predicate IsRef(w: World, n: int)
  {
    -1 <= n < |w.nodes|
  }

  predicate IsNode(w: World, n: int)
  {
    0 <= n < |w.nodes|
  }

  predicate IsBranch(w: World, n: int)
  {
    IsNode(w, n) && w.nodes[n].BranchNode?
  }

  predicate IsSyscall(w: World, n: int)
  {
    IsNode(w, n) && w.nodes[n].SyscallNode?
  }

  function Dims(w: World, n: int): (s: set<nat>)
  {
    if IsNode(w, n) then w.nodes[n].dims else {}
  }

  /** There is an edge from a to b; d is its epoch dimension, or -1. */
  ghost predicate Edge(w: World, a: int, b: int, d: int)
  {
    && IsNode(w, a)
    && match w.nodes[a]
       case SyscallNode(next, _, _, _) => b == next && d == -1
       case BranchNode(children, backDims, _) =>
         exists i :: 0 <= i < |children| && i < |backDims| && children[i] == b && backDims[i] == d
  }

  /** Edges hang together: ds[i] is the dimension of the edge from ns[i] to ns[i + 1]. */
  ghost predicate Walk(w: World, ns: seq<int>, ds: seq<int>)
  {
    |ns| == |ds| + 1 && forall i :: 0 <= i < |ds| ==> Edge(w, ns[i], ns[i + 1], ds[i])
  }

  /** Every cycle through a node takes a back edge of one of the node's associated dimensions. */
  ghost predicate Enclosed(w: World)
  {
    forall ns, ds :: Walk(w, ns, ds) && |ds| > 0 && ns[0] == ns[|ds|] ==> CrossesDim(ds, Dims(w, ns[0]))
  }

  ghost predicate CrossesDim(ds: seq<int>, dims: set<nat>)
  {
    exists i, d: nat :: 0 <= i < |ds| && d == ds[i] && d in dims
  }

  /** Every edge of a branch leads to a syscall, to the end, or to a branch of smaller rank. */
  ghost predicate Ranked(w: World, rank: seq<nat>)
  {
    && |rank| == |w.nodes|
    && forall n, i :: IsBranch(w, n) && 0 <= i < |w.nodes[n].children| && IsBranch(w, w.nodes[n].children[i]) ==>
                        rank[w.nodes[n].children[i]] < rank[n]
  }

  ghost predicate NodeOk(w: World, n: int)
    requires IsNode(w, n)
  {
    && (forall d :: d in w.nodes[n].dims ==> d < w.ndims)
    && match w.nodes[n]
       case SyscallNode(next, _, _, _) => IsRef(w, next)
       case BranchNode(children, backDims, _) =>
         && |children| == |backDims|
         && (forall i :: 0 <= i < |children| ==> IsRef(w, children[i]) && -1 <= backDims[i] < w.ndims)
         && (forall e :: |e| == w.ndims ==> w.decide(n, e) < |children|)
  }

  ghost predicate WellBuilt(w: World)
  {
    && IsRef(w, w.start)
    && (forall n :: IsNode(w, n) ==> NodeOk(w, n))
    && Enclosed(w)
  }

  // ---- Epochs ----------------------------------------------------------------------------

  function Incremented(e: Epoch, d: int): (e': Epoch)
  {
    if 0 <= d < |e| then e[d := e[d] + 1] else e
  }

  /** The sum of the dimensions in dims that are below n. */
  function SumTo(e: Epoch, dims: set<nat>, n: nat): (s: nat)
    requires n <= |e|
  {
    if n == 0 then 0 else SumTo(e, dims, n - 1) + (if n - 1 in dims then e[n - 1] else 0)
  }

  function EpochSum(e: Epoch, dims: set<nat>): (s: nat)
  {
    SumTo(e, dims, |e|)
  }

  ghost predicate AheadOf(e: Epoch, other: Epoch)
  {
    |e| == |other| && forall i :: 0 <= i < |e| ==> other[i] <= e[i]
  }

  lemma {:induction false} SumMonotone(e: Epoch, e': Epoch, dims: set<nat>, n: nat)
    requires AheadOf(e', e) && n <= |e|
    ensures SumTo(e, dims, n) <= SumTo(e', dims, n)
  {
    if n > 0 { SumMonotone(e, e', dims, n - 1); }
  }

  lemma {:induction false} SumStrict(e: Epoch, e': Epoch, dims: set<nat>, n: nat, d: nat)
    requires AheadOf(e', e) && d < n <= |e| && d in dims && e[d] < e'[d]
    ensures SumTo(e, dims, n) < SumTo(e', dims, n)
  {
    if d == n - 1 {
      SumMonotone(e, e', dims, n - 1);
    } else {
      SumStrict(e, e', dims, n - 1, d);
    }
  }

  // ---- The path --------------------------------------------------------------------------

  /** The dimension of the edge taken at c, or -1. */
  function TakenDim(w: World, c: Cursor): (d: int)
  {
    if !IsBranch(w, c.node) then -1
    else
      var i := w.decide(c.node, c.epoch);
      if i < |w.nodes[c.node].backDims| then w.nodes[c.node].backDims[i] else -1
  }

  function Target(w: World, c: Cursor): (n: int)
  {
    if !IsNode(w, c.node) then -1
    else
      match w.nodes[c.node]
      case SyscallNode(next, _, _, _) => next
      case BranchNode(children, _, _) =>
        var i := w.decide(c.node, c.epoch);
        if i < |children| then children[i] else -1
  }

  /** One node further on the path; the end stays where it is. */
  function Step(w: World, c: Cursor): (c': Cursor)
  {
    Cursor(Target(w, c), Incremented(c.epoch, TakenDim(w, c)))
  }

  /** Place k of the path. */
  ghost function R(w: World, k: nat): (c: Cursor)
  {
    if k == 0 then Cursor(w.start, seq(w.ndims, _ => 0)) else Step(w, R(w, k - 1))
  }

  ghost predicate SysAt(w: World, k: nat)
  {
    IsSyscall(w, R(w, k).node)
  }

  /** The number of syscalls before place k. */
  ghost function C(w: World, k: nat): (n: nat)
  {
    if k == 0 then 0 else C(w, k - 1) + (if SysAt(w, k - 1) then 1 else 0)
  }

  lemma {:induction false} PathRefs(w: World, k: nat)
    requires WellBuilt(w)
    ensures IsRef(w, R(w, k).node) && |R(w, k).epoch| == w.ndims
    decreases k
  {
    if k > 0 {
      PathRefs(w, k - 1);
      var c := R(w, k - 1);
      if IsNode(w, c.node) { assert NodeOk(w, c.node); }
    }
  }

  lemma {:induction false} CountMonotone(w: World, j: nat, k: nat)
    requires j <= k
    ensures C(w, j) <= C(w, k) <= C(w, j) + (k - j)
    ensures j < k && SysAt(w, j) ==> C(w, j) < C(w, k)
    decreases k
  {
    if j < k {
      CountMonotone(w, j, k - 1);
    }
  }

  lemma {:induction false} EpochMonotone(w: World, j: nat, k: nat)
    requires WellBuilt(w) && j <= k
    ensures AheadOf(R(w, k).epoch, R(w, j).epoch)
    decreases k
  {
    PathRefs(w, k);
    if j < k {
      EpochMonotone(w, j, k - 1);
    }
  }

  /** Once at the end, the path stays there. */
  lemma {:induction false} EndStays(w: World, j: nat, k: nat)
    requires j <= k && R(w, j).node == -1
    ensures R(w, k).node == -1 && C(w, k) == C(w, j)
    decreases k
  {
    if j < k { EndStays(w, j, k - 1); }
  }

  // ---- Pool keys -------------------------------------------------------------------------

  /** Pools are kept per node and indexed by a sum of epoch dimensions. */
  type PoolKey = (int, nat)

  function KeyAt(w: World, c: Cursor): (key: PoolKey)
  {
    (c.node, EpochSum(c.epoch, Dims(w, c.node)))
  }

  lemma KeyNode(w: World, c: Cursor)
    ensures KeyAt(w, c).0 == c.node
  {
  }

  ghost function KeyOf(w: World, k: nat): (key: PoolKey)
  {
    KeyAt(w, R(w, k))
  }

  lemma TakenEdge(w: World, k: nat)
    requires WellBuilt(w) && IsNode(w, R(w, k).node)
    ensures Edge(w, R(w, k).node, R(w, k + 1).node, TakenDim(w, R(w, k)))
  {
    PathRefs(w, k);
    var c := R(w, k);
    assert NodeOk(w, c.node);
    if IsBranch(w, c.node) {
      var i := w.decide(c.node, c.epoch);
      assert w.nodes[c.node].children[i] == R(w, k + 1).node;
    }
  }

  lemma NotEnded(w: World, j: nat, k: nat)
    requires WellBuilt(w) && j <= k && IsNode(w, R(w, k).node)
    ensures IsNode(w, R(w, j).node)
  {
    PathRefs(w, j);
    if R(w, j).node == -1 { EndStays(w, j, k); }
  }

  /** The stretch of the path from place j to place k, as a walk. */
  lemma PathIsWalk(w: World, j: nat, k: nat) returns (ns: seq<int>, ds: seq<int>)
    requires WellBuilt(w) && j <= k && IsNode(w, R(w, k).node)
    ensures Walk(w, ns, ds) && |ds| == k - j && |ns| == |ds| + 1
    ensures ns[0] == R(w, j).node && ns[k - j] == R(w, k).node
    ensures forall i :: 0 <= i < |ds| ==> ds[i] == TakenDim(w, R(w, j + i))
  {
    hide R, Edge, TakenDim, WellBuilt;
    ns := seq(k - j + 1, (i: nat) => R(w, j + i).node);
    ds := seq(k - j, (i: nat) => TakenDim(w, R(w, j + i)));
    forall i | 0 <= i < |ds| ensures Edge(w, ns[i], ns[i + 1], ds[i]) {
      NotEnded(w, j + i, k);
      TakenEdge(w, j + i);
    }
  }

  /** Coming back to a node, the path has taken a back edge of one of the node's dimensions. */
  lemma ReturnCrosses(w: World, j: nat, k: nat) returns (p: nat, d: nat)
    requires WellBuilt(w) && j < k && IsNode(w, R(w, k).node) && R(w, j).node == R(w, k).node
    ensures j <= p < k && d == TakenDim(w, R(w, p)) && d in Dims(w, R(w, j).node)
  {
    hide R, Walk, NodeOk;
    var ns, ds := PathIsWalk(w, j, k);
    assert Walk(w, ns, ds) && CrossesDim(ds, Dims(w, ns[0]));
    var i, d': nat :| 0 <= i < |ds| && d' == ds[i] && d' in Dims(w, ns[0]);
    p, d := j + i, d';
  }

  lemma StepIncrements(w: World, p: nat, d: nat)
    requires WellBuilt(w) && d == TakenDim(w, R(w, p)) && d < w.ndims
    ensures |R(w, p).epoch| == |R(w, p + 1).epoch| == w.ndims && R(w, p).epoch[d] < R(w, p + 1).epoch[d]
  {
    PathRefs(w, p);
    PathRefs(w, p + 1);
  }

  /** Successive visits of a node differ in one of the node's dimensions. */
  lemma ReturnIncrements(w: World, j: nat, k: nat) returns (d: nat)
    requires WellBuilt(w) && j < k && IsNode(w, R(w, k).node) && R(w, j).node == R(w, k).node
    ensures d in Dims(w, R(w, j).node) && d < w.ndims
    ensures |R(w, j).epoch| == |R(w, k).epoch| == w.ndims && R(w, j).epoch[d] < R(w, k).epoch[d]
  {
    hide R, Enclosed;
    var p;
    p, d := ReturnCrosses(w, j, k);
    PathRefs(w, j);
    PathRefs(w, k);
    assert NodeOk(w, R(w, j).node);
    StepIncrements(w, p, d);
    EpochMonotone(w, j, p);
    EpochMonotone(w, p + 1, k);
  }

  /** Successive visits of a node have strictly increasing epoch sums. */
  lemma SumsIncrease(w: World, j: nat, k: nat)
    requires WellBuilt(w) && j < k && IsNode(w, R(w, k).node) && R(w, j).node == R(w, k).node
    ensures KeyOf(w, j).1 < KeyOf(w, k).1
  {
    var d := ReturnIncrements(w, j, k);
    EpochMonotone(w, j, k);
    SumStrict(R(w, j).epoch, R(w, k).epoch, Dims(w, R(w, j).node), w.ndims, d);
  }

  /** So the key of a visit identifies the visit. */
  lemma KeyInjective(w: World, j: nat, k: nat)
    requires WellBuilt(w) && KeyOf(w, j) == KeyOf(w, k) && IsNode(w, R(w, j).node)
    ensures j == k
  {
    if j < k { SumsIncrease(w, j, k); }
    if k < j { SumsIncrease(w, k, j); }
  }

  // ---- Checking a graph ------------------------------------------------------------------

  /**
   A height for every node n: no edge outside n's dimensions goes down, and n's own edges go up.
   */
  ghost predicate Heights(w: World, height: (int, int) -> int)
  {
    && (forall n, a, b, d :: Edge(w, a, b, d) && IsNode(w, n) && IsNode(w, b) && d !in Dims(w, n) ==>
                               height(n, a) <= height(n, b))
    && (forall n, b, d :: Edge(w, n, b, d) && IsNode(w, b) && d !in Dims(w, n) ==> height(n, n) < height(n, b))
  }

  lemma {:induction false} WalkRises(w: World, height: (int, int) -> int, ns: seq<int>, ds: seq<int>, k: nat)
    requires Heights(w, height) && Walk(w, ns, ds) && 0 < k <= |ds| && IsNode(w, ns[k])
    requires !CrossesDim(ds, Dims(w, ns[0]))
    ensures height(ns[0], ns[0]) < height(ns[0], ns[k])
  {
    assert Edge(w, ns[k - 1], ns[k], ds[k - 1]) && Edge(w, ns[0], ns[1], ds[0]);
    if k > 1 { WalkRises(w, height, ns, ds, k - 1); }
  }

  /** Heights show that every cycle through a node crosses one of the node's dimensions. */
  lemma HeightsEnclose(w: World, height: (int, int) -> int)
    requires Heights(w, height)
    ensures Enclosed(w)
  {
    forall ns, ds | Walk(w, ns, ds) && |ds| > 0 && ns[0] == ns[|ds|] ensures CrossesDim(ds, Dims(w, ns[0])) {
      if !CrossesDim(ds, Dims(w, ns[0])) {
        assert Edge(w, ns[0], ns[1], ds[0]);
        WalkRises(w, height, ns, ds, |ds|);
      }
    }
  }
}
