/**
 Epoch lists and value pools.  A pool stores one value per visit of a node but is indexed by a sum
 of epoch dimensions only; on a well-built graph it behaves as if it were indexed by the visit.
 */
module ValuePools {
  import opened Graphs
  import opened Speculation

  /** The counters of the back edges taken so far. */
  class EpochList {
    const epochs: array<nat>

    ghost function Value(): (e: Epoch)
      reads this, epochs
    {
      epochs[..]
    }

    constructor (totalDims: nat)
      ensures fresh(epochs) && Value() == seq(totalDims, _ => 0)
    {
      epochs := new nat[totalDims](_ => 0);
      new;
      assert epochs[..] == seq(totalDims, _ => 0);
    }

    method Increment(dim: nat)
      requires dim < epochs.Length
      modifies epochs
      ensures Value() == Incremented(old(Value()), dim)
    {
      epochs[dim] := epochs[dim] + 1;
    }

    method CopyFrom(other: EpochList)
      requires other.epochs.Length == epochs.Length
      modifies epochs
      ensures Value() == old(other.Value())
    {
      ghost var from := other.Value();
      for i := 0 to epochs.Length
        invariant epochs[..i] == from[..i] && (other.epochs == epochs ==> epochs[..] == from)
        invariant other.epochs != epochs ==> other.epochs[..] == from
      {
        epochs[i] := other.epochs[i];
      }
      assert epochs[..] == from;
    }

    /** The sum over a set of dimensions, taken in any order. */
    method Sum(dims: set<nat>) returns (s: nat)
      requires forall d :: d in dims ==> d < epochs.Length
      ensures s == EpochSum(Value(), dims)
    {
      s := 0;
      var rest := dims;
      while rest != {}
        invariant rest <= dims && s + EpochSum(Value(), rest) == EpochSum(Value(), dims)
        decreases rest
      {
        var dim :| dim in rest;
        SumWithout(Value(), rest, dim, epochs.Length);
        s := s + epochs[dim];
        rest := rest - {dim};
      }
      SumNone(Value(), epochs.Length);
    }

    method SameAs(other: EpochList) returns (same: bool)
      requires other.epochs.Length == epochs.Length
      ensures same <==> Value() == other.Value()
    {
      for i := 0 to epochs.Length
        invariant forall k :: 0 <= k < i ==> epochs[k] == other.epochs[k]
      {
        if epochs[i] != other.epochs[i] {
          assert Value()[i] != other.Value()[i];
          return false;
        }
      }
      return true;
    }

    method Dominates(other: EpochList) returns (ahead: bool)
      requires other.epochs.Length == epochs.Length
      ensures ahead <==> AheadOf(Value(), other.Value())
    {
      for i := 0 to epochs.Length
        invariant forall k :: 0 <= k < i ==> other.epochs[k] <= epochs[k]
      {
        if epochs[i] < other.epochs[i] {
          assert Value()[i] < other.Value()[i];
          return false;
        }
      }
      return true;
    }

    method Reset()
      modifies epochs
      ensures Value() == seq(epochs.Length, _ => 0)
    {
      for i := 0 to epochs.Length
        invariant forall k :: 0 <= k < i ==> epochs[k] == 0
      {
        epochs[i] := 0;
      }
    }
  }

  lemma {:induction false} SumWithout(e: Epoch, dims: set<nat>, d: nat, n: nat)
    requires n <= |e| && d in dims && d < |e|
    ensures SumTo(e, dims, n) == SumTo(e, dims - {d}, n) + (if d < n then e[d] else 0)
  {
    if n > 0 { SumWithout(e, dims, d, n - 1); }
  }

  lemma {:induction false} SumNone(e: Epoch, n: nat)
    requires n <= |e|
    ensures SumTo(e, {}, n) == 0
  {
    if n > 0 { SumNone(e, n - 1); }
  }

  /** The pool data of a node stands for the values byVisit, one per place of the path. */
  ghost predicate Refines<T>(w: World, node: int, data: map<nat, T>, byVisit: map<nat, T>)
  {
    && (forall p :: p in byVisit ==> R(w, p).node == node && KeyOf(w, p).1 in data && data[KeyOf(w, p).1] == byVisit[p])
    && (forall s :: s in data ==> FromVisit(w, byVisit, s))
  }

  ghost predicate FromVisit<T>(w: World, byVisit: map<nat, T>, s: nat)
  {
    exists p: nat :: p in byVisit && KeyOf(w, p).1 == s
  }

  /** A value found under the sum of a visit is the value of that visit. */
  lemma LookupIsByVisit<T>(w: World, node: int, data: map<nat, T>, byVisit: map<nat, T>, p: nat)
    requires WellBuilt(w) && IsNode(w, node) && Refines(w, node, data, byVisit) && R(w, p).node == node
    ensures KeyOf(w, p).1 in data <==> p in byVisit
    ensures p in byVisit ==> data[KeyOf(w, p).1] == byVisit[p]
  {
    hide R, WellBuilt, KeyAt;
    if KeyOf(w, p).1 in data {
      assert FromVisit(w, byVisit, KeyOf(w, p).1);
      var q: nat :| q in byVisit && KeyOf(w, q).1 == KeyOf(w, p).1;
      SameKey(w, p, q);
      KeyInjective(w, p, q);
    }
  }

  lemma SameKey(w: World, p: nat, q: nat)
    requires R(w, p).node == R(w, q).node && KeyOf(w, p).1 == KeyOf(w, q).1
    ensures KeyOf(w, p) == KeyOf(w, q)
  {
  }

  lemma SetRefines<T>(w: World, node: int, data: map<nat, T>, byVisit: map<nat, T>, p: nat, v: T)
    requires WellBuilt(w) && IsNode(w, node) && Refines(w, node, data, byVisit) && R(w, p).node == node
    ensures Refines(w, node, data[KeyOf(w, p).1 := v], byVisit[p := v])
  {
    hide R, WellBuilt, KeyAt;
    var s, data', byVisit' := KeyOf(w, p).1, data[KeyOf(w, p).1 := v], byVisit[p := v];
    forall q | q in byVisit' ensures R(w, q).node == node && KeyOf(w, q).1 in data' && data'[KeyOf(w, q).1] == byVisit'[q] {
      if q != p && KeyOf(w, q).1 == s {
        SameKey(w, p, q);
        KeyInjective(w, p, q);
      }
    }
    forall t | t in data' ensures FromVisit(w, byVisit', t) {
      if t == s {
        assert p in byVisit' && KeyOf(w, p).1 == t;
      } else {
        var q: nat :| q in byVisit && KeyOf(w, q).1 == t;
        assert q in byVisit';
      }
    }
  }

  lemma RemoveRefines<T>(w: World, node: int, data: map<nat, T>, byVisit: map<nat, T>, p: nat)
    requires WellBuilt(w) && IsNode(w, node) && Refines(w, node, data, byVisit) && R(w, p).node == node
    ensures Refines(w, node, data - {KeyOf(w, p).1}, byVisit - {p})
  {
    hide R, WellBuilt, KeyAt;
    var s, data', byVisit' := KeyOf(w, p).1, data - {KeyOf(w, p).1}, byVisit - {p};
    forall q | q in byVisit' ensures R(w, q).node == node && KeyOf(w, q).1 in data' && data'[KeyOf(w, q).1] == byVisit'[q] {
      if KeyOf(w, q).1 == s {
        SameKey(w, p, q);
        KeyInjective(w, p, q);
      }
    }
    forall t | t in data' ensures FromVisit(w, byVisit', t) {
      var q: nat :| q in byVisit && KeyOf(w, q).1 == t;
      assert q in byVisit';
    }
  }

  /** One pool of one node; `byVisit` is what it stands for. */
  class ValuePool<T(0)> {
    const w: World
    const node: int
    var data: map<nat, T>
    ghost var byVisit: map<nat, T>

    ghost predicate Valid()
      reads this
    {
      WellBuilt(w) && IsNode(w, node) && Refines(w, node, data, byVisit)
    }

    constructor (w: World, node: int)
      requires WellBuilt(w) && IsNode(w, node)
      ensures Valid() && byVisit == map[] && this.w == w && this.node == node
    {
      this.w, this.node := w, node;
      data, byVisit := map[], map[];
    }

    method Set(epoch: Epoch, value: T, ghost p: nat)
      requires Valid() && R(w, p) == Cursor(node, epoch)
      modifies this
      ensures Valid() && byVisit == old(byVisit)[p := value]
    {
      hide R, WellBuilt, Refines;
      SetRefines(w, node, data, byVisit, p, value);
      data := data[EpochSum(epoch, Dims(w, node)) := value];
      byVisit := byVisit[p := value];
    }

    method Has(epoch: Epoch, ghost p: nat) returns (r: bool)
      requires Valid() && R(w, p) == Cursor(node, epoch)
      ensures r <==> p in byVisit
    {
      hide R, WellBuilt, Refines;
      LookupIsByVisit(w, node, data, byVisit, p);
      r := EpochSum(epoch, Dims(w, node)) in data;
    }

    method Get(epoch: Epoch, ghost p: nat) returns (value: T)
      requires Valid() && R(w, p) == Cursor(node, epoch) && p in byVisit
      ensures value == byVisit[p]
    {
      hide R, WellBuilt, Refines;
      LookupIsByVisit(w, node, data, byVisit, p);
      value := data[EpochSum(epoch, Dims(w, node))];
    }

    method Remove(epoch: Epoch, ghost p: nat)
      requires Valid() && R(w, p) == Cursor(node, epoch)
      modifies this
      ensures Valid() && byVisit == old(byVisit) - {p}
    {
      hide R, WellBuilt, Refines;
      RemoveRefines(w, node, data, byVisit, p);
      data := data - {EpochSum(epoch, Dims(w, node))};
      byVisit := byVisit - {p};
    }

    method Reset()
      requires Valid()
      modifies this
      ensures Valid() && byVisit == map[]
    {
      data, byVisit := map[], map[];
    }
  }

  // ---- The pools of all nodes ------------------------------------------------------------

  /** The graph's state keeps the pools of all nodes in one map; this is the part of one node. */
  ghost function OfNode<T>(pools: map<PoolKey, T>, node: int): (data: map<nat, T>)
    ensures forall s :: s in data <==> (node, s) in pools
    ensures forall s :: s in data ==> data[s] == pools[(node, s)]
  {
    map k | k in pools && k.0 == node :: k.1 := pools[k]
  }

  /** Every entry belongs to the place recorded for it. */
  ghost predicate Placed(w: World, keys: set<PoolKey>, at: map<PoolKey, nat>)
  {
    forall k :: k in keys ==> k in at && KeyOf(w, at[k]) == k
  }

  /** The values of one node by place. */
  ghost function ByPlace<T>(w: World, pools: map<PoolKey, T>, at: map<PoolKey, nat>, node: int): (byVisit: map<nat, T>)
    requires Placed(w, pools.Keys, at)
  {
    map k | k in pools.Keys && k.0 == node :: at[k] := pools[k]
  }

  /** Storing and removing an entry is Set and Remove of its own node's pool and leaves the others alone. */
  lemma UpdateOfNode<T>(pools: map<PoolKey, T>, key: PoolKey, v: T, node: int)
    ensures OfNode(pools[key := v], node) ==
            if key.0 == node then OfNode(pools, node)[key.1 := v] else OfNode(pools, node)
    ensures OfNode(pools - {key}, node) ==
            if key.0 == node then OfNode(pools, node) - {key.1} else OfNode(pools, node)
  {
    assert key == (key.0, key.1);
  }

  lemma PlacedRefines<T>(w: World, pools: map<PoolKey, T>, at: map<PoolKey, nat>, node: int)
    requires Placed(w, pools.Keys, at)
    ensures Refines(w, node, OfNode(pools, node), ByPlace(w, pools, at, node))
  {
    hide R;
    var data, byVisit := OfNode(pools, node), ByPlace(w, pools, at, node);
    forall p | p in byVisit
      ensures R(w, p).node == node && KeyOf(w, p).1 in data && data[KeyOf(w, p).1] == byVisit[p]
    {
      var k :| k in pools.Keys && k.0 == node && at[k] == p;
      assert KeyOf(w, p) == k == (node, k.1);
    }
    forall s | s in data ensures FromVisit(w, byVisit, s) {
      var k: PoolKey := (node, s);
      assert k in pools.Keys && at[k] in byVisit && KeyOf(w, at[k]).1 == s;
    }
  }

  /** The part of each node of a pool stands for values by visit. */
  ghost predicate StandsForVisits<T>(w: World, pools: map<PoolKey, T>, at: map<PoolKey, nat>, node: int)
  {
    Placed(w, pools.Keys, at) && Refines(w, node, OfNode(pools, node), ByPlace(w, pools, at, node))
  }

  lemma VisitsOfPool<T>(w: World, pools: map<PoolKey, T>, at: map<PoolKey, nat>, keys: set<PoolKey>, node: int)
    requires Placed(w, keys, at) && pools.Keys <= keys
    ensures StandsForVisits(w, pools, at, node)
  {
    PlacedRefines(w, pools, at, node);
  }

  lemma StagesPlaced(w: World, depth: nat, s: State)
    requires Inv(w, depth, s)
    ensures Placed(w, s.stage.Keys, s.at)
    ensures s.args.Keys <= s.stage.Keys && s.link.Keys <= s.stage.Keys && s.rc.Keys <= s.stage.Keys
  {
    hide R, C, KeyOf, WeakBefore, OnPath, DecisionsOk, LogOk, EngineOk, WeakOk, SafeOk, WellBuilt;
    forall k | k in s.stage.Keys ensures k in s.at && KeyOf(w, s.at[k]) == k {
      assert EntryAt(w, s.fpos, s.ppos, k, s.at[k]);
    }
  }

  /** In every state of the algorithm, each pool of each node stands for values by visit. */
  lemma PoolsByVisit(w: World, depth: nat, s: State, node: int)
    requires Inv(w, depth, s)
    ensures StandsForVisits(w, s.stage, s.at, node) && StandsForVisits(w, s.args, s.at, node)
    ensures StandsForVisits(w, s.link, s.at, node) && StandsForVisits(w, s.rc, s.at, node)
  {
    hide Inv, Placed, StandsForVisits;
    StagesPlaced(w, depth, s);
    VisitsOfPool(w, s.stage, s.at, s.stage.Keys, node);
    VisitsOfPool(w, s.args, s.at, s.stage.Keys, node);
    VisitsOfPool(w, s.link, s.at, s.stage.Keys, node);
    VisitsOfPool(w, s.rc, s.at, s.stage.Keys, node);
  }
}
