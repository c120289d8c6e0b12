/**
 The internal buffers of a pread node: allocated once, handed to visits whose destination is not
 known yet, and returned when a visit is over and the plugin holds no reference.
 */
module PreadBuffers {
  import opened Graphs
  import opened Speculation

  ghost predicate Injective(m: map<nat, nat>)
  {
    forall e, f :: e in m && f in m && e != f ==> m[e] != m[f]
  }

  lemma InjectiveAdded(m: map<nat, nat>, e: nat, b: nat)
    requires Injective(m) && b !in m.Values
    ensures Injective(m[e := b])
  {
    forall f | f in m ensures m[f] != b { assert m[f] in m.Values; }
  }

  ghost predicate Partition(all: set<nat>, free: set<nat>, given: map<nat, nat>)
  {
    && free + given.Values == all && free !! given.Values
    && Injective(given)
    && |free| + |given| == |all|
  }

  /** Every assigned buffer belongs to a visit that is not over, or the plugin refers to it. */
  ghost predicate Attached(given: map<nat, nat>, visits: set<nat>, refs: map<nat, nat>)
  {
    forall e :: e in given ==> e in visits || (given[e] in refs && refs[given[e]] > 0)
  }

  /** Dropping a reference: only the visit that has the buffer is concerned. */
  lemma ReferenceDropped(given: map<nat, nat>, visits: set<nat>, refs: map<nat, nat>, e: nat)
    requires Injective(given) && Attached(given, visits, refs) && e in given && given[e] in refs && refs[given[e]] > 0
    ensures var refs' := refs[given[e] := refs[given[e]] - 1];
            Attached(if refs'[given[e]] == 0 then given - {e} else given, visits, refs')
  {
  }

  lemma PartitionMember(all: set<nat>, free: set<nat>, given: map<nat, nat>, e: nat)
    requires Partition(all, free, given) && e in given
    ensures given[e] in all && given[e] !in free && Injective(given)
  {
    assert given[e] in given.Values;
  }

  lemma TakenFromFree(all: set<nat>, free: set<nat>, given: map<nat, nat>, e: nat, b: nat)
    requires Partition(all, free, given) && b in free && e !in given
    ensures Partition(all, free - {b}, given[e := b])
  {
    hide Injective;
    ValuesAdded(given, e, b);
    InjectiveAdded(given, e, b);
  }

  lemma GivenBack(all: set<nat>, free: set<nat>, given: map<nat, nat>, e: nat)
    requires Partition(all, free, given) && e in given
    ensures Partition(all, free + {given[e]}, given - {e}) && given[e] in all
  {
    assert given[e] in given.Values;
    ValuesRemoved(given, e);
  }

  /** Allocate n buffers, none of them referred to. */
  method AllocBufs(n: nat) returns (bufs: set<nat>, refs: map<nat, nat>)
    ensures |bufs| == n && refs.Keys == bufs && forall b :: b in refs ==> refs[b] == 0
  {
    bufs, refs := {}, map[];
    for i := 0 to n
      invariant (forall b :: b in bufs ==> b < i) && |bufs| == i && refs.Keys == bufs
      invariant forall b :: b in refs ==> refs[b] == 0
    {
      bufs, refs := bufs + {i}, refs[i := 0];
    }
  }

  class BufferPool {
    ghost const all: set<nat>
    var free: set<nat>
    var internalBuf: map<nat, nat>
    var refCounts: map<nat, nat>
    ghost var visits: set<nat>
    ghost var answers: seq<bool>        // whether each request for a buffer was met

    /** Free and assigned buffers partition the original ones, and no buffer is assigned twice. */
    ghost predicate Valid()
      reads this
    {
      Partition(all, free, internalBuf) && refCounts.Keys == all && Attached(internalBuf, visits, refCounts)
    }

    /** One buffer more than can be in use ahead of the frontier. */
    constructor (preIssueDepth: nat)
      ensures Valid() && free == all && internalBuf == map[] && |all| == preIssueDepth + 1 && visits == {}
      ensures answers == []
      ensures forall b :: b in all ==> refCounts[b] == 0
    {
      var bufs, refs := AllocBufs(preIssueDepth + 1);
      free, internalBuf, refCounts := bufs, map[], refs;
      all := bufs;
      visits, answers := {}, [];
    }

    /** Give the visit with this epoch sum an internal buffer; the code asserts that one is free. */
    method AssignBuf(epochSum: nat) returns (ok: bool)
      requires Valid()
      modifies `free, `internalBuf, `visits, `answers
      ensures Valid() && visits == old(visits) + {epochSum} && answers == old(answers) + [ok]
      ensures ok <==> epochSum in old(internalBuf) || old(free) != {}
      ensures ok ==> epochSum in internalBuf && internalBuf.Keys == old(internalBuf).Keys + {epochSum}
      ensures forall e :: e in old(internalBuf) ==> e in internalBuf && internalBuf[e] == old(internalBuf)[e]
    {
      hide Partition;
      visits := visits + {epochSum};
      ok := epochSum in internalBuf || free != {};
      answers := answers + [ok];
      if epochSum in internalBuf || !ok { return; }
      var b :| b in free;
      TakenFromFree(all, free, internalBuf, epochSum, b);
      free := free - {b};
      internalBuf := internalBuf[epochSum := b];
    }

    /** Take the buffer of a visit away and make it free. */
    method Return(epochSum: nat)
      requires Partition(all, free, internalBuf) && epochSum in internalBuf
      modifies `free, `internalBuf
      ensures Partition(all, free, internalBuf) && internalBuf == old(internalBuf) - {epochSum} && free == old(free) + {old(internalBuf)[epochSum]}
    {
      GivenBack(all, free, internalBuf, epochSum);
      free := free + {internalBuf[epochSum]};
      internalBuf := internalBuf - {epochSum};
    }

    /** The visit is over: its buffer becomes free unless the plugin still refers to it. */
    method RemoveOneEpoch(epochSum: nat)
      requires Valid()
      modifies `free, `internalBuf, `visits
      ensures Valid() && visits == old(visits) - {epochSum}
      ensures epochSum in internalBuf <==>
              epochSum in old(internalBuf) && old(internalBuf)[epochSum] in refCounts && refCounts[old(internalBuf)[epochSum]] > 0
      ensures internalBuf.Keys - {epochSum} == old(internalBuf).Keys - {epochSum}
      ensures forall e :: e in internalBuf ==> e in old(internalBuf) && internalBuf[e] == old(internalBuf)[e]
    {
      hide Partition, Injective;
      if epochSum in internalBuf {
        PartitionMember(all, free, internalBuf, epochSum);
        if refCounts[internalBuf[epochSum]] == 0 { Return(epochSum); }
      }
      visits := visits - {epochSum};
    }

    /** The plugin takes a reference; there is nothing to refer to if the visit has no internal buffer. */
    method RefInternalBuf(epochSum: nat) returns (found: bool, b: nat)
      requires Valid()
      modifies `refCounts
      ensures Valid() && (found <==> epochSum in internalBuf)
      ensures found ==> b == internalBuf[epochSum] && b in old(refCounts) && refCounts == old(refCounts)[b := old(refCounts)[b] + 1]
      ensures !found ==> refCounts == old(refCounts)
    {
      if epochSum !in internalBuf { return false, 0; }
      PartitionMember(all, free, internalBuf, epochSum);
      b := internalBuf[epochSum];
      refCounts := refCounts[b := refCounts[b] + 1];
      return true, b;
    }

    /** The plugin drops a reference; the last one makes the buffer free. */
    method PutInternalBuf(epochSum: nat)
      requires Valid()
      requires epochSum in internalBuf ==> internalBuf[epochSum] in refCounts && refCounts[internalBuf[epochSum]] > 0
      modifies `free, `internalBuf, `refCounts
      ensures Valid()
      ensures forall e :: e in internalBuf <==>
                            e in old(internalBuf) && (e != epochSum || old(refCounts)[old(internalBuf)[epochSum]] > 1)
      ensures forall e :: e in internalBuf ==> internalBuf[e] == old(internalBuf)[e]
      ensures refCounts == if epochSum in old(internalBuf)
                           then var b := old(internalBuf)[epochSum]; old(refCounts)[b := old(refCounts)[b] - 1]
                           else old(refCounts)
    {
      hide Partition, Injective;
      if epochSum in internalBuf {
        PartitionMember(all, free, internalBuf, epochSum);
        ReferenceDropped(internalBuf, visits, refCounts, epochSum);
        var b := internalBuf[epochSum];
        refCounts := refCounts[b := refCounts[b] - 1];
        if refCounts[b] == 0 { Return(epochSum); }
      }
    }

    /** Leaving the graph frees every buffer. */
    method Reset()
      requires Valid()
      modifies `free, `internalBuf, `visits
      ensures Valid() && free == all && internalBuf == map[] && visits == {}
    {
      visits := {};
      free := free + internalBuf.Values;
      internalBuf := map[];
      assert |free| == |all|;
    }
  }

  /**
   A visit that is not over loses its buffer when the plugin drops its only reference: here visit 0
   gets the only buffer, the plugin refers to it and drops the reference, and visit 1 gets the same
   buffer while visit 0 is still going on.
   */
  method SharedBuffer() returns (pool: BufferPool, first: nat, second: nat)
    ensures pool.Valid() && 0 in pool.visits && 1 in pool.visits && first == second
    ensures 0 !in pool.internalBuf && 1 in pool.internalBuf && pool.internalBuf[1] == second
  {
    hide Partition, Injective, Attached;
    pool := new BufferPool(0);
    SomeFree(pool);
    var ok := pool.AssignBuf(0);
    PartitionMember(pool.all, pool.free, pool.internalBuf, 0);
    var found;
    found, first := pool.RefInternalBuf(0);
    pool.PutInternalBuf(0);
    assert pool.internalBuf.Keys == {};
    SomeFree(pool);
    ok := pool.AssignBuf(1);
    PartitionMember(pool.all, pool.free, pool.internalBuf, 1);
    second := pool.internalBuf[1];
    OnlyBuffer(pool, first, second);
  }

  /**
   A reference that the plugin keeps can leave the pool without a free buffer although no visit is
   going on: here it outlives visit 0, and visit 1 finds none.
   */
  method KeptReference() returns (pool: BufferPool, ok: bool)
    ensures pool.Valid() && !ok && pool.visits == {1} && pool.free == {}
  {
    hide Partition, Injective, Attached;
    pool := new BufferPool(0);
    SomeFree(pool);
    ok := pool.AssignBuf(0);
    PartitionMember(pool.all, pool.free, pool.internalBuf, 0);
    var found, b := pool.RefInternalBuf(0);
    pool.RemoveOneEpoch(0);
    NoneFree(pool, 0);
    ok := pool.AssignBuf(1);
    NoneFree(pool, 0);
  }

  lemma NoneFree(pool: BufferPool, e: nat)
    requires pool.Valid() && |pool.all| == 1 && e in pool.internalBuf
    ensures pool.free == {}
  {
    PartitionMember(pool.all, pool.free, pool.internalBuf, e);
    assert |pool.internalBuf| > 0 by {
      assert pool.internalBuf.Keys != {};
    }
  }

  lemma SomeFree(pool: BufferPool)
    requires pool.Valid() && pool.internalBuf.Keys == {} && |pool.all| > 0
    ensures pool.free != {}
  {
    assert pool.internalBuf == map[];
  }

  lemma OnlyBuffer(pool: BufferPool, b: nat, c: nat)
    requires |pool.all| == 1 && b in pool.all && c in pool.all
    ensures b == c
  {
    assert |pool.all - {b}| == 0;
  }

  lemma ValuesAdded(m: map<nat, nat>, e: nat, b: nat)
    requires e !in m
    ensures m[e := b].Values == m.Values + {b} && |m[e := b]| == |m| + 1
  {
    var m' := m[e := b];
    forall x | x in m.Values + {b} ensures x in m'.Values {
      if x == b {
        assert m'[e] == x;
      } else {
        var f :| f in m && m[f] == x;
        assert m'[f] == x;
      }
    }
    assert m'.Keys == m.Keys + {e};
  }

  lemma ValuesRemoved(m: map<nat, nat>, e: nat)
    requires e in m && Injective(m)
    ensures (m - {e}).Values == m.Values - {m[e]} && |m - {e}| == |m| - 1
  {
    var m' := m - {e};
    forall x | x in m.Values - {m[e]} ensures x in m'.Values {
      var f :| f in m && m[f] == x;
      assert m'[f] == x;
    }
    assert m.Keys == m'.Keys + {e};
  }

  // ---- The pool is large enough ----------------------------------------------------------

  /** The epoch sums of the visits to a node that hold any stage. */
  ghost function VisitsOf(keys: set<PoolKey>, node: int): (sums: set<nat>)
  {
    set k | k in keys && k.0 == node :: k.1
  }

  lemma {:induction false} FewerSums(keys: set<PoolKey>, node: int)
    ensures |VisitsOf(keys, node)| <= |keys|
  {
    if keys != {} {
      var k :| k in keys;
      FewerSums(keys - {k}, node);
      assert VisitsOf(keys, node) <= VisitsOf(keys - {k}, node) + {k.1};
      Smaller(VisitsOf(keys, node), VisitsOf(keys - {k}, node) + {k.1});
    }
  }

  lemma {:induction false} Smaller<T>(a: set<T>, b: set<T>)
    requires a <= b
    ensures |a| <= |b|
  {
    if a != {} {
      var x :| x in a;
      Smaller(a - {x}, b - {x});
    }
  }

  /** At most pre_issue_depth visits hold a stage when the next one is about to get its arguments. */
  lemma VisitsBound(w: World, depth: nat, s: State, node: int)
    requires Inv(w, depth, s) && IsSyscall(w, s.frontier) && 0 <= s.peekDistance < depth
    ensures |VisitsOf(s.stage.Keys, node)| <= depth
  {
    hide Inv, R;
    AheadBound(w, depth, s);
    var keys := s.stage.Keys;
    Smaller(keys, Ahead(s) + {KeyOf(w, s.fpos)});
    FewerSums(keys, node);
  }

  ghost predicate Unreferenced(refs: map<nat, nat>)
  {
    forall b :: b in refs ==> refs[b] == 0
  }

  /** The pool of a node without references: exactly these visits have buffers, and none was refused one. */
  ghost predicate Coupled(pool: BufferPool, depth: nat, visits: set<nat>)
    reads pool
  {
    && pool.Valid() && |pool.all| == depth + 1 && Unreferenced(pool.refCounts)
    && pool.visits == pool.internalBuf.Keys == visits && false !in pool.answers
  }

  /** Entry k is one of the node, and its destination was not known when the plugin gave its arguments. */
  ghost predicate Wants(w: World, at: map<PoolKey, nat>, node: int, k: PoolKey)
  {
    k.0 == node && k in at && !w.destKnown(R(w, at[k]).node, R(w, at[k]).epoch)
  }

  /** The visits of a node that need an internal buffer; the plugin gave the arguments of the entries in keys. */
  ghost function Wanting(w: World, keys: set<PoolKey>, at: map<PoolKey, nat>, node: int): (visits: set<nat>)
  {
    set k | k in keys && Wants(w, at, node, k) :: k.1
  }

  lemma WantingAdded(w: World, keys: set<PoolKey>, at: map<PoolKey, nat>, node: int, k: PoolKey, p: nat)
    requires k !in keys
    ensures Wanting(w, keys + {k}, at[k := p], node) ==
            Wanting(w, keys, at, node) +
            (if k.0 == node && !w.destKnown(R(w, p).node, R(w, p).epoch) then {k.1} else {})
    ensures Wanting(w, keys, at[k := p], node) == Wanting(w, keys, at, node)
  {
    hide R;
    var at' := at[k := p];
    assert forall l :: l in keys ==> (Wants(w, at', node, l) <==> Wants(w, at, node, l));
    forall x | x in Wanting(w, keys, at, node) ensures x in Wanting(w, keys, at', node) {
      var l :| l in keys && Wants(w, at, node, l) && l.1 == x;
      assert l in keys && Wants(w, at', node, l) && l.1 == x;
    }
    forall x | x in Wanting(w, keys, at', node) ensures x in Wanting(w, keys + {k}, at', node) {
      var l :| l in keys && Wants(w, at', node, l) && l.1 == x;
      assert l in keys + {k} && Wants(w, at', node, l) && l.1 == x;
    }
    if Wants(w, at', node, k) { assert k in keys + {k} && Wants(w, at', node, k) && k.1 == k.1; }
  }

  lemma WantingRemoved(w: World, keys: set<PoolKey>, at: map<PoolKey, nat>, node: int, k: PoolKey)
    ensures Wanting(w, keys - {k}, at - {k}, node) ==
            Wanting(w, keys, at, node) - (if k.0 == node then {k.1} else {})
  {
    hide R;
    var keys', at' := keys - {k}, at - {k};
    forall x | x in Wanting(w, keys, at, node) && !(k.0 == node && k.1 == x) ensures x in Wanting(w, keys', at', node) {
      var l :| l in keys && Wants(w, at, node, l) && l.1 == x;
      assert l in keys' && Wants(w, at', node, l) && l.1 == x;
    }
    forall x | x in Wanting(w, keys', at', node) ensures x in Wanting(w, keys, at, node) && !(k.0 == node && k.1 == x) {
      var l :| l in keys' && Wants(w, at', node, l) && l.1 == x;
      assert l in keys && Wants(w, at, node, l) && l.1 == x;
      assert l == (l.0, l.1) && k == (k.0, k.1);
    }
  }

  lemma NoneWanting(w: World, at: map<PoolKey, nat>, node: int)
    ensures Wanting(w, {}, at, node) == {}
  {
  }

  lemma WantingVisits(w: World, keys: set<PoolKey>, at: map<PoolKey, nat>, node: int, all: set<PoolKey>)
    requires keys <= all
    ensures Wanting(w, keys, at, node) <= VisitsOf(all, node)
  {
    hide R;
  }

  /** The pool of pre_issue_depth + 1 buffers has a free one whenever peeking asks for it. */
  lemma NeverDry(w: World, depth: nat, s: State, node: int, pool: BufferPool)
    requires Inv(w, depth, s) && IsSyscall(w, s.frontier) && 0 <= s.peekDistance < depth
    requires Coupled(pool, depth, Wanting(w, s.link.Keys, s.at, node))
    ensures pool.free != {}
  {
    hide Inv, R, Wanting;
    VisitsBound(w, depth, s, node);
    LinksStaged(w, depth, s);
    WantingVisits(w, s.link.Keys, s.at, node, s.stage.Keys);
    Smaller(pool.internalBuf.Keys, VisitsOf(s.stage.Keys, node));
  }

  lemma LinksStaged(w: World, depth: nat, s: State)
    requires Inv(w, depth, s)
    ensures s.link.Keys <= s.stage.Keys == s.at.Keys
  {
    hide OnPath, R, EngineOk, LogOk, WeakOk, SafeOk, WellBuilt, DecisionsOk, EntryAt;
  }

  /** A buffer for a visit that is about to be prepared: there always is one. */
  method AssignFor(pool: BufferPool, sum: nat, ghost visits: set<nat>, ghost depth: nat)
    requires Coupled(pool, depth, visits) && pool.free != {}
    modifies pool
    ensures Coupled(pool, depth, visits + {sum})
  {
    hide Partition, Attached, Unreferenced;
    var ok := pool.AssignBuf(sum);
    assert ok;    // so the assertion that a buffer is free holds
  }

  /** The visit is over, and so is its use of a buffer. */
  method RemoveFor(pool: BufferPool, sum: nat, ghost visits: set<nat>, ghost depth: nat)
    requires Coupled(pool, depth, visits)
    modifies pool
    ensures Coupled(pool, depth, visits - {sum})
  {
    if sum in pool.internalBuf {
      PartitionMember(pool.all, pool.free, pool.internalBuf, sum);
    }
    pool.RemoveOneEpoch(sum);
    assert pool.internalBuf.Keys == visits - {sum};
  }

  method ResetFor(pool: BufferPool, ghost visits: set<nat>, ghost depth: nat)
    requires Coupled(pool, depth, visits)
    modifies pool
    ensures Coupled(pool, depth, {}) && pool.free == pool.all
  {
    pool.Reset();
  }

  /** Each of the visits has a buffer, and no two of them have the same. */
  lemma OwnBuffers(pool: BufferPool, depth: nat, visits: set<nat>, e: nat)
    requires Coupled(pool, depth, visits) && e in visits
    ensures e in pool.internalBuf
    ensures forall f :: f in pool.internalBuf && f != e ==> pool.internalBuf[f] != pool.internalBuf[e]
  {
  }

  lemma AlwaysGiven(pool: BufferPool, depth: nat, visits: set<nat>)
    requires Coupled(pool, depth, visits)
    ensures false !in pool.answers
  {
  }

  lemma FreshPool(pool: BufferPool, depth: nat)
    requires pool.Valid() && |pool.all| == depth + 1 && pool.visits == {} && pool.answers == []
    requires pool.internalBuf == map[] && forall b :: b in pool.all ==> pool.refCounts[b] == 0
    ensures Coupled(pool, depth, {})
  {
  }
}
