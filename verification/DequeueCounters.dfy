/**
 The counters that let any number of consumers take elements from one producer's queue without a
 lock.  A consumer first claims a place in the optimistic count, then compares it with the tail,
 allowing for the claims that came to nothing (the overcommit it read earlier, maybe stale), and
 only then takes the next index or gives its claim back.  Every step below is one atomic access.
 */
module DequeueCounters {

  const HALF: int := 0x8000_0000_0000_0000
  const WRAP: int := 0x1_0000_0000_0000_0000

  // ---- Comparing wrapped counters --------------------------------------------------------

  function Wrapped(x: int): (y: nat)
  {
    x % WRAP
  }

  /** The comparison of unsigned 64-bit counters that tolerates wrap-around. */
  predicate CircularLess(a: nat, b: nat)
  {
    Wrapped(a - b) > HALF
  }

  /** On counters less than half the range apart, it compares the unwrapped values. */
  lemma CircularAgrees(x: int, y: int)
    requires -HALF <= x - y <= HALF
    ensures CircularLess(Wrapped(x), Wrapped(y)) <==> -HALF < x - y < 0
  {
    WrapDifference(x, y);
  }

  /** As long as the first is not more than half the range ahead, a positive answer is right. */
  lemma CircularSound(x: int, y: int)
    requires x - y <= HALF
    ensures CircularLess(Wrapped(x), Wrapped(y)) ==> x < y
  {
    WrapDifference(x, y);
  }

  lemma WrapDifference(x: int, y: int)
    ensures Wrapped(Wrapped(x) - Wrapped(y)) == Wrapped(x - y)
  {
    var qx, qy := x / WRAP, y / WRAP;
    assert x == qx * WRAP + Wrapped(x) && y == qy * WRAP + Wrapped(y);
    var q, d := qx - qy, Wrapped(x) - Wrapped(y);
    assert x - y == q * WRAP + d;
    WrapShift(d, q);
  }

  lemma {:induction false} WrapShift(d: int, q: int)
    ensures Wrapped(q * WRAP + d) == Wrapped(d)
    decreases if q < 0 then -q else q
  {
    if q > 0 {
      WrapShift(d, q - 1);
    } else if q < 0 {
      WrapShift(d, q + 1);
    }
  }

  // ---- The protocol ----------------------------------------------------------------------

  /** What has become of a claim. */
  datatype Fate =
    | Open(overcommit: nat)     // not compared yet; the overcommit its consumer read
    | Granted                   // compared successfully, index not taken yet
    | Taken(index: nat)
    | Refused                   // compared without success, overcommit not incremented yet
    | Returned

  /** Where a consumer is in its dequeue. */
  datatype Pc =
    | Idle
    | SawTail(tail: nat)
    | SawOvercommit(tail: nat, overcommit: nat)
    | Willing(overcommit: nat)
    | Claimed(claim: nat)

  /** Claim i is the i-th increment of the optimistic count; takers[i] is the claim that took index i. */
  datatype Queue = Queue(tail: nat, head: nat, optimistic: nat, overcommit: nat, pcs: map<nat, Pc>,
                         fates: seq<Fate>, takers: seq<nat>)

  predicate Won(f: Fate)
  {
    f.Granted? || f.Taken?
  }

  predicate Lost(f: Fate)
  {
    f.Refused? || f.Returned?
  }

  predicate IsTaken(f: Fate)
  {
    f.Taken?
  }

  predicate IsReturned(f: Fate)
  {
    f.Returned?
  }

  ghost function Count(fates: seq<Fate>, n: nat, p: Fate -> bool): (c: nat)
    requires n <= |fates|
  {
    if n == 0 then 0 else Count(fates, n - 1, p) + (if p(fates[n - 1]) then 1 else 0)
  }

  ghost predicate Inv(q: Queue)
  {
    && q.optimistic == |q.fates| && q.head == |q.takers|
    && q.head == Count(q.fates, |q.fates|, IsTaken)
    && q.overcommit == Count(q.fates, |q.fates|, IsReturned)
    && (forall c :: c in q.pcs ==> PcOk(q, q.pcs[c]))
    && (forall c, d :: c in q.pcs && d in q.pcs && c != d && q.pcs[c].Claimed? && q.pcs[d].Claimed? ==>
                         q.pcs[c].claim != q.pcs[d].claim)
    && (forall i :: 0 <= i < |q.fates| ==> FateOk(q, i))
    && (forall x :: 0 <= x < |q.takers| ==> q.takers[x] < |q.fates| && q.fates[q.takers[x]] == Taken(x))
  }

  ghost predicate PcOk(q: Queue, pc: Pc)
  {
    match pc
    case Idle => true
    case SawTail(_) => true
    case SawOvercommit(_, v) => v <= q.overcommit
    case Willing(v) => v <= q.overcommit
    case Claimed(i) => i < |q.fates| && !q.fates[i].Taken? && !q.fates[i].Returned?
  }

  ghost predicate FateOk(q: Queue, i: nat)
    requires i < |q.fates|
  {
    match q.fates[i]
    case Open(v) => v <= Count(q.fates, i, Lost)
    case Granted => i - Count(q.fates, i, Lost) < q.tail
    case Taken(x) => i - Count(q.fates, i, Lost) < q.tail && x < |q.takers| && q.takers[x] == i
    case Refused => true
    case Returned => true
  }

  lemma {:induction false} CountSum(fates: seq<Fate>, n: nat)
    requires n <= |fates|
    ensures Count(fates, n, Won) + Count(fates, n, Lost) <= n
    ensures Count(fates, n, IsTaken) <= Count(fates, n, Won)
    ensures Count(fates, n, IsReturned) <= Count(fates, n, Lost)
  {
    if n > 0 { CountSum(fates, n - 1); }
  }

  /** All winners up to and including claim n - 1 fit below the tail. */
  lemma {:induction false} WinnersFit(q: Queue, n: nat)
    requires Inv(q) && n <= |q.fates|
    ensures Count(q.fates, n, Won) <= q.tail
  {
    if n > 0 {
      if Won(q.fates[n - 1]) {
        assert FateOk(q, n - 1);
        CountSum(q.fates, n - 1);
      } else {
        WinnersFit(q, n - 1);
      }
    }
  }

  /** The head never passes the tail, even counting the grants not yet redeemed. */
  lemma HeadBehindTail(q: Queue)
    requires Inv(q)
    ensures q.head <= Count(q.fates, |q.fates|, Won) <= q.tail
  {
    CountSum(q.fates, |q.fates|);
    WinnersFit(q, |q.fates|);
  }

  /** No two claims have taken the same index. */
  ghost predicate TakenOnce(fates: seq<Fate>)
  {
    forall i, j :: 0 <= i < j < |fates| && fates[i].Taken? && fates[j].Taken? ==> fates[i].index != fates[j].index
  }

  lemma OnceEach(q: Queue)
    requires Inv(q)
    ensures TakenOnce(q.fates)
  {
    forall i, j | 0 <= i < j < |q.fates| && q.fates[i].Taken? && q.fates[j].Taken?
      ensures q.fates[i].index != q.fates[j].index
    {
      assert FateOk(q, i) && FateOk(q, j);
    }
  }

  // ---- Steps -----------------------------------------------------------------------------

  datatype Event =
    | Enqueue
    | ReadTail(c: nat)
    | ReadOvercommit(c: nat)
    | FirstCheck(c: nat)
    | Claim(c: nat)
    | Compare(c: nat)
    | Take(c: nat)
    | GiveBack(c: nat)

  /** When a step is possible. */
  ghost predicate Enabled(q: Queue, e: Event)
  {
    match e
    case Enqueue => true
    case ReadTail(c) => c in q.pcs && q.pcs[c].Idle?
    case ReadOvercommit(c) => c in q.pcs && q.pcs[c].SawTail?
    case FirstCheck(c) => c in q.pcs && q.pcs[c].SawOvercommit?
    case Claim(c) => c in q.pcs && q.pcs[c].Willing?
    case Compare(c) => HasClaim(q, c) && q.fates[q.pcs[c].claim].Open?
    case Take(c) => HasClaim(q, c) && q.fates[q.pcs[c].claim].Granted?
    case GiveBack(c) => HasClaim(q, c) && q.fates[q.pcs[c].claim].Refused?
  }

  ghost predicate HasClaim(q: Queue, c: nat)
  {
    c in q.pcs && q.pcs[c].Claimed? && q.pcs[c].claim < |q.fates|
  }

  /**
   The consumer did not sleep through half the counter range between reading the overcommit and
   comparing its claim: the claim is at most that far ahead of the tail.
   */
  ghost predicate Near(q: Queue, c: nat)
    requires HasClaim(q, c) && q.fates[q.pcs[c].claim].Open?
  {
    q.pcs[c].claim - q.fates[q.pcs[c].claim].overcommit - q.tail <= HALF
  }

  /** Does a claim hold against the tail, given the overcommit read before it was made? */
  predicate Holds(claim: nat, overcommit: nat, tail: nat)
  {
    CircularLess(Wrapped(claim - overcommit), Wrapped(tail))
  }

  ghost function After(q: Queue, e: Event): (q': Queue)
    requires Enabled(q, e)
  {
    match e
    case Enqueue => q.(tail := q.tail + 1)
    case ReadTail(c) => q.(pcs := q.pcs[c := SawTail(q.tail)])
    case ReadOvercommit(c) => q.(pcs := q.pcs[c := SawOvercommit(q.pcs[c].tail, q.overcommit)])
    case FirstCheck(c) =>
      var v := q.pcs[c].overcommit;
      q.(pcs := q.pcs[c := if Holds(q.optimistic, v, q.pcs[c].tail) then Willing(v) else Idle])
    case Claim(c) =>
      q.(optimistic := q.optimistic + 1, fates := q.fates + [Open(q.pcs[c].overcommit)],
         pcs := q.pcs[c := Claimed(q.optimistic)])
    case Compare(c) =>
      var i := q.pcs[c].claim;
      q.(fates := q.fates[i := if Holds(i, q.fates[i].overcommit, q.tail) then Granted else Refused])
    case Take(c) =>
      var i := q.pcs[c].claim;
      q.(head := q.head + 1, fates := q.fates[i := Taken(q.head)], takers := q.takers + [i], pcs := q.pcs[c := Idle])
    case GiveBack(c) =>
      var i := q.pcs[c].claim;
      q.(overcommit := q.overcommit + 1, fates := q.fates[i := Returned], pcs := q.pcs[c := Idle])
  }

  lemma {:induction false} CountPrefix(fates: seq<Fate>, fates': seq<Fate>, n: nat, p: Fate -> bool)
    requires n <= |fates| && n <= |fates'| && forall i :: 0 <= i < n ==> fates[i] == fates'[i]
    ensures Count(fates, n, p) == Count(fates', n, p)
  {
    if n > 0 { CountPrefix(fates, fates', n - 1, p); }
  }

  /** One claim's fate changes: the count of p changes by what that claim contributes. */
  lemma {:induction false} CountUpdate(fates: seq<Fate>, i: nat, f: Fate, n: nat, p: Fate -> bool)
    requires i < |fates| && n <= |fates|
    ensures Count(fates[i := f], n, p) ==
            Count(fates, n, p) + (if i < n then (if p(f) then 1 else 0) - (if p(fates[i]) then 1 else 0) else 0)
  {
    if n > 0 { CountUpdate(fates, i, f, n - 1, p); }
  }

  /** A fate moves on: open to granted or refused, granted to taken, refused to returned. */
  lemma FatesKept(q: Queue, q': Queue, i: nat, f: Fate)
    requires Inv(q) && i < |q.fates| && q'.fates == q.fates[i := f] && q'.tail == q.tail
    requires q.takers <= q'.takers
    requires Lost(q.fates[i]) ==> Lost(f)
    ensures forall j :: 0 <= j < |q.fates| && j != i ==> FateOk(q', j)
  {
    forall j | 0 <= j < |q.fates| && j != i ensures FateOk(q', j) {
      assert FateOk(q, j);
      CountUpdate(q.fates, i, f, j, Lost);
    }
  }

  lemma ClaimKeeps(q: Queue, c: nat)
    requires Inv(q) && Enabled(q, Claim(c))
    ensures Inv(After(q, Claim(c)))
  {
    var q' := After(q, Claim(c));
    var n := |q.fates|;
    CountPrefix(q.fates, q'.fates, n, IsTaken);
    CountPrefix(q.fates, q'.fates, n, IsReturned);
    forall i | 0 <= i < |q'.fates| ensures FateOk(q', i) {
      CountPrefix(q.fates, q'.fates, i, Lost);
      if i < n {
        assert FateOk(q, i);
      } else {
        CountSum(q.fates, n);
        assert PcOk(q, q.pcs[c]);
      }
    }
    forall d | d in q'.pcs ensures PcOk(q', q'.pcs[d]) {
      if d != c { assert PcOk(q, q.pcs[d]); }
    }
  }

  /**
   The comparison keeps the invariant unless it accepts a claim that does not fit below the tail,
   counting only the winners before it.
   */
  lemma CompareExact(q: Queue, c: nat)
    requires Inv(q) && Enabled(q, Compare(c))
    ensures var i := q.pcs[c].claim;
            Inv(After(q, Compare(c))) <==>
            (Holds(i, q.fates[i].overcommit, q.tail) ==> i - Count(q.fates, i, Lost) < q.tail)
  {
    var q', i := After(q, Compare(c)), q.pcs[c].claim;
    FatesKept(q, q', i, q'.fates[i]);
    CountUpdate(q.fates, i, q'.fates[i], i, Lost);
    CountUpdate(q.fates, i, q'.fates[i], |q.fates|, IsTaken);
    CountUpdate(q.fates, i, q'.fates[i], |q.fates|, IsReturned);
    forall d | d in q'.pcs ensures PcOk(q', q'.pcs[d]) { assert PcOk(q, q.pcs[d]); }
    assert FateOk(q', i) <==> (Holds(i, q.fates[i].overcommit, q.tail) ==> i - Count(q.fates, i, Lost) < q.tail);
  }

  /** A claim that holds against the tail fits below it, however stale the overcommit was. */
  lemma CompareKeeps(q: Queue, c: nat)
    requires Inv(q) && Enabled(q, Compare(c)) && Near(q, c)
    ensures Inv(After(q, Compare(c)))
  {
    var i := q.pcs[c].claim;
    CompareExact(q, c);
    CircularSound(i - q.fates[i].overcommit, q.tail);
    assert FateOk(q, i);
  }

  lemma TakeKeeps(q: Queue, c: nat)
    requires Inv(q) && Enabled(q, Take(c))
    ensures Inv(After(q, Take(c))) && q.head < q.tail
  {
    var q', i := After(q, Take(c)), q.pcs[c].claim;
    assert FateOk(q, i);
    FatesKept(q, q', i, q'.fates[i]);
    CountUpdate(q.fates, i, q'.fates[i], i, Lost);
    CountUpdate(q.fates, i, q'.fates[i], |q.fates|, IsTaken);
    CountUpdate(q.fates, i, q'.fates[i], |q.fates|, IsReturned);
    forall d | d in q'.pcs ensures PcOk(q', q'.pcs[d]) {
      if d != c { assert PcOk(q, q.pcs[d]); }
    }
    HeadBehindTail(q');
  }

  lemma GiveBackKeeps(q: Queue, c: nat)
    requires Inv(q) && Enabled(q, GiveBack(c))
    ensures Inv(After(q, GiveBack(c)))
  {
    var q', i := After(q, GiveBack(c)), q.pcs[c].claim;
    FatesKept(q, q', i, q'.fates[i]);
    CountUpdate(q.fates, i, q'.fates[i], |q.fates|, IsTaken);
    CountUpdate(q.fates, i, q'.fates[i], |q.fates|, IsReturned);
    forall d | d in q'.pcs ensures PcOk(q', q'.pcs[d]) {
      if d != c { assert PcOk(q, q.pcs[d]); }
    }
  }

  /** Reads and the first check touch one consumer's program counter only. */
  lemma ReadKeeps(q: Queue, e: Event)
    requires Inv(q) && Enabled(q, e) && (e.ReadTail? || e.ReadOvercommit? || e.FirstCheck? || e.Enqueue?)
    ensures Inv(After(q, e))
  {
    var q' := After(q, e);
    forall d | d in q'.pcs ensures PcOk(q', q'.pcs[d]) { assert PcOk(q, q.pcs[d]); }
    forall i | 0 <= i < |q'.fates| ensures FateOk(q', i) { assert FateOk(q, i); }
  }

  lemma StepKeeps(q: Queue, e: Event)
    requires Inv(q) && Enabled(q, e) && (e.Compare? ==> Near(q, e.c))
    ensures Inv(After(q, e))
  {
    hide Inv;
    match e
    case Claim(c) => ClaimKeeps(q, c);
    case Compare(c) => CompareKeeps(q, c);
    case Take(c) => TakeKeeps(q, c);
    case GiveBack(c) => GiveBackKeeps(q, c);
    case _ => ReadKeeps(q, e);
  }

  /** A run of the queue: all consumers start idle, every step is enabled. */
  ghost predicate IsRun(qs: seq<Queue>, es: seq<Event>)
  {
    && |qs| == |es| + 1
    && qs[0] == Queue(0, 0, 0, 0, qs[0].pcs, [], []) && (forall c :: c in qs[0].pcs ==> qs[0].pcs[c].Idle?)
    && forall i :: 0 <= i < |es| ==> Enabled(qs[i], es[i]) && qs[i + 1] == After(qs[i], es[i])
  }

  /** No consumer of the run sleeps through half the counter range. */
  ghost predicate Attentive(qs: seq<Queue>, es: seq<Event>)
    requires IsRun(qs, es)
  {
    forall i :: 0 <= i < |es| && es[i].Compare? ==> Enabled(qs[i], es[i]) && Near(qs[i], es[i].c)
  }

  lemma {:induction false} RunKeeps(qs: seq<Queue>, es: seq<Event>, n: nat)
    requires IsRun(qs, es) && Attentive(qs, es) && n < |qs|
    ensures Inv(qs[n])
  {
    if n > 0 {
      RunKeeps(qs, es, n - 1);
      assert Enabled(qs[n - 1], es[n - 1]) && qs[n - 1 + 1] == After(qs[n - 1], es[n - 1]);
      StepKeeps(qs[n - 1], es[n - 1]);
    }
  }

  /**
   In every run of attentive consumers: the head never passes the tail, an index is taken only when
   an element is there, and every index is taken by exactly one claim.
   */
  lemma RunIsSafe(qs: seq<Queue>, es: seq<Event>, n: nat)
    requires IsRun(qs, es) && Attentive(qs, es) && n < |qs|
    ensures qs[n].head <= qs[n].tail
    ensures n < |es| && es[n].Take? ==> qs[n].head < qs[n].tail
    ensures TakenOnce(qs[n].fates)
  {
    hide Inv;
    RunKeeps(qs, es, n);
    HeadBehindTail(qs[n]);
    if n < |es| && es[n].Take? {
      assert Enabled(qs[n], es[n]);
      TakeKeeps(qs[n], es[n].c);
    }
    OnceEach(qs[n]);
  }

  /** Every index below the head has its taker: with uniqueness, each goes to exactly one claim. */
  lemma EveryIndexTaken(q: Queue, x: nat)
    requires Inv(q) && x < q.head
    ensures exists i :: 0 <= i < |q.fates| && q.fates[i] == Taken(x)
  {
    assert q.fates[q.takers[x]] == Taken(x);
  }

  lemma {:induction false} ClaimsBounded(qs: seq<Queue>, es: seq<Event>, n: nat)
    requires IsRun(qs, es) && n < |qs|
    ensures |qs[n].fates| <= n
  {
    if n > 0 {
      ClaimsBounded(qs, es, n - 1);
      assert Enabled(qs[n - 1], es[n - 1]) && qs[n - 1 + 1] == After(qs[n - 1], es[n - 1]);
    }
  }

  /** A run no longer than half the counter range cannot sleep through it. */
  lemma ShortRunsAttentive(qs: seq<Queue>, es: seq<Event>)
    requires IsRun(qs, es) && |es| <= HALF
    ensures Attentive(qs, es)
  {
    forall i | 0 <= i < |es| && es[i].Compare? ensures Enabled(qs[i], es[i]) && Near(qs[i], es[i].c) {
      ClaimsBounded(qs, es, i);
    }
  }

  // ---- A consumer alone ------------------------------------------------------------------

  /** Every claim that is neither taken nor returned is some consumer's. */
  ghost predicate Owned(q: Queue)
  {
    forall i :: 0 <= i < |q.fates| && !q.fates[i].Taken? && !q.fates[i].Returned? ==> HasOwner(q, i)
  }

  ghost predicate HasOwner(q: Queue, i: nat)
  {
    exists c :: c in q.pcs && q.pcs[c] == Claimed(i)
  }

  lemma StepKeepsOwned(q: Queue, e: Event)
    requires Inv(q) && Owned(q) && Enabled(q, e)
    ensures Owned(After(q, e))
  {
    var q' := After(q, e);
    forall i | 0 <= i < |q'.fates| && !q'.fates[i].Taken? && !q'.fates[i].Returned? ensures HasOwner(q', i) {
      if e.Claim? && i == |q.fates| {
        assert q'.pcs[e.c] == Claimed(i);
      } else {
        assert HasOwner(q, i);
        var c :| c in q.pcs && q.pcs[c] == Claimed(i);
        assert q'.pcs[c] == Claimed(i);
      }
    }
  }

  lemma {:induction false} RunKeepsOwned(qs: seq<Queue>, es: seq<Event>, n: nat)
    requires IsRun(qs, es) && Attentive(qs, es) && n < |qs|
    ensures Owned(qs[n])
  {
    if n > 0 {
      RunKeepsOwned(qs, es, n - 1);
      RunKeeps(qs, es, n - 1);
      assert Enabled(qs[n - 1], es[n - 1]) && qs[n - 1 + 1] == After(qs[n - 1], es[n - 1]);
      StepKeepsOwned(qs[n - 1], es[n - 1]);
    }
  }

  lemma {:induction false} AllDone(fates: seq<Fate>, n: nat)
    requires n <= |fates| && forall i :: 0 <= i < n ==> fates[i].Taken? || fates[i].Returned?
    ensures Count(fates, n, IsTaken) + Count(fates, n, IsReturned) == n
  {
    if n > 0 { AllDone(fates, n - 1); }
  }

  ghost predicate AllIdle(q: Queue)
  {
    forall c :: c in q.pcs ==> q.pcs[c].Idle?
  }

  /** While no dequeue is going on, the claims that stand are the elements taken. */
  lemma Quiet(q: Queue)
    requires Inv(q) && Owned(q) && AllIdle(q)
    ensures q.optimistic - q.overcommit == q.head
  {
    forall i | 0 <= i < |q.fates| ensures q.fates[i].Taken? || q.fates[i].Returned? {
      assert !HasOwner(q, i);
    }
    AllDone(q.fates, |q.fates|);
  }

  /** A consumer's first three steps, up to the decision whether to claim. */
  ghost function Looked(q: Queue, c: nat): (q': Queue)
    requires c in q.pcs && q.pcs[c].Idle?
  {
    After(After(After(q, ReadTail(c)), ReadOvercommit(c)), FirstCheck(c))
  }

  /** ... and the next two, up to the decision whether the claim is good. */
  ghost function Compared(q: Queue, c: nat): (q': Queue)
    requires c in q.pcs && q.pcs[c].Willing? && q.optimistic == |q.fates|
  {
    After(After(q, Claim(c)), Compare(c))
  }

  /**
   A dequeue that no other dequeue interleaves with takes the oldest element, or finds nothing and
   leaves no trace, exactly as the queue is empty or not.
   */
  lemma SoloDequeue(q: Queue, c: nat)
    requires Inv(q) && Owned(q) && AllIdle(q) && c in q.pcs && q.tail - q.head < HALF
    ensures q.head == q.tail ==> Looked(q, c) == q
    ensures q.head < q.tail ==>
              && c in Looked(q, c).pcs && Looked(q, c).pcs[c].Willing? && Looked(q, c).optimistic == |Looked(q, c).fates|
              && Enabled(Compared(Looked(q, c), c), Take(c))
              && After(Compared(Looked(q, c), c), Take(c)) ==
                 q.(head := q.head + 1, optimistic := q.optimistic + 1, fates := q.fates + [Taken(q.head)],
                    takers := q.takers + [q.optimistic])
  {
    hide Holds, Count;
    Quiet(q);
    HeadBehindTail(q);
    HoldsNear(q.optimistic, q.overcommit, q.tail);
    assert q.pcs[c := Idle] == q.pcs;
    if q.head < q.tail {
      var i, fates := |q.fates|, q.fates + [Open(q.overcommit)];
      assert fates[i := Granted] == q.fates + [Granted];
      assert (q.fates + [Granted])[i := Taken(q.head)] == q.fates + [Taken(q.head)];
    }
  }

  // ---- A consumer that sleeps ------------------------------------------------------------

  /** A run goes on with one more step. */
  lemma Extended(qs: seq<Queue>, es: seq<Event>, e: Event) returns (qs': seq<Queue>, es': seq<Event>)
    requires IsRun(qs, es) && Enabled(qs[|es|], e)
    ensures IsRun(qs', es') && qs'[|es'|] == After(qs[|es|], e)
  {
    qs', es' := qs + [After(qs[|es|], e)], es + [e];
    forall i | 0 <= i < |es'| ensures Enabled(qs'[i], es'[i]) && qs'[i + 1] == After(qs'[i], es'[i]) {
      if i < |es| { assert Enabled(qs[i], es[i]) && qs[i + 1] == After(qs[i], es[i]); }
    }
  }

  lemma ThreeSteps(qs: seq<Queue>, es: seq<Event>, e1: Event, q1: Queue, e2: Event, q2: Queue, e3: Event, q3: Queue)
      returns (qs': seq<Queue>, es': seq<Event>)
    requires IsRun(qs, es) && Enabled(qs[|es|], e1) && After(qs[|es|], e1) == q1
    requires Enabled(q1, e2) && After(q1, e2) == q2 && Enabled(q2, e3) && After(q2, e3) == q3
    ensures IsRun(qs', es') && qs'[|es'|] == q3
  {
    hide Enabled, After;
    qs', es' := Extended(qs, es, e1);
    qs', es' := Extended(qs', es', e2);
    qs', es' := Extended(qs', es', e3);
  }

  /** The fates of k rounds in which one claim wins and one comes to nothing. */
  ghost function Rounds(k: nat): (fates: seq<Fate>)
    ensures |fates| == 2 * k
  {
    if k == 0 then [] else Rounds(k - 1) + [Taken(k - 1), Returned]
  }

  ghost function Winners(k: nat): (takers: seq<nat>)
    ensures |takers| == k
  {
    if k == 0 then [] else Winners(k - 1) + [2 * (k - 1)]
  }

  /** After k rounds one element waits; consumer 0 read the overcommit before them and sleeps. */
  ghost function Sleeping(k: nat, one: Pc, two: Pc, claims: seq<Fate>): (q: Queue)
  {
    Queue(k + 1, k, 2 * k + |claims|, k, map[0 := Willing(0), 1 := one, 2 := two], Rounds(k) + claims, Winners(k))
  }

  /** A comparison of a claim with a tail that is near. */
  lemma HoldsNear(claim: nat, overcommit: nat, tail: nat)
    requires -HALF < claim - overcommit - tail <= HALF
    ensures Holds(claim, overcommit, tail) <==> claim - overcommit < tail
  {
    CircularAgrees(claim - overcommit, tail);
  }

  /** An element is there, and both other consumers see it. */
  lemma BothWilling(qs: seq<Queue>, es: seq<Event>, k: nat) returns (qs': seq<Queue>, es': seq<Event>)
    requires IsRun(qs, es) && qs[|es|] == Sleeping(k, Idle, Idle, [])
    ensures IsRun(qs', es') && qs'[|es'|] == Sleeping(k, Willing(k), Willing(k), [])
  {
    hide IsRun, Rounds, Winners, Holds;
    HoldsNear(2 * k, k, k + 1);
    qs', es' := FirstWilling(qs, es, k);
    var q1, q2 := Sleeping(k, Willing(k), SawTail(k + 1), []), Sleeping(k, Willing(k), SawOvercommit(k + 1, k), []);
    qs', es' := ThreeSteps(qs', es', ReadTail(2), q1, ReadOvercommit(2), q2,
                           FirstCheck(2), Sleeping(k, Willing(k), Willing(k), []));
  }

  lemma FirstWilling(qs: seq<Queue>, es: seq<Event>, k: nat) returns (qs': seq<Queue>, es': seq<Event>)
    requires IsRun(qs, es) && qs[|es|] == Sleeping(k, Idle, Idle, [])
    ensures IsRun(qs', es') && qs'[|es'|] == Sleeping(k, Willing(k), Idle, [])
  {
    hide IsRun, Rounds, Winners, Holds;
    HoldsNear(2 * k, k, k + 1);
    var q1, q2 := Sleeping(k, SawTail(k + 1), Idle, []), Sleeping(k, SawOvercommit(k + 1, k), Idle, []);
    qs', es' := ThreeSteps(qs, es, ReadTail(1), q1, ReadOvercommit(1), q2,
                           FirstCheck(1), Sleeping(k, Willing(k), Idle, []));
  }

  /** Both claim it, and the first claim is granted. */
  lemma FirstGranted(qs: seq<Queue>, es: seq<Event>, k: nat) returns (qs': seq<Queue>, es': seq<Event>)
    requires IsRun(qs, es) && qs[|es|] == Sleeping(k, Willing(k), Willing(k), [])
    ensures IsRun(qs', es') && qs'[|es'|] == Sleeping(k, Claimed(2 * k), Claimed(2 * k + 1), [Granted, Open(k)])
  {
    hide IsRun, Rounds, Winners, Holds;
    HoldsNear(2 * k, k, k + 1);
    var q1 := Sleeping(k, Claimed(2 * k), Willing(k), [Open(k)]);
    var q2 := Sleeping(k, Claimed(2 * k), Claimed(2 * k + 1), [Open(k), Open(k)]);
    assert Rounds(k) + [] + [Open(k)] == Rounds(k) + [Open(k)];
    assert Rounds(k) + [Open(k)] + [Open(k)] == Rounds(k) + [Open(k), Open(k)];
    assert (Rounds(k) + [Open(k), Open(k)])[2 * k := Granted] == Rounds(k) + [Granted, Open(k)];
    qs', es' := ThreeSteps(qs, es, Claim(1), q1, Claim(2), q2,
                           Compare(1), Sleeping(k, Claimed(2 * k), Claimed(2 * k + 1), [Granted, Open(k)]));
  }

  /** The second claim is refused; both finish, and another element comes. */
  lemma RoundEnds(qs: seq<Queue>, es: seq<Event>, k: nat) returns (qs': seq<Queue>, es': seq<Event>)
    requires IsRun(qs, es)
    requires qs[|es|] == Sleeping(k, Claimed(2 * k), Claimed(2 * k + 1), [Granted, Open(k)])
    ensures IsRun(qs', es') && qs'[|es'|] == Sleeping(k + 1, Idle, Idle, [])
  {
    hide IsRun, Holds;
    HoldsNear(2 * k + 1, k, k + 1);
    var q1 := Sleeping(k, Claimed(2 * k), Claimed(2 * k + 1), [Granted, Refused]);
    var q2 := Queue(k + 1, k + 1, 2 * k + 2, k, map[0 := Willing(0), 1 := Idle, 2 := Claimed(2 * k + 1)],
                    Rounds(k) + [Taken(k), Refused], Winners(k + 1));
    var q3 := Queue(k + 1, k + 1, 2 * k + 2, k + 1, map[0 := Willing(0), 1 := Idle, 2 := Idle],
                    Rounds(k + 1), Winners(k + 1));
    assert (Rounds(k) + [Granted, Open(k)])[2 * k + 1 := Refused] == Rounds(k) + [Granted, Refused];
    assert (Rounds(k) + [Granted, Refused])[2 * k := Taken(k)] == Rounds(k) + [Taken(k), Refused];
    assert (Rounds(k) + [Taken(k), Refused])[2 * k + 1 := Returned] == Rounds(k + 1);
    qs', es' := ThreeSteps(qs, es, Compare(2), q1, Take(1), q2, GiveBack(2), q3);
    assert Rounds(k + 1) + [] == Rounds(k + 1);
    qs', es' := Extended(qs', es', Enqueue);
  }

  lemma {:induction false} ManyRounds(k: nat) returns (qs: seq<Queue>, es: seq<Event>)
    ensures IsRun(qs, es) && qs[|es|] == Sleeping(k, Idle, Idle, [])
  {
    hide Rounds, Winners, Holds;
    if k == 0 {
      qs, es := FallsAsleep();
    } else {
      qs, es := ManyRounds(k - 1);
      qs, es := BothWilling(qs, es, k - 1);
      qs, es := FirstGranted(qs, es, k - 1);
      qs, es := RoundEnds(qs, es, k - 1);
    }
  }

  lemma NewQueue(pcs: map<nat, Pc>) returns (qs: seq<Queue>, es: seq<Event>)
    requires forall c :: c in pcs ==> pcs[c].Idle?
    ensures IsRun(qs, es) && qs[|es|] == Queue(0, 0, 0, 0, pcs, [], [])
  {
    qs, es := [Queue(0, 0, 0, 0, pcs, [], [])], [];
  }

  lemma FallsAsleep() returns (qs: seq<Queue>, es: seq<Event>)
    ensures IsRun(qs, es) && qs[|es|] == Sleeping(0, Idle, Idle, [])
  {
    hide IsRun, Holds;
    HoldsNear(0, 0, 1);
    qs, es := NewQueue(map[0 := Idle, 1 := Idle, 2 := Idle]);
    qs, es := Extended(qs, es, Enqueue);
    var q1 := Queue(1, 0, 0, 0, map[0 := SawTail(1), 1 := Idle, 2 := Idle], [], []);
    var q2 := Queue(1, 0, 0, 0, map[0 := SawOvercommit(1, 0), 1 := Idle, 2 := Idle], [], []);
    qs, es := ThreeSteps(qs, es, ReadTail(0), q1, ReadOvercommit(0), q2, FirstCheck(0), Sleeping(0, Idle, Idle, []));
  }

  /** The only element is taken. */
  lemma LastTaken(qs: seq<Queue>, es: seq<Event>, k: nat) returns (qs': seq<Queue>, es': seq<Event>)
    requires IsRun(qs, es) && qs[|es|] == Sleeping(k, Idle, Idle, [])
    ensures IsRun(qs', es')
    ensures qs'[|es'|] == Queue(k + 1, k + 1, 2 * k + 1, k, map[0 := Willing(0), 1 := Idle, 2 := Idle],
                                Rounds(k) + [Taken(k)], Winners(k + 1))
  {
    hide IsRun, Rounds, Holds;
    HoldsNear(2 * k, k, k + 1);
    qs', es' := FirstWilling(qs, es, k);
    var q1 := Sleeping(k, Claimed(2 * k), Idle, [Open(k)]);
    var q2 := Sleeping(k, Claimed(2 * k), Idle, [Granted]);
    var q3 := Queue(k + 1, k + 1, 2 * k + 1, k, map[0 := Willing(0), 1 := Idle, 2 := Idle],
                    Rounds(k) + [Taken(k)], Winners(k + 1));
    assert Rounds(k) + [] + [Open(k)] == Rounds(k) + [Open(k)];
    assert (Rounds(k) + [Open(k)])[2 * k := Granted] == Rounds(k) + [Granted];
    assert (Rounds(k) + [Granted])[2 * k := Taken(k)] == Rounds(k) + [Taken(k)];
    qs', es' := ThreeSteps(qs', es', Claim(1), q1, Compare(1), q2, Take(1), q3);
  }

  /**
   A consumer that sleeps through more than half the counter range between reading the overcommit
   and comparing its claim can be granted an element of an empty queue: the head passes the tail.
   */
  lemma SleeperBreaks() returns (qs: seq<Queue>, es: seq<Event>)
    ensures IsRun(qs, es) && qs[|es|].head > qs[|es|].tail
  {
    hide IsRun, Rounds, Winners, Holds;
    var k := HALF + 1;
    qs, es := ManyRounds(k);
    qs, es := LastTaken(qs, es, k);
    var i, fates, pcs := 2 * k + 1, Rounds(k) + [Taken(k)], map[0 := Claimed(2 * k + 1), 1 := Idle, 2 := Idle];
    FarHolds(k);
    var q1 := Queue(k + 1, k + 1, i + 1, k, pcs, fates + [Open(0)], Winners(k + 1));
    var q2 := q1.(fates := fates + [Granted]);
    var q3 := q2.(head := k + 2, fates := fates + [Taken(k + 1)], takers := Winners(k + 1) + [i], pcs := pcs[0 := Idle]);
    assert (fates + [Open(0)])[i := Granted] == fates + [Granted];
    assert (fates + [Granted])[i := Taken(k + 1)] == fates + [Taken(k + 1)];
    qs, es := ThreeSteps(qs, es, Claim(0), q1, Compare(0), q2, Take(0), q3);
  }

  lemma FarHolds(k: nat)
    requires HALF < k < WRAP
    ensures Holds(2 * k + 1, 0, k + 1)
  {
    WrapDifference(2 * k + 1, k + 1);
  }
}
