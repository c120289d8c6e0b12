/**
 The lightweight semaphore: an atomic count in front of a kernel semaphore.  A negative count says
 how many waiters sleep in the kernel without a token on its way to them.  Every step is one atomic
 access or one kernel call; threads interleave freely and waits may time out at any moment.
 */
module Semaphores {

  datatype Pc =
    | Idle
    | Trying(seen: int)         // has read the count and may compare-and-swap it
    | Committing                // about to decrement unconditionally
    | Waiting                   // decremented to below zero; asleep in the kernel
    | TimedOut                  // woke up without a token, count still decremented
    | Adjusting(seen: int)      // has read the count to give its decrement back
    | Posting(left: nat)        // a signaller that owes the kernel this many tokens

  datatype Sem = Sem(count: int, tokens: nat, pcs: seq<Pc>, initial: nat, signalled: nat, granted: nat)

  predicate IsWaiter(pc: Pc)
  {
    pc.Waiting? || pc.TimedOut? || pc.Adjusting?
  }

  /** Threads that decremented the count and neither got a permit nor gave the decrement back. */
  function Waiters(pcs: seq<Pc>): (n: nat)
  {
    if pcs == [] then 0 else Waiters(pcs[..|pcs| - 1]) + (if IsWaiter(pcs[|pcs| - 1]) then 1 else 0)
  }

  function Debt(pc: Pc): (n: nat)
  {
    if pc.Posting? then pc.left else 0
  }

  /** Tokens that signallers still have to post. */
  function Owed(pcs: seq<Pc>): (n: nat)
  {
    if pcs == [] then 0 else Owed(pcs[..|pcs| - 1]) + Debt(pcs[|pcs| - 1])
  }

  function Max(x: int, y: int): (m: int)
  {
    if x < y then y else x
  }

  function Min(x: int, y: int): (m: int)
  {
    if x < y then x else y
  }

  ghost predicate Inv(s: Sem)
  {
    && Waiters(s.pcs) - s.tokens - Owed(s.pcs) == Max(0, -s.count)
    && s.count + Waiters(s.pcs) + s.granted == s.initial + s.signalled
  }

  /** Never more permits than the initial ones and the signalled ones. */
  lemma GrantsBounded(s: Sem)
    requires Inv(s)
    ensures s.granted <= s.initial + s.signalled
    ensures s.initial + s.signalled - s.granted == s.tokens + Owed(s.pcs) + Max(0, s.count)
  {
  }

  lemma {:induction false} WaitersUpdate(pcs: seq<Pc>, c: nat, pc: Pc)
    requires c < |pcs|
    ensures Waiters(pcs[c := pc]) ==
            Waiters(pcs) + (if IsWaiter(pc) then 1 else 0) - (if IsWaiter(pcs[c]) then 1 else 0)
    ensures Owed(pcs[c := pc]) == Owed(pcs) + Debt(pc) - Debt(pcs[c])
  {
    var n := |pcs| - 1;
    if c == n {
      assert pcs[c := pc][..n] == pcs[..n];
    } else {
      assert pcs[c := pc][..n] == pcs[..n][c := pc];
      WaitersUpdate(pcs[..n], c, pc);
    }
  }

  datatype Event =
    | ReadCount(c: nat)
    | SwapCount(c: nat)
    | GiveUp(c: nat)
    | Commit(c: nat)
    | Decrement(c: nat)
    | GetToken(c: nat)
    | TimeOut(c: nat)
    | ReadAgain(c: nat)
    | Retry(c: nat)
    | GiveBack(c: nat)
    | Signal(c: nat, n: nat)
    | Post(c: nat)

  ghost predicate Enabled(s: Sem, e: Event)
  {
    e.c < |s.pcs| &&
    var pc := s.pcs[e.c];
    match e
    case ReadCount(_) => pc.Idle? || pc.Trying?
    case SwapCount(_) => pc.Trying? && pc.seen > 0 && s.count == pc.seen
    case GiveUp(_) => pc.Trying? && pc.seen <= 0
    case Commit(_) => pc.Trying?
    case Decrement(_) => pc.Committing?
    case GetToken(_) => (pc.Waiting? || (pc.Adjusting? && pc.seen >= 0)) && s.tokens > 0
    case TimeOut(_) => pc.Waiting?
    case ReadAgain(_) => pc.TimedOut?
    case Retry(_) => pc.Adjusting?
    case GiveBack(_) => pc.Adjusting? && pc.seen < 0 && s.count == pc.seen
    case Signal(_, _) => pc.Idle?
    case Post(_) => pc.Posting? && pc.left > 0
  }

  /** How many tokens a signal must hand to the kernel: one for each sleeper it covers. */
  function ToRelease(count: int, n: nat): (k: nat)
  {
    Max(0, Min(-count, n))
  }

  ghost function After(s: Sem, e: Event): (s': Sem)
    requires Enabled(s, e)
  {
    var pc := s.pcs[e.c];
    match e
    case ReadCount(c) => s.(pcs := s.pcs[c := Trying(s.count)])
    case SwapCount(c) => s.(count := s.count - 1, granted := s.granted + 1, pcs := s.pcs[c := Idle])
    case GiveUp(c) => s.(pcs := s.pcs[c := Idle])
    case Commit(c) => s.(pcs := s.pcs[c := Committing])
    case Decrement(c) =>
      if s.count > 0 then s.(count := s.count - 1, granted := s.granted + 1, pcs := s.pcs[c := Idle])
      else s.(count := s.count - 1, pcs := s.pcs[c := Waiting])
    case GetToken(c) => s.(tokens := s.tokens - 1, granted := s.granted + 1, pcs := s.pcs[c := Idle])
    case TimeOut(c) => s.(pcs := s.pcs[c := TimedOut])
    case ReadAgain(c) => s.(pcs := s.pcs[c := Adjusting(s.count)])
    case Retry(c) => s.(pcs := s.pcs[c := TimedOut])
    case GiveBack(c) => s.(count := s.count + 1, pcs := s.pcs[c := Idle])
    case Signal(c, n) =>
      s.(count := s.count + n, signalled := s.signalled + n,
         pcs := s.pcs[c := var k := ToRelease(s.count, n); if k == 0 then Idle else Posting(k)])
    case Post(c) =>
      s.(tokens := s.tokens + 1, pcs := s.pcs[c := if pc.left == 1 then Idle else Posting(pc.left - 1)])
  }

  /** Every step keeps the count of uncovered waiters and the balance of permits. */
  lemma StepKeeps(s: Sem, e: Event)
    requires Inv(s) && Enabled(s, e)
    ensures Inv(After(s, e))
  {
    hide Waiters, Owed;
    var s' := After(s, e);
    WaitersUpdate(s.pcs, e.c, s'.pcs[e.c]);
  }

  lemma {:induction false} WaitersAreThreads(pcs: seq<Pc>)
    ensures Waiters(pcs) <= |pcs|
  {
    if pcs != [] { WaitersAreThreads(pcs[..|pcs| - 1]); }
  }

  lemma {:induction false} DebtIsOwed(pcs: seq<Pc>, c: nat)
    requires c < |pcs|
    ensures Debt(pcs[c]) <= Owed(pcs)
  {
    if c < |pcs| - 1 { DebtIsOwed(pcs[..|pcs| - 1], c); }
  }

  /**
   The machine integers are wide enough: the count stays between minus the number of threads and
   the permits ever given, and no signaller posts more tokens than there are threads.
   */
  lemma CountsFit(s: Sem, c: nat)
    requires Inv(s) && c < |s.pcs|
    ensures -|s.pcs| <= s.count <= s.initial + s.signalled
    ensures s.tokens + Debt(s.pcs[c]) <= |s.pcs|
  {
    WaitersAreThreads(s.pcs);
    DebtIsOwed(s.pcs, c);
  }

  ghost predicate IsRun(ss: seq<Sem>, es: seq<Event>)
  {
    && |ss| == |es| + 1
    && ss[0] == Sem(ss[0].initial, 0, ss[0].pcs, ss[0].initial, 0, 0)
    && (forall c :: 0 <= c < |ss[0].pcs| ==> ss[0].pcs[c].Idle?)
    && forall i :: 0 <= i < |es| ==> Enabled(ss[i], es[i]) && ss[i + 1] == After(ss[i], es[i])
  }

  lemma {:induction false} AllIdle(pcs: seq<Pc>)
    requires forall c :: 0 <= c < |pcs| ==> pcs[c].Idle?
    ensures Waiters(pcs) == 0 && Owed(pcs) == 0
  {
    if pcs != [] { AllIdle(pcs[..|pcs| - 1]); }
  }

  /**
   In every run, waiters without a posted or owed token number exactly the negative part of the
   count, and the permits granted never exceed the initial plus the signalled ones.
   */
  lemma {:induction false} RunIsSafe(ss: seq<Sem>, es: seq<Event>, n: nat)
    requires IsRun(ss, es) && n < |ss|
    ensures Waiters(ss[n].pcs) - ss[n].tokens - Owed(ss[n].pcs) == Max(0, -ss[n].count)
    ensures ss[n].granted <= ss[n].initial + ss[n].signalled
    ensures Inv(ss[n])
  {
    if n == 0 {
      AllIdle(ss[0].pcs);
    } else {
      RunIsSafe(ss, es, n - 1);
      assert Enabled(ss[n - 1], es[n - 1]) && ss[n - 1 + 1] == After(ss[n - 1], es[n - 1]);
      StepKeeps(ss[n - 1], es[n - 1]);
    }
    GrantsBounded(ss[n]);
  }

  /** Step m is thread c's last one before step n. */
  ghost predicate LastStep(ss: seq<Sem>, es: seq<Event>, n: nat, c: nat, m: nat)
    requires |ss| == |es| + 1 && n < |ss|
  {
    m < n && es[m].c == c && forall j :: m < j < n ==> es[j].c != c
  }

  lemma OthersStay(s: Sem, e: Event, c: nat)
    requires Enabled(s, e) && c < |s.pcs|
    ensures |After(s, e).pcs| == |s.pcs| && (e.c != c ==> After(s, e).pcs[c] == s.pcs[c])
  {
  }

  /** A thread in the middle of something is where its last step brought it. */
  lemma {:induction false} LastStepExists(ss: seq<Sem>, es: seq<Event>, n: nat, c: nat) returns (m: nat)
    requires IsRun(ss, es) && n < |ss| && c < |ss[0].pcs| == |ss[n].pcs| && !ss[n].pcs[c].Idle?
    ensures LastStep(ss, es, n, c, m) && c < |ss[m].pcs| && c < |ss[m + 1].pcs| && ss[m + 1].pcs[c] == ss[n].pcs[c]
    decreases n
  {
    hide After;
    m := n - 1;
    assert Enabled(ss[m], es[m]) && ss[m + 1] == After(ss[m], es[m]);
    SameThreads(ss, es, m);
    OthersStay(ss[m], es[m], c);
    if es[m].c != c { m := LastStepExists(ss, es, n - 1, c); }
  }

  lemma {:induction false} SameThreads(ss: seq<Sem>, es: seq<Event>, n: nat)
    requires IsRun(ss, es) && n < |ss|
    ensures |ss[n].pcs| == |ss[0].pcs|
  {
    if n > 0 {
      SameThreads(ss, es, n - 1);
      assert Enabled(ss[n - 1], es[n - 1]) && ss[n - 1 + 1] == After(ss[n - 1], es[n - 1]);
    }
  }

  /**
   A wait gives up only after it has seen that there was nothing to get: trying without waiting, a
   count that was not positive; after a time-out, a negative count, which is then still the same.
   */
  lemma GaveUpWithReason(ss: seq<Sem>, es: seq<Event>, n: nat) returns (m: nat)
    requires IsRun(ss, es) && n < |es| && (es[n].GiveUp? || es[n].GiveBack?)
    ensures LastStep(ss, es, n, es[n].c, m)
    ensures es[n].GiveUp? ==> es[m] == ReadCount(es[n].c) && ss[m].count <= 0
    ensures es[n].GiveBack? ==> es[m] == ReadAgain(es[n].c) && ss[m].count == ss[n].count < 0
  {
    assert Enabled(ss[n], es[n]);
    SameThreads(ss, es, n);
    m := LastStepExists(ss, es, n, es[n].c);
    assert Enabled(ss[m], es[m]) && ss[m + 1] == After(ss[m], es[m]);
  }

  lemma {:induction false} SomeDebtor(pcs: seq<Pc>) returns (d: nat)
    requires Owed(pcs) > 0
    ensures d < |pcs| && pcs[d].Posting? && pcs[d].left > 0
  {
    d := |pcs| - 1;
    if Debt(pcs[d]) == 0 { d := SomeDebtor(pcs[..d]); }
  }

  lemma {:induction false} WaiterCounted(pcs: seq<Pc>, c: nat)
    requires c < |pcs| && IsWaiter(pcs[c])
    ensures Waiters(pcs) > 0
  {
    if c < |pcs| - 1 { WaiterCounted(pcs[..|pcs| - 1], c); }
  }

  /**
   A thread that timed out never hangs: reading the count again, it can take its decrement back if the
   count is negative, and otherwise a token is there for it, or a signaller is about to post one.
   */
  lemma TimedOutMovesOn(s: Sem, c: nat) returns (e: Event)
    requires Inv(s) && c < |s.pcs| && s.pcs[c].TimedOut?
    ensures Enabled(After(s, ReadAgain(c)), e)
    ensures if s.count < 0 then e == GiveBack(c) else if s.tokens > 0 then e == GetToken(c) else e.Post?
  {
    var s' := After(s, ReadAgain(c));
    WaitersUpdate(s.pcs, c, s'.pcs[c]);
    WaiterCounted(s.pcs, c);
    if s.count < 0 {
      e := GiveBack(c);
    } else if s.tokens > 0 {
      e := GetToken(c);
    } else {
      var d := SomeDebtor(s'.pcs);
      e := Post(d);
    }
  }

  /** Trying without waiting, and without interference, gets a permit exactly if the count is positive. */
  lemma TryAlone(s: Sem, c: nat)
    requires c < |s.pcs| && s.pcs[c].Idle?
    ensures Enabled(s, ReadCount(c))
    ensures s.count > 0 <==> Enabled(After(s, ReadCount(c)), SwapCount(c))
    ensures s.count <= 0 <==> Enabled(After(s, ReadCount(c)), GiveUp(c))
    ensures s.count > 0 ==> After(After(s, ReadCount(c)), SwapCount(c)) == s.(count := s.count - 1, granted := s.granted + 1)
    ensures s.count <= 0 ==> After(After(s, ReadCount(c)), GiveUp(c)) == s
  {
    assert s.pcs[c := Trying(s.count)][c := Idle] == s.pcs;
  }

  /** A thread sleeps in the kernel only from the moment it has decremented a count that was not positive. */
  lemma SleptWithReason(ss: seq<Sem>, es: seq<Event>, n: nat, c: nat) returns (m: nat)
    requires IsRun(ss, es) && n < |ss| && c < |ss[n].pcs| && ss[n].pcs[c].Waiting?
    ensures LastStep(ss, es, n, c, m) && es[m] == Decrement(c) && ss[m].count <= 0
  {
    SameThreads(ss, es, n);
    m := LastStepExists(ss, es, n, c);
    assert Enabled(ss[m], es[m]) && ss[m + 1] == After(ss[m], es[m]);
  }
}

/**
 The blocking queue: a semaphore counts the items of an inner queue.  Producers insert first and
 signal afterwards; consumers get a permit first and take an item afterwards.
 */
module BlockingQueue {
  import opened Semaphores

  /** What a thread still has to do on the queue besides its semaphore call. */
  datatype Duty = Free | MustSignal | Holding

  datatype Queue = Queue(sem: Sem, inner: seq<int>, duties: seq<Duty>, inserted: multiset<int>, removed: multiset<int>)

  function Holders(duties: seq<Duty>, d: Duty): (n: nat)
  {
    if duties == [] then 0 else Holders(duties[..|duties| - 1], d) + (if duties[|duties| - 1] == d then 1 else 0)
  }

  ghost predicate QueueInv(q: Queue)
  {
    && Inv(q.sem) && q.sem.initial == 0 && |q.duties| == |q.sem.pcs|
    && |q.inner| == Holders(q.duties, Holding) + Holders(q.duties, MustSignal) + (q.sem.signalled - q.sem.granted)
    && q.inserted == q.removed + multiset(q.inner)
  }

  datatype QueueEvent =
    | Insert(c: nat, item: int)
    | Notify(c: nat)
    | SemStep(e: Event)
    | Remove(c: nat, i: nat)

  /** Does this semaphore step give its thread a permit? */
  ghost predicate Grants(s: Sem, e: Event)
    requires Enabled(s, e)
  {
    After(s, e).granted == s.granted + 1
  }

  ghost predicate QueueEnabled(q: Queue, e: QueueEvent)
  {
    match e
    case Insert(c, _) => c < |q.duties| && q.duties[c] == Free && c < |q.sem.pcs| && q.sem.pcs[c].Idle?
    case Notify(c) => c < |q.duties| && q.duties[c] == MustSignal && Enabled(q.sem, Signal(c, 1))
    case SemStep(e) => !e.Signal? && Enabled(q.sem, e) && e.c < |q.duties| && q.duties[e.c] == Free
    case Remove(c, i) => c < |q.duties| && q.duties[c] == Holding && i < |q.inner|
  }

  ghost function QueueAfter(q: Queue, e: QueueEvent): (q': Queue)
    requires QueueEnabled(q, e)
  {
    match e
    case Insert(c, item) =>
      q.(inner := q.inner + [item], duties := q.duties[c := MustSignal], inserted := q.inserted + multiset{item})
    case Notify(c) => q.(sem := After(q.sem, Signal(c, 1)), duties := q.duties[c := Free])
    case SemStep(e) =>
      q.(sem := After(q.sem, e), duties := q.duties[e.c := if Grants(q.sem, e) then Holding else Free])
    case Remove(c, i) =>
      q.(inner := q.inner[..i] + q.inner[i + 1..], duties := q.duties[c := Free],
         removed := q.removed + multiset{q.inner[i]})
  }

  lemma {:induction false} HoldersUpdate(duties: seq<Duty>, c: nat, d: Duty, x: Duty)
    requires c < |duties|
    ensures Holders(duties[c := d], x) ==
            Holders(duties, x) + (if d == x then 1 else 0) - (if duties[c] == x then 1 else 0)
  {
    var n := |duties| - 1;
    if c == n {
      assert duties[c := d][..n] == duties[..n];
    } else {
      assert duties[c := d][..n] == duties[..n][c := d];
      HoldersUpdate(duties[..n], c, d, x);
    }
  }

  /** A semaphore step grants at most one permit, to its own thread, and changes nothing else that matters here. */
  lemma SemStepEffect(s: Sem, e: Event)
    requires Enabled(s, e)
    ensures var s' := After(s, e);
            && |s'.pcs| == |s.pcs| && s'.initial == s.initial && s.granted <= s'.granted <= s.granted + 1
            && s'.signalled == s.signalled + (if e.Signal? then e.n else 0) && (e.Signal? ==> s'.granted == s.granted)
  {
  }

  lemma InsertKeeps(q: Queue, c: nat, item: int)
    requires QueueInv(q) && QueueEnabled(q, Insert(c, item))
    ensures QueueInv(QueueAfter(q, Insert(c, item)))
  {
    hide Holders, Inv;
    HoldersUpdate(q.duties, c, MustSignal, Holding);
    HoldersUpdate(q.duties, c, MustSignal, MustSignal);
  }

  lemma NotifyKeeps(q: Queue, c: nat)
    requires QueueInv(q) && QueueEnabled(q, Notify(c))
    ensures QueueInv(QueueAfter(q, Notify(c)))
  {
    hide Holders, Inv, After, Enabled;
    HoldersUpdate(q.duties, c, Free, Holding);
    HoldersUpdate(q.duties, c, Free, MustSignal);
    StepKeeps(q.sem, Signal(c, 1));
    SemStepEffect(q.sem, Signal(c, 1));
  }

  lemma SemKeeps(q: Queue, e: Event)
    requires QueueInv(q) && QueueEnabled(q, SemStep(e))
    ensures QueueInv(QueueAfter(q, SemStep(e)))
  {
    hide Holders, Inv, After, Enabled;
    var d := if Grants(q.sem, e) then Holding else Free;
    HoldersUpdate(q.duties, e.c, d, Holding);
    HoldersUpdate(q.duties, e.c, d, MustSignal);
    StepKeeps(q.sem, e);
    SemStepEffect(q.sem, e);
  }

  lemma RemoveKeeps(q: Queue, c: nat, i: nat)
    requires QueueInv(q) && QueueEnabled(q, Remove(c, i))
    ensures QueueInv(QueueAfter(q, Remove(c, i)))
  {
    hide Holders, Inv;
    HoldersUpdate(q.duties, c, Free, Holding);
    HoldersUpdate(q.duties, c, Free, MustSignal);
    assert q.inner == q.inner[..i] + [q.inner[i]] + q.inner[i + 1..];
  }

  lemma QueueStepKeeps(q: Queue, e: QueueEvent)
    requires QueueInv(q) && QueueEnabled(q, e)
    ensures QueueInv(QueueAfter(q, e))
  {
    hide QueueInv, QueueAfter, QueueEnabled;
    match e
    case Insert(c, item) => InsertKeeps(q, c, item);
    case Notify(c) => NotifyKeeps(q, c);
    case SemStep(e) => SemKeeps(q, e);
    case Remove(c, i) => RemoveKeeps(q, c, i);
  }

  lemma {:induction false} SomeHolder(duties: seq<Duty>, c: nat, d: Duty)
    requires c < |duties| && duties[c] == d
    ensures Holders(duties, d) > 0
  {
    if c < |duties| - 1 { SomeHolder(duties[..|duties| - 1], c, d); }
  }

  /** A consumer with an unredeemed permit always finds an item. */
  lemma PermitMeansItem(q: Queue, c: nat)
    requires QueueInv(q) && c < |q.duties| && q.duties[c] == Holding
    ensures q.inner != [] && |q.inner| >= Holders(q.duties, Holding)
  {
    SomeHolder(q.duties, c, Holding);
    GrantsBounded(q.sem);
  }

  ghost predicate IsQueueRun(qs: seq<Queue>, es: seq<QueueEvent>)
  {
    && |qs| == |es| + 1
    && qs[0].sem == Sem(0, 0, qs[0].sem.pcs, 0, 0, 0) && (forall c :: 0 <= c < |qs[0].sem.pcs| ==> qs[0].sem.pcs[c].Idle?)
    && |qs[0].duties| == |qs[0].sem.pcs| && (forall c :: 0 <= c < |qs[0].duties| ==> qs[0].duties[c] == Free)
    && qs[0].inner == [] && qs[0].inserted == multiset{} == qs[0].removed
    && forall i :: 0 <= i < |es| ==> QueueEnabled(qs[i], es[i]) && qs[i + 1] == QueueAfter(qs[i], es[i])
  }

  lemma {:induction false} AllFree(duties: seq<Duty>, d: Duty)
    requires d != Free && forall c :: 0 <= c < |duties| ==> duties[c] == Free
    ensures Holders(duties, d) == 0
  {
    if duties != [] { AllFree(duties[..|duties| - 1], d); }
  }

  lemma {:induction false} QueueRunKeeps(qs: seq<Queue>, es: seq<QueueEvent>, n: nat)
    requires IsQueueRun(qs, es) && n < |qs|
    ensures QueueInv(qs[n])
  {
    if n == 0 {
      AllIdle(qs[0].sem.pcs);
      AllFree(qs[0].duties, Holding);
      AllFree(qs[0].duties, MustSignal);
    } else {
      QueueRunKeeps(qs, es, n - 1);
      assert QueueEnabled(qs[n - 1], es[n - 1]) && qs[n - 1 + 1] == QueueAfter(qs[n - 1], es[n - 1]);
      QueueStepKeeps(qs[n - 1], es[n - 1]);
    }
  }

  /** In every run, a consumer that holds a permit faces a non-empty inner queue; no item is lost. */
  lemma QueueRunIsSafe(qs: seq<Queue>, es: seq<QueueEvent>, n: nat, c: nat)
    requires IsQueueRun(qs, es) && n < |qs|
    ensures c < |qs[n].duties| && qs[n].duties[c] == Holding ==> qs[n].inner != []
    ensures qs[n].inserted == qs[n].removed + multiset(qs[n].inner)
  {
    hide QueueAfter, QueueEnabled;
    QueueRunKeeps(qs, es, n);
    if c < |qs[n].duties| && qs[n].duties[c] == Holding { PermitMeansItem(qs[n], c); }
  }
}
