/**
 The thread-pool engine: requests go through a submission queue to workers and come back through a
 completion queue.  Workers interleave freely with each other and with the application's thread;
 the queues may hand out their items in any order.
 */
module ThreadPools {

  type Id = nat

  datatype Worker = Waiting | Holding(id: Id)

  datatype Completion = Completion(id: Id, rc: int)

  /** `batch` holds the requests of a submission that are not in the queue yet. */
  datatype Pool = Pool(prepared: seq<Id>, onthefly: set<Id>, batch: seq<Id>, submissions: seq<Id>,
                       workers: seq<Worker>, completions: seq<Completion>)

  /** How often x occurs in s. */
  function Times(s: seq<Id>, x: Id): (n: nat)
  {
    if s == [] then 0 else Times(s[..|s| - 1], x) + (if s[|s| - 1] == x then 1 else 0)
  }

  predicate Holds(w: Worker, x: Id)
  {
    w.Holding? && w.id == x
  }

  /** How many workers hold request x. */
  function HeldTimes(workers: seq<Worker>, x: Id): (n: nat)
  {
    if workers == [] then 0
    else HeldTimes(workers[..|workers| - 1], x) + (if Holds(workers[|workers| - 1], x) then 1 else 0)
  }

  function Busy(workers: seq<Worker>): (n: nat)
  {
    if workers == [] then 0
    else Busy(workers[..|workers| - 1]) + (if workers[|workers| - 1].Holding? then 1 else 0)
  }

  function Ids(completions: seq<Completion>): (s: seq<Id>)
  {
    seq(|completions|, i requires 0 <= i < |completions| => completions[i].id)
  }

  /** In how many places request x is. */
  function Places(p: Pool, x: Id): (n: nat)
  {
    Times(p.batch, x) + Times(p.submissions, x) + HeldTimes(p.workers, x) + Times(Ids(p.completions), x)
  }

  /** Every request on the fly is in exactly one place, and nothing else is anywhere. */
  ghost predicate Inv(p: Pool)
  {
    && (forall x :: Places(p, x) == if x in p.onthefly then 1 else 0)
    && (forall i, j :: 0 <= i < j < |p.prepared| ==> p.prepared[i] != p.prepared[j])
    && (forall id :: id in p.prepared ==> id !in p.onthefly)
  }

  datatype Event =
    | Prepare(id: Id)
    | Submit
    | Enqueue
    | Dequeue(w: nat, i: nat)
    | Finish(w: nat, rc: int)
    | Harvest(i: nat)
    | Discard

  /** A request is prepared once; the graph keeps its stage until it is finished. */
  ghost predicate Enabled(p: Pool, e: Event)
  {
    match e
    case Prepare(id) => id !in p.prepared && id !in p.onthefly
    case Submit => p.prepared != []
    case Enqueue => p.batch != []
    case Dequeue(w, i) => w < |p.workers| && p.workers[w].Waiting? && i < |p.submissions|
    case Finish(w, _) => w < |p.workers| && p.workers[w].Holding?
    case Harvest(i) => i < |p.completions|
    case Discard => true
  }

  function Without<T>(s: seq<T>, i: nat): (r: seq<T>)
    requires i < |s|
  {
    s[..i] + s[i + 1..]
  }

  ghost function After(p: Pool, e: Event): (p': Pool)
    requires Enabled(p, e)
  {
    match e
    case Prepare(id) => p.(prepared := p.prepared + [id])
    case Submit =>
      p.(prepared := p.prepared[1..], onthefly := p.onthefly + {p.prepared[0]}, batch := p.batch + [p.prepared[0]])
    case Enqueue => p.(batch := p.batch[1..], submissions := p.submissions + [p.batch[0]])
    case Dequeue(w, i) =>
      p.(submissions := Without(p.submissions, i), workers := p.workers[w := Holding(p.submissions[i])])
    case Finish(w, rc) =>
      p.(workers := p.workers[w := Waiting], completions := p.completions + [Completion(p.workers[w].id, rc)])
    case Harvest(i) => p.(completions := Without(p.completions, i), onthefly := p.onthefly - {p.completions[i].id})
    case Discard => p.(prepared := [])
  }

  lemma TimesAppend(s: seq<Id>, y: Id, x: Id)
    ensures Times(s + [y], x) == Times(s, x) + (if y == x then 1 else 0)
  {
    assert (s + [y])[..|s|] == s;
  }

  lemma {:induction false} TimesWithout(s: seq<Id>, i: nat, x: Id)
    requires i < |s|
    ensures Times(Without(s, i), x) + (if s[i] == x then 1 else 0) == Times(s, x)
  {
    var n := |s| - 1;
    if i == n {
      assert Without(s, i) == s[..n];
    } else {
      TimesWithout(s[..n], i, x);
      assert Without(s, i) == Without(s[..n], i) + [s[n]];
      TimesAppend(Without(s[..n], i), s[n], x);
    }
  }

  lemma {:induction false} HeldUpdate(workers: seq<Worker>, w: nat, v: Worker, x: Id)
    requires w < |workers|
    ensures HeldTimes(workers[w := v], x) + (if Holds(workers[w], x) then 1 else 0) ==
            HeldTimes(workers, x) + (if Holds(v, x) then 1 else 0)
    ensures Busy(workers[w := v]) + (if workers[w].Holding? then 1 else 0) ==
            Busy(workers) + (if v.Holding? then 1 else 0)
  {
    var n := |workers| - 1;
    if w == n {
      assert workers[w := v][..n] == workers[..n];
    } else {
      assert workers[w := v][..n] == workers[..n][w := v];
      HeldUpdate(workers[..n], w, v, x);
    }
  }

  lemma {:induction false} Occurs(s: seq<Id>, i: nat)
    requires i < |s|
    ensures Times(s, s[i]) > 0
  {
    if i < |s| - 1 { Occurs(s[..|s| - 1], i); }
  }

  /** A completion is always one of a request on the fly, so harvesting never meets a stray one. */
  lemma HarvestIsExpected(p: Pool, i: nat)
    requires Inv(p) && i < |p.completions|
    ensures p.completions[i].id in p.onthefly
  {
    Occurs(Ids(p.completions), i);
    assert Places(p, p.completions[i].id) > 0;
  }

  /** How a step changes the number of places of x: only submitting and harvesting x does. */
  lemma PlacesAfter(p: Pool, e: Event, x: Id)
    requires Enabled(p, e)
    ensures Places(After(p, e), x) == Places(p, x)
              + (if e.Submit? && p.prepared[0] == x then 1 else 0)
              - (if e.Harvest? && p.completions[e.i].id == x then 1 else 0)
  {
    hide Times, HeldTimes, Without, Busy;
    var p' := After(p, e);
    match e
    case Prepare(_) =>
    case Submit => TimesAppend(p.batch, p.prepared[0], x);
    case Enqueue =>
      TimesAppend(p.submissions, p.batch[0], x);
      TimesWithout(p.batch, 0, x);
      WithoutFirst(p.batch);
    case Dequeue(w, i) =>
      TimesWithout(p.submissions, i, x);
      HeldUpdate(p.workers, w, Holding(p.submissions[i]), x);
    case Finish(w, rc) =>
      HeldUpdate(p.workers, w, Waiting, x);
      assert Ids(p'.completions) == Ids(p.completions) + [p.workers[w].id];
      TimesAppend(Ids(p.completions), p.workers[w].id, x);
    case Harvest(i) =>
      TimesWithout(Ids(p.completions), i, x);
      IdsWithout(p.completions, i);
    case Discard =>
  }

  lemma WithoutFirst(s: seq<Id>)
    requires s != []
    ensures Without(s, 0) == s[1..]
  {
  }

  lemma IdsWithout(cs: seq<Completion>, i: nat)
    requires i < |cs|
    ensures Ids(Without(cs, i)) == Without(Ids(cs), i)
  {
  }

  lemma StepKeeps(p: Pool, e: Event)
    requires Inv(p) && Enabled(p, e)
    ensures Inv(After(p, e))
    ensures e.Submit? ==> p.prepared[0] !in p.onthefly
    ensures e.Harvest? ==> p.completions[e.i].id in p.onthefly
  {
    hide Places;
    var p' := After(p, e);
    forall x ensures Places(p', x) == if x in p'.onthefly then 1 else 0 {
      PlacesAfter(p, e, x);
      if e.Harvest? { HarvestIsExpected(p, e.i); }
      if e.Submit? { assert p.prepared[0] in p.prepared; }
    }
    if e.Harvest? { HarvestIsExpected(p, e.i); }
    assert forall k :: 0 <= k < |p.prepared| ==> p.prepared[k] in p.prepared;
  }

  /** With nothing on the fly, no queue and no worker has anything left. */
  lemma NothingLeft(p: Pool)
    requires Inv(p) && p.onthefly == {}
    ensures p.batch == [] && p.submissions == [] && p.completions == []
    ensures forall w :: 0 <= w < |p.workers| ==> p.workers[w].Waiting?
  {
    forall x ensures Times(p.batch, x) == Times(p.submissions, x) == HeldTimes(p.workers, x) == 0 {
      assert Places(p, x) == 0;
    }
    if p.batch != [] { Occurs(p.batch, 0); }
    if p.submissions != [] { Occurs(p.submissions, 0); }
    if p.completions != [] { HarvestIsExpected(p, 0); }
    forall w | 0 <= w < |p.workers| ensures p.workers[w].Waiting? {
      if p.workers[w].Holding? { HeldOccurs(p.workers, w); }
    }
  }

  lemma {:induction false} HeldOccurs(workers: seq<Worker>, w: nat)
    requires w < |workers| && workers[w].Holding?
    ensures HeldTimes(workers, workers[w].id) > 0
  {
    if w < |workers| - 1 { HeldOccurs(workers[..|workers| - 1], w); }
  }

  // ---- Harvests come, and not more than were submitted -----------------------------------

  /** Steps still ahead of the requests on the fly. */
  ghost function Work(p: Pool): (n: nat)
  {
    4 * |p.batch| + 3 * |p.submissions| + 2 * Busy(p.workers) + |p.completions|
  }

  predicate IsProgress(e: Event)
  {
    e.Enqueue? || e.Dequeue? || e.Finish? || e.Harvest?
  }

  lemma ProgressDecreases(p: Pool, e: Event)
    requires Enabled(p, e) && IsProgress(e)
    ensures Work(After(p, e)) < Work(p)
  {
    hide Busy;
    if e.Dequeue? { HeldUpdate(p.workers, e.w, Holding(p.submissions[e.i]), 0); }
    if e.Finish? { HeldUpdate(p.workers, e.w, Waiting, 0); }
  }

  lemma {:induction false} SomeHolder(workers: seq<Worker>) returns (w: nat)
    requires Busy(workers) > 0
    ensures w < |workers| && workers[w].Holding?
  {
    w := |workers| - 1;
    if workers[w].Waiting? { w := SomeHolder(workers[..w]); }
  }

  lemma {:induction false} NoHolder(workers: seq<Worker>, x: Id)
    requires Busy(workers) == 0
    ensures (forall w :: 0 <= w < |workers| ==> workers[w].Waiting?) && HeldTimes(workers, x) == 0
  {
    if workers != [] { NoHolder(workers[..|workers| - 1], x); }
  }

  /** While requests are on the fly, some step brings them closer to being harvested: no deadlock. */
  lemma StepExists(p: Pool) returns (e: Event)
    requires Inv(p) && p.onthefly != {} && p.workers != []
    ensures IsProgress(e) && Enabled(p, e) && Work(After(p, e)) < Work(p)
  {
    var x :| x in p.onthefly;
    assert Places(p, x) == 1;
    if p.completions != [] {
      e := Harvest(0);
    } else if Busy(p.workers) > 0 {
      var w := SomeHolder(p.workers);
      e := Finish(w, 0);
    } else {
      NoHolder(p.workers, x);
      e := if p.submissions != [] then Dequeue(0, 0) else Enqueue;
    }
    ProgressDecreases(p, e);
  }

  // ---- Whole runs ------------------------------------------------------------------------

  /** Nothing prepared or submitted yet, and all workers wait. */
  ghost predicate IsStart(p: Pool)
  {
    && p == Pool([], {}, [], [], p.workers, [])
    && forall w :: 0 <= w < |p.workers| ==> p.workers[w].Waiting?
  }

  lemma {:induction false} NoneHeld(workers: seq<Worker>, x: Id)
    requires forall w :: 0 <= w < |workers| ==> workers[w].Waiting?
    ensures HeldTimes(workers, x) == 0
  {
    if workers != [] { NoneHeld(workers[..|workers| - 1], x); }
  }

  lemma StartInv(p: Pool)
    requires IsStart(p)
    ensures Inv(p)
  {
    forall x ensures Places(p, x) == 0 { NoneHeld(p.workers, x); }
  }

  /** A run from the start: any steps of the application and the workers, in any order. */
  ghost predicate IsRun(ps: seq<Pool>, es: seq<Event>)
  {
    && |ps| == |es| + 1 && IsStart(ps[0])
    && forall i :: 0 <= i < |es| ==> Enabled(ps[i], es[i]) && ps[i + 1] == After(ps[i], es[i])
  }

  lemma {:induction false} RunKeeps(ps: seq<Pool>, es: seq<Event>, n: nat)
    requires IsRun(ps, es) && n < |ps|
    ensures Inv(ps[n]) && |ps[n].workers| == |ps[0].workers|
  {
    if n == 0 {
      StartInv(ps[0]);
    } else {
      RunKeeps(ps, es, n - 1);
      assert Enabled(ps[n - 1], es[n - 1]) && ps[n - 1 + 1] == After(ps[n - 1], es[n - 1]);
      StepKeeps(ps[n - 1], es[n - 1]);
    }
  }

  /**
   In every run: a request on the fly is in exactly one place and nothing else is anywhere, every
   completion is expected, submitted requests were not on the fly before, and when nothing is on the
   fly nothing is left.
   */
  lemma RunIsSafe(ps: seq<Pool>, es: seq<Event>, n: nat)
    requires IsRun(ps, es) && n < |ps|
    ensures forall x :: Places(ps[n], x) == if x in ps[n].onthefly then 1 else 0
    ensures forall i :: 0 <= i < |ps[n].completions| ==> ps[n].completions[i].id in ps[n].onthefly
    ensures n < |es| && es[n].Submit? ==> ps[n].prepared[0] !in ps[n].onthefly
    ensures ps[n].onthefly == {} ==> ps[n].batch == [] && ps[n].submissions == [] && ps[n].completions == []
  {
    hide Places;
    RunKeeps(ps, es, n);
    forall i | 0 <= i < |ps[n].completions| ensures ps[n].completions[i].id in ps[n].onthefly {
      HarvestIsExpected(ps[n], i);
    }
    if n < |es| && es[n].Submit? {
      assert Enabled(ps[n], es[n]);
      StepKeeps(ps[n], es[n]);
    }
    if ps[n].onthefly == {} { NothingLeft(ps[n]); }
  }

  /** Step m finished request id with this return code, and it was not submitted again before step n. */
  ghost predicate FinishedAt(ps: seq<Pool>, es: seq<Event>, n: nat, c: Completion, m: nat)
    requires |ps| == |es| + 1 && n < |ps|
  {
    && m < n && es[m].Finish? && es[m].w < |ps[m].workers|
    && ps[m].workers[es[m].w] == Holding(c.id) && es[m].rc == c.rc
    && forall j :: m < j < n ==> !Submits(ps, es, j, c.id)
  }

  ghost predicate Submits(ps: seq<Pool>, es: seq<Event>, j: nat, id: Id)
    requires |ps| == |es| + 1 && j < |es|
  {
    es[j].Submit? && ps[j].prepared != [] && ps[j].prepared[0] == id
  }

  /** A completion is new, from a worker that finishes, or it was there before, at place k. */
  lemma CompletionStep(p: Pool, e: Event, i: nat) returns (isNew: bool, k: nat)
    requires Enabled(p, e) && i < |After(p, e).completions|
    ensures isNew ==> e.Finish? && After(p, e).completions[i] == Completion(p.workers[e.w].id, e.rc)
    ensures !isNew ==> k < |p.completions| && p.completions[k] == After(p, e).completions[i]
  {
    isNew := e.Finish? && i == |p.completions|;
    k := if e.Harvest? && i >= e.i then i + 1 else i;
  }

  /**
   Every completion carries the return code with which a worker finished this very request, since it
   was last submitted: no code is invented, and none goes to another request.
   */
  lemma {:induction false} CompletionOrigin(ps: seq<Pool>, es: seq<Event>, n: nat, i: nat) returns (m: nat)
    requires IsRun(ps, es) && n < |ps| && i < |ps[n].completions|
    ensures FinishedAt(ps, es, n, ps[n].completions[i], m)
    decreases n
  {
    hide After, Inv;
    assert Enabled(ps[n - 1], es[n - 1]) && ps[n - 1 + 1] == After(ps[n - 1], es[n - 1]);
    var isNew, k := CompletionStep(ps[n - 1], es[n - 1], i);
    if isNew {
      m := n - 1;
    } else {
      m := CompletionOrigin(ps, es, n - 1, k);
      RunKeeps(ps, es, n - 1);
      HarvestIsExpected(ps[n - 1], k);
      StepKeeps(ps[n - 1], es[n - 1]);
    }
  }

  /**
   What a harvest gives back: a request that was on the fly, with the return code of the worker that
   finished it; and the request is no longer on the fly.
   */
  lemma HarvestDelivers(ps: seq<Pool>, es: seq<Event>, n: nat) returns (m: nat)
    requires IsRun(ps, es) && n < |es| && es[n].Harvest?
    ensures es[n].i < |ps[n].completions| && FinishedAt(ps, es, n, ps[n].completions[es[n].i], m)
    ensures ps[n].completions[es[n].i].id in ps[n].onthefly
    ensures ps[n + 1].onthefly == ps[n].onthefly - {ps[n].completions[es[n].i].id}
  {
    assert Enabled(ps[n], es[n]) && ps[n + 1] == After(ps[n], es[n]);
    m := CompletionOrigin(ps, es, n, es[n].i);
    RunKeeps(ps, es, n);
    HarvestIsExpected(ps[n], es[n].i);
  }

  /** The requests prepared in the steps from m up to n, and those submitted, each in order. */
  ghost function PreparedIn(es: seq<Event>, m: nat, n: nat): (ids: seq<Id>)
    requires m <= n <= |es|
  {
    if n == m then [] else PreparedIn(es, m, n - 1) + (if es[n - 1].Prepare? then [es[n - 1].id] else [])
  }

  ghost function SubmittedIn(ps: seq<Pool>, es: seq<Event>, m: nat, n: nat): (ids: seq<Id>)
    requires m <= n <= |es| && |ps| == |es| + 1
  {
    if n == m then []
    else
      SubmittedIn(ps, es, m, n - 1) +
      (if es[n - 1].Submit? && ps[n - 1].prepared != [] then [ps[n - 1].prepared[0]] else [])
  }

  /** Requests are submitted in the order in which they were prepared, and none is left out. */
  lemma {:induction false} SubmittedInOrder(ps: seq<Pool>, es: seq<Event>, m: nat, n: nat)
    requires IsRun(ps, es) && m <= n <= |es| && forall i :: m <= i < n ==> !es[i].Discard?
    ensures ps[m].prepared + PreparedIn(es, m, n) == SubmittedIn(ps, es, m, n) + ps[n].prepared
  {
    if m < n {
      SubmittedInOrder(ps, es, m, n - 1);
      var p, e := ps[n - 1], es[n - 1];
      assert Enabled(p, e) && ps[n - 1 + 1] == After(p, e);
      OrderStep(ps[m].prepared, PreparedIn(es, m, n - 1), SubmittedIn(ps, es, m, n - 1), p, e);
    }
  }

  lemma OrderStep(first: seq<Id>, prepared: seq<Id>, submitted: seq<Id>, p: Pool, e: Event)
    requires Enabled(p, e) && !e.Discard? && first + prepared == submitted + p.prepared
    ensures first + (prepared + (if e.Prepare? then [e.id] else [])) ==
            submitted + (if e.Submit? then [p.prepared[0]] else []) + After(p, e).prepared
  {
    if e.Prepare? {
      assert first + (prepared + [e.id]) == (first + prepared) + [e.id];
    } else if e.Submit? {
      assert p.prepared == [p.prepared[0]] + p.prepared[1..];
      assert prepared + [] == prepared;
      assert submitted + p.prepared == submitted + [p.prepared[0]] + p.prepared[1..];
    } else {
      assert prepared + [] == prepared && submitted + [] == submitted;
    }
  }

  /** In every run with a worker, requests on the fly can always be brought closer to their harvest. */
  lemma RunProgresses(ps: seq<Pool>, es: seq<Event>, n: nat) returns (e: Event)
    requires IsRun(ps, es) && n < |ps| && ps[0].workers != [] && ps[n].onthefly != {}
    ensures IsProgress(e) && Enabled(ps[n], e) && Work(After(ps[n], e)) < Work(ps[n])
  {
    RunKeeps(ps, es, n);
    e := StepExists(ps[n]);
  }

  /** How many of the steps from m up to n are harvests. */
  function Harvests(es: seq<Event>, m: nat, n: nat): (k: nat)
    requires m <= n <= |es|
  {
    if n == m then 0 else Harvests(es, m, n - 1) + (if es[n - 1].Harvest? then 1 else 0)
  }

  /**
   From any moment of a run on, while nothing more is submitted: every harvest takes one request off
   the fly, so cleaning up ends within as many harvests as there were requests.
   */
  lemma {:induction false} HarvestsBounded(ps: seq<Pool>, es: seq<Event>, m: nat, n: nat)
    requires IsRun(ps, es) && m <= n <= |es| && forall i :: m <= i < n ==> !es[i].Submit?
    ensures Harvests(es, m, n) + |ps[n].onthefly| == |ps[m].onthefly|
  {
    if m < n {
      HarvestsBounded(ps, es, m, n - 1);
      RunKeeps(ps, es, n - 1);
      var p, e := ps[n - 1], es[n - 1];
      assert Enabled(p, e) && ps[n - 1 + 1] == After(p, e);
      if e.Harvest? { HarvestIsExpected(p, e.i); }
    }
  }

  lemma {:induction false} NothingPrepared(ps: seq<Pool>, es: seq<Event>, m: nat, n: nat)
    requires IsRun(ps, es) && m < n <= |es| && es[m].Discard? && forall i :: m <= i < n ==> !es[i].Prepare?
    ensures ps[n].prepared == []
  {
    assert Enabled(ps[n - 1], es[n - 1]) && ps[n - 1 + 1] == After(ps[n - 1], es[n - 1]);
    if m < n - 1 { NothingPrepared(ps, es, m, n - 1); }
  }

  /**
   Cleaning up discards what is prepared and harvests until nothing is on the fly; the pool is then as it
   was at the start, and nothing of what was discarded has been submitted.
   */
  lemma CleanedUp(ps: seq<Pool>, es: seq<Event>, m: nat, n: nat)
    requires IsRun(ps, es) && m < n <= |es| && es[m].Discard? && forall i :: m <= i < n ==> !es[i].Prepare?
    requires ps[n].onthefly == {}
    ensures IsStart(ps[n]) && Harvests(es, m, n) == |ps[m].onthefly|
  {
    hide Inv;
    NothingPrepared(ps, es, m, n);
    forall i | m <= i < n ensures !es[i].Submit? {
      assert Enabled(ps[i], es[i]);
      if i > m { NothingPrepared(ps, es, m, i); }
    }
    HarvestsBounded(ps, es, m, n);
    RunKeeps(ps, es, n);
    NothingLeft(ps[n]);
  }
}
