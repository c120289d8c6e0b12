/**
 The state of the pre-issuing algorithm and its invariant.

 `fpos` and `ppos` are the places of the frontier and of the peekhead on the application's path.
 `at` names the place of the visit a pool entry belongs to, `log` lists the syscalls that were
 handed to the system, in order, and `results` holds the return codes that have come back.
 */
module Speculation {
  import opened Graphs

  /** A visit without a stage is not ready. */
  datatype Stage = ArgReady | Prepared | OnTheFly | Finished

  datatype Exec = Exec(pos: nat, args: Args)

  datatype State = State(frontier: int, frontierEpoch: Epoch,
                         peekhead: int, peekWeak: bool, peekEpoch: Epoch, peekDistance: int, hitEnd: bool,
                         weakDistance: int, numPrepared: int, preparedDistance: int,
                         stage: map<PoolKey, Stage>, args: map<PoolKey, Args>, link: map<PoolKey, bool>,
                         rc: map<PoolKey, int>, decision: map<PoolKey, nat>,
                         prepared: seq<PoolKey>, onthefly: set<PoolKey>,
                         fpos: nat, ppos: nat, lo: nat, at: map<PoolKey, nat>,
                         log: seq<Exec>, results: map<nat, int>)

  ghost predicate WeakAt(w: World, k: nat)
  {
    SysAt(w, k) && w.nodes[R(w, k).node].weak
  }

  ghost predicate PureAt(w: World, k: nat)
  {
    SysAt(w, k) && w.nodes[R(w, k).node].pure
  }

  /** The last syscall before place k has a weak edge. */
  ghost predicate WeakBefore(w: World, k: nat)
  {
    if k == 0 then false else if SysAt(w, k - 1) then WeakAt(w, k - 1) else WeakBefore(w, k - 1)
  }

  ghost predicate OnPath(w: World, depth: nat, frontier: int, frontierEpoch: Epoch, peekhead: int, peekWeak: bool,
                         peekEpoch: Epoch, peekDistance: int, hitEnd: bool, fpos: nat, ppos: nat)
  {
    && R(w, fpos) == Cursor(frontier, frontierEpoch)
    && R(w, ppos).epoch == peekEpoch
    && peekDistance == C(w, ppos) - C(w, fpos) - 1 <= depth
    && (peekDistance >= 0 ==> R(w, ppos).node == peekhead && WeakBefore(w, ppos) == peekWeak)
    && (hitEnd ==> R(w, ppos).node == -1)
  }

  /** Entry k of the pools belongs to place p. */
  ghost predicate EntryAt(w: World, fpos: nat, ppos: nat, k: PoolKey, p: nat)
  {
    fpos <= p && (p == fpos || p < ppos) && SysAt(w, p) && KeyOf(w, p) == k
  }

  /** The entries hold the plugin's answers to their own visits. */
  ghost predicate OwnAnswers<T>(w: World, pool: map<PoolKey, T>, answer: (int, Epoch) -> T, at: map<PoolKey, nat>)
  {
    forall k :: k in pool ==> k in at && pool[k] == answer(R(w, at[k]).node, R(w, at[k]).epoch)
  }

  ghost predicate PoolsOk(w: World, fpos: nat, ppos: nat, stage: map<PoolKey, Stage>, at: map<PoolKey, nat>,
                          args: map<PoolKey, Args>, link: map<PoolKey, bool>, rc: map<PoolKey, int>)
  {
    && at.Keys == stage.Keys == args.Keys && link.Keys <= stage.Keys
    && (forall k :: k in stage ==> EntryAt(w, fpos, ppos, k, at[k]))
    && OwnAnswers(w, args, w.argsOf, at) && OwnAnswers(w, link, w.linkOf, at)
    && (forall k :: k in stage && (stage[k] == Prepared || stage[k] == OnTheFly) ==> k in link)
    && (forall k :: k in rc <==> k in stage && stage[k] == Finished)
  }

  ghost predicate EngineOk(w: World, fpos: nat, stage: map<PoolKey, Stage>, at: map<PoolKey, nat>,
                           prepared: seq<PoolKey>, onthefly: set<PoolKey>, numPrepared: int, preparedDistance: int)
  {
    && at.Keys == stage.Keys
    && numPrepared == |prepared|
    && (forall k :: k in prepared <==> k in stage && stage[k] == Prepared)
    && (forall k :: k in onthefly <==> k in stage && stage[k] == OnTheFly)
    && (forall i, j :: 0 <= i < j < |prepared| ==> at[prepared[i]] < at[prepared[j]])
    && (prepared != [] ==> preparedDistance == C(w, at[prepared[0]]) - C(w, fpos) - 1)
  }

  ghost predicate Started(log: seq<Exec>, p: nat)
  {
    exists i :: 0 <= i < |log| && log[i].pos == p
  }

  /** Every syscall the frontier has passed was executed once; so was what the engine was given. */
  ghost predicate LogOk(w: World, fpos: nat, stage: map<PoolKey, Stage>, at: map<PoolKey, nat>,
                        rc: map<PoolKey, int>, log: seq<Exec>, results: map<nat, int>)
  {
    && at.Keys == stage.Keys
    && (forall i, j :: 0 <= i < j < |log| ==> log[i].pos != log[j].pos)
    && (forall i :: 0 <= i < |log| ==> OwnArgs(w, log[i]))
    && (forall p: nat :: SysAt(w, p) && p < fpos ==> Started(log, p) && p in results)
    && (forall i :: 0 <= i < |log| ==> log[i].pos < fpos || Submitted(w, stage, at, log[i].pos))
    && (forall k :: k in stage && (stage[k] == OnTheFly || stage[k] == Finished) ==> Started(log, at[k]))
    && (forall k :: k in rc ==> k in at && at[k] in results && rc[k] == results[at[k]])
    && (forall p :: p in results ==> Started(log, p))
  }

  ghost predicate OwnArgs(w: World, e: Exec)
  {
    SysAt(w, e.pos) && e.args == w.argsOf(R(w, e.pos).node, R(w, e.pos).epoch)
  }

  ghost predicate Submitted(w: World, stage: map<PoolKey, Stage>, at: map<PoolKey, nat>, p: nat)
  {
    var k := KeyOf(w, p);
    k in stage && k in at && at[k] == p && (stage[k] == OnTheFly || stage[k] == Finished)
  }

  /** Uncrossed weak edges behind the peekhead's own are within the recorded distance, and one is at it. */
  ghost predicate WeakOk(w: World, fpos: nat, ppos: nat, weakDistance: int)
  {
    && (forall q: nat :: fpos <= q < ppos && WeakAt(w, q) && C(w, q) + 1 < C(w, ppos) ==>
                           C(w, q) - C(w, fpos) <= weakDistance)
    && (weakDistance >= 0 ==> WeakAtDistance(w, fpos, ppos, weakDistance))
  }

  ghost predicate WeakAtDistance(w: World, fpos: nat, ppos: nat, d: int)
  {
    exists q: nat :: fpos <= q < ppos && WeakAt(w, q) && C(w, q) - C(w, fpos) == d
  }

  /** ... and this includes the edge that leads to the peekhead. */
  ghost predicate WeakAll(w: World, fpos: nat, ppos: nat, weakDistance: int)
  {
    forall q: nat :: fpos <= q < ppos && WeakAt(w, q) ==> C(w, q) - C(w, fpos) <= weakDistance
  }

  ghost predicate NoWeakBetween(w: World, a: nat, b: nat)
  {
    forall q: nat :: a <= q < b ==> !WeakAt(w, q)
  }

  /** Side effects were handed over only with no weak edge in between. */
  ghost predicate SafeOk(w: World, lo: nat, stage: map<PoolKey, Stage>, at: map<PoolKey, nat>)
  {
    && at.Keys == stage.Keys
    && forall k :: k in stage && stage[k] != ArgReady && !PureAt(w, at[k]) ==> NoWeakBetween(w, lo, at[k])
  }

  ghost predicate DecidedAt(w: World, fpos: nat, ppos: nat, k: PoolKey, d: nat, p: nat)
  {
    fpos <= p < ppos && KeyOf(w, p) == k && IsBranch(w, R(w, p).node) && d == w.decide(R(w, p).node, R(w, p).epoch)
  }

  ghost predicate Decided(w: World, fpos: nat, ppos: nat, k: PoolKey, d: nat)
  {
    exists p: nat :: DecidedAt(w, fpos, ppos, k, d, p)
  }

  ghost predicate DecisionsOk(w: World, fpos: nat, ppos: nat, decision: map<PoolKey, nat>)
  {
    forall k :: k in decision ==> Decided(w, fpos, ppos, k, decision[k])
  }

  ghost predicate Inv(w: World, depth: nat, s: State)
  {
    && WellBuilt(w) && s.lo <= s.fpos
    && OnPath(w, depth, s.frontier, s.frontierEpoch, s.peekhead, s.peekWeak, s.peekEpoch, s.peekDistance, s.hitEnd,
                s.fpos, s.ppos)
    && PoolsOk(w, s.fpos, s.ppos, s.stage, s.at, s.args, s.link, s.rc)
    && EngineOk(w, s.fpos, s.stage, s.at, s.prepared, s.onthefly, s.numPrepared, s.preparedDistance)
    && LogOk(w, s.fpos, s.stage, s.at, s.rc, s.log, s.results)
    && WeakOk(w, s.fpos, s.ppos, s.weakDistance)
    && SafeOk(w, s.lo, s.stage, s.at)
    && DecisionsOk(w, s.fpos, s.ppos, s.decision)
  }

  // ---- Start -----------------------------------------------------------------------------

  ghost function Initial(w: World): (s: State)
  {
    State(w.start, seq(w.ndims, _ => 0), -1, false, seq(w.ndims, _ => 0), -1, false, -1, 0, -1,
          map[], map[], map[], map[], map[], [], {}, 0, 0, 0, map[], [], map[])
  }

  lemma InitialInv(w: World, depth: nat)
    requires WellBuilt(w)
    ensures Inv(w, depth, Initial(w))
  {
  }

  /** Where the frontier and the peekhead are. */
  lemma Located(w: World, depth: nat, s: State)
    requires Inv(w, depth, s)
    ensures R(w, s.fpos) == Cursor(s.frontier, s.frontierEpoch) && IsRef(w, s.frontier)
    ensures |s.frontierEpoch| == |s.peekEpoch| == w.ndims && s.peekDistance <= depth
    ensures s.peekDistance >= 0 ==> R(w, s.ppos) == Cursor(s.peekhead, s.peekEpoch) && IsRef(w, s.peekhead)
  {
    hide PoolsOk, EngineOk, LogOk, WeakOk, SafeOk, DecisionsOk, R, C, WeakBefore, WellBuilt;
    PathRefs(w, s.fpos);
    PathRefs(w, s.ppos);
  }

  /** Taking child d of a branch, where d is the plugin's answer, is one step of the path. */
  lemma AtBranch(w: World, k: nat, d: nat)
    requires WellBuilt(w) && IsBranch(w, R(w, k).node) && d == w.decide(R(w, k).node, R(w, k).epoch)
    ensures var b := w.nodes[R(w, k).node];
            && d < |b.children| == |b.backDims| && -1 <= b.backDims[d] < |R(w, k).epoch|
            && b.children[d] == Target(w, R(w, k)) == R(w, k + 1).node
            && Incremented(R(w, k).epoch, b.backDims[d]) == R(w, k + 1).epoch
  {
    PathRefs(w, k);
    assert NodeOk(w, R(w, k).node);
  }

  // ---- Resolving branches at the frontier ------------------------------------------------

  lemma NextPlace(w: World, k: nat)
    ensures R(w, k + 1) == Step(w, R(w, k))
    ensures C(w, k + 1) == C(w, k) + (if SysAt(w, k) then 1 else 0)
    ensures WeakBefore(w, k + 1) == if SysAt(w, k) then WeakAt(w, k) else WeakBefore(w, k)
  {
  }

  /** A stored decision is the one made for this very visit. */
  lemma DecisionIsOwn(w: World, fpos: nat, ppos: nat, decision: map<PoolKey, nat>, p: nat)
    requires WellBuilt(w) && DecisionsOk(w, fpos, ppos, decision) && IsBranch(w, R(w, p).node)
    requires KeyOf(w, p) in decision
    ensures decision[KeyOf(w, p)] == w.decide(R(w, p).node, R(w, p).epoch)
  {
    hide R, WellBuilt;
    var q: nat :| DecidedAt(w, fpos, ppos, KeyOf(w, p), decision[KeyOf(w, p)], q);
    KeyInjective(w, p, q);
  }

  ghost function FrontierBranched(w: World, s: State): (s': State)
  {
    s.(frontier := Target(w, R(w, s.fpos)), frontierEpoch := R(w, s.fpos + 1).epoch,
       decision := s.decision - {KeyOf(w, s.fpos)}, fpos := s.fpos + 1)
  }

  lemma BranchedDecisions(w: World, fpos: nat, ppos: nat, decision: map<PoolKey, nat>)
    requires DecisionsOk(w, fpos, ppos, decision)
    ensures DecisionsOk(w, fpos + 1, ppos, decision - {KeyOf(w, fpos)})
  {
    hide R, KeyAt;
    forall k | k in decision - {KeyOf(w, fpos)} ensures Decided(w, fpos + 1, ppos, k, decision[k]) {
      var p: nat :| DecidedAt(w, fpos, ppos, k, decision[k], p);
      assert DecidedAt(w, fpos + 1, ppos, k, decision[k], p);
    }
  }

  lemma BranchedPools(w: World, s: State)
    requires PoolsOk(w, s.fpos, s.ppos, s.stage, s.at, s.args, s.link, s.rc) && !SysAt(w, s.fpos)
    ensures PoolsOk(w, s.fpos + 1, s.ppos, s.stage, s.at, s.args, s.link, s.rc)
  {
    hide OwnAnswers, R, KeyOf;
    forall k | k in s.stage ensures EntryAt(w, s.fpos + 1, s.ppos, k, s.at[k]) {
      assert EntryAt(w, s.fpos, s.ppos, k, s.at[k]);
    }
  }

  lemma BranchedLog(w: World, s: State)
    requires LogOk(w, s.fpos, s.stage, s.at, s.rc, s.log, s.results) && !SysAt(w, s.fpos)
    ensures LogOk(w, s.fpos + 1, s.stage, s.at, s.rc, s.log, s.results)
  {
    hide R, KeyOf, Started;
  }

  lemma BranchedWeak(w: World, fpos: nat, ppos: nat, d: int)
    requires WeakOk(w, fpos, ppos, d) && !SysAt(w, fpos)
    ensures WeakOk(w, fpos + 1, ppos, d)
  {
    hide R, C, SysAt;
    NextPlace(w, fpos);
    if d >= 0 {
      var q: nat :| fpos <= q < ppos && WeakAt(w, q) && C(w, q) - C(w, fpos) == d;
      assert fpos + 1 <= q < ppos && WeakAt(w, q) && C(w, q) - C(w, fpos + 1) == d;
    }
  }

  lemma FrontierBranchedInv(w: World, depth: nat, s: State)
    requires Inv(w, depth, s) && IsBranch(w, s.frontier)
    ensures Inv(w, depth, FrontierBranched(w, s))
  {
    hide R, C, KeyOf, WeakBefore, DecisionsOk, PoolsOk, LogOk, WeakOk, SafeOk, WellBuilt;
    NextPlace(w, s.fpos);
    BranchedDecisions(w, s.fpos, s.ppos, s.decision);
    BranchedPools(w, s);
    BranchedLog(w, s);
    BranchedWeak(w, s.fpos, s.ppos, s.weakDistance);
  }

  // ---- The application's own call --------------------------------------------------------

  /** No entry of the pools can belong to another visit with the same key. */
  lemma EntryIsOwn(w: World, s: State, p: nat)
    requires WellBuilt(w) && PoolsOk(w, s.fpos, s.ppos, s.stage, s.at, s.args, s.link, s.rc)
    requires IsNode(w, R(w, p).node) && KeyOf(w, p) in s.stage
    ensures s.at[KeyOf(w, p)] == p
  {
    hide R, WellBuilt, KeyOf;
    assert EntryAt(w, s.fpos, s.ppos, KeyOf(w, p), s.at[KeyOf(w, p)]);
    KeyInjective(w, p, s.at[KeyOf(w, p)]);
  }

  /** The arguments of the actual call make the frontier visit ready, if it was not before. */
  ghost function ArgsChecked(w: World, s: State): (s': State)
  {
    var k := KeyOf(w, s.fpos);
    if k in s.stage then s
    else s.(stage := s.stage[k := ArgReady], args := s.args[k := w.argsOf(s.frontier, s.frontierEpoch)],
            at := s.at[k := s.fpos])
  }

  /** A new entry that is only ready changes nothing for the engine, the log and the weak edges. */
  lemma ReadyEngine(w: World, s: State, k: PoolKey, p: nat)
    requires k !in s.stage
    requires EngineOk(w, s.fpos, s.stage, s.at, s.prepared, s.onthefly, s.numPrepared, s.preparedDistance)
    ensures EngineOk(w, s.fpos, s.stage[k := ArgReady], s.at[k := p], s.prepared, s.onthefly, s.numPrepared,
                     s.preparedDistance)
  {
    hide C;
    forall i | 0 <= i < |s.prepared| ensures s.prepared[i] in s.stage { assert s.prepared[i] in s.prepared; }
  }

  lemma ReadyLog(w: World, s: State, k: PoolKey, p: nat)
    requires k !in s.stage && LogOk(w, s.fpos, s.stage, s.at, s.rc, s.log, s.results)
    ensures LogOk(w, s.fpos, s.stage[k := ArgReady], s.at[k := p], s.rc, s.log, s.results)
  {
    hide R, KeyOf, Started, OwnArgs;
  }

  lemma ReadySafe(w: World, s: State, k: PoolKey, p: nat)
    requires k !in s.stage && SafeOk(w, s.lo, s.stage, s.at)
    ensures SafeOk(w, s.lo, s.stage[k := ArgReady], s.at[k := p])
  {
    hide PureAt, NoWeakBetween;
  }

  lemma ReadyPools(w: World, s: State, k: PoolKey, p: nat, linked: bool)
    requires k !in s.stage && PoolsOk(w, s.fpos, s.ppos, s.stage, s.at, s.args, s.link, s.rc)
    requires EntryAt(w, s.fpos, s.ppos, k, p)
    ensures var c := R(w, p);
            PoolsOk(w, s.fpos, s.ppos, s.stage[k := ArgReady], s.at[k := p], s.args[k := w.argsOf(c.node, c.epoch)],
                    if linked then s.link[k := w.linkOf(c.node, c.epoch)] else s.link, s.rc)
  {
    hide R, EntryAt, OwnAnswers;
    OwnAnswerAdded(w, s.args, w.argsOf, s.at, k, p);
    OwnAnswerAdded(w, s.link, w.linkOf, s.at, k, p);
  }

  lemma OwnAnswerAdded<T>(w: World, pool: map<PoolKey, T>, answer: (int, Epoch) -> T, at: map<PoolKey, nat>, k: PoolKey, p: nat)
    requires OwnAnswers(w, pool, answer, at) && k !in pool
    ensures OwnAnswers(w, pool[k := answer(R(w, p).node, R(w, p).epoch)], answer, at[k := p])
    ensures OwnAnswers(w, pool, answer, at[k := p])
  {
    hide R;
  }

  lemma ArgsCheckedInv(w: World, depth: nat, s: State)
    requires Inv(w, depth, s) && IsSyscall(w, s.frontier)
    ensures Inv(w, depth, ArgsChecked(w, s))
    ensures var k := KeyOf(w, s.fpos); k in ArgsChecked(w, s).stage
  {
    hide R, C, KeyOf, WeakBefore, DecisionsOk, PoolsOk, LogOk, EngineOk, WeakOk, SafeOk, WellBuilt;
    var k := KeyOf(w, s.fpos);
    if k !in s.stage {
      ReadyEngine(w, s, k, s.fpos);
      ReadyLog(w, s, k, s.fpos);
      ReadySafe(w, s, k, s.fpos);
      ReadyPools(w, s, k, s.fpos, false);
    }
  }

  // ---- Catching up -----------------------------------------------------------------------

  /** When the frontier has overtaken the peekhead, its epoch dominates the stored one. */
  lemma OvertakenEpoch(w: World, depth: nat, s: State)
    requires Inv(w, depth, s) && IsSyscall(w, s.frontier) && s.peekDistance < 0
    ensures s.ppos <= s.fpos && AheadOf(s.frontierEpoch, s.peekEpoch)
  {
    hide R, C, KeyOf, WeakBefore, DecisionsOk, PoolsOk, EngineOk, LogOk, WeakOk, SafeOk, WellBuilt;
    if s.fpos < s.ppos { CountMonotone(w, s.fpos, s.ppos); }
    EpochMonotone(w, s.ppos, s.fpos);
  }

  ghost function CaughtUp(w: World, s: State): (s': State)
    requires IsSyscall(w, s.frontier)
  {
    s.(peekhead := w.nodes[s.frontier].next, peekWeak := w.nodes[s.frontier].weak, peekEpoch := s.frontierEpoch,
       peekDistance := 0, ppos := s.fpos + 1)
  }

  lemma CaughtUpPools(w: World, s: State)
    requires PoolsOk(w, s.fpos, s.ppos, s.stage, s.at, s.args, s.link, s.rc) && s.ppos <= s.fpos
    ensures PoolsOk(w, s.fpos, s.fpos + 1, s.stage, s.at, s.args, s.link, s.rc)
  {
    hide OwnAnswers, R, KeyOf;
    forall k | k in s.stage ensures EntryAt(w, s.fpos, s.fpos + 1, k, s.at[k]) {
      assert EntryAt(w, s.fpos, s.ppos, k, s.at[k]);
    }
  }

  lemma CaughtUpInv(w: World, depth: nat, s: State)
    requires Inv(w, depth, s) && IsSyscall(w, s.frontier) && s.peekDistance < 0
    ensures Inv(w, depth, CaughtUp(w, s))
  {
    hide R, C, KeyOf, WeakBefore, PoolsOk, EngineOk, LogOk, SafeOk, WellBuilt;
    OvertakenEpoch(w, depth, s);
    if s.hitEnd { EndStays(w, s.ppos, s.fpos); }
    NextPlace(w, s.fpos);
    CaughtUpPools(w, s);
  }

  // ---- Peeking ---------------------------------------------------------------------------

  lemma {:induction false} LastBefore(w: World, k: nat, q: nat)
    requires q < k && SysAt(w, q) && C(w, q) + 1 >= C(w, k)
    ensures WeakBefore(w, k) == WeakAt(w, q)
    decreases k
  {
    hide WeakAt;
    if SysAt(w, k - 1) {
      if q < k - 1 { CountMonotone(w, q, k - 1); }
    } else if q < k - 1 {
      LastBefore(w, k - 1, q);
    }
  }

  lemma {:induction false} LastWeak(w: World, k: nat) returns (q: nat)
    requires WeakBefore(w, k)
    ensures q < k && WeakAt(w, q) && C(w, q) + 1 == C(w, k)
  {
    hide R;
    q := k - 1;
    if !SysAt(w, k - 1) { q := LastWeak(w, k - 1); }
  }

  /** Recording the edge into the peekhead makes the weak distance cover all edges up to it. */
  lemma WeakRecorded(w: World, depth: nat, s: State)
    requires Inv(w, depth, s) && s.peekDistance >= 0
    ensures var d := if s.peekWeak then s.peekDistance else s.weakDistance;
            WeakAll(w, s.fpos, s.ppos, d) && WeakOk(w, s.fpos, s.ppos, d)
  {
    hide R, C, KeyOf, WeakBefore, DecisionsOk, PoolsOk, EngineOk, LogOk, SafeOk, WellBuilt, WeakAt;
    var d := if s.peekWeak then s.peekDistance else s.weakDistance;
    forall q: nat | s.fpos <= q < s.ppos && WeakAt(w, q) ensures C(w, q) - C(w, s.fpos) <= d {
      WeakIsSyscall(w, q);
      CountMonotone(w, q, s.ppos);
      if C(w, q) + 1 >= C(w, s.ppos) { LastBefore(w, s.ppos, q); }
    }
    if s.peekWeak {
      var q := LastWeak(w, s.ppos);
      WeakIsSyscall(w, q);
      if q < s.fpos { CountMonotone(w, q, s.fpos); }
      assert s.fpos <= q < s.ppos && WeakAt(w, q) && C(w, q) - C(w, s.fpos) == d;
    }
  }

  lemma WeakWidens(w: World, fpos: nat, ppos: nat, d: int)
    requires d >= 0 ==> WeakAtDistance(w, fpos, ppos, d)
    ensures d >= 0 ==> WeakAtDistance(w, fpos, ppos + 1, d)
  {
    hide R, C, WeakAt;
    if d >= 0 {
      var q: nat :| fpos <= q < ppos && WeakAt(w, q) && C(w, q) - C(w, fpos) == d;
      assert fpos <= q < ppos + 1 && WeakAt(w, q) && C(w, q) - C(w, fpos) == d;
    }
  }

  lemma WeakIsSyscall(w: World, q: nat)
    requires WeakAt(w, q)
    ensures SysAt(w, q)
  {
  }

  ghost function PeekBranched(w: World, s: State): (s': State)
  {
    s.(peekhead := Target(w, R(w, s.ppos)), peekEpoch := R(w, s.ppos + 1).epoch,
       decision := s.decision[KeyOf(w, s.ppos) := w.decide(R(w, s.ppos).node, R(w, s.ppos).epoch)],
       ppos := s.ppos + 1)
  }

  lemma PeekBranchedDecisions(w: World, fpos: nat, ppos: nat, decision: map<PoolKey, nat>)
    requires DecisionsOk(w, fpos, ppos, decision) && IsBranch(w, R(w, ppos).node) && fpos <= ppos
    ensures DecisionsOk(w, fpos, ppos + 1, decision[KeyOf(w, ppos) := w.decide(R(w, ppos).node, R(w, ppos).epoch)])
  {
    hide R, KeyAt;
    var decision' := decision[KeyOf(w, ppos) := w.decide(R(w, ppos).node, R(w, ppos).epoch)];
    forall k | k in decision' ensures Decided(w, fpos, ppos + 1, k, decision'[k]) {
      if k == KeyOf(w, ppos) {
        assert DecidedAt(w, fpos, ppos + 1, k, decision'[k], ppos);
      } else {
        var p: nat :| DecidedAt(w, fpos, ppos, k, decision[k], p);
        assert DecidedAt(w, fpos, ppos + 1, k, decision'[k], p);
      }
    }
  }

  lemma PeekBranchedPools(w: World, s: State)
    requires PoolsOk(w, s.fpos, s.ppos, s.stage, s.at, s.args, s.link, s.rc)
    ensures PoolsOk(w, s.fpos, s.ppos + 1, s.stage, s.at, s.args, s.link, s.rc)
  {
    hide OwnAnswers, R, KeyOf;
    forall k | k in s.stage ensures EntryAt(w, s.fpos, s.ppos + 1, k, s.at[k]) {
      assert EntryAt(w, s.fpos, s.ppos, k, s.at[k]);
    }
  }

  lemma PeekBranchedWeak(w: World, fpos: nat, ppos: nat, d: int)
    requires WeakOk(w, fpos, ppos, d) && WeakAll(w, fpos, ppos, d) && !SysAt(w, ppos)
    ensures WeakOk(w, fpos, ppos + 1, d) && WeakAll(w, fpos, ppos + 1, d)
  {
    hide R, C, WeakAtDistance;
    NextPlace(w, ppos);
    WeakWidens(w, fpos, ppos, d);
  }

  lemma PeekBranchedInv(w: World, depth: nat, s: State)
    requires Inv(w, depth, s) && s.peekDistance >= 0 && IsBranch(w, s.peekhead)
    requires WeakAll(w, s.fpos, s.ppos, s.weakDistance)
    ensures Inv(w, depth, PeekBranched(w, s)) && WeakAll(w, s.fpos, s.ppos + 1, s.weakDistance)
  {
    hide R, C, KeyOf, WeakBefore, DecisionsOk, PoolsOk, EngineOk, LogOk, SafeOk, WellBuilt, WeakOk, WeakAll;
    NextPlace(w, s.ppos);
    if s.ppos < s.fpos { CountMonotone(w, s.ppos, s.fpos); }
    PeekBranchedWeak(w, s.fpos, s.ppos, s.weakDistance);
    PeekBranchedDecisions(w, s.fpos, s.ppos, s.decision);
    PeekBranchedPools(w, s);
  }

  /** The peekhead goes past a syscall without preparing it. */
  ghost function PeekMoved(w: World, s: State): (s': State)
    requires IsSyscall(w, s.peekhead)
  {
    s.(peekhead := w.nodes[s.peekhead].next, peekWeak := w.nodes[s.peekhead].weak,
       peekDistance := s.peekDistance + 1, ppos := s.ppos + 1)
  }

  lemma PeekMovedInv(w: World, depth: nat, s: State)
    requires Inv(w, depth, s) && 0 <= s.peekDistance < depth && IsSyscall(w, s.peekhead)
    requires WeakAll(w, s.fpos, s.ppos, s.weakDistance)
    ensures Inv(w, depth, PeekMoved(w, s))
  {
    hide R, C, KeyOf, WeakBefore, DecisionsOk, PoolsOk, EngineOk, LogOk, SafeOk, WellBuilt;
    NextPlace(w, s.ppos);
    WeakWidens(w, s.fpos, s.ppos, s.weakDistance);
    PeekBranchedPools(w, s);
    DecisionsWiden(w, s.fpos, s.ppos, s.decision);
  }

  lemma DecisionsWiden(w: World, fpos: nat, ppos: nat, decision: map<PoolKey, nat>)
    requires DecisionsOk(w, fpos, ppos, decision)
    ensures DecisionsOk(w, fpos, ppos + 1, decision)
  {
    hide R, KeyOf;
    forall k | k in decision ensures Decided(w, fpos, ppos + 1, k, decision[k]) {
      var p: nat :| DecidedAt(w, fpos, ppos, k, decision[k], p);
      assert DecidedAt(w, fpos, ppos + 1, k, decision[k], p);
    }
  }

  /** The entry of place p gets its arguments from the plugin. */
  ghost function WithArgs(w: World, s: State, p: nat): (s': State)
  {
    var k, c := KeyOf(w, p), R(w, p);
    s.(stage := s.stage[k := ArgReady], args := s.args[k := w.argsOf(c.node, c.epoch)],
       link := s.link[k := w.linkOf(c.node, c.epoch)], at := s.at[k := p])
  }

  lemma WithArgsInv(w: World, depth: nat, s: State, p: nat)
    requires Inv(w, depth, s) && KeyOf(w, p) !in s.stage && EntryAt(w, s.fpos, s.ppos, KeyOf(w, p), p)
    ensures Inv(w, depth, WithArgs(w, s, p))
  {
    hide OnPath, R, KeyOf, DecisionsOk, PoolsOk, LogOk, EngineOk, WeakOk, SafeOk, WellBuilt, EntryAt;
    var k := KeyOf(w, p);
    ReadyEngine(w, s, k, p);
    ReadyLog(w, s, k, p);
    ReadySafe(w, s, k, p);
    ReadyPools(w, s, k, p, true);
  }

  /** The entry k, of a visit behind all prepared ones, is handed to the engine. */
  ghost function WithPrepared(w: World, s: State, k: PoolKey, distance: int): (s': State)
  {
    s.(stage := s.stage[k := Prepared], prepared := s.prepared + [k], numPrepared := s.numPrepared + 1,
       preparedDistance := if s.numPrepared == 0 then distance else s.preparedDistance)
  }

  /** All prepared visits are before place p. */
  ghost predicate PreparedBefore(s: State, p: nat)
  {
    forall i :: 0 <= i < |s.prepared| ==> s.prepared[i] in s.at && s.at[s.prepared[i]] < p
  }

  lemma WithPreparedEngine(w: World, s: State, k: PoolKey, distance: int)
    requires EngineOk(w, s.fpos, s.stage, s.at, s.prepared, s.onthefly, s.numPrepared, s.preparedDistance)
    requires k in s.stage && s.stage[k] == ArgReady && PreparedBefore(s, s.at[k])
    requires distance == C(w, s.at[k]) - C(w, s.fpos) - 1
    ensures var s' := WithPrepared(w, s, k, distance);
            EngineOk(w, s.fpos, s'.stage, s.at, s'.prepared, s.onthefly, s'.numPrepared, s'.preparedDistance)
  {
    hide C;
    var s' := WithPrepared(w, s, k, distance);
    assert s'.prepared[|s.prepared|] == k;
    forall x ensures x in s'.prepared <==> x in s'.stage && s'.stage[x] == Prepared {
      assert x in s'.prepared <==> x in s.prepared || x == k;
    }
  }

  lemma StagedPools(w: World, s: State, k: PoolKey, stage: Stage)
    requires PoolsOk(w, s.fpos, s.ppos, s.stage, s.at, s.args, s.link, s.rc) && k in s.stage && k in s.link
    requires s.stage[k] != Finished && stage != Finished
    ensures PoolsOk(w, s.fpos, s.ppos, s.stage[k := stage], s.at, s.args, s.link, s.rc)
  {
    hide OwnAnswers, R, EntryAt;
  }

  lemma StagedSafe(w: World, s: State, k: PoolKey, stage: Stage)
    requires SafeOk(w, s.lo, s.stage, s.at) && k in s.stage
    requires s.stage[k] != ArgReady || PureAt(w, s.at[k]) || NoWeakBetween(w, s.lo, s.at[k])
    ensures SafeOk(w, s.lo, s.stage[k := stage], s.at)
  {
    hide PureAt, NoWeakBetween;
  }

  lemma WithPreparedLog(w: World, s: State, k: PoolKey)
    requires LogOk(w, s.fpos, s.stage, s.at, s.rc, s.log, s.results) && k in s.stage && s.stage[k] == ArgReady
    ensures LogOk(w, s.fpos, s.stage[k := Prepared], s.at, s.rc, s.log, s.results)
  {
    hide R, KeyOf, Started, OwnArgs;
  }

  lemma WithPreparedInv(w: World, depth: nat, s: State, k: PoolKey, distance: int)
    requires Inv(w, depth, s) && k in s.stage && s.stage[k] == ArgReady && k in s.link && k in s.at
    requires PreparedBefore(s, s.at[k]) && distance == C(w, s.at[k]) - C(w, s.fpos) - 1
    requires PureAt(w, s.at[k]) || NoWeakBetween(w, s.lo, s.at[k])
    ensures Inv(w, depth, WithPrepared(w, s, k, distance))
  {
    hide OnPath, C, DecisionsOk, PoolsOk, LogOk, EngineOk, WeakOk, SafeOk, WellBuilt, PreparedBefore, NoWeakBetween,
      PureAt;
    WithPreparedEngine(w, s, k, distance);
    WithPreparedLog(w, s, k);
    StagedPools(w, s, k, Prepared);
    StagedSafe(w, s, k, Prepared);
  }

  /** Peeking past a syscall whose arguments the plugin can give. */
  ghost function PeekReady(w: World, s: State): (s': State)
    requires IsSyscall(w, s.peekhead)
  {
    WithArgs(w, PeekMoved(w, s), s.ppos)
  }

  ghost function PeekPrepared(w: World, s: State): (s': State)
    requires IsSyscall(w, s.peekhead)
  {
    WithPrepared(w, PeekReady(w, s), KeyOf(w, s.ppos), s.peekDistance)
  }

  /** The visit at the peekhead has no entry yet, and all entries belong to earlier visits. */
  lemma PeekIsNew(w: World, depth: nat, s: State)
    requires Inv(w, depth, s) && s.peekDistance >= 0
    ensures s.fpos < s.ppos && (IsSyscall(w, s.peekhead) ==> KeyOf(w, s.ppos) !in s.stage)
    ensures forall k :: k in s.stage ==> k in s.at && s.at[k] < s.ppos
  {
    hide R, C, KeyOf, WeakBefore, DecisionsOk, LogOk, EngineOk, WeakOk, SafeOk, WellBuilt;
    if s.ppos <= s.fpos { CountMonotone(w, s.ppos, s.fpos); }
    forall k | k in s.stage ensures k in s.at && s.at[k] < s.ppos {
      assert EntryAt(w, s.fpos, s.ppos, k, s.at[k]);
    }
    if IsSyscall(w, s.peekhead) && KeyOf(w, s.ppos) in s.stage { EntryIsOwn(w, s, s.ppos); }
  }

  lemma PeekReadyInv(w: World, depth: nat, s: State)
    requires Inv(w, depth, s) && 0 <= s.peekDistance < depth && IsSyscall(w, s.peekhead)
    requires WeakAll(w, s.fpos, s.ppos, s.weakDistance)
    ensures Inv(w, depth, PeekReady(w, s))
  {
    hide R, C, KeyOf, WeakBefore, DecisionsOk, PoolsOk, LogOk, EngineOk, WeakOk, SafeOk, WellBuilt;
    PeekIsNew(w, depth, s);
    PeekMovedInv(w, depth, s);
    WithArgsInv(w, depth, PeekMoved(w, s), s.ppos);
  }

  /** No weak edge is recorded exactly if there is none between the frontier and the peekhead. */
  lemma NoneRecorded(w: World, depth: nat, s: State)
    requires Inv(w, depth, s) && WeakAll(w, s.fpos, s.ppos, s.weakDistance)
    ensures s.weakDistance < 0 <==> NoWeakBetween(w, s.fpos, s.ppos)
  {
    hide R, C, KeyOf, WeakBefore, DecisionsOk, PoolsOk, LogOk, EngineOk, SafeOk, WellBuilt, WeakAt;
    if s.weakDistance < 0 {
      forall q: nat | s.fpos <= q < s.ppos ensures !WeakAt(w, q) {
        CountMonotone(w, s.fpos, q);
      }
    }
  }

  lemma PeekPreparedInv(w: World, depth: nat, s: State)
    requires Inv(w, depth, s) && 0 <= s.peekDistance < depth && IsSyscall(w, s.peekhead) && s.lo == s.fpos
    requires WeakAll(w, s.fpos, s.ppos, s.weakDistance)
    requires w.nodes[s.peekhead].pure || s.weakDistance < 0
    ensures Inv(w, depth, PeekPrepared(w, s))
  {
    hide R, C, KeyOf, WeakBefore, DecisionsOk, PoolsOk, LogOk, EngineOk, WeakOk, SafeOk, WellBuilt, WeakAll;
    PeekIsNew(w, depth, s);
    PeekReadyInv(w, depth, s);
    var t, k := PeekReady(w, s), KeyOf(w, s.ppos);
    assert PreparedBefore(t, s.ppos) by { PreparedInStage(w, depth, s); }
    if !w.nodes[s.peekhead].pure { NoneRecorded(w, depth, s); }
    WithPreparedInv(w, depth, t, k, s.peekDistance);
  }

  lemma PreparedInStage(w: World, depth: nat, s: State)
    requires Inv(w, depth, s)
    ensures forall k :: k in s.prepared <==> k in s.stage && s.stage[k] == Prepared
    ensures forall k :: k in s.onthefly <==> k in s.stage && s.stage[k] == OnTheFly
    ensures s.numPrepared == |s.prepared|
  {
    hide R, C, KeyOf, WeakBefore, DecisionsOk, PoolsOk, LogOk, WeakOk, SafeOk, WellBuilt;
  }

  // ---- Submission and completion ---------------------------------------------------------

  /** The first prepared request is submitted: from here on the engine executes it. */
  ghost function SubmittedFirst(w: World, s: State): (s': State)
    requires s.prepared != [] && s.prepared[0] in s.at && s.prepared[0] in s.args
  {
    var k, rest := s.prepared[0], s.prepared[1..];
    s.(stage := s.stage[k := OnTheFly], onthefly := s.onthefly + {k}, prepared := rest,
       numPrepared := s.numPrepared - 1,
       preparedDistance := if rest != [] && rest[0] in s.at then C(w, s.at[rest[0]]) - C(w, s.fpos) - 1 else -1,
       log := s.log + [Exec(s.at[k], s.args[k])])
  }

  lemma SubmittedEngine(w: World, s: State)
    requires EngineOk(w, s.fpos, s.stage, s.at, s.prepared, s.onthefly, s.numPrepared, s.preparedDistance)
    requires s.prepared != [] && s.prepared[0] in s.at && s.prepared[0] in s.args
    ensures var s' := SubmittedFirst(w, s);
            EngineOk(w, s.fpos, s'.stage, s.at, s'.prepared, s'.onthefly, s'.numPrepared, s'.preparedDistance)
  {
    hide C;
    var s' := SubmittedFirst(w, s);
    var k := s.prepared[0];
    forall x ensures x in s'.prepared <==> x in s'.stage && s'.stage[x] == Prepared {
      if x in s'.prepared {
        var i :| 0 <= i < |s'.prepared| && s'.prepared[i] == x;
        assert s.prepared[i + 1] == x && s.at[k] < s.at[x];
      }
      if x in s'.stage && s'.stage[x] == Prepared {
        assert x in s.prepared;
        var i :| 0 <= i < |s.prepared| && s.prepared[i] == x;
        assert s'.prepared[i - 1] == x;
      }
    }
  }

  /** A syscall of place p starts; it never started before. */
  lemma LogStart(w: World, s: State, k: PoolKey, stage: Stage)
    requires LogOk(w, s.fpos, s.stage, s.at, s.rc, s.log, s.results) && k in s.stage && k !in s.rc
    requires s.stage[k] == ArgReady || s.stage[k] == Prepared
    requires stage == OnTheFly || stage == Finished
    requires SysAt(w, s.at[k]) && KeyOf(w, s.at[k]) == k && s.fpos <= s.at[k]
    requires k in s.args && OwnArgs(w, Exec(s.at[k], s.args[k]))
    ensures !Started(s.log, s.at[k])
    ensures LogOk(w, s.fpos, s.stage[k := stage], s.at, s.rc, s.log + [Exec(s.at[k], s.args[k])], s.results)
  {
    hide R, KeyOf, OwnArgs;
    var p, log' := s.at[k], s.log + [Exec(s.at[k], s.args[k])];
    forall i | 0 <= i < |s.log| ensures s.log[i].pos != p {
      assert s.log[i].pos < s.fpos || Submitted(w, s.stage, s.at, s.log[i].pos);
    }
    StartedMore(s.log, Exec(p, s.args[k]));
    forall i | 0 <= i < |log'| ensures log'[i].pos < s.fpos || Submitted(w, s.stage[k := stage], s.at, log'[i].pos) {
      assert i < |s.log| ==> s.log[i].pos < s.fpos || Submitted(w, s.stage, s.at, s.log[i].pos);
    }
  }

  lemma StartedMore(log: seq<Exec>, e: Exec)
    ensures Started(log + [e], e.pos) && forall p: nat :: Started(log, p) ==> Started(log + [e], p)
  {
    var log' := log + [e];
    assert log'[|log|].pos == e.pos;
    forall p: nat | Started(log, p) ensures Started(log', p) {
      var i :| 0 <= i < |log| && log[i].pos == p;
      assert log'[i].pos == p;
    }
  }

  lemma EntryFacts(w: World, depth: nat, s: State, k: PoolKey)
    requires Inv(w, depth, s) && k in s.stage
    ensures k in s.at && k in s.args && EntryAt(w, s.fpos, s.ppos, k, s.at[k])
    ensures OwnArgs(w, Exec(s.at[k], s.args[k]))
    ensures k in s.rc <==> s.stage[k] == Finished
    ensures s.stage[k] == Prepared || s.stage[k] == OnTheFly ==> k in s.link
  {
    hide R, C, KeyOf, WeakBefore, DecisionsOk, EngineOk, LogOk, WeakOk, SafeOk, WellBuilt;
    assert EntryAt(w, s.fpos, s.ppos, k, s.at[k]);
  }

  lemma SubmittedInv(w: World, depth: nat, s: State)
    requires Inv(w, depth, s) && s.prepared != []
    ensures s.prepared[0] in s.at && s.prepared[0] in s.args && !Started(s.log, s.at[s.prepared[0]])
    ensures Inv(w, depth, SubmittedFirst(w, s))
  {
    hide OnPath, R, C, KeyOf, DecisionsOk, PoolsOk, EngineOk, LogOk, WeakOk, SafeOk, WellBuilt, OwnArgs;
    PreparedInStage(w, depth, s);
    EntryFacts(w, depth, s, s.prepared[0]);
    SubmittedEngine(w, s);
    LogStart(w, s, s.prepared[0], OnTheFly);
    StagedPools(w, s, s.prepared[0], OnTheFly);
    StagedSafe(w, s, s.prepared[0], OnTheFly);
  }

  /** The engine gives back the return code v of request k. */
  ghost function Completed(s: State, k: PoolKey, v: int): (s': State)
    requires k in s.at
  {
    s.(stage := s.stage[k := Finished], onthefly := s.onthefly - {k}, rc := s.rc[k := v],
       results := s.results[s.at[k] := v])
  }

  lemma CompletedLog(w: World, s: State, k: PoolKey, v: int)
    requires LogOk(w, s.fpos, s.stage, s.at, s.rc, s.log, s.results) && k in s.stage
    requires s.stage[k] == OnTheFly || s.stage[k] == Finished
    requires forall x :: x in s.stage ==> KeyOf(w, s.at[x]) == x
    ensures LogOk(w, s.fpos, s.stage[k := Finished], s.at, s.rc[k := v], s.log, s.results[s.at[k] := v])
  {
    hide R, OwnArgs, KeyAt, Started;
  }

  lemma FinishedPools(w: World, s: State, k: PoolKey, v: int)
    requires PoolsOk(w, s.fpos, s.ppos, s.stage, s.at, s.args, s.link, s.rc) && k in s.stage
    ensures PoolsOk(w, s.fpos, s.ppos, s.stage[k := Finished], s.at, s.args, s.link, s.rc[k := v])
  {
    hide OwnAnswers, R, EntryAt;
  }

  lemma FinishedEngine(w: World, s: State, k: PoolKey)
    requires EngineOk(w, s.fpos, s.stage, s.at, s.prepared, s.onthefly, s.numPrepared, s.preparedDistance)
    requires k in s.stage && s.stage[k] != Prepared
    ensures EngineOk(w, s.fpos, s.stage[k := Finished], s.at, s.prepared, s.onthefly - {k}, s.numPrepared,
                     s.preparedDistance)
  {
    hide C;
  }

  lemma FinishedSafe(w: World, s: State, k: PoolKey)
    requires SafeOk(w, s.lo, s.stage, s.at) && k in s.stage && (s.stage[k] == ArgReady ==> s.at[k] <= s.lo)
    ensures SafeOk(w, s.lo, s.stage[k := Finished], s.at)
  {
    hide PureAt, WeakAt;
  }

  lemma CompletedInv(w: World, depth: nat, s: State, k: PoolKey, v: int)
    requires Inv(w, depth, s) && k in s.onthefly
    ensures k in s.at && k in s.stage && s.stage[k] == OnTheFly && s.fpos <= s.at[k]
    ensures Inv(w, depth, Completed(s, k, v))
  {
    hide OnPath, KeyOf, DecisionsOk, LogOk, WeakOk, WellBuilt, PoolsOk, EngineOk, SafeOk, OwnArgs;
    PreparedInStage(w, depth, s);
    EntryFacts(w, depth, s, k);
    forall x | x in s.stage ensures x in s.at && KeyOf(w, s.at[x]) == x { EntryFacts(w, depth, s, x); }
    CompletedLog(w, s, k, v);
    FinishedPools(w, s, k, v);
    FinishedEngine(w, s, k);
    FinishedSafe(w, s, k);
  }

  /** The frontier's own call is executed in place. */
  ghost function Synced(w: World, s: State, v: int): (s': State)
    requires KeyOf(w, s.fpos) in s.args
  {
    var k := KeyOf(w, s.fpos);
    s.(stage := s.stage[k := Finished], rc := s.rc[k := v], results := s.results[s.fpos := v],
       log := s.log + [Exec(s.fpos, s.args[k])])
  }

  lemma SyncedLog(w: World, depth: nat, s: State, v: int)
    requires Inv(w, depth, s) && IsSyscall(w, s.frontier)
    requires KeyOf(w, s.fpos) in s.stage && s.stage[KeyOf(w, s.fpos)] == ArgReady
    ensures KeyOf(w, s.fpos) in s.args && !Started(s.log, s.fpos)
    ensures var s' := Synced(w, s, v); LogOk(w, s.fpos, s'.stage, s.at, s'.rc, s'.log, s'.results)
  {
    hide R, C, KeyOf, DecisionsOk, LogOk, WeakOk, WellBuilt, PoolsOk, EngineOk, SafeOk, OwnArgs, WeakBefore;
    var k := KeyOf(w, s.fpos);
    EntryFacts(w, depth, s, k);
    EntryIsOwn(w, s, s.fpos);
    LogStart(w, s, k, Finished);
    forall x | x in s.stage ensures x in s.at && KeyOf(w, s.at[x]) == x { EntryFacts(w, depth, s, x); }
    CompletedLog(w, s.(stage := s.stage[k := Finished], log := s.log + [Exec(s.fpos, s.args[k])]), k, v);
    assert s.stage[k := Finished][k := Finished] == s.stage[k := Finished];
  }

  lemma SyncedInv(w: World, depth: nat, s: State, v: int)
    requires Inv(w, depth, s) && IsSyscall(w, s.frontier) && s.lo == s.fpos
    requires KeyOf(w, s.fpos) in s.stage && s.stage[KeyOf(w, s.fpos)] == ArgReady
    ensures KeyOf(w, s.fpos) in s.args && !Started(s.log, s.fpos) && Inv(w, depth, Synced(w, s, v))
  {
    hide R, C, KeyOf, DecisionsOk, LogOk, WeakOk, WellBuilt, PoolsOk, EngineOk, SafeOk, OwnArgs, WeakBefore;
    var k := KeyOf(w, s.fpos);
    SyncedLog(w, depth, s, v);
    EntryFacts(w, depth, s, k);
    EntryIsOwn(w, s, s.fpos);
    FinishedPools(w, s, k, v);
    FinishedEngine(w, s, k);
    FinishedSafe(w, s, k);
    NotOnTheFly(w, s, k);
    assert s.onthefly - {k} == s.onthefly;
  }

  lemma NotOnTheFly(w: World, s: State, k: PoolKey)
    requires EngineOk(w, s.fpos, s.stage, s.at, s.prepared, s.onthefly, s.numPrepared, s.preparedDistance)
    requires k in s.stage && s.stage[k] != OnTheFly
    ensures k !in s.onthefly
  {
  }

  // ---- Moving on -------------------------------------------------------------------------

  /** The frontier's call is finished: the frontier moves on and the visit's entries are removed. */
  ghost function Pushed(w: World, s: State): (s': State)
    requires IsSyscall(w, s.frontier)
  {
    var k := KeyOf(w, s.fpos);
    s.(frontier := w.nodes[s.frontier].next, peekDistance := s.peekDistance - 1,
       preparedDistance := s.preparedDistance - 1, weakDistance := s.weakDistance - 1,
       stage := s.stage - {k}, args := s.args - {k}, link := s.link - {k}, rc := s.rc - {k}, at := s.at - {k},
       fpos := s.fpos + 1, lo := s.fpos)
  }

  lemma PushedPools(w: World, s: State)
    requires PoolsOk(w, s.fpos, s.ppos, s.stage, s.at, s.args, s.link, s.rc)
    ensures var k := KeyOf(w, s.fpos);
            PoolsOk(w, s.fpos + 1, s.ppos, s.stage - {k}, s.at - {k}, s.args - {k}, s.link - {k}, s.rc - {k})
  {
    hide R, KeyOf, EntryAt;
    var k := KeyOf(w, s.fpos);
    forall x | x in s.stage - {k} ensures EntryAt(w, s.fpos + 1, s.ppos, x, s.at[x]) {
      EntryPassed(w, s.fpos, s.ppos, x, s.at[x]);
    }
  }

  lemma EntryPassed(w: World, fpos: nat, ppos: nat, x: PoolKey, p: nat)
    requires EntryAt(w, fpos, ppos, x, p) && x != KeyOf(w, fpos)
    ensures EntryAt(w, fpos + 1, ppos, x, p)
  {
    hide R, KeyAt;
  }

  lemma PushedEngine(w: World, s: State)
    requires EngineOk(w, s.fpos, s.stage, s.at, s.prepared, s.onthefly, s.numPrepared, s.preparedDistance)
    requires SysAt(w, s.fpos) && KeyOf(w, s.fpos) in s.stage && s.stage[KeyOf(w, s.fpos)] == Finished
    ensures var k := KeyOf(w, s.fpos);
            EngineOk(w, s.fpos + 1, s.stage - {k}, s.at - {k}, s.prepared, s.onthefly, s.numPrepared, s.preparedDistance - 1)
  {
    hide R, C, KeyOf;
    NextPlace(w, s.fpos);
    var k := KeyOf(w, s.fpos);
    assert k !in s.prepared;
    assert forall i :: 0 <= i < |s.prepared| ==> s.prepared[i] in s.prepared;
  }

  lemma PushedLog(w: World, s: State)
    requires LogOk(w, s.fpos, s.stage, s.at, s.rc, s.log, s.results)
    requires KeyOf(w, s.fpos) in s.rc && KeyOf(w, s.fpos) in s.stage
    requires s.stage[KeyOf(w, s.fpos)] == Finished && s.at[KeyOf(w, s.fpos)] == s.fpos
    ensures var k := KeyOf(w, s.fpos);
            LogOk(w, s.fpos + 1, s.stage - {k}, s.at - {k}, s.rc - {k}, s.log, s.results)
  {
    hide R, KeyAt, Started, OwnArgs;
    var k := KeyOf(w, s.fpos);
    forall i | 0 <= i < |s.log| ensures s.log[i].pos < s.fpos + 1 || Submitted(w, s.stage - {k}, s.at - {k}, s.log[i].pos) {
      assert s.log[i].pos < s.fpos || Submitted(w, s.stage, s.at, s.log[i].pos);
    }
  }

  lemma PushedWeak(w: World, fpos: nat, ppos: nat, d: int)
    requires WeakOk(w, fpos, ppos, d) && SysAt(w, fpos)
    ensures WeakOk(w, fpos + 1, ppos, d - 1)
  {
    hide R, C;
    NextPlace(w, fpos);
    if d >= 1 {
      var q: nat :| fpos <= q < ppos && WeakAt(w, q) && C(w, q) - C(w, fpos) == d;
      assert fpos + 1 <= q < ppos && WeakAt(w, q) && C(w, q) - C(w, fpos + 1) == d - 1;
    }
  }

  lemma PushedDecisions(w: World, fpos: nat, ppos: nat, decision: map<PoolKey, nat>)
    requires DecisionsOk(w, fpos, ppos, decision) && SysAt(w, fpos)
    ensures DecisionsOk(w, fpos + 1, ppos, decision)
  {
    hide R, KeyOf;
    forall k | k in decision ensures Decided(w, fpos + 1, ppos, k, decision[k]) {
      var p: nat :| DecidedAt(w, fpos, ppos, k, decision[k], p);
      assert DecidedAt(w, fpos + 1, ppos, k, decision[k], p);
    }
  }

  lemma PushedSafe(w: World, lo: nat, fpos: nat, stage: map<PoolKey, Stage>, at: map<PoolKey, nat>, k: PoolKey)
    requires SafeOk(w, lo, stage, at) && lo <= fpos
    ensures SafeOk(w, fpos, stage - {k}, at - {k}) && SafeOk(w, fpos, stage, at)
  {
    hide WeakAt, PureAt;
  }

  lemma PushedPath(w: World, depth: nat, s: State)
    requires OnPath(w, depth, s.frontier, s.frontierEpoch, s.peekhead, s.peekWeak, s.peekEpoch, s.peekDistance, s.hitEnd,
                s.fpos, s.ppos)
    requires IsSyscall(w, s.frontier)
    ensures OnPath(w, depth, w.nodes[s.frontier].next, s.frontierEpoch, s.peekhead, s.peekWeak, s.peekEpoch,
                   s.peekDistance - 1, s.hitEnd, s.fpos + 1, s.ppos)
  {
    hide R, C, WeakBefore;
    NextPlace(w, s.fpos);
  }

  lemma PushedInv(w: World, depth: nat, s: State)
    requires Inv(w, depth, s) && IsSyscall(w, s.frontier)
    requires KeyOf(w, s.fpos) in s.stage && s.stage[KeyOf(w, s.fpos)] == Finished
    ensures KeyOf(w, s.fpos) in s.rc && s.fpos in s.results && s.rc[KeyOf(w, s.fpos)] == s.results[s.fpos]
    ensures Inv(w, depth, Pushed(w, s))
  {
    hide R, C, KeyOf, DecisionsOk, LogOk, WeakOk, WellBuilt, PoolsOk, EngineOk, SafeOk, OwnArgs, WeakBefore;
    var k := KeyOf(w, s.fpos);
    EntryFacts(w, depth, s, k);
    EntryIsOwn(w, s, s.fpos);
    PushedPath(w, depth, s);
    PushedPools(w, s);
    PushedEngine(w, s);
    PushedLog(w, s);
    PushedWeak(w, s.fpos, s.ppos, s.weakDistance);
    PushedDecisions(w, s.fpos, s.ppos, s.decision);
    PushedSafe(w, s.lo, s.fpos, s.stage, s.at, k);
    ResultOf(w, s, k);
  }

  lemma ResultOf(w: World, s: State, k: PoolKey)
    requires LogOk(w, s.fpos, s.stage, s.at, s.rc, s.log, s.results) && k in s.rc
    ensures k in s.at && s.at[k] in s.results && s.rc[k] == s.results[s.at[k]]
  {
  }

  // ---- What the invariant gives ----------------------------------------------------------

  /** The application's next call is the syscall at place p, after some branches. */
  ghost predicate NextCall(w: World, fpos: nat, p: nat)
  {
    fpos <= p && SysAt(w, p) && forall q: nat :: fpos <= q < p ==> IsBranch(w, R(w, q).node)
  }

  /** With a syscall somewhere ahead on the path, there is a next one. */
  lemma {:induction false} NextCallExists(w: World, fpos: nat, later: nat) returns (p: nat)
    requires WellBuilt(w) && fpos <= later && SysAt(w, later)
    ensures NextCall(w, fpos, p) && C(w, p) == C(w, fpos)
    decreases later - fpos
  {
    hide R, WellBuilt;
    if SysAt(w, fpos) {
      p := fpos;
    } else {
      NotEnded(w, fpos, later);
      NextPlace(w, fpos);
      p := NextCallExists(w, fpos + 1, later);
    }
  }

  /** The frontier is still only prepared exactly when the recorded distance has gone negative. */
  lemma LatePrepared(w: World, depth: nat, s: State)
    requires Inv(w, depth, s) && IsSyscall(w, s.frontier)
    ensures s.numPrepared > 0 && s.preparedDistance < 0 <==>
            KeyOf(w, s.fpos) in s.stage && s.stage[KeyOf(w, s.fpos)] == Prepared
  {
    hide R, C, KeyOf, WeakBefore, DecisionsOk, PoolsOk, LogOk, WeakOk, SafeOk, WellBuilt;
    var k := KeyOf(w, s.fpos);
    PreparedInStage(w, depth, s);
    if s.numPrepared > 0 {
      var first := s.prepared[0];
      EntryFacts(w, depth, s, first);
      if s.fpos < s.at[first] { CountMonotone(w, s.fpos, s.at[first]); }
      if k in s.stage && s.stage[k] == Prepared {
        EntryIsOwn(w, s, s.fpos);
        var i :| 0 <= i < |s.prepared| && s.prepared[i] == k;
        assert i == 0;
      }
    }
  }

  /** Everything that was executed beyond a weak edge the application has just reached is pure. */
  lemma EarlyExit(w: World, depth: nat, s: State, i: nat)
    requires Inv(w, depth, s) && s.lo < s.fpos && WeakAt(w, s.lo)
    requires i < |s.log| && s.log[i].pos >= s.fpos
    ensures PureAt(w, s.log[i].pos)
  {
    hide R, C, KeyOf, WeakBefore, DecisionsOk, PoolsOk, EngineOk, WeakOk, WellBuilt, WeakAt, PureAt;
    assert Submitted(w, s.stage, s.at, s.log[i].pos);
  }

  /** A side effect beyond the frontier is with the engine only if no uncrossed edge before it is weak. */
  lemma SideEffectsCovered(w: World, depth: nat, s: State, k: PoolKey, q: nat)
    requires Inv(w, depth, s) && k in s.stage && s.stage[k] != ArgReady && s.lo <= q < s.at[k]
    requires !PureAt(w, s.at[k])
    ensures !WeakAt(w, q)
  {
    hide R, C, KeyOf, WeakBefore, DecisionsOk, PoolsOk, EngineOk, WeakOk, WellBuilt, WeakAt, PureAt, LogOk;
  }

  /** The visits ahead of the frontier that hold any stage. */
  ghost function Ahead(s: State): (r: set<PoolKey>)
  {
    set k | k in s.stage && k in s.at && s.at[k] > s.fpos
  }

  /** An ordering number for each entry ahead: how many syscalls it is ahead of the frontier. */
  ghost predicate Within(w: World, s: State, keys: set<PoolKey>, n: nat)
  {
    && (forall k :: k in keys ==> k in s.at && 1 <= C(w, s.at[k]) - C(w, s.fpos) <= n)
    && (forall k, l :: k in keys && l in keys && k != l ==> C(w, s.at[k]) != C(w, s.at[l]))
  }

  lemma {:induction false} WithinCount(w: World, s: State, keys: set<PoolKey>, n: nat)
    requires Within(w, s, keys, n)
    ensures |keys| <= n
    decreases n
  {
    hide C;
    if n == 0 {
      if k :| k in keys { assert false; }
    } else if k :| k in keys && C(w, s.at[k]) - C(w, s.fpos) == n {
      WithinCount(w, s, keys - {k}, n - 1);
    } else {
      WithinCount(w, s, keys, n - 1);
    }
  }

  lemma AheadNumber(w: World, depth: nat, s: State, k: PoolKey)
    requires Inv(w, depth, s) && IsSyscall(w, s.frontier) && k in Ahead(s)
    ensures 1 <= C(w, s.at[k]) - C(w, s.fpos) <= s.peekDistance && SysAt(w, s.at[k])
  {
    hide R, C, KeyOf, WeakBefore, DecisionsOk, PoolsOk, EngineOk, LogOk, WeakOk, SafeOk, WellBuilt;
    EntryFacts(w, depth, s, k);
    CountMonotone(w, s.fpos, s.at[k]);
    CountMonotone(w, s.at[k], s.ppos);
  }

  lemma AheadDistinct(w: World, depth: nat, s: State, k: PoolKey, l: PoolKey)
    requires Inv(w, depth, s) && k in s.stage && l in s.stage && k != l
    ensures k in s.at && l in s.at && C(w, s.at[k]) != C(w, s.at[l])
  {
    hide OnPath, R, C, KeyOf, DecisionsOk, PoolsOk, EngineOk, LogOk, WeakOk, SafeOk, WellBuilt;
    EntryFacts(w, depth, s, k);
    EntryFacts(w, depth, s, l);
    if s.at[k] < s.at[l] { CountMonotone(w, s.at[k], s.at[l]); } else { CountMonotone(w, s.at[l], s.at[k]); }
  }

  /** At most pre_issue_depth visits ahead of the frontier hold any stage. */
  lemma AheadBound(w: World, depth: nat, s: State)
    requires Inv(w, depth, s) && IsSyscall(w, s.frontier)
    ensures |Ahead(s)| <= (if s.peekDistance < 0 then 0 else s.peekDistance) <= depth
    ensures s.stage.Keys <= Ahead(s) + {KeyOf(w, s.fpos)}
  {
    hide Inv, R, C, KeyOf;
    Located(w, depth, s);
    forall k | k in s.stage ensures k in Ahead(s) || k == KeyOf(w, s.fpos) {
      EntryFacts(w, depth, s, k);
    }
    forall k | k in Ahead(s) ensures 1 <= C(w, s.at[k]) - C(w, s.fpos) <= s.peekDistance {
      AheadNumber(w, depth, s, k);
    }
    forall k, l | k in Ahead(s) && l in Ahead(s) && k != l ensures C(w, s.at[k]) != C(w, s.at[l]) {
      AheadDistinct(w, depth, s, k, l);
    }
    WithinCount(w, s, Ahead(s), if s.peekDistance < 0 then 0 else s.peekDistance);
  }

  /** The results of the visits before place fpos are as they were. */
  ghost predicate Kept(results: map<nat, int>, results': map<nat, int>, fpos: nat)
  {
    forall q :: q in results && q < fpos ==> q in results' && results'[q] == results[q]
  }

  ghost predicate ExactlyOnce(log: seq<Exec>, p: nat)
  {
    exists i :: 0 <= i < |log| && log[i].pos == p && forall j :: 0 <= j < |log| && log[j].pos == p ==> j == i
  }

  /** Every syscall the frontier has passed was executed exactly once, with its own arguments. */
  lemma PassedExactlyOnce(w: World, depth: nat, s: State, p: nat)
    requires Inv(w, depth, s) && SysAt(w, p) && p < s.fpos
    ensures ExactlyOnce(s.log, p) && p in s.results
  {
    hide R, C, KeyOf, WeakBefore, DecisionsOk, PoolsOk, EngineOk, WeakOk, SafeOk, WellBuilt, OwnArgs;
    assert Started(s.log, p);
    var i :| 0 <= i < |s.log| && s.log[i].pos == p;
    assert forall j :: 0 <= j < |s.log| && s.log[j].pos == p ==> j == i;
  }

  // ---- What peeking does with a visit ------------------------------------------------------

  /** A syscall may be pre-issued if it is pure or no uncrossed edge before it is weak. */
  ghost predicate MayPreIssue(w: World, fpos: nat, q: nat)
  {
    PureAt(w, q) || NoWeakBetween(w, fpos, q)
  }

  /** The plugin refused the arguments of visit q, or it is prepared, or it is only ready because it must not be more. */
  ghost predicate PeekedAs(w: World, fpos: nat, refused: set<nat>, stage: map<PoolKey, Stage>, q: nat)
  {
    SysAt(w, q) ==>
    q in refused ||
    (KeyOf(w, q) in stage && stage[KeyOf(w, q)] == if MayPreIssue(w, fpos, q) then Prepared else ArgReady)
  }

  ghost predicate PeekedAll(w: World, fpos: nat, refused: set<nat>, stage: map<PoolKey, Stage>, a: nat, b: nat)
  {
    forall q: nat :: a <= q < b ==> PeekedAs(w, fpos, refused, stage, q)
  }

  ghost predicate Extends(stage: map<PoolKey, Stage>, stage': map<PoolKey, Stage>)
  {
    forall k :: k in stage ==> k in stage' && stage'[k] == stage[k]
  }

  /** What was peeked stays so while more is peeked. */
  lemma PeekedMore(w: World, fpos: nat, refused: set<nat>, stage: map<PoolKey, Stage>,
                   refused': set<nat>, stage': map<PoolKey, Stage>, a: nat, b: nat, c: nat)
    requires PeekedAll(w, fpos, refused, stage, a, b) && refused <= refused' && Extends(stage, stage')
    requires PeekedAll(w, fpos, refused', stage', b, c)
    ensures PeekedAll(w, fpos, refused', stage', a, c)
  {
    hide R, KeyOf, MayPreIssue;
    forall q: nat | a <= q < c ensures PeekedAs(w, fpos, refused', stage', q) {
      if q < b { assert PeekedAs(w, fpos, refused, stage, q); }
    }
  }

  lemma PeekedBranches(w: World, fpos: nat, refused: set<nat>, stage: map<PoolKey, Stage>, a: nat, b: nat)
    requires forall q: nat :: a <= q < b ==> !SysAt(w, q)
    ensures PeekedAll(w, fpos, refused, stage, a, b)
  {
    hide R;
  }

  lemma PeekedOne(w: World, fpos: nat, refused: set<nat>, stage: map<PoolKey, Stage>, q: nat)
    requires PeekedAs(w, fpos, refused, stage, q)
    ensures PeekedAll(w, fpos, refused, stage, q, q + 1)
  {
    hide R;
  }

  /** The same entries are past being ready, apart from some. */
  ghost predicate AsReady(stage: map<PoolKey, Stage>, stage': map<PoolKey, Stage>, but: set<PoolKey>)
  {
    forall k :: k in stage && k !in but ==> k in stage' && (stage[k] == ArgReady <==> stage'[k] == ArgReady)
  }

  /** The plugin refused the arguments of visit q, or it has been handed over exactly if that was allowed. */
  ghost predicate IssuedAs(w: World, fpos: nat, refused: set<nat>, stage: map<PoolKey, Stage>, q: nat)
  {
    SysAt(w, q) ==>
    q in refused || (KeyOf(w, q) in stage && (stage[KeyOf(w, q)] != ArgReady <==> MayPreIssue(w, fpos, q)))
  }

  lemma PeekedIssued(w: World, fpos: nat, refused: set<nat>, stage: map<PoolKey, Stage>, stage': map<PoolKey, Stage>, q: nat)
    requires WellBuilt(w) && SysAt(w, fpos) && fpos < q
    requires PeekedAs(w, fpos, refused, stage, q) && AsReady(stage, stage', {KeyOf(w, fpos)})
    ensures IssuedAs(w, fpos, refused, stage', q)
  {
    hide R, WellBuilt, MayPreIssue, KeyOf;
    if SysAt(w, q) && KeyOf(w, q) == KeyOf(w, fpos) { KeyInjective(w, fpos, q); }
  }

  /** Peeking got as far as it may: to its depth, to the end, or to a branch whose decision the plugin refused. */
  ghost predicate PeekEnded(w: World, depth: nat, distance: int, ppos: nat, refused: set<nat>)
  {
    distance == depth || R(w, ppos).node == -1 || (IsBranch(w, R(w, ppos).node) && ppos in refused)
  }

  // ---- LINK flags --------------------------------------------------------------------------

  /** No syscall of the graph is linked to its successor. */
  ghost predicate NoLinks(w: World)
  {
    forall n, e :: !w.linkOf(n, e)
  }

  lemma OwnDecision(w: World, depth: nat, s: State, p: nat)
    requires Inv(w, depth, s) && IsBranch(w, R(w, p).node) && KeyOf(w, p) in s.decision
    ensures s.decision[KeyOf(w, p)] == w.decide(R(w, p).node, R(w, p).epoch)
  {
    hide R, KeyOf, PoolsOk, EngineOk, LogOk, WeakOk, SafeOk, WellBuilt, OnPath;
    DecisionIsOwn(w, s.fpos, s.ppos, s.decision, p);
  }

  /** Following branches comes to an end. */
  lemma RankDrops(w: World, rank: seq<nat>, k: nat)
    requires WellBuilt(w) && Ranked(w, rank) && IsBranch(w, R(w, k).node) && |rank| == |w.nodes|
    ensures IsBranch(w, Target(w, R(w, k))) ==> rank[Target(w, R(w, k))] < rank[R(w, k).node]
  {
    hide R;
    PathRefs(w, k);
    assert NodeOk(w, R(w, k).node);
  }

  /** Reaching the next syscall, the application has crossed the edge before it. */
  lemma RaiseLo(w: World, depth: nat, s: State)
    requires Inv(w, depth, s)
    ensures Inv(w, depth, s.(lo := s.fpos))
  {
    hide R, PoolsOk, EngineOk, LogOk, WeakOk, SafeOk, WellBuilt, OnPath, DecisionsOk;
    PushedSafe(w, s.lo, s.fpos, s.stage, s.at, (-1, 0));
  }

  /** Recording the edge keeps the invariant. */
  lemma WeakRecordedInv(w: World, depth: nat, s: State)
    requires Inv(w, depth, s) && s.peekDistance >= 0
    ensures var d := if s.peekWeak then s.peekDistance else s.weakDistance;
            WeakAll(w, s.fpos, s.ppos, d) && Inv(w, depth, s.(weakDistance := d))
  {
    hide R, PoolsOk, EngineOk, LogOk, WeakOk, SafeOk, WellBuilt, OnPath, DecisionsOk, WeakAll;
    WeakRecorded(w, depth, s);
  }

  /** Only a peekhead at the end of the graph has hit the end. */
  lemma HitEndInv(w: World, depth: nat, s: State)
    requires Inv(w, depth, s) && s.peekDistance >= 0 && s.peekhead == -1
    ensures Inv(w, depth, s.(hitEnd := true))
  {
    hide R, C, WeakBefore, PoolsOk, EngineOk, LogOk, WeakOk, SafeOk, WellBuilt, DecisionsOk;
  }

  lemma EndWasHit(w: World, depth: nat, s: State)
    requires Inv(w, depth, s) && s.hitEnd
    ensures R(w, s.ppos).node == -1
  {
    hide R, C, WeakBefore, PoolsOk, EngineOk, LogOk, WeakOk, SafeOk, WellBuilt, DecisionsOk;
  }

  /** With nothing prepared, the distance of the first prepared request has no meaning. */
  lemma NonePrepared(w: World, depth: nat, s: State)
    requires Inv(w, depth, s) && s.prepared == []
    ensures Inv(w, depth, s.(numPrepared := 0, preparedDistance := -1))
  {
    hide OnPath, PoolsOk, LogOk, WeakOk, SafeOk, WellBuilt, DecisionsOk;
  }

  lemma OnTheFlyListed(w: World, depth: nat, s: State, k: PoolKey)
    requires Inv(w, depth, s) && k in s.stage && s.stage[k] == OnTheFly
    ensures k in s.onthefly
  {
    hide OnPath, PoolsOk, LogOk, WeakOk, SafeOk, WellBuilt, DecisionsOk;
  }

  /** The syscall at place p is linked to its successor. */
  ghost predicate LinkedAt(w: World, p: nat)
  {
    w.linkOf(R(w, p).node, R(w, p).epoch)
  }

  /** The last of the prepared requests is one of a linked visit. */
  ghost predicate LastLinked(w: World, prepared: seq<PoolKey>, at: map<PoolKey, nat>)
  {
    prepared != [] && prepared[|prepared| - 1] in at && LinkedAt(w, at[prepared[|prepared| - 1]])
  }

  /** The frontier's own visit is prepared, and the last prepared one is linked, so that none is submitted. */
  ghost predicate Stuck(w: World, fpos: nat, stage: map<PoolKey, Stage>, prepared: seq<PoolKey>, at: map<PoolKey, nat>)
  {
    KeyOf(w, fpos) in stage && stage[KeyOf(w, fpos)] == Prepared && LastLinked(w, prepared, at)
  }

  /** A prepared request carries the LINK flag of its own visit. */
  lemma LinkIsOwn(w: World, depth: nat, s: State, k: PoolKey)
    requires Inv(w, depth, s) && k in s.prepared
    ensures k in s.at && k in s.link && (s.link[k] <==> LinkedAt(w, s.at[k]))
  {
    hide OnPath, R, KeyOf, EntryAt, LogOk, WeakOk, SafeOk, WellBuilt, DecisionsOk;
  }

  /** Prepared visits are at most as many syscalls ahead as peeking goes. */
  lemma PreparedWithin(w: World, depth: nat, s: State, k: PoolKey)
    requires Inv(w, depth, s) && IsSyscall(w, s.frontier) && k in s.prepared
    ensures k in s.at && s.fpos <= s.at[k] && SysAt(w, s.at[k]) && C(w, s.at[k]) <= C(w, s.fpos) + depth
  {
    hide Inv, R, C, KeyOf;
    PreparedInStage(w, depth, s);
    EntryFacts(w, depth, s, k);
    Located(w, depth, s);
    if s.fpos < s.at[k] { AheadNumber(w, depth, s, k); }
  }

  lemma LoggedArgs(w: World, depth: nat, s: State)
    requires Inv(w, depth, s)
    ensures forall e :: e in s.log ==> OwnArgs(w, e)
  {
    hide OnPath, PoolsOk, EngineOk, WeakOk, SafeOk, WellBuilt, DecisionsOk, OwnArgs;
  }

  lemma NoneBefore(w: World)
    ensures C(w, 0) == 0
  {
  }

  /** The keys of the places from a up to b. */
  ghost function PassedKeys(w: World, a: nat, b: nat): (keys: set<PoolKey>)
  {
    if b <= a then {} else PassedKeys(w, a, b - 1) + {KeyOf(w, b - 1)}
  }

  lemma PassedOne(w: World, a: nat, b: nat, decision: map<PoolKey, nat>)
    requires a <= b
    ensures decision - PassedKeys(w, a, b + 1) == decision - PassedKeys(w, a, b) - {KeyOf(w, b)}
  {
    hide R, KeyOf;
  }

  ghost function KeySet(keys: seq<PoolKey>): (r: set<PoolKey>)
  {
    set k | k in keys
  }

  /** The log entries of requests, in their order. */
  ghost function Execs(keys: seq<PoolKey>, at: map<PoolKey, nat>, args: map<PoolKey, Args>): (log: seq<Exec>)
  {
    if keys == [] then []
    else
      var k := keys[|keys| - 1];
      Execs(keys[..|keys| - 1], at, args) +
      (if k in at && k in args then [Exec(at[k], args[k])] else [])
  }

  lemma ExecsNone(all: seq<PoolKey>, at: map<PoolKey, nat>, args: map<PoolKey, Args>)
    ensures KeySet(all[..0]) == {} && Execs(all[..0], at, args) == []
  {
  }

  lemma ExecsOne(all: seq<PoolKey>, i: nat, at: map<PoolKey, nat>, args: map<PoolKey, Args>)
    requires i < |all|
    ensures KeySet(all[..i + 1]) == KeySet(all[..i]) + {all[i]}
    ensures all[i] in at && all[i] in args ==>
              Execs(all[..i + 1], at, args) == Execs(all[..i], at, args) + [Exec(at[all[i]], args[all[i]])]
  {
    assert all[..i + 1] == all[..i] + [all[i]];
    assert all[..i + 1][..i] == all[..i];
  }
}
