/**
 The syscall graph object and its engine, updated in place as the application runs.

 When the plugin can give arguments or a decision early, in which order the engine completes its
 requests, and what a syscall returns are left open: every choice is covered.
 */
module ForeactionGraph {
  import opened Graphs
  import opened Speculation
  import opened PreadBuffers

  /** What an intercepted call comes to; the second case is the failing assertion on stage PREPARED. */
  datatype IssueResult = Returned(rc: int) | StillPrepared

  /** How far peeking has got. */
  datatype Peek = Peek(head: int, weak: bool, epoch: Epoch, distance: int, hitEnd: bool)

  /** The value pools of all nodes. */
  datatype Pools = Pools(stage: map<PoolKey, Stage>, args: map<PoolKey, Args>, link: map<PoolKey, bool>,
                         rc: map<PoolKey, int>, decision: map<PoolKey, nat>)

  /** The engine's requests: to be submitted, in order, and submitted. */
  datatype Engine = Engine(prepared: seq<PoolKey>, onthefly: set<PoolKey>)

  datatype History = History(fpos: nat, ppos: nat, lo: nat, at: map<PoolKey, nat>, log: seq<Exec>)

  class SCGraph {
    const w: World
    const preIssueDepth: nat
    const pread: int            // a pread node, and its internal buffers
    const bufs: BufferPool
    ghost const rank: seq<nat>

    var frontier: Cursor
    var peek: Peek
    var weakDistance: int
    var numPrepared: int
    var preparedDistance: int
    var pools: Pools
    var engine: Engine
    ghost var h: History
    ghost var answers: map<nat, int>    // what the system returned, by place: only Execute and CompleteOne add to it
    ghost var refused: set<nat>         // places for which the plugin was not ready, in this call

    ghost function Now(): (s: State)
      reads this
    {
      State(frontier.node, frontier.epoch, peek.head, peek.weak, peek.epoch, peek.distance, peek.hitEnd, weakDistance,
            numPrepared, preparedDistance, pools.stage, pools.args, pools.link, pools.rc, pools.decision,
            engine.prepared, engine.onthefly, h.fpos, h.ppos, h.lo, h.at, h.log, answers)
    }

    /** The state satisfies the invariant of the algorithm. */
    ghost predicate Sound()
      reads this
    {
      Inv(w, preIssueDepth, Now()) && WellBuilt(w) && Ranked(w, rank) && |rank| == |w.nodes|
    }

    /** Exactly the visits of the pread node that were given without a destination have a buffer, each its own. */
    ghost predicate Buffered()
      reads this, bufs
    {
      Coupled(bufs, preIssueDepth, BufferVisits())
    }

    ghost function BufferVisits(): (visits: set<nat>)
      reads this
    {
      Wanting(w, pools.link.Keys, h.at, pread)
    }

    ghost predicate Valid()
      reads this, bufs
    {
      Sound() && Buffered()
    }

    constructor (w: World, preIssueDepth: nat, pread: int, ghost rank: seq<nat>)
      requires WellBuilt(w) && Ranked(w, rank)
      ensures Valid() && Now() == Initial(w) && this.w == w && this.preIssueDepth == preIssueDepth && this.pread == pread
      ensures fresh(bufs)
    {
      hide Inv, WellBuilt, Coupled, Wanting;
      this.w, this.preIssueDepth, this.pread, this.rank := w, preIssueDepth, pread, rank;
      bufs := new BufferPool(preIssueDepth);
      frontier := Cursor(w.start, seq(w.ndims, _ => 0));
      peek := Peek(-1, false, seq(w.ndims, _ => 0), -1, false);
      weakDistance, numPrepared, preparedDistance := -1, 0, -1;
      pools, engine := Pools(map[], map[], map[], map[], map[]), Engine([], {});
      h, answers, refused := History(0, 0, 0, map[], []), map[], {};
      new;
      InitialInv(w, preIssueDepth);
      FreshPool(bufs, preIssueDepth);
      NoneWanting(w, h.at, pread);
    }

    /** Ask the plugin for the branch decision of place k; when the application waits for it, it must be ready. */
    method GenerateDecision(c: Cursor, catchingUp: bool, ghost k: nat) returns (ready: bool)
      modifies `pools, `refused
      ensures catchingUp ==> ready
      ensures refused == if ready then old(refused) else old(refused) + {k}
      ensures pools == if ready then old(pools).(decision := old(pools.decision)[KeyAt(w, c) := w.decide(c.node, c.epoch)])
                       else old(pools)
    {
      ready := *;
      if catchingUp { ready := true; }
      if ready {
        pools := pools.(decision := pools.decision[KeyAt(w, c) := w.decide(c.node, c.epoch)]);
      } else {
        refused := refused + {k};
      }
    }

    /** Is the decision of the branch visit at place k known, possibly just now? */
    method Decide(c: Cursor, catchingUp: bool, ghost k: nat) returns (known: bool)
      requires Sound() && IsBranch(w, c.node) && R(w, k) == c
      modifies `pools, `refused
      ensures catchingUp ==> known
      ensures refused == if known then old(refused) else old(refused) + {k}
      ensures !known ==> pools == old(pools) && KeyOf(w, k) !in pools.decision
      ensures known ==> pools == old(pools).(decision := old(pools.decision)[KeyOf(w, k) := w.decide(c.node, c.epoch)])
    {
      hide Inv, R, KeyAt, WellBuilt, Ranked;
      known := true;
      if KeyAt(w, c) !in pools.decision {
        known := GenerateDecision(c, catchingUp, k);
      } else {
        OwnDecision(w, preIssueDepth, Now(), k);
        assert pools.decision == pools.decision[KeyOf(w, k) := w.decide(c.node, c.epoch)];
      }
    }

    /** Take the decided child of the branch visit at place k; a back edge increments the epoch. */
    method PickBranch(c: Cursor, ghost k: nat) returns (c': Cursor)
      requires WellBuilt(w) && IsBranch(w, c.node) && R(w, k) == c
      requires KeyOf(w, k) in pools.decision && pools.decision[KeyOf(w, k)] == w.decide(c.node, c.epoch)
      ensures c' == R(w, k + 1) && c'.node == Target(w, R(w, k))
    {
      hide R, KeyAt, WellBuilt, Target;
      var d := pools.decision[KeyAt(w, c)];
      AtBranch(w, k, d);
      var branch := w.nodes[c.node];
      c' := Cursor(branch.children[d], Incremented(c.epoch, branch.backDims[d]));
    }

    /** Take the decided branch at the frontier, dropping the decision. */
    method PassBranch()
      requires Sound() && IsBranch(w, frontier.node)
      modifies `frontier, `pools, `h, `refused
      ensures Sound() && frontier.node == Target(w, old(frontier)) && h == old(h).(fpos := old(h.fpos) + 1)
      ensures refused == old(refused)
      ensures pools == old(pools).(decision := old(pools.decision) - {KeyOf(w, old(h.fpos))})
    {
      hide Inv, R, KeyAt, WellBuilt, Ranked, Target;
      ghost var s := Now();
      FrontierBranchedInv(w, preIssueDepth, s);
      Located(w, preIssueDepth, s);
      var ready := Decide(frontier, true, h.fpos);
      assert ready;
      var key := KeyAt(w, frontier);
      frontier := PickBranch(frontier, h.fpos);
      pools := pools.(decision := pools.decision - {key});
      h := h.(fpos := h.fpos + 1);
      assert pools.decision == s.decision - {KeyOf(w, s.fpos)};
    }

    /** Walk over decided branches to the syscall the application is calling. */
    method GetFrontier(ghost p: nat)
      requires Sound() && NextCall(w, h.fpos, p)
      modifies `frontier, `pools, `h, `refused
      ensures Sound() && h == old(h).(fpos := p, lo := p) && IsSyscall(w, frontier.node) && refused == old(refused)
      ensures pools == old(pools).(decision := old(pools.decision) - PassedKeys(w, old(h.fpos), p))
    {
      hide Inv, R, Ranked, WellBuilt, Target;
      Located(w, preIssueDepth, Now());
      NotEnded(w, h.fpos, p);
      while IsBranch(w, frontier.node)
        invariant Sound() && old(h.fpos) <= h.fpos <= p && IsNode(w, frontier.node)
        invariant R(w, h.fpos) == frontier && h == old(h).(fpos := h.fpos) && refused == old(refused)
        invariant pools == old(pools).(decision := old(pools.decision) - PassedKeys(w, old(h.fpos), h.fpos))
        decreases if IsBranch(w, frontier.node) then rank[frontier.node] + 1 else 0
      {
        assert SysAt(w, p);
        RankDrops(w, rank, h.fpos);
        PassedOne(w, old(h.fpos), h.fpos, old(pools.decision));
        PassBranch();
        Located(w, preIssueDepth, Now());
        NotEnded(w, h.fpos, p);
      }
      assert SysAt(w, h.fpos) && !(h.fpos < p);
      RaiseLo(w, preIssueDepth, Now());
      h := h.(lo := h.fpos);
    }

    /** The arguments of the actual call; a visit the plugin could not prepare becomes ready now. */
    method CheckArgs(a: Args)
      requires Valid() && IsSyscall(w, frontier.node) && a == w.argsOf(frontier.node, frontier.epoch)
      modifies `pools, `h
      ensures Valid() && h == old(h).(at := h.at) && KeyOf(w, h.fpos) in pools.stage
      ensures Extends(old(pools.stage), pools.stage)
      ensures pools.stage.Keys == old(pools.stage).Keys + {KeyOf(w, h.fpos)}
    {
      hide Inv, R, KeyAt, WellBuilt, Ranked, Coupled, Wanting;
      ghost var s := Now();
      Located(w, preIssueDepth, s);
      ArgsCheckedInv(w, preIssueDepth, s);
      LinksStaged(w, preIssueDepth, s);
      var key := KeyAt(w, frontier);
      if key !in pools.stage {
        WantingAdded(w, pools.link.Keys, h.at, pread, key, h.fpos);
        pools := pools.(stage := pools.stage[key := ArgReady], args := pools.args[key := a]);
        h := h.(at := h.at[key := h.fpos]);
      }
    }

    /** The peekhead was stuck and the frontier has overtaken it: start again behind the frontier. */
    method CatchUp()
      requires Sound() && IsSyscall(w, frontier.node)
      modifies `peek, `h
      ensures Sound() && h == old(h).(ppos := if old(peek.distance) < 0 then h.fpos + 1 else old(h.ppos))
      ensures peek == if old(peek.distance) < 0
                      then Peek(w.nodes[frontier.node].next, w.nodes[frontier.node].weak, frontier.epoch, 0, old(peek.hitEnd))
                      else old(peek)
    {
      hide Inv, R, WellBuilt, Ranked;
      if peek.distance < 0 {
        ghost var s := Now();
        OvertakenEpoch(w, preIssueDepth, s);
        CaughtUpInv(w, preIssueDepth, s);
        assert AheadOf(frontier.epoch, peek.epoch);
        peek := Peek(w.nodes[frontier.node].next, w.nodes[frontier.node].weak, frontier.epoch, 0, peek.hitEnd);
        h := h.(ppos := h.fpos + 1);
      }
    }

    /** All edges up to the peekhead are covered by the recorded weak distance. */
    ghost predicate Peeking()
      reads this
    {
      && Sound() && IsSyscall(w, frontier.node) && 0 <= peek.distance && h.lo == h.fpos
      && WeakAll(w, h.fpos, h.ppos, weakDistance)
    }

    /** While the peekhead is a branch with a known decision, follow it; the plugin is asked for a missing one. */
    method PeekBranches() returns (barrier: bool)
      requires Peeking()
      modifies `peek, `pools, `h, `refused
      ensures Peeking() && h == old(h).(ppos := h.ppos) && peek == old(peek).(head := peek.head, epoch := peek.epoch)
      ensures pools == old(pools).(decision := pools.decision)
      ensures barrier <==> IsBranch(w, peek.head)
      ensures refused == if barrier then old(refused) + {h.ppos} else old(refused)
      ensures IsRef(w, peek.head) && R(w, h.ppos) == Cursor(peek.head, peek.epoch)
      ensures old(h.ppos) <= h.ppos && forall q: nat :: old(h.ppos) <= q < h.ppos ==> !SysAt(w, q)
    {
      hide Inv, R, KeyAt, WellBuilt, Ranked, Target, WeakAll;
      Located(w, preIssueDepth, Now());
      while IsBranch(w, peek.head)
        invariant Peeking() && h == old(h).(ppos := h.ppos) && IsRef(w, peek.head)
        invariant peek == old(peek).(head := peek.head, epoch := peek.epoch)
        invariant pools == old(pools).(decision := pools.decision) && refused == old(refused)
        invariant R(w, h.ppos) == Cursor(peek.head, peek.epoch)
        invariant old(h.ppos) <= h.ppos && forall q: nat :: old(h.ppos) <= q < h.ppos ==> !SysAt(w, q)
        decreases if IsBranch(w, peek.head) then rank[peek.head] + 1 else 0
      {
        ghost var s := Now();
        var c := Cursor(peek.head, peek.epoch);
        var known := Decide(c, false, h.ppos);
        if !known { return true; }
        PeekBranchedInv(w, preIssueDepth, s);
        RankDrops(w, rank, h.ppos);
        c := PickBranch(c, h.ppos);
        peek := peek.(head := c.node, epoch := c.epoch);
        h := h.(ppos := h.ppos + 1);
        Located(w, preIssueDepth, Now());
      }
      return false;
    }

    /** The next syscall may be pre-issued unless it has side effects behind a weak edge. */
    predicate IsForeactable(weakState: bool, node: int)
      requires IsSyscall(w, node)
    {
      !(weakState && !w.nodes[node].pure)
    }

    /** An internal buffer for the visit c of the pread node, when its destination is not known yet. */
    method GiveBuffer(c: Cursor)
      requires Peeking() && Buffered() && peek.distance < preIssueDepth
      modifies bufs
      ensures Coupled(bufs, preIssueDepth, BufferVisits() +
                        (if c.node == pread && !w.destKnown(c.node, c.epoch) then {KeyAt(w, c).1} else {}))
    {
      hide Inv, R, WellBuilt, Ranked, WeakAll, Coupled, Wanting;
      if c.node == pread && !w.destKnown(c.node, c.epoch) {
        NeverDry(w, preIssueDepth, Now(), pread, bufs);
        AssignFor(bufs, KeyAt(w, c).1, BufferVisits(), preIssueDepth);
      } else {
        assert BufferVisits() + {} == BufferVisits();
      }
    }

    /** Ask the plugin for the arguments of the visit at place k; what it knows it may not know yet. */
    method GenerateArgs(ghost k: nat) returns (ready: bool)
      modifies `refused
      ensures refused == if ready then old(refused) else old(refused) + {k}
    {
      ready := *;
      if !ready { refused := refused + {k}; }
    }

    /** Store the arguments the plugin gave for the visit c, at place p. */
    method StoreArgs(c: Cursor, ghost p: nat)
      requires Peeking() && Buffered() && peek.distance < preIssueDepth
      requires R(w, p) == c && KeyAt(w, c) !in pools.stage
      modifies `pools, `h, bufs
      ensures Buffered() && h == old(h).(at := old(h.at)[KeyAt(w, c) := p])
      ensures pools == old(pools).(stage := old(pools.stage)[KeyAt(w, c) := ArgReady],
                                   args := old(pools.args)[KeyAt(w, c) := w.argsOf(c.node, c.epoch)],
                                   link := old(pools.link)[KeyAt(w, c) := w.linkOf(c.node, c.epoch)])
    {
      hide Inv, R, WellBuilt, Ranked, WeakAll, Coupled, KeyAt, Wanting;
      var key := KeyAt(w, c);
      LinksStaged(w, preIssueDepth, Now());
      WantingAdded(w, pools.link.Keys, h.at, pread, key, p);
      KeyNode(w, c);
      GiveBuffer(c);
      pools := pools.(stage := pools.stage[key := ArgReady], args := pools.args[key := w.argsOf(c.node, c.epoch)],
                      link := pools.link[key := w.linkOf(c.node, c.epoch)]);
      h := h.(at := h.at[key := p]);
      assert pools.link.Keys == old(pools.link.Keys) + {key};
    }

    /** Hand a ready visit to the engine; the distance of the earliest prepared one is kept. */
    method PrepAsync(key: PoolKey)
      modifies `pools, `engine, `numPrepared, `preparedDistance
      ensures pools == old(pools).(stage := old(pools.stage)[key := Prepared])
      ensures key in old(pools.stage) ==> pools.stage.Keys == old(pools.stage).Keys
      ensures engine == old(engine).(prepared := old(engine.prepared) + [key]) && numPrepared == old(numPrepared) + 1
      ensures preparedDistance == if old(numPrepared) == 0 then peek.distance else old(preparedDistance)
    {
      engine := engine.(prepared := engine.prepared + [key]);
      pools := pools.(stage := pools.stage[key := Prepared]);
      if numPrepared == 0 { preparedDistance := peek.distance; }
      numPrepared := numPrepared + 1;
    }

    /** Go past the syscall at the peekhead without its arguments. */
    method PeekPast()
      requires Peeking() && IsSyscall(w, peek.head) && peek.distance < preIssueDepth
      modifies `peek, `h
      ensures Sound() && h == old(h).(ppos := old(h.ppos) + 1)
      ensures peek.distance == old(peek.distance) + 1
    {
      hide Inv, R, WellBuilt, Ranked, WeakAll;
      PeekMovedInv(w, preIssueDepth, Now());
      var node := w.nodes[peek.head];
      peek := peek.(head := node.next, weak := node.weak, distance := peek.distance + 1);
      h := h.(ppos := h.ppos + 1);
    }

    /** Go past the syscall at the peekhead with its arguments ready, but without preparing it. */
    method PeekWithArgs()
      requires Peeking() && Buffered() && IsSyscall(w, peek.head) && peek.distance < preIssueDepth
      requires KeyOf(w, h.ppos) !in pools.stage
      modifies `peek, `pools, `h, bufs
      ensures Buffered() && pools.stage == old(pools.stage)[KeyOf(w, old(h.ppos)) := ArgReady]
      ensures Sound() && h == old(h).(ppos := old(h.ppos) + 1, at := h.at)
      ensures peek.distance == old(peek.distance) + 1
    {
      hide Inv, R, KeyAt, WellBuilt, Ranked, WeakAll, Coupled, Wanting;
      Located(w, preIssueDepth, Now());
      PeekReadyInv(w, preIssueDepth, Now());
      var node, c := w.nodes[peek.head], Cursor(peek.head, peek.epoch);
      StoreArgs(c, h.ppos);
      peek := peek.(head := node.next, weak := node.weak, distance := peek.distance + 1);
      h := h.(ppos := h.ppos + 1);
    }

    /** Hand the syscall at the peekhead to the engine and go past it. */
    method PeekAndPrepare()
      requires Peeking() && Buffered() && IsSyscall(w, peek.head) && peek.distance < preIssueDepth
      requires KeyOf(w, h.ppos) !in pools.stage && (w.nodes[peek.head].pure || weakDistance < 0)
      modifies `peek, `pools, `engine, `numPrepared, `preparedDistance, `h, bufs
      ensures Buffered() && engine == old(engine).(prepared := old(engine.prepared) + [KeyOf(w, old(h.ppos))])
      ensures pools.stage == old(pools.stage)[KeyOf(w, old(h.ppos)) := Prepared]
      ensures Sound() && h == old(h).(ppos := old(h.ppos) + 1, at := h.at)
      ensures peek.distance == old(peek.distance) + 1
    {
      hide Inv, R, KeyAt, WellBuilt, Ranked, WeakAll, Coupled, Wanting;
      Located(w, preIssueDepth, Now());
      PeekPreparedInv(w, preIssueDepth, Now());
      var node, c := w.nodes[peek.head], Cursor(peek.head, peek.epoch);
      StoreArgs(c, h.ppos);
      PrepAsync(KeyAt(w, c));
      peek := peek.(head := node.next, weak := node.weak, distance := peek.distance + 1);
      h := h.(ppos := h.ppos + 1);
    }

    /**
     Go past the syscall at the peekhead.  If the plugin has its arguments it is handed to the
     engine, or at least made ready when a weak edge forbids that.
     */
    method PeekSyscall() returns (ready: bool)
      requires Peeking() && Buffered() && IsSyscall(w, peek.head) && peek.distance < preIssueDepth
      modifies `peek, `pools, `engine, `numPrepared, `preparedDistance, `h, `refused, bufs
      ensures Valid() && h == old(h).(ppos := old(h.ppos) + 1, at := h.at)
      ensures peek.distance == old(peek.distance) + 1
      ensures KeyOf(w, old(h.ppos)) !in old(pools.stage)
      ensures refused == if ready then old(refused) else old(refused) + {old(h.ppos)}
      ensures if !ready then pools == old(pools) && engine == old(engine)
              else if old(w.nodes[peek.head].pure || weakDistance < 0) then
                && engine == old(engine).(prepared := old(engine.prepared) + [KeyOf(w, old(h.ppos))])
                && pools.stage == old(pools.stage)[KeyOf(w, old(h.ppos)) := Prepared]
              else engine == old(engine) && pools.stage == old(pools.stage)[KeyOf(w, old(h.ppos)) := ArgReady]
    {
      hide Inv, WellBuilt, Ranked, WeakAll, KeyAt, R, Coupled, Wanting;
      PeekIsNew(w, preIssueDepth, Now());
      ready := GenerateArgs(h.ppos);
      if !ready {
        PeekPast();
      } else if IsForeactable(weakDistance >= 0, peek.head) {
        PeekAndPrepare();
      } else {
        PeekWithArgs();
      }
    }

    /** The same, in terms of the path: the visit is handed over exactly if it may be and its arguments are there. */
    method PeekNext()
      requires Peeking() && Buffered() && IsSyscall(w, peek.head) && peek.distance < preIssueDepth
      modifies `peek, `pools, `engine, `numPrepared, `preparedDistance, `h, `refused, bufs
      ensures Valid() && h == old(h).(ppos := old(h.ppos) + 1, at := h.at)
      ensures peek.distance == old(peek.distance) + 1
      ensures Extends(old(pools.stage), pools.stage) && old(refused) <= refused
      ensures PeekedAll(w, h.fpos, refused, pools.stage, old(h.ppos), h.ppos)
    {
      hide Inv, R, WellBuilt, Ranked, WeakAll, Coupled, Wanting, PeekedAll, NoWeakBetween, KeyOf;
      Located(w, preIssueDepth, Now());
      NoneRecorded(w, preIssueDepth, Now());
      ghost var q := h.ppos;
      var _ := PeekSyscall();
      PeekedOne(w, h.fpos, refused, pools.stage, q);
    }

    /** One round of peeking; stops at the end of the graph and at a branch whose decision the plugin refuses. */
    method PeekOne() returns (go: bool)
      requires Valid() && IsSyscall(w, frontier.node) && 0 <= peek.distance < preIssueDepth && h.lo == h.fpos
      modifies `peek, `pools, `engine, `weakDistance, `numPrepared, `preparedDistance, `h, `refused, bufs
      ensures Valid() && h == old(h).(ppos := h.ppos, at := h.at) && old(h.ppos) <= h.ppos
      ensures peek.distance == old(peek.distance) + (if go then 1 else 0)
      ensures !go ==> PeekEnded(w, preIssueDepth, -1, h.ppos, refused) && (R(w, h.ppos).node == -1 ==> peek.hitEnd)
      ensures Extends(old(pools.stage), pools.stage) && old(refused) <= refused
      ensures PeekedAll(w, h.fpos, refused, pools.stage, old(h.ppos), h.ppos)
    {
      hide Inv, R, WellBuilt, Ranked, WeakAll, Coupled, Wanting, PeekedAll;
      WeakRecordedInv(w, preIssueDepth, Now());
      if peek.weak { weakDistance := peek.distance; }
      var barrier := PeekBranches();
      PeekedBranches(w, h.fpos, refused, pools.stage, old(h.ppos), h.ppos);
      if peek.head == -1 {
        HitEndInv(w, preIssueDepth, Now());
        peek := peek.(hitEnd := true);
        return false;
      }
      if barrier { return false; }
      ghost var q, refused0, stage0 := h.ppos, refused, pools.stage;
      PeekNext();
      PeekedMore(w, h.fpos, refused0, stage0, refused, pools.stage, old(h.ppos), q, q + 1);
      return true;
    }

    /**
     Peek at most preIssueDepth syscalls beyond the frontier and prepare what can be pre-issued.  What
     becomes of each syscall on the way depends only on the plugin and on the edges before it.
     */
    method PeekAhead()
      requires Valid() && IsSyscall(w, frontier.node) && h.lo == h.fpos
      modifies `peek, `pools, `engine, `weakDistance, `numPrepared, `preparedDistance, `h, `refused, bufs
      ensures Valid() && h == old(h).(ppos := h.ppos, at := h.at)
      ensures 0 <= peek.distance <= preIssueDepth && PeekEnded(w, preIssueDepth, peek.distance, h.ppos, refused)
      ensures R(w, if old(peek.distance) < 0 then h.fpos + 1 else old(h.ppos)).node == -1 ==> peek.hitEnd
      ensures Extends(old(pools.stage), pools.stage) && old(refused) <= refused
      ensures PeekedAll(w, h.fpos, refused, pools.stage, if old(peek.distance) < 0 then h.fpos + 1 else old(h.ppos), h.ppos)
    {
      hide Inv, R, WellBuilt, Ranked, Coupled, Wanting, PeekedAll;
      CatchUp();
      Located(w, preIssueDepth, Now());
      var depth := preIssueDepth - peek.distance;
      if peek.head == -1 {
        HitEndInv(w, preIssueDepth, Now());
        peek := peek.(hitEnd := true);
      }
      ghost var a := h.ppos;
      PeekedBranches(w, h.fpos, refused, pools.stage, a, a);
      while depth > 0 && peek.head != -1
        invariant R(w, a).node == -1 ==> peek.hitEnd && peek.head == -1
        invariant Valid() && h == old(h).(ppos := h.ppos, at := h.at) && a <= h.ppos
        invariant 0 <= depth && 0 <= peek.distance && peek.distance == preIssueDepth - depth
        invariant Extends(old(pools.stage), pools.stage) && old(refused) <= refused
        invariant PeekedAll(w, h.fpos, refused, pools.stage, a, h.ppos)
      {
        depth := depth - 1;
        ghost var q, refused0, stage0 := h.ppos, refused, pools.stage;
        var go := PeekOne();
        PeekedMore(w, h.fpos, refused0, stage0, refused, pools.stage, a, q, h.ppos);
        if !go { return; }
      }
      Located(w, preIssueDepth, Now());
    }

    /** Is the last prepared request linked to a successor that is not prepared yet? */
    method DanglingLink() returns (dangling: bool)
      requires Sound()
      ensures dangling <==> LastLinked(w, engine.prepared, h.at)
    {
      hide Inv, R, WellBuilt, Ranked, LinkedAt;
      if |engine.prepared| == 0 { return false; }
      var key := engine.prepared[|engine.prepared| - 1];
      LinkIsOwn(w, preIssueDepth, Now(), key);
      return key in pools.link && pools.link[key];
    }

    /** The state with only the requests from number i on still to be submitted. */
    ghost predicate Submitting(s: State, all: seq<PoolKey>, i: nat)
      reads this
    {
      && Inv(w, preIssueDepth, s) && i <= |all| && s.prepared == all[i..] && engine.prepared == all
      && Now() == s.(prepared := all, numPrepared := numPrepared, preparedDistance := preparedDistance)
    }

    /** Submit one prepared request: from now on the engine executes it. */
    method SubmitOne(key: PoolKey, ghost s: State, ghost all: seq<PoolKey>, ghost i: nat) returns (ghost s': State)
      requires i < |all| && key == all[i] && Submitting(s, all, i)
      modifies `pools, `engine, `h
      ensures Submitting(s', all, i + 1) && pools == old(pools).(stage := pools.stage)
      ensures key in old(pools.stage) && pools.stage == old(pools.stage)[key := OnTheFly]
      ensures AsReady(old(pools.stage), pools.stage, {})
      ensures key in h.at && key in pools.args && h == old(h).(log := old(h.log) + [Exec(h.at[key], pools.args[key])])
      ensures engine == old(engine).(onthefly := old(engine.onthefly) + {key})
    {
      hide Inv, R, C;
      PreparedInStage(w, preIssueDepth, s);
      SubmittedInv(w, preIssueDepth, s);
      s' := SubmittedFirst(w, s);
      assert key == s.prepared[0] && key !in engine.onthefly && pools.stage[key] == Prepared;
      engine := engine.(onthefly := engine.onthefly + {key});
      pools := pools.(stage := pools.stage[key := OnTheFly]);
      h := h.(log := h.log + [Exec(h.at[key], pools.args[key])]);
    }

    lemma SubmissionStarts()
      requires Sound()
      ensures Submitting(Now(), engine.prepared, 0) && numPrepared == |engine.prepared|
    {
      hide Inv;
      PreparedInStage(w, preIssueDepth, Now());
    }

    lemma SubmissionEnds(s: State)
      requires Submitting(s, engine.prepared, |engine.prepared|)
      ensures Inv(w, preIssueDepth, Now().(prepared := [], numPrepared := 0, preparedDistance := -1))
    {
      hide Inv;
      NonePrepared(w, preIssueDepth, s);
    }

    /**
     Submit all prepared requests and return how many: they are on the fly now, and the log has them
     in the order in which they were prepared.
     */
    method SubmitAll() returns (n: nat)
      requires Sound()
      modifies `pools, `engine, `h, `numPrepared, `preparedDistance
      ensures Sound() && n == old(numPrepared) && numPrepared == 0
      ensures engine == Engine([], old(engine.onthefly) + KeySet(old(engine.prepared)))
      ensures h == old(h).(log := old(h.log) + Execs(old(engine.prepared), old(h.at), old(pools.args)))
      ensures pools == old(pools).(stage := pools.stage) && pools.stage.Keys == old(pools.stage.Keys)
      ensures AsReady(old(pools.stage), pools.stage, {})
    {
      hide Inv, WellBuilt, Ranked, KeySet, Execs, Submitting;
      ghost var s, all, at0, args0 := Now(), engine.prepared, h.at, pools.args;
      SubmissionStarts();
      ExecsNone(all, at0, args0);
      for i := 0 to |engine.prepared|
        invariant engine.prepared == all && engine.onthefly == old(engine.onthefly) + KeySet(all[..i])
        invariant Submitting(s, all, i) && pools == old(pools).(stage := pools.stage)
        invariant AsReady(old(pools.stage), pools.stage, {})
        invariant h == old(h).(log := old(h.log) + Execs(all[..i], at0, args0))
        invariant numPrepared == old(numPrepared) && pools.stage.Keys == old(pools.stage.Keys)
      {
        ExecsOne(all, i, at0, args0);
        s := SubmitOne(engine.prepared[i], s, all, i);
      }
      assert all[..|all|] == all;
      SubmissionEnds(s);
      n := |engine.prepared|;
      engine := engine.(prepared := []);
      numPrepared, preparedDistance := 0, -1;
    }

    /**
     Wait for one completion; which one comes, and with what return code, is up to the engine.  The
     return code is the system's answer to the visit the request was made for.
     */
    method CompleteOne() returns (key: PoolKey, v: int)
      requires engine.onthefly != {} && engine.onthefly <= h.at.Keys
      modifies `engine, `answers
      ensures key in old(engine.onthefly) && engine == old(engine).(onthefly := old(engine.onthefly) - {key})
      ensures answers == old(answers)[h.at[key] := v]
    {
      key :| key in engine.onthefly;
      v := *;
      engine := engine.(onthefly := engine.onthefly - {key});
      answers := answers[h.at[key] := v];
    }

    /** Have the system execute a call, for the visit at place p, and wait for its return code. */
    method Execute(a: Args, ghost p: nat) returns (v: int)
      modifies `h, `answers
      ensures h == old(h).(log := old(h.log) + [Exec(p, a)]) && answers == old(answers)[p := v]
    {
      v := *;
      h := h.(log := h.log + [Exec(p, a)]);
      answers := answers[p := v];
    }

    lemma OnTheFlyPlaced()
      requires Sound()
      ensures engine.onthefly <= h.at.Keys
    {
      hide Inv, WellBuilt, Ranked;
      PreparedInStage(w, preIssueDepth, Now());
      LinksStaged(w, preIssueDepth, Now());
    }

    /** Harvest completions until the one for this key has come; at most all that are on the fly. */
    method CmplAsync(key: PoolKey)
      requires Sound() && key in engine.onthefly
      modifies `engine, `pools, `answers
      ensures Sound() && key in pools.stage && pools.stage[key] == Finished
      ensures engine.onthefly < old(engine.onthefly)
      ensures pools == old(pools).(stage := pools.stage, rc := pools.rc) && pools.stage.Keys == old(pools.stage.Keys)
      ensures AsReady(old(pools.stage), pools.stage, {})
      ensures Kept(old(answers), answers, h.fpos)
    {
      hide Inv, WellBuilt, Ranked;
      while true
        invariant Sound() && key in engine.onthefly
        invariant engine.onthefly <= old(engine.onthefly) && Kept(old(answers), answers, h.fpos)
        invariant pools == old(pools).(stage := pools.stage, rc := pools.rc) && pools.stage.Keys == old(pools.stage.Keys)
        invariant AsReady(old(pools.stage), pools.stage, {})
        decreases |engine.onthefly|
      {
        ghost var s := Now();
        OnTheFlyPlaced();
        var entry, v := CompleteOne();
        CompletedInv(w, preIssueDepth, s, entry, v);
        pools := pools.(rc := pools.rc[entry := v], stage := pools.stage[entry := Finished]);
        if entry == key { return; }
      }
    }

    /** Execute the frontier's call in place. */
    method SyscallSync(key: PoolKey)
      requires Sound() && IsSyscall(w, frontier.node) && key == KeyAt(w, frontier) && h.lo == h.fpos
      requires key in pools.stage && pools.stage[key] == ArgReady
      modifies `pools, `h, `answers
      ensures Sound() && h == old(h).(log := h.log)
      ensures key in pools.stage && pools.stage[key] == Finished
      ensures pools == old(pools).(stage := pools.stage, rc := pools.rc) && pools.stage.Keys == old(pools.stage.Keys)
      ensures AsReady(old(pools.stage), pools.stage, {key})
      ensures Kept(old(answers), answers, h.fpos)
    {
      hide Inv, WellBuilt, Ranked, KeyAt, R;
      ghost var s := Now();
      Located(w, preIssueDepth, s);
      EntryFacts(w, preIssueDepth, s, key);
      var v := Execute(pools.args[key], h.fpos);
      SyncedInv(w, preIssueDepth, s, v);
      pools := pools.(rc := pools.rc[key := v], stage := pools.stage[key := Finished]);
    }

    /** Move the frontier forward and drop the finished visit's entries, and its buffer. */
    method PushForward(key: PoolKey) returns (v: int)
      requires Valid() && IsSyscall(w, frontier.node) && key == KeyAt(w, frontier)
      requires key in pools.stage && pools.stage[key] == Finished
      modifies `frontier, `peek, `weakDistance, `preparedDistance, `pools, `h, bufs
      ensures Valid() && h == old(h).(fpos := old(h.fpos) + 1, lo := old(h.fpos), at := h.at)
      ensures pools.stage == old(pools.stage) - {key} && peek == old(peek).(distance := old(peek.distance) - 1)
      ensures old(h.fpos) in answers && v == answers[old(h.fpos)]
    {
      hide Inv, WellBuilt, Ranked, KeyAt, R, Coupled, Wanting;
      ghost var s := Now();
      Located(w, preIssueDepth, s);
      PushedInv(w, preIssueDepth, s);
      DropBuffer(key);
      frontier := frontier.(node := w.nodes[frontier.node].next);
      peek := peek.(distance := peek.distance - 1);
      preparedDistance := preparedDistance - 1;
      weakDistance := weakDistance - 1;
      v := pools.rc[key];
      pools := pools.(stage := pools.stage - {key}, args := pools.args - {key}, link := pools.link - {key},
                      rc := pools.rc - {key});
      h := h.(fpos := h.fpos + 1, lo := h.fpos, at := h.at - {key});
      assert pools.link.Keys == s.link.Keys - {key};
    }

    /** The visit is over; so is its use of an internal buffer. */
    method DropBuffer(key: PoolKey)
      requires Buffered()
      modifies bufs
      ensures Coupled(bufs, preIssueDepth, Wanting(w, pools.link.Keys - {key}, h.at - {key}, pread))
    {
      hide Coupled, Wanting, R;
      WantingRemoved(w, pools.link.Keys, h.at, pread, key);
      if key.0 == pread {
        RemoveFor(bufs, key.1, BufferVisits(), preIssueDepth);
      } else {
        assert BufferVisits() - {} == BufferVisits();
      }
    }

    /**
     The frontier's own visit is prepared but not submitted, and will not be: the last prepared visit is
     linked to one that is not prepared.
     */
    ghost predicate Stranded()
      reads this
    {
      Stuck(w, h.fpos, pools.stage, engine.prepared, h.at)
    }

    /** Enough is prepared, or the earliest prepared visit comes next; and the last one is not linked. */
    ghost predicate MustSubmit()
      reads this
    {
      && numPrepared > 0 && !LastLinked(w, engine.prepared, h.at)
      && (numPrepared >= preIssueDepth / 2 || preparedDistance <= 0)
    }

    /** Submit when enough is prepared or the earliest prepared visit comes next, but never a dangling LINK. */
    method SubmitIfDue(key: PoolKey)
      requires Sound() && IsSyscall(w, frontier.node) && key == KeyAt(w, frontier) && key in pools.stage
      modifies `pools, `engine, `h, `numPrepared, `preparedDistance
      ensures Sound() && h == old(h).(log := h.log) && key in pools.stage
      ensures pools == old(pools).(stage := pools.stage) && pools.stage.Keys == old(pools.stage.Keys)
      ensures AsReady(old(pools.stage), pools.stage, {})
      ensures engine == if old(MustSubmit()) then Engine([], old(engine.onthefly) + KeySet(old(engine.prepared)))
                        else old(engine)
      ensures pools.stage[key] == Prepared <==> old(Stranded())
      ensures pools.stage[key] == Prepared ==> Stranded()
    {
      hide Inv, WellBuilt, Ranked, KeyAt, R, LastLinked;
      Located(w, preIssueDepth, Now());
      LatePrepared(w, preIssueDepth, Now());
      var dangling := DanglingLink();
      if numPrepared > 0 && !dangling {
        if numPrepared >= preIssueDepth / 2 || preparedDistance <= 0 {
          var submitted := SubmitAll();
          assert submitted == old(numPrepared);
          Located(w, preIssueDepth, Now());
          LatePrepared(w, preIssueDepth, Now());
        }
      }
    }

    /** Bring the frontier's own call to its end: in place, or by waiting for the engine. */
    method Handle(key: PoolKey)
      requires Sound() && IsSyscall(w, frontier.node) && key == KeyAt(w, frontier) && h.lo == h.fpos
      requires key in pools.stage && pools.stage[key] != Prepared
      modifies `pools, `engine, `h, `answers
      ensures Sound() && h == old(h).(log := h.log)
      ensures key in pools.stage && pools.stage[key] == Finished
      ensures pools == old(pools).(stage := pools.stage, rc := pools.rc)
      ensures AsReady(old(pools.stage), pools.stage, {key})
      ensures Kept(old(answers), answers, h.fpos)
    {
      hide Inv, WellBuilt, Ranked, KeyAt, R;
      PreparedInStage(w, preIssueDepth, Now());
      if pools.stage[key] == ArgReady {
        SyscallSync(key);
      } else if pools.stage[key] == OnTheFly {
        OnTheFlyListed(w, preIssueDepth, Now(), key);
        CmplAsync(key);
      }
    }

    /** Submit, finish the frontier's call and move on; only a dangling LINK gets in the way. */
    method FinishIssue() returns (r: IssueResult)
      requires Valid() && IsSyscall(w, frontier.node) && h.lo == h.fpos && KeyAt(w, frontier) in pools.stage
      modifies this, bufs
      ensures r.StillPrepared? <==> old(Stranded())
      ensures !old(LastLinked(w, engine.prepared, h.at)) ==> r.Returned?
      ensures Valid() && Kept(old(answers), answers, old(h.fpos))
      ensures h.ppos == old(h.ppos) && refused == old(refused)
      ensures peek == old(peek).(distance := old(peek.distance) - (if r.Returned? then 1 else 0))
      ensures AsReady(old(pools.stage), pools.stage, {KeyOf(w, old(h.fpos))})
      ensures r.StillPrepared? ==> Stranded() && h.fpos == old(h.fpos)
      ensures r.Returned? ==> h.fpos == old(h.fpos) + 1 && h.lo == old(h.fpos)
      ensures r.Returned? ==> old(h.fpos) in answers && r.rc == answers[old(h.fpos)]
    {
      hide Inv, WellBuilt, Ranked, KeyAt, Coupled, R, Wanting, LastLinked;
      Located(w, preIssueDepth, Now());
      var key := KeyAt(w, frontier);
      SubmitIfDue(key);
      if pools.stage[key] == Prepared { return StillPrepared; }
      Handle(key);
      var v := PushForward(key);
      r := Returned(v);
    }

    /** No visit from place p on, as far as peeking goes from there, is linked. */
    ghost predicate NoLinkAhead(p: nat)
    {
      forall q: nat :: p <= q && SysAt(w, q) && C(w, q) <= C(w, p) + preIssueDepth ==> !LinkedAt(w, q)
    }

    lemma StrandedByLink()
      requires Sound() && IsSyscall(w, frontier.node) && Stranded()
      ensures !NoLinkAhead(h.fpos) && !NoLinks(w)
    {
      hide Inv, WellBuilt, Ranked, R, C, KeyOf;
      var k := engine.prepared[|engine.prepared| - 1];
      PreparedWithin(w, preIssueDepth, Now(), k);
      assert LinkedAt(w, h.at[k]);
    }

    /** Peek, unless the end was hit before; places from `from` on are peeked in this call. */
    method PeekIfWanted() returns (ghost from: nat)
      requires Valid() && IsSyscall(w, frontier.node) && h.lo == h.fpos
      modifies `peek, `pools, `engine, `weakDistance, `numPrepared, `preparedDistance, `h, `refused, bufs
      ensures Valid() && h == old(h).(ppos := h.ppos, at := h.at) && Extends(old(pools.stage), pools.stage)
      ensures preIssueDepth > 0 ==> PeekEnded(w, preIssueDepth, peek.distance, h.ppos, refused)
      ensures from <= old(h.ppos) || from == h.fpos + 1
      ensures PeekedAll(w, h.fpos, refused, pools.stage, from, h.ppos)
    {
      hide Inv, R, WellBuilt, Ranked, Coupled, Wanting, PeekedAll;
      from := if peek.distance < 0 then h.fpos + 1 else h.ppos;
      if preIssueDepth > 0 && !peek.hitEnd {
        PeekAhead();
      } else {
        if peek.hitEnd { EndWasHit(w, preIssueDepth, Now()); }
        from := h.ppos;
        PeekedBranches(w, h.fpos, refused, pools.stage, from, h.ppos);
      }
    }

    lemma Issued(p: nat, from: nat, stage: map<PoolKey, Stage>)
      requires WellBuilt(w) && SysAt(w, p) && AsReady(stage, pools.stage, {KeyOf(w, p)})
      requires PeekedAll(w, p, refused, stage, from, h.ppos)
      ensures forall q: nat :: p < q < h.ppos && from <= q ==> IssuedAs(w, p, refused, pools.stage, q)
    {
      hide R, WellBuilt, KeyOf, IssuedAs, AsReady, PeekedAs;
      forall q: nat | p < q < h.ppos && from <= q ensures IssuedAs(w, p, refused, pools.stage, q) {
        PeekedIssued(w, p, refused, stage, pools.stage, q);
      }
    }

    /**
     The frontier's own call: peek, submit, finish it and move on.  Peeking goes on to its depth, to the
     end or to a branch the plugin cannot decide, and every syscall on the way is handed over exactly if
     it may be and the plugin has its arguments.
     */
    method Issue() returns (r: IssueResult)
      requires Valid() && IsSyscall(w, frontier.node) && h.lo == h.fpos && KeyOf(w, h.fpos) in pools.stage
      modifies this, bufs
      ensures Valid() && Kept(old(answers), answers, old(h.fpos))
      ensures r.StillPrepared? ==> Stranded() && h.fpos == old(h.fpos)
      ensures r.Returned? ==> h.fpos == old(h.fpos) + 1 && h.lo == old(h.fpos)
      ensures r.Returned? ==> old(h.fpos) in answers && r.rc == answers[old(h.fpos)]
      ensures preIssueDepth > 0 ==>
                PeekEnded(w, preIssueDepth, peek.distance + (if r.Returned? then 1 else 0), h.ppos, refused)
      ensures forall q: nat :: old(h.fpos) < q < h.ppos && old(h.ppos) <= q ==>
                                 IssuedAs(w, old(h.fpos), refused, pools.stage, q)
    {
      hide Inv, WellBuilt, Ranked, KeyAt, R, Coupled, Wanting, Stuck, PeekedAll, IssuedAs, PeekEnded;
      Located(w, preIssueDepth, Now());
      ghost var from := PeekIfWanted();
      ghost var stage := pools.stage;
      r := FinishIssue();
      Issued(old(h.fpos), from, stage);
    }

    /**
     One intercepted call of the application, the syscall at place p of its path.  If the call
     returns, it returns the system's answer to its own visit; it does return unless the last prepared
     visit is linked, so in particular if no visit within reach of peeking is.
     */
    method Intercept(a: Args, ghost p: nat) returns (r: IssueResult)
      requires Valid() && NextCall(w, h.fpos, p) && a == w.argsOf(R(w, p).node, R(w, p).epoch)
      modifies this, bufs
      ensures r.StillPrepared? ==> Stranded() && h.fpos == p
      ensures NoLinks(w) || NoLinkAhead(p) ==> r.Returned?
      ensures Valid() && Kept(old(answers), answers, old(h.fpos))
      ensures r.Returned? ==> h.fpos == p + 1 && h.lo == p
      ensures r.Returned? ==> p in answers && r.rc == answers[p]
      ensures preIssueDepth > 0 ==>
                PeekEnded(w, preIssueDepth, peek.distance + (if r.Returned? then 1 else 0), h.ppos, refused)
      ensures forall q: nat :: p < q < h.ppos && old(h.ppos) <= q ==> IssuedAs(w, p, refused, pools.stage, q)
    {
      hide Inv, WellBuilt, Ranked, R, Coupled, Wanting, Stuck, IssuedAs, PeekEnded, KeyOf;
      refused := {};
      GetFrontier(p);
      Located(w, preIssueDepth, Now());
      CheckArgs(a);
      r := Issue();
      if r.StillPrepared? {
        Located(w, preIssueDepth, Now());
        StrandedByLink();
      }
    }

    /** Harvest what is still on the fly, request by request, and drop what is only prepared. */
    method CleanUp() returns (harvests: nat)
      requires engine.onthefly <= h.at.Keys
      modifies `engine, `answers
      ensures engine == Engine([], {}) && harvests == |old(engine.onthefly)|
    {
      engine := engine.(prepared := []);
      harvests := 0;
      while engine.onthefly != {}
        invariant engine.prepared == [] && harvests + |engine.onthefly| == |old(engine.onthefly)|
        invariant engine.onthefly <= h.at.Keys
        decreases |engine.onthefly|
      {
        var key, _ := CompleteOne();
        harvests := harvests + 1;
      }
    }

    /**
     The application leaves the function, possibly early.  Everything is as at the start again; what
     was executed beyond the exit is pure if the edge over which the application left is weak.
     */
    method Leave()
      requires Valid()
      modifies this, bufs
      ensures Valid() && Now() == Initial(w)
      ensures old(h.lo) < old(h.fpos) && WeakAt(w, old(h.lo)) ==>
                forall i :: 0 <= i < |old(h.log)| && old(h.log)[i].pos >= old(h.fpos) ==> PureAt(w, old(h.log)[i].pos)
    {
      hide Inv, WellBuilt, Ranked, R, Coupled;
      ghost var s := Now();
      if s.lo < s.fpos && WeakAt(w, s.lo) {
        forall i | 0 <= i < |s.log| && s.log[i].pos >= s.fpos ensures PureAt(w, s.log[i].pos) {
          EarlyExit(w, preIssueDepth, s, i);
        }
      }
      OnTheFlyPlaced();
      var _ := CleanUp();
      ResetToStart();
    }

    /** Back to the initial state, with all pools and buffers reset. */
    method ResetToStart()
      requires WellBuilt(w) && Ranked(w, rank) && |rank| == |w.nodes| && engine == Engine([], {}) && Buffered()
      modifies this, bufs
      ensures Valid() && Now() == Initial(w)
    {
      hide Inv, WellBuilt, Ranked, R, Coupled, Wanting;
      ResetFor(bufs, BufferVisits(), preIssueDepth);
      numPrepared, preparedDistance := 0, -1;
      frontier := Cursor(w.start, seq(w.ndims, _ => 0));
      peek := Peek(-1, false, seq(w.ndims, _ => 0), -1, false);
      weakDistance := -1;
      pools := Pools(map[], map[], map[], map[], map[]);
      h, answers, refused := History(0, 0, 0, map[], []), map[], {};
      InitialInv(w, preIssueDepth);
      NoneWanting(w, h.at, pread);
    }

    /** Call i was the syscall at places[i], and its return code is the system's answer to that visit. */
    ghost predicate Passed(rcs: seq<int>, places: seq<nat>)
      reads this
    {
      && |rcs| == |places|
      && (forall i :: 0 <= i < |places| ==> SysAt(w, places[i]) && C(w, places[i]) == i && places[i] < h.fpos)
      && (forall i :: 0 <= i < |places| ==> places[i] in answers && rcs[i] == answers[places[i]])
    }

    /** Every pread handed over without a destination has a buffer, and no other visit has the same. */
    ghost predicate ReadsBuffered()
      reads this, bufs
    {
      forall k :: k in pools.stage && pools.stage[k] in {Prepared, OnTheFly} && Wants(w, h.at, pread, k) ==>
                    && k.1 in bufs.internalBuf
                    && forall e :: e in bufs.internalBuf && e != k.1 ==> bufs.internalBuf[e] != bufs.internalBuf[k.1]
    }

    lemma ReadsAreBuffered()
      requires Valid()
      ensures ReadsBuffered()
    {
      hide Inv, WellBuilt, Ranked, Coupled, Wants, EntryAt;
      forall k | k in pools.stage && pools.stage[k] in {Prepared, OnTheFly} && Wants(w, h.at, pread, k)
        ensures k.1 in bufs.internalBuf
        ensures forall e :: e in bufs.internalBuf && e != k.1 ==> bufs.internalBuf[e] != bufs.internalBuf[k.1]
      {
        EntryFacts(w, preIssueDepth, Now(), k);
        assert k.1 in BufferVisits();
        OwnBuffers(bufs, preIssueDepth, BufferVisits(), k.1);
      }
    }

    /** The arguments the application passes are those the plugin knows for its path. */
    ghost predicate Agrees(calls: seq<Args>)
    {
      forall p: nat :: SysAt(w, p) && C(w, p) < |calls| ==> calls[C(w, p)] == w.argsOf(R(w, p).node, R(w, p).epoch)
    }

    /**
     The first calls of an application, from the start: call i returns the system's answer to the i-th
     syscall of the path, which was executed exactly once with its own arguments.  All calls return,
     unless one is stranded by a dangling LINK; without LINK flags none is.  No request for an
     internal buffer is ever refused, and every pread that is handed over without a destination has one.
     */
    method RunCalls(calls: seq<Args>, ghost last: nat) returns (rcs: seq<int>, ghost places: seq<nat>)
      requires Valid() && Now() == Initial(w) && Agrees(calls)
      requires calls != [] ==> SysAt(w, last) && C(w, last) + 1 == |calls|
      modifies this, bufs
      ensures Valid() && |rcs| <= |calls| && Passed(rcs, places) && false !in bufs.answers
      ensures ReadsBuffered()
      ensures |rcs| < |calls| ==> Stranded()
      ensures NoLinks(w) ==> |rcs| == |calls|
      ensures forall i :: 0 <= i < |places| ==> ExactlyOnce(h.log, places[i])
      ensures forall e :: e in h.log ==> OwnArgs(w, e)
    {
      hide Inv, WellBuilt, Ranked, R, C, NoLinks, Coupled, Wanting, ReadsBuffered, IssuedAs, PeekEnded, Stuck, NoLinkAhead;
      NoneBefore(w);
      rcs, places := [], [];
      var i, stranded := 0, false;
      while i < |calls| && !stranded
        invariant Valid() && |rcs| == i <= |calls| && Passed(rcs, places)
        invariant if stranded then Stranded() && !NoLinks(w) && i < |calls| else C(w, h.fpos) == i
        decreases !stranded, |calls| - i
      {
        if last < h.fpos { CountMonotone(w, last, h.fpos); }
        ghost var p := NextCallExists(w, h.fpos, last);
        var r := Intercept(calls[i], p);
        if r.StillPrepared? {
          stranded := true;
        } else {
          NextPlace(w, p);
          rcs, places := rcs + [r.rc], places + [p];
          i := i + 1;
        }
      }
      forall i | 0 <= i < |places| ensures ExactlyOnce(h.log, places[i]) {
        PassedExactlyOnce(w, preIssueDepth, Now(), places[i]);
      }
      LoggedArgs(w, preIssueDepth, Now());
      AlwaysGiven(bufs, preIssueDepth, BufferVisits());
      ReadsAreBuffered();
    }
  }
}
