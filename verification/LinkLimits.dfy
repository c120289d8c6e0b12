/**
 Where LINK flags get in the way: a run in which the frontier reaches a visit that is prepared but
 cannot be submitted, because its own LINK flag is the last one in the list.
 */
module LinkLimits {
  import opened Graphs
  import opened Speculation

  /** Two calls in a row; the second is linked to a successor that never comes. */
  function TwoCalls(): (w: World)
  {
    World([SyscallNode(1, false, true, {}), SyscallNode(-1, false, true, {})], 0, 0,
          (n, e) => 0, (n, e) => [n], (n, e) => n == 1, (n, e) => true)
  }

  lemma TwoCallsBuilt()
    ensures WellBuilt(TwoCalls()) && Ranked(TwoCalls(), [0, 0])
  {
    var w := TwoCalls();
    HeightsEnclose(w, (n, a) => a);
  }

  lemma Places()
    ensures var w := TwoCalls();
            && R(w, 0) == Cursor(0, []) && R(w, 1) == Cursor(1, []) && KeyOf(w, 0) == (0, 0) && KeyOf(w, 1) == (1, 0)
            && SysAt(w, 0) && SysAt(w, 1)
  {
    var w := TwoCalls();
    assert R(w, 0).epoch == [];
    assert R(w, 1) == Step(w, R(w, 0));
  }

  /** The application's first call, up to the point where prepared requests may be submitted. */
  ghost function FirstPeeked(): (s: State)
  {
    var w := TwoCalls();
    PeekPrepared(w, CaughtUp(w, ArgsChecked(w, Initial(w))))
  }

  /** The steps of the first call: catch up, then prepare the second call, one syscall ahead. */
  lemma FirstCall()
    ensures var w := TwoCalls();
            var checked := ArgsChecked(w, Initial(w));
            var caught := CaughtUp(w, checked);
            && IsSyscall(w, checked.frontier) && checked.peekDistance < 0
            && 0 <= caught.peekDistance < 1 && IsSyscall(w, caught.peekhead) && !caught.peekWeak
            && IsForeactableAt(w, caught)
    ensures var w, s := TwoCalls(), FirstPeeked();
            && Inv(w, 1, s) && s.frontier == 0 && s.fpos == s.lo == 0
            && KeyOf(w, 0) in s.stage && s.stage[KeyOf(w, 0)] == ArgReady
            && s.prepared == [KeyOf(w, 1)] && LastLinked(w, s.prepared, s.at) && s.preparedDistance == 0 && s.numPrepared == 1
            && KeyOf(w, 1) in s.stage && s.stage[KeyOf(w, 1)] == Prepared && s.peekDistance == 1 && s.peekhead == -1
  {
    hide Inv, R, C, KeyOf, WeakAll, WellBuilt;
    var w := TwoCalls();
    TwoCallsBuilt();
    Places();
    InitialInv(w, 1);
    ArgsCheckedInv(w, 1, Initial(w));
    var s1 := ArgsChecked(w, Initial(w));
    CaughtUpInv(w, 1, s1);
    var s2 := CaughtUp(w, s1);
    WeakRecordedInv(w, 1, s2);
    PeekPreparedInv(w, 1, s2);
  }

  ghost predicate IsForeactableAt(w: World, s: State)
    requires IsSyscall(w, s.peekhead)
  {
    !(s.weakDistance >= 0 && !w.nodes[s.peekhead].pure)
  }

  /** Nothing is submitted because the LINK dangles; the first call is executed in place and returns v. */
  ghost function SecondReached(v: int): (s: State)
    requires KeyOf(TwoCalls(), FirstPeeked().fpos) in FirstPeeked().args
    requires IsSyscall(TwoCalls(), FirstPeeked().frontier)
  {
    var w := TwoCalls();
    Pushed(w, Synced(w, FirstPeeked(), v))
  }

  /**
   The run goes wrong at the second call, whatever the first one returned: the frontier's own visit is
   prepared, peeking has nothing left to add, and the dangling LINK keeps the request from the engine.
   */
  lemma Stranding(v: int)
    ensures LastLinked(TwoCalls(), FirstPeeked().prepared, FirstPeeked().at) && IsSyscall(TwoCalls(), FirstPeeked().frontier)
    ensures KeyOf(TwoCalls(), FirstPeeked().fpos) in FirstPeeked().args
    ensures var w, s := TwoCalls(), SecondReached(v);
            var k := KeyOf(w, s.fpos);
            && Inv(w, 1, s) && IsSyscall(w, s.frontier) && ArgsChecked(w, s) == s && s.peekhead == -1
            && k in s.stage && s.numPrepared > 0 && s.preparedDistance < 0
            && Stuck(w, s.fpos, s.stage, s.prepared, s.at)
  {
    hide Inv, R, C, KeyOf;
    var w := TwoCalls();
    Places();
    FirstCall();
    var s := FirstPeeked();
    EntryFacts(w, 1, s, KeyOf(w, 0));
    SyncedInv(w, 1, s, v);
    PushedInv(w, 1, Synced(w, s, v));
  }
}
