/**
 The plugin graph for a nested loop of writes and reads, and the loop itself.  The graph has three
 epoch dimensions: one for the repetitions and one for each inner loop.
 */
module Looping {
  import opened Graphs
  import opened Arithmetic
  import opened Speculation
  import opened ForeactionGraph

  datatype LoopArgs = LoopArgs(nwrites: nat, nreadsd2: nat, nrepeats: nat, wlen: nat, rlen: nat)
  {
    ghost predicate Positive()
    {
      nwrites > 0 && nreadsd2 > 0 && nrepeats > 0
    }
  }

  datatype Call = Open | Pwrite(offset: nat) | Pread(buf: nat, offset: nat) | Close

  /** What a call looks like to the library. */
  function ArgList(c: Call): (args: Args)
  {
    match c
    case Open => [0]
    case Pwrite(offset) => [1, offset]
    case Pread(buf, offset) => [2, buf, offset]
    case Close => [3]
  }

  /** x modulo n, where the plugin divides; the loop bounds are positive. */
  function Mod(x: nat, n: nat): (r: nat)
  {
    if n == 0 then 0 else x % n
  }

  function At(e: Epoch, d: nat): (x: nat)
  {
    if d < |e| then e[d] else 0
  }

  /** The plugin's arguments for the syscall nodes. */
  function PluginCall(a: LoopArgs, node: int, e: Epoch): (c: Call)
  {
    if node == 0 then Open
    else if node == 1 then Pwrite(Mod(At(e, 0) + At(e, 1), a.nwrites) * a.wlen)
    else if node == 3 then
      var j := Mod(At(e, 0) + At(e, 2), a.nreadsd2); Pread(j * 2, (j * 2) * a.rlen)
    else if node == 4 then
      var j := Mod(At(e, 0) + At(e, 2), a.nreadsd2); Pread(j * 2 + 1, (j * 2 + 1) * a.rlen)
    else Close
  }

  /** The plugin's branch decisions. */
  function PluginDecision(a: LoopArgs, node: int, e: Epoch): (d: nat)
  {
    if node == 2 then (if Mod(At(e, 0) + At(e, 1) + 1, a.nwrites) == 0 then 0 else 1)
    else if node == 5 then (if Mod(At(e, 0) + At(e, 2) + 1, a.nreadsd2) == 0 then 0 else 1)
    else (if At(e, 0) + 1 == a.nrepeats then 0 else 1)
  }

  function LoopWorld(a: LoopArgs): (w: World)
  {
    World([SyscallNode(1, false, false, {}),
           SyscallNode(2, false, false, {0, 1}),
           BranchNode([3, 1], [-1, 1], {0, 1}),
           SyscallNode(4, false, true, {0, 2}),
           SyscallNode(5, false, true, {0, 2}),
           BranchNode([6, 3], [-1, 2], {0, 2}),
           BranchNode([7, 1], [-1, 0], {0}),
           SyscallNode(-1, false, false, {})],
          0, 3, (n, e) => PluginDecision(a, n, e), (n, e) => ArgList(PluginCall(a, n, e)), (n, e) => false, (n, e) => true)
  }

  function Height(n: int, a: int): (x: int)
  {
    if n == 0 then (if a == 0 then 0 else 1)
    else if n == 1 || n == 2 then (if a <= 2 then a else if a <= 5 then 3 else a)
    else if 3 <= n <= 5 then (if a == 0 then 0 else if a <= 2 then 1 else a)
    else if n == 6 then (if a == 0 then 0 else if a <= 2 then 1 else if a <= 5 then 2 else a)
    else 0
  }

  /** The edges of the graph. */
  ghost predicate LoopEdge(x: int, y: int, d: int)
  {
    || (d == -1 && (x, y) in {(0, 1), (1, 2), (2, 3), (3, 4), (4, 5), (5, 6), (6, 7), (7, -1)})
    || (x, y, d) in {(2, 1, 1), (5, 3, 2), (6, 1, 0)}
  }

  lemma OnlyLoopEdges(a: LoopArgs, x: int, y: int, d: int)
    requires Edge(LoopWorld(a), x, y, d)
    ensures LoopEdge(x, y, d)
  {
    var w := LoopWorld(a);
    if w.nodes[x].BranchNode? {
      var i :| 0 <= i < |w.nodes[x].children| && w.nodes[x].children[i] == y && w.nodes[x].backDims[i] == d;
      assert i == 0 || i == 1;
    }
  }

  function LoopDims(n: int): (s: set<nat>)
  {
    if n == 1 || n == 2 then {0, 1} else if 3 <= n <= 5 then {0, 2} else if n == 6 then {0} else {}
  }

  lemma EdgesRise(n: int, x: int, y: int, d: int)
    requires LoopEdge(x, y, d) && 0 <= n < 8 && 0 <= y && d !in LoopDims(n)
    ensures Height(n, x) <= Height(n, y) && (x == n ==> Height(n, x) < Height(n, y))
  {
  }

  lemma LoopHeights(a: LoopArgs)
    ensures Heights(LoopWorld(a), Height)
  {
    hide Edge;
    var w := LoopWorld(a);
    forall n, x, y, d | Edge(w, x, y, d) && IsNode(w, n) && IsNode(w, y) && d !in Dims(w, n)
      ensures Height(n, x) <= Height(n, y) && (x == n ==> Height(n, x) < Height(n, y))
    {
      OnlyLoopEdges(a, x, y, d);
      assert Dims(w, n) == LoopDims(n);
      EdgesRise(n, x, y, d);
    }
    forall x, y, d | Edge(w, x, y, d) && IsNode(w, y) && d !in Dims(w, x) ensures Height(x, x) < Height(x, y) {
      OnlyLoopEdges(a, x, y, d);
    }
  }

  lemma LoopNodes(a: LoopArgs, n: int)
    requires IsNode(LoopWorld(a), n)
    ensures NodeOk(LoopWorld(a), n)
  {
    var w := LoopWorld(a);
    if w.nodes[n].BranchNode? {
      var b := w.nodes[n];
      assert |b.children| == |b.backDims| == 2;
      forall i | 0 <= i < 2 ensures IsRef(w, b.children[i]) && -1 <= b.backDims[i] < w.ndims {
        assert i == 0 || i == 1;
      }
    }
  }

  /** The graph is well built: every node's dimensions cover the loops around it. */
  lemma LoopBuilt(a: LoopArgs)
    ensures WellBuilt(LoopWorld(a))
  {
    hide Enclosed, NodeOk, Heights;
    LoopHeights(a);
    HeightsEnclose(LoopWorld(a), Height);
    forall n | IsNode(LoopWorld(a), n) ensures NodeOk(LoopWorld(a), n) { LoopNodes(a, n); }
  }

  lemma LoopRanked(a: LoopArgs)
    ensures Ranked(LoopWorld(a), [0, 0, 0, 0, 0, 1, 0, 0])
  {
    var w := LoopWorld(a);
    forall n, i | IsBranch(w, n) && 0 <= i < |w.nodes[n].children| && IsBranch(w, w.nodes[n].children[i])
      ensures n == 5 && w.nodes[n].children[i] == 6
    {
      assert i == 0 || i == 1;
    }
  }

  /** The calls on the first k places of the graph's path. */
  ghost function PathCalls(a: LoopArgs, k: nat): (s: seq<Call>)
  {
    if k == 0 then []
    else
      var c := R(LoopWorld(a), k - 1);
      PathCalls(a, k - 1) + (if IsSyscall(LoopWorld(a), c.node) then [PluginCall(a, c.node, c.epoch)] else [])
  }

  lemma ModWithin(i: nat, x: nat, n: nat)
    requires n > 0 && x <= n
    ensures Mod(i * n + x, n) == if x == n then 0 else x
  {
    if x == n {
      assert i * n + x == (i + 1) * n;
      Quotient(i * n + x, n, i + 1, 0);
    } else {
      Quotient(i * n + x, n, i, x);
    }
  }

  /** How often an inner loop of n rounds went back in i repetitions. */
  function Backs(i: nat, n: nat): (k: nat)
  {
    if n == 0 then 0 else i * (n - 1)
  }

  /** The epoch while write j of repetition i is issued. */
  function WriteEpoch(a: LoopArgs, i: nat, j: nat): (e: Epoch)
  {
    [i, Backs(i, a.nwrites) + j, Backs(i, a.nreadsd2)]
  }

  /** The epoch while the reads of round j of repetition i are issued. */
  function ReadEpoch(a: LoopArgs, i: nat, j: nat): (e: Epoch)
  {
    [i, Backs(i + 1, a.nwrites), Backs(i, a.nreadsd2) + j]
  }

  lemma Sums(i: nat, j: nat, n: nat)
    requires n > 0
    ensures i + (Backs(i, n) + j) == i * n + j
    ensures Backs(i + 1, n) == Backs(i, n) + (n - 1)
  {
    assert i * n == i * (n - 1) + i;
  }

  lemma CallsNext(a: LoopArgs, k: nat)
    ensures var c := R(LoopWorld(a), k);
            PathCalls(a, k + 1) == PathCalls(a, k) +
              (if IsSyscall(LoopWorld(a), c.node) then [PluginCall(a, c.node, c.epoch)] else [])
    ensures R(LoopWorld(a), k + 1) == Step(LoopWorld(a), R(LoopWorld(a), k))
  {
  }

  /** One write and the branch after it. */
  lemma WriteStep(a: LoopArgs, k: nat, i: nat, j: nat)
    requires j < a.nwrites && R(LoopWorld(a), k) == Cursor(1, WriteEpoch(a, i, j))
    ensures PathCalls(a, k + 2) == PathCalls(a, k) + [Pwrite(j * a.wlen)]
    ensures R(LoopWorld(a), k + 2) == if j + 1 == a.nwrites then Cursor(3, ReadEpoch(a, i, 0))
                                      else Cursor(1, WriteEpoch(a, i, j + 1))
  {
    hide R, PathCalls, Backs;
    var w, e := LoopWorld(a), WriteEpoch(a, i, j);
    CallsNext(a, k);
    CallsNext(a, k + 1);
    Sums(i, j, a.nwrites);
    ModWithin(i, j, a.nwrites);
    ModWithin(i, j + 1, a.nwrites);
    assert R(w, k + 1) == Cursor(2, e);
    assert w.decide(2, e) == if j + 1 == a.nwrites then 0 else 1;
  }

  /** Two reads, with the buffers and offsets of round j. */
  lemma TwoReads(a: LoopArgs, k: nat, i: nat, j: nat)
    requires j < a.nreadsd2 && R(LoopWorld(a), k) == Cursor(3, ReadEpoch(a, i, j))
    ensures PathCalls(a, k + 2) ==
            PathCalls(a, k) + [Pread(j * 2, (j * 2) * a.rlen)] + [Pread(j * 2 + 1, (j * 2 + 1) * a.rlen)]
    ensures R(LoopWorld(a), k + 2) == Cursor(5, ReadEpoch(a, i, j))
  {
    hide R, PathCalls, Backs;
    var w, e := LoopWorld(a), ReadEpoch(a, i, j);
    CallsNext(a, k);
    CallsNext(a, k + 1);
    Sums(i, j, a.nreadsd2);
    ModWithin(i, j, a.nreadsd2);
    assert R(w, k + 1) == Cursor(4, e);
    assert Mod(At(e, 0) + At(e, 2), a.nreadsd2) == j;
  }

  /** The branch after the reads; after the last round the path goes on to the outer branch. */
  lemma ReadBranch(a: LoopArgs, k: nat, i: nat, j: nat)
    requires j < a.nreadsd2 && R(LoopWorld(a), k) == Cursor(5, ReadEpoch(a, i, j))
    ensures PathCalls(a, k + 1) == PathCalls(a, k)
    ensures R(LoopWorld(a), k + 1) == if j + 1 == a.nreadsd2 then Cursor(6, ReadEpoch(a, i, j))
                                      else Cursor(3, ReadEpoch(a, i, j + 1))
  {
    hide R, PathCalls, Backs;
    var w, e := LoopWorld(a), ReadEpoch(a, i, j);
    CallsNext(a, k);
    Sums(i, j, a.nreadsd2);
    ModWithin(i, j + 1, a.nreadsd2);
    assert w.decide(5, e) == if j + 1 == a.nreadsd2 then 0 else 1;
  }

  /** The outer branch starts the next repetition or goes on to close the file. */
  lemma RepeatStep(a: LoopArgs, k: nat, i: nat)
    requires a.Positive() && R(LoopWorld(a), k) == Cursor(6, ReadEpoch(a, i, a.nreadsd2 - 1))
    ensures PathCalls(a, k + 1) == PathCalls(a, k)
    ensures R(LoopWorld(a), k + 1) == if i + 1 == a.nrepeats then Cursor(7, ReadEpoch(a, i, a.nreadsd2 - 1))
                                      else Cursor(1, WriteEpoch(a, i + 1, 0))
  {
    hide R, PathCalls;
    var w := LoopWorld(a);
    CallsNext(a, k);
    Sums(i, 0, a.nreadsd2);
    assert w.decide(6, ReadEpoch(a, i, a.nreadsd2 - 1)) == if i + 1 == a.nrepeats then 0 else 1;
  }

  // ---- The hijacked function ------------------------------------------------------------

  function WriteCalls(a: LoopArgs, n: nat): (s: seq<Call>)
  {
    if n == 0 then [] else WriteCalls(a, n - 1) + [Pwrite((n - 1) * a.wlen)]
  }

  function ReadCalls(a: LoopArgs, n: nat): (s: seq<Call>)
  {
    if n == 0 then []
    else
      var j := n - 1;
      ReadCalls(a, j) + [Pread(j * 2, (j * 2) * a.rlen)] + [Pread(j * 2 + 1, (j * 2 + 1) * a.rlen)]
  }

  function RoundCalls(a: LoopArgs, n: nat): (s: seq<Call>)
  {
    if n == 0 then [] else RoundCalls(a, n - 1) + WriteCalls(a, a.nwrites) + ReadCalls(a, a.nreadsd2)
  }

  function LoopCalls(a: LoopArgs): (s: seq<Call>)
  {
    [Open] + RoundCalls(a, a.nrepeats) + [Close]
  }

  /** The body of the outer loop. */
  method Repetition(a: LoopArgs, trace0: seq<Call>) returns (trace: seq<Call>)
    ensures trace == trace0 + WriteCalls(a, a.nwrites) + ReadCalls(a, a.nreadsd2)
  {
    trace := trace0;
    for j := 0 to a.nwrites
      invariant trace == trace0 + WriteCalls(a, j)
    {
      trace := trace + [Pwrite(j * a.wlen)];
    }
    ghost var written := trace;
    for j := 0 to a.nreadsd2
      invariant trace == written + ReadCalls(a, j)
    {
      trace := trace + [Pread(j * 2, (j * 2) * a.rlen)];
      trace := trace + [Pread(j * 2 + 1, (j * 2 + 1) * a.rlen)];
    }
  }

  /**
   The hijacked function, for any counts.  With positive counts its calls are exactly the calls on
   the graph's path, which then is at its end; otherwise the graph expects other calls.
   */
  method ExperLooping(a: LoopArgs) returns (trace: seq<Call>)
    ensures trace == LoopCalls(a)
    ensures a.Positive() <==> exists k: nat :: trace == PathCalls(a, k)
    ensures a.Positive() ==> trace == GraphCalls(a) && R(LoopWorld(a), RoundStart(a, a.nrepeats) + 1).node == -1
  {
    hide WriteCalls, ReadCalls, R, PathCalls, LoopWorld, GraphCalls, RoundStart;
    trace := [Open];
    for i := 0 to a.nrepeats
      invariant trace == [Open] + RoundCalls(a, i)
    {
      trace := Repetition(a, trace);
    }
    trace := trace + [Close];
    WhenLoopsFollow(a);
  }

  // ---- When the graph follows the loops --------------------------------------------------

  lemma {:induction false} WritesFollow(a: LoopArgs, i: nat, k: nat, n: nat)
    requires n <= a.nwrites && R(LoopWorld(a), k) == Cursor(1, WriteEpoch(a, i, 0))
    ensures PathCalls(a, k + 2 * n) == PathCalls(a, k) + WriteCalls(a, n)
    ensures R(LoopWorld(a), k + 2 * n) ==
            if n == a.nwrites > 0 then Cursor(3, ReadEpoch(a, i, 0)) else Cursor(1, WriteEpoch(a, i, n))
    decreases n
  {
    hide R, PathCalls, LoopWorld, WriteEpoch, ReadEpoch;
    if n > 0 {
      WritesFollow(a, i, k, n - 1);
      WriteStep(a, k + 2 * (n - 1), i, n - 1);
    }
  }

  lemma {:induction false} ReadsFollow(a: LoopArgs, i: nat, k: nat, n: nat)
    requires n <= a.nreadsd2 && R(LoopWorld(a), k) == Cursor(3, ReadEpoch(a, i, 0))
    ensures PathCalls(a, k + 3 * n) == PathCalls(a, k) + ReadCalls(a, n)
    ensures R(LoopWorld(a), k + 3 * n) ==
            if n == a.nreadsd2 > 0 then Cursor(6, ReadEpoch(a, i, n - 1)) else Cursor(3, ReadEpoch(a, i, n))
    decreases n
  {
    hide R, PathCalls, LoopWorld, ReadEpoch;
    if n > 0 {
      ReadsFollow(a, i, k, n - 1);
      TwoReads(a, k + 3 * (n - 1), i, n - 1);
      ReadBranch(a, k + 3 * (n - 1) + 2, i, n - 1);
    }
  }

  /** The places of one repetition, and the place before its first write. */
  function RoundLength(a: LoopArgs): (n: nat)
  {
    2 * a.nwrites + 3 * a.nreadsd2 + 1
  }

  function RoundStart(a: LoopArgs, i: nat): (k: nat)
    ensures i > 0 ==> k == RoundStart(a, i - 1) + RoundLength(a)
  {
    if i == 0 then 1 else RoundStart(a, i - 1) + RoundLength(a)
  }

  lemma RoundFollows(a: LoopArgs, i: nat, k: nat)
    requires a.Positive() && R(LoopWorld(a), k) == Cursor(1, WriteEpoch(a, i, 0))
    ensures PathCalls(a, k + RoundLength(a)) ==
            PathCalls(a, k) + WriteCalls(a, a.nwrites) + ReadCalls(a, a.nreadsd2)
    ensures R(LoopWorld(a), k + RoundLength(a)) ==
            if i + 1 == a.nrepeats then Cursor(7, ReadEpoch(a, i, a.nreadsd2 - 1)) else Cursor(1, WriteEpoch(a, i + 1, 0))
  {
    hide R, PathCalls, LoopWorld, WriteEpoch, ReadEpoch, WriteCalls, ReadCalls;
    WritesFollow(a, i, k, a.nwrites);
    ReadsFollow(a, i, k + 2 * a.nwrites, a.nreadsd2);
    RepeatStep(a, k + 2 * a.nwrites + 3 * a.nreadsd2, i);
  }

  lemma {:induction false} RoundsFollow(a: LoopArgs, n: nat)
    requires a.Positive() && n <= a.nrepeats
    ensures PathCalls(a, RoundStart(a, n)) == [Open] + RoundCalls(a, n)
    ensures n < a.nrepeats ==> R(LoopWorld(a), RoundStart(a, n)) == Cursor(1, WriteEpoch(a, n, 0))
    ensures n == a.nrepeats ==> R(LoopWorld(a), RoundStart(a, n)).node == 7
  {
    hide R, PathCalls, LoopWorld, WriteEpoch, ReadEpoch, RoundCalls, RoundStart, RoundLength;
    FirstWrite(a);
    OneMoreRound(a, n);
    if n > 0 {
      RoundsFollow(a, n - 1);
      RoundFollows(a, n - 1, RoundStart(a, n - 1));
    }
  }

  lemma OneMoreRound(a: LoopArgs, n: nat)
    ensures n == 0 ==> RoundStart(a, n) == 1 && [Open] + RoundCalls(a, n) == [Open]
    ensures n > 0 ==> RoundStart(a, n) == RoundStart(a, n - 1) + RoundLength(a)
    ensures n > 0 ==> [Open] + RoundCalls(a, n) ==
                      ([Open] + RoundCalls(a, n - 1)) + WriteCalls(a, a.nwrites) + ReadCalls(a, a.nreadsd2)
  {
    hide WriteCalls, ReadCalls;
    if n > 0 { Joined([Open], RoundCalls(a, n - 1), WriteCalls(a, a.nwrites), ReadCalls(a, a.nreadsd2)); }
  }

  lemma Joined(s: seq<Call>, t: seq<Call>, u: seq<Call>, v: seq<Call>)
    ensures s + (t + u + v) == (s + t) + u + v
  {
  }

  lemma LastClose(a: LoopArgs, k: nat)
    requires R(LoopWorld(a), k).node == 7
    ensures R(LoopWorld(a), k + 1).node == -1 && PathCalls(a, k + 1) == PathCalls(a, k) + [Close]
  {
    CallsNext(a, k);
  }

  lemma FirstWrite(a: LoopArgs)
    ensures R(LoopWorld(a), 1) == Cursor(1, WriteEpoch(a, 0, 0)) && PathCalls(a, 1) == [Open]
  {
    CallsNext(a, 0);
    assert R(LoopWorld(a), 0) == Cursor(0, [0, 0, 0]);
  }

  /** All calls on the graph's path, up to its end. */
  ghost function GraphCalls(a: LoopArgs): (s: seq<Call>)
  {
    PathCalls(a, RoundStart(a, a.nrepeats) + 1)
  }

  lemma LoopsFollow(a: LoopArgs)
    requires a.Positive()
    ensures LoopCalls(a) == GraphCalls(a)
    ensures R(LoopWorld(a), RoundStart(a, a.nrepeats)).node == 7
    ensures R(LoopWorld(a), RoundStart(a, a.nrepeats) + 1).node == -1
  {
    hide R, PathCalls, LoopWorld, RoundCalls, RoundStart;
    RoundsFollow(a, a.nrepeats);
    LastClose(a, RoundStart(a, a.nrepeats));
  }

  lemma {:induction false} LongerPath(a: LoopArgs, k: nat, m: nat)
    requires k <= m
    ensures PathCalls(a, k) <= PathCalls(a, m)
    decreases m
  {
    hide R, LoopWorld;
    if k < m { LongerPath(a, k, m - 1); }
  }

  /** The second call on the path is a write, whatever the counts. */
  lemma SecondIsWrite(a: LoopArgs, k: nat)
    requires |PathCalls(a, k)| >= 2
    ensures PathCalls(a, k)[1].Pwrite?
  {
    hide R, PathCalls, LoopWorld;
    FirstWrite(a);
    if k <= 1 { LongerPath(a, k, 1); }
    WriteHere(a, 1);
    LongerPath(a, 2, k);
  }

  lemma WriteHere(a: LoopArgs, k: nat)
    requires R(LoopWorld(a), k).node == 1
    ensures exists x :: PathCalls(a, k + 1) == PathCalls(a, k) + [Pwrite(x)]
  {
    CallsNext(a, k);
    var c := PluginCall(a, 1, R(LoopWorld(a), k).epoch);
    assert PathCalls(a, k + 1) == PathCalls(a, k) + [Pwrite(c.offset)];
  }

  lemma ReadHere(a: LoopArgs, k: nat)
    requires R(LoopWorld(a), k).node == 3
    ensures exists b, x :: PathCalls(a, k + 1) == PathCalls(a, k) + [Pread(b, x)]
  {
    CallsNext(a, k);
    var c := PluginCall(a, 3, R(LoopWorld(a), k).epoch);
    assert PathCalls(a, k + 1) == PathCalls(a, k) + [Pread(c.buf, c.offset)];
  }

  /** After the writes of the first repetition the path has a read, whatever the other counts. */
  lemma ReadAfterWrites(a: LoopArgs, k: nat)
    requires a.nwrites > 0 && |PathCalls(a, k)| >= a.nwrites + 2
    ensures PathCalls(a, k)[a.nwrites + 1].Pread?
  {
    hide R, PathCalls, LoopWorld, WriteEpoch, ReadEpoch;
    FirstWrite(a);
    var m := 1 + 2 * a.nwrites;
    WritesFollow(a, 0, 1, a.nwrites);
    WriteCount(a, a.nwrites);
    if k <= m { LongerPath(a, k, m); }
    ReadHere(a, m);
    LongerPath(a, m + 1, k);
  }

  lemma {:induction false} WriteCount(a: LoopArgs, n: nat)
    ensures |WriteCalls(a, n)| == n && forall i :: 0 <= i < n ==> WriteCalls(a, n)[i].Pwrite?
  {
    if n > 0 { WriteCount(a, n - 1); }
  }

  lemma {:induction false} OnlyReads(a: LoopArgs, n: nat)
    ensures forall i :: 0 <= i < |ReadCalls(a, n)| ==> ReadCalls(a, n)[i].Pread?
  {
    if n > 0 { OnlyReads(a, n - 1); }
  }

  /** Without writes, or without repetitions, no call of the loops is a write; likewise for reads. */
  lemma {:induction false} MissingCalls(a: LoopArgs, n: nat, i: nat)
    requires i < |RoundCalls(a, n)|
    ensures a.nwrites == 0 || n == 0 ==> !RoundCalls(a, n)[i].Pwrite?
    ensures a.nreadsd2 == 0 ==> !RoundCalls(a, n)[i].Pread?
  {
    if n > 0 {
      WriteCount(a, a.nwrites);
      OnlyReads(a, a.nreadsd2);
      if i < |RoundCalls(a, n - 1)| { MissingCalls(a, n - 1, i); }
    }
  }

  lemma RoundsLong(a: LoopArgs, n: nat)
    ensures n > 0 ==> |RoundCalls(a, n)| >= a.nwrites
  {
    WriteCount(a, a.nwrites);
  }

  lemma LoopsDiffer(a: LoopArgs, k: nat)
    requires !a.Positive()
    ensures LoopCalls(a) != PathCalls(a, k)
  {
    hide R, PathCalls, LoopWorld, RoundCalls;
    var s, rounds := LoopCalls(a), RoundCalls(a, a.nrepeats);
    if s == PathCalls(a, k) {
      var i := if a.nwrites == 0 || a.nrepeats == 0 then 1 else a.nwrites + 1;
      RoundsLong(a, a.nrepeats);
      assert s[i] == if i - 1 < |rounds| then rounds[i - 1] else Close;
      if i - 1 < |rounds| { MissingCalls(a, a.nrepeats, i - 1); }
      if a.nwrites == 0 || a.nrepeats == 0 { SecondIsWrite(a, k); } else { ReadAfterWrites(a, k); }
      assert false;
    }
  }

  /** The loops follow the graph's path exactly when every count is positive. */
  lemma WhenLoopsFollow(a: LoopArgs)
    ensures a.Positive() <==> exists k: nat :: LoopCalls(a) == PathCalls(a, k)
    ensures a.Positive() ==> LoopCalls(a) == GraphCalls(a)
    ensures a.Positive() ==> R(LoopWorld(a), RoundStart(a, a.nrepeats) + 1).node == -1
  {
    hide R, PathCalls, LoopWorld, LoopCalls, RoundStart;
    if a.Positive() {
      LoopsFollow(a);
      assert LoopCalls(a) == PathCalls(a, RoundStart(a, a.nrepeats) + 1);
    } else {
      forall k: nat ensures LoopCalls(a) != PathCalls(a, k) { LoopsDiffer(a, k); }
    }
  }

  // ---- The hijacked function under the library -------------------------------------------

  lemma {:induction false} CallsCount(a: LoopArgs, k: nat)
    ensures |PathCalls(a, k)| == C(LoopWorld(a), k)
  {
    hide R, LoopWorld;
    if k > 0 {
      CallsCount(a, k - 1);
      CallsNext(a, k - 1);
    }
  }

  /** Call number C(p) of the path is the one at place p. */
  lemma {:induction false} CallAt(a: LoopArgs, k: nat, p: nat)
    requires p < k && SysAt(LoopWorld(a), p)
    ensures C(LoopWorld(a), p) < |PathCalls(a, k)|
    ensures PathCalls(a, k)[C(LoopWorld(a), p)] == PluginCall(a, R(LoopWorld(a), p).node, R(LoopWorld(a), p).epoch)
    decreases k
  {
    hide R, LoopWorld;
    CallsNext(a, k - 1);
    CallsCount(a, k - 1);
    if p < k - 1 { CallAt(a, k - 1, p); }
  }

  function ArgLists(trace: seq<Call>): (calls: seq<Args>)
  {
    seq(|trace|, i requires 0 <= i < |trace| => ArgList(trace[i]))
  }

  /** The arguments the loops pass are those the plugin knows. */
  lemma LoopsAgree(a: LoopArgs, p: nat)
    requires a.Positive() && SysAt(LoopWorld(a), p) && C(LoopWorld(a), p) < |GraphCalls(a)|
    ensures ArgLists(GraphCalls(a))[C(LoopWorld(a), p)] ==
            LoopWorld(a).argsOf(R(LoopWorld(a), p).node, R(LoopWorld(a), p).epoch)
  {
    hide R, PathCalls;
    var k := RoundStart(a, a.nrepeats) + 1;
    CallsCount(a, k);
    if k <= p { CountMonotone(LoopWorld(a), k, p); }
    CallAt(a, k, p);
  }

  /**
   The nested loops run under the library, with any pre-issuing depth: every call returns the return
   code of its own visit and was executed exactly once, and no read waits for an internal buffer.
   */
  method RunLooping(a: LoopArgs, preIssueDepth: nat, pread: int)
    returns (graph: SCGraph, rcs: seq<int>, ghost places: seq<nat>)
    requires a.Positive()
    ensures fresh(graph) && fresh(graph.bufs) && graph.w == LoopWorld(a) && graph.pread == pread
    ensures graph.Valid() && graph.Passed(rcs, places) && false !in graph.bufs.answers
    ensures |rcs| == |LoopCalls(a)| && forall i :: 0 <= i < |places| ==> ExactlyOnce(graph.h.log, places[i])
  {
    hide R, PathCalls, Inv, WellBuilt, LoopWorld, Ranked, NoLinks;
    LoopBuilt(a);
    LoopRanked(a);
    var trace := ExperLooping(a);
    graph := new SCGraph(LoopWorld(a), preIssueDepth, pread, [0, 0, 0, 0, 0, 1, 0, 0]);
    LoopsFollow(a);
    LoopsReady(a, graph);
    NothingLinked(a);
    rcs, places := graph.RunCalls(ArgLists(trace), RoundStart(a, a.nrepeats));
  }

  lemma NothingLinked(a: LoopArgs)
    ensures NoLinks(LoopWorld(a))
  {
  }

  /** What the loops call is what the library expects, up to the last call, which closes the file. */
  lemma LoopsReady(a: LoopArgs, graph: SCGraph)
    requires a.Positive() && graph.w == LoopWorld(a) && R(LoopWorld(a), RoundStart(a, a.nrepeats)).node == 7
    ensures graph.Agrees(ArgLists(GraphCalls(a)))
    ensures SysAt(LoopWorld(a), RoundStart(a, a.nrepeats))
    ensures C(LoopWorld(a), RoundStart(a, a.nrepeats)) + 1 == |GraphCalls(a)|
  {
    hide R, PathCalls, C, RoundStart;
    var w, k := LoopWorld(a), RoundStart(a, a.nrepeats);
    assert IsSyscall(w, 7);
    hide LoopWorld;
    NextPlace(w, k);
    CallsCount(a, k + 1);
    forall p: nat | SysAt(w, p) && C(w, p) < |GraphCalls(a)|
      ensures ArgLists(GraphCalls(a))[C(w, p)] == w.argsOf(R(w, p).node, R(w, p).epoch)
    {
      LoopsAgree(a, p);
    }
  }
}
