/**
 One producer's part of the queue, used by one thread at a time: elements live in blocks of 32, and
 a circular index maps the number of a block to the block.  A full index is doubled; slots of
 emptied blocks are used again.
 */
module BlockIndex {

  const BLOCK_SIZE: nat := 32
  const INITIAL_INDEX_SIZE: nat := 32

  /** A slot of the index: the first element index of its block, or -1, and the block, or -1. */
  datatype Entry = Entry(key: int, block: int)

  const INVALID := Entry(-1, -1)

  datatype Block = Block(items: seq<int>, dequeued: nat)

  /** x modulo n for x less than one turn away. */
  function Ring(x: int, n: nat): (r: int)
    ensures 0 - n <= x < 2 * n ==> 0 <= r < n
  {
    if x < 0 then x + n else if x < n then x else x - n
  }

  /** The slots from the tail backwards: View(...)[d] is d slots behind the tail. */
  ghost function View(index: seq<Entry>, tail: nat): (v: seq<Entry>)
    requires tail < |index|
    ensures |v| == |index|
  {
    seq(|index|, d requires 0 <= d < |index| => index[Ring(tail - d, |index|)])
  }

  lemma ViewAdvance(index: seq<Entry>, tail: nat, e: Entry)
    requires tail < |index|
    ensures var t := Ring(tail + 1, |index|);
            && index[t] == View(index, tail)[|index| - 1]
            && View(index[t := e], t) == [e] + View(index, tail)[..|index| - 1]
  {
    var n, t := |index|, Ring(tail + 1, |index|);
    var v, v' := View(index, tail), View(index[t := e], t);
    assert Ring(tail - (n - 1), n) == t;
    forall d | 0 <= d < n ensures v'[d] == ([e] + v[..n - 1])[d] {
      assert v'[d] == index[t := e][Ring(t - d, n)];
      if d > 0 {
        assert Ring(t - d, n) == Ring(tail - (d - 1), n) && Ring(t - d, n) != t;
        assert ([e] + v[..n - 1])[d] == v[d - 1];
      }
    }
  }

  lemma ViewRewind(index: seq<Entry>, tail: nat)
    requires tail < |index|
    ensures View(index, Ring(tail - 1, |index|)) == View(index, tail)[1..] + [View(index, tail)[0]]
  {
    var n, t := |index|, Ring(tail - 1, |index|);
    var v := View(index, tail);
    forall d | 0 <= d < n ensures View(index, t)[d] == (v[1..] + [v[0]])[d] {
      assert View(index, t)[d] == index[Ring(t - d, n)];
      if d < n - 1 {
        assert Ring(t - d, n) == Ring(tail - (d + 1), n);
        assert (v[1..] + [v[0]])[d] == v[d + 1];
      } else {
        assert Ring(t - d, n) == tail == Ring(tail - 0, n);
        assert v[0] == index[Ring(tail - 0, n)];
      }
    }
  }

  lemma ViewUpdate(index: seq<Entry>, tail: nat, d: nat, e: Entry)
    requires tail < |index| && d < |index|
    ensures View(index[Ring(tail - d, |index|) := e], tail) == View(index, tail)[d := e]
  {
    var v' := View(index[Ring(tail - d, |index|) := e], tail);
    forall k | 0 <= k < |index| ensures v'[k] == View(index, tail)[d := e][k] {
      assert k != d ==> Ring(tail - k, |index|) != Ring(tail - d, |index|);
    }
  }

  /** The old slots, oldest first, followed by as many unused ones. */
  ghost function Doubled(index: seq<Entry>, tail: nat): (index': seq<Entry>)
    requires tail < |index|
  {
    var n := |index|;
    seq(2 * n, i requires 0 <= i < 2 * n => if i < n then index[Ring(tail + 1 + i, n)] else INVALID)
  }

  lemma ViewDoubled(index: seq<Entry>, tail: nat)
    requires tail < |index|
    ensures View(Doubled(index, tail), |index| - 1) == View(index, tail) + seq(|index|, _ => INVALID)
  {
    var n := |index|;
    var v', w := View(Doubled(index, tail), n - 1), View(index, tail) + seq(n, _ => INVALID);
    forall d | 0 <= d < 2 * n ensures v'[d] == w[d] {
      var i := Ring(n - 1 - d, 2 * n);
      assert v'[d] == Doubled(index, tail)[i];
      if d < n {
        assert i == n - 1 - d;
        assert Ring(tail + 1 + i, n) == Ring(tail - d, n);
        assert w[d] == View(index, tail)[d];
      } else {
        assert i >= n;
      }
    }
  }

  // ---- The elements behind the index -----------------------------------------------------

  /** How many blocks were ever started, and how many were emptied. */
  function Started(tail: nat): (n: nat)
  {
    (tail + BLOCK_SIZE - 1) / BLOCK_SIZE
  }

  function Emptied(head: nat): (n: nat)
  {
    head / BLOCK_SIZE
  }

  /** d slots behind the tail is the block with number Started - 1 - d, if that is live. */
  ghost predicate Live(v: seq<Entry>, head: nat, tail: nat, blocks: map<nat, Block>, d: nat)
    requires d < |v|
  {
    && v[d].key == (Started(tail) - 1 - d) * BLOCK_SIZE
    && v[d].block >= 0 && v[d].block in blocks
    && |blocks[v[d].block].items| == BLOCK_SIZE
    && blocks[v[d].block].dequeued == if Started(tail) - 1 - d == Emptied(head) then head % BLOCK_SIZE else 0
  }

  /** The element with index i. */
  ghost function ItemAt(v: seq<Entry>, tail: nat, blocks: map<nat, Block>, i: nat): (x: int)
  {
    var d := Started(tail) - 1 - i / BLOCK_SIZE;
    if 0 <= d < |v| && v[d].block >= 0 && v[d].block in blocks && |blocks[v[d].block].items| == BLOCK_SIZE
    then blocks[v[d].block].items[i % BLOCK_SIZE] else 0
  }

  ghost predicate Holds(v: seq<Entry>, head: nat, tail: nat, blocks: map<nat, Block>, contents: seq<int>)
  {
    && head <= tail && |contents| == tail - head
    && Emptied(head) <= Started(tail) <= Emptied(head) + |v|
    && (forall d :: 0 <= d < Started(tail) - Emptied(head) ==> Live(v, head, tail, blocks, d))
    && (forall d :: Started(tail) - Emptied(head) <= d < |v| ==> v[d].block == -1)
    && (forall d, e :: 0 <= d < e < Started(tail) - Emptied(head) ==> v[d].block != v[e].block)
    && (forall i :: head <= i < tail ==> ItemAt(v, tail, blocks, i) == contents[i - head])
  }

  /** The block of the next element to come, when it was started already, is right behind the tail. */
  lemma TailBlock(v: seq<Entry>, head: nat, tail: nat, blocks: map<nat, Block>, contents: seq<int>)
    requires Holds(v, head, tail, blocks, contents) && tail % BLOCK_SIZE != 0
    ensures |v| > 0 && Live(v, head, tail, blocks, 0) && Started(tail + 1) == Started(tail)
  {
  }

  lemma PushIntoBlock(v: seq<Entry>, head: nat, tail: nat, blocks: map<nat, Block>, contents: seq<int>, x: int)
    requires Holds(v, head, tail, blocks, contents) && tail % BLOCK_SIZE != 0
    requires |v| > 0 && Live(v, head, tail, blocks, 0)
    ensures var id := v[0].block;
            Holds(v, head, tail + 1, blocks[id := blocks[id].(items := blocks[id].items[tail % BLOCK_SIZE := x])],
                  contents + [x])
  {
    var id, tail' := v[0].block, tail + 1;
    var blocks' := blocks[id := blocks[id].(items := blocks[id].items[tail % BLOCK_SIZE := x])];
    var contents' := contents + [x];
    assert Started(tail') == Started(tail);
    forall d | 0 <= d < Started(tail) - Emptied(head) ensures Live(v, head, tail', blocks', d) {
      assert Live(v, head, tail, blocks, d);
    }
    forall i | head <= i < tail' ensures ItemAt(v, tail', blocks', i) == contents'[i - head] {
      var d := Started(tail) - 1 - i / BLOCK_SIZE;
      assert Live(v, head, tail, blocks, d);
      if i < tail {
        assert ItemAt(v, tail, blocks, i) == contents[i - head];
        assert d == 0 ==> i % BLOCK_SIZE != tail % BLOCK_SIZE;
        assert d != 0 ==> v[0].block != v[d].block;
      }
    }
  }

  /** Room for one more block: the slot after the tail belongs to no live block. */
  lemma RoomInIndex(v: seq<Entry>, head: nat, tail: nat, blocks: map<nat, Block>, contents: seq<int>)
    requires Holds(v, head, tail, blocks, contents) && |v| > 0 && v[|v| - 1].block == -1
    ensures Started(tail) - Emptied(head) < |v|
  {
    assert |v| - 1 < Started(tail) - Emptied(head) ==> Live(v, head, tail, blocks, |v| - 1);
  }

  /** ... and there is room exactly if fewer blocks are live than there are slots. */
  lemma RoomExactly(v: seq<Entry>, head: nat, tail: nat, blocks: map<nat, Block>, contents: seq<int>)
    requires Holds(v, head, tail, blocks, contents) && |v| > 0
    ensures v[|v| - 1].block == -1 <==> Started(tail) - Emptied(head) < |v|
  {
    if v[|v| - 1].block == -1 { RoomInIndex(v, head, tail, blocks, contents); }
  }

  /** A slot that never had a key belongs to no live block either. */
  lemma UnusedSlot(v: seq<Entry>, head: nat, tail: nat, blocks: map<nat, Block>, contents: seq<int>)
    requires Holds(v, head, tail, blocks, contents) && |v| > 0
    ensures v[|v| - 1].key == -1 ==> v[|v| - 1].block == -1
  {
    assert |v| - 1 < Started(tail) - Emptied(head) ==> Live(v, head, tail, blocks, |v| - 1);
  }

  lemma PushNewBlock(v: seq<Entry>, head: nat, tail: nat, blocks: map<nat, Block>, contents: seq<int>, x: int,
                     id: nat, b: Block)
    requires Holds(v, head, tail, blocks, contents) && tail % BLOCK_SIZE == 0
    requires |v| > 0 && v[|v| - 1].block == -1 && id !in blocks
    requires |b.items| == BLOCK_SIZE && b.dequeued == 0 && b.items[0] == x
    ensures Holds([Entry(tail, id)] + v[..|v| - 1], head, tail + 1, blocks[id := b], contents + [x])
  {
    RoomInIndex(v, head, tail, blocks, contents);
    var v', blocks' := [Entry(tail, id)] + v[..|v| - 1], blocks[id := b];
    var n, tail', contents' := Started(tail) - Emptied(head), tail + 1, contents + [x];
    assert Started(tail') == Started(tail) + 1;
    forall d | 0 <= d <= n ensures Live(v', head, tail', blocks', d) {
      if d > 0 {
        assert Live(v, head, tail, blocks, d - 1);
        assert v'[d] == v[d - 1];
      }
    }
    forall d, e | 0 <= d < e <= n ensures v'[d].block != v'[e].block {
      assert Live(v, head, tail, blocks, e - 1);
      assert d > 0 ==> v[d - 1].block != v[e - 1].block;
    }
    forall i | head <= i < tail' ensures ItemAt(v', tail', blocks', i) == contents'[i - head] {
      var d := Started(tail) - i / BLOCK_SIZE;
      if i < tail {
        assert ItemAt(v, tail, blocks, i) == contents[i - head];
        assert Live(v, head, tail, blocks, d - 1) && v'[d] == v[d - 1];
      }
    }
  }

  lemma GrownIndex(v: seq<Entry>, head: nat, tail: nat, blocks: map<nat, Block>, contents: seq<int>)
    requires Holds(v, head, tail, blocks, contents)
    ensures Holds(v + seq(|v|, _ => INVALID), head, tail, blocks, contents)
  {
    var v' := v + seq(|v|, _ => INVALID);
    forall d | 0 <= d < Started(tail) - Emptied(head) ensures Live(v', head, tail, blocks, d) {
      assert Live(v, head, tail, blocks, d);
    }
    forall i | head <= i < tail ensures ItemAt(v', tail, blocks, i) == contents[i - head] {
      assert ItemAt(v, tail, blocks, i) == contents[i - head];
      assert Live(v, head, tail, blocks, Started(tail) - 1 - i / BLOCK_SIZE);
    }
  }

  /** A slot of no live block may hold any key. */
  lemma UnusedKey(v: seq<Entry>, head: nat, tail: nat, blocks: map<nat, Block>, contents: seq<int>, key: int)
    requires Holds(v, head, tail, blocks, contents) && |v| > 0 && v[|v| - 1].block == -1
    ensures Holds(v[..|v| - 1] + [Entry(key, -1)], head, tail, blocks, contents)
  {
    RoomInIndex(v, head, tail, blocks, contents);
    var v' := v[..|v| - 1] + [Entry(key, -1)];
    forall d | 0 <= d < Started(tail) - Emptied(head) ensures Live(v', head, tail, blocks, d) {
      assert Live(v, head, tail, blocks, d);
    }
    forall i | head <= i < tail ensures ItemAt(v', tail, blocks, i) == contents[i - head] {
      assert ItemAt(v, tail, blocks, i) == contents[i - head];
      assert Live(v, head, tail, blocks, Started(tail) - 1 - i / BLOCK_SIZE);
    }
  }

  /** The lookup: how far behind the tail the block of a live element is. */
  lemma LiveBlock(v: seq<Entry>, head: nat, tail: nat, blocks: map<nat, Block>, contents: seq<int>, i: nat)
    requires Holds(v, head, tail, blocks, contents) && head <= i < tail
    ensures |contents| == tail - head && |v| > 0 && v[0].key == (Started(tail) - 1) * BLOCK_SIZE
    ensures var d := Started(tail) - 1 - i / BLOCK_SIZE;
            && 0 <= d < |v| && Live(v, head, tail, blocks, d) && v[d].key == i - i % BLOCK_SIZE
            && blocks[v[d].block].items[i % BLOCK_SIZE] == contents[i - head]
  {
    var d := Started(tail) - 1 - i / BLOCK_SIZE;
    assert Live(v, head, tail, blocks, d) && Live(v, head, tail, blocks, 0);
    assert ItemAt(v, tail, blocks, i) == contents[i - head];
  }

  /** An element that is not the last one of its block was taken. */
  lemma PopInBlock(v: seq<Entry>, head: nat, tail: nat, blocks: map<nat, Block>, contents: seq<int>, d: nat)
    requires Holds(v, head, tail, blocks, contents) && head < tail && head % BLOCK_SIZE != BLOCK_SIZE - 1
    requires d == Started(tail) - 1 - head / BLOCK_SIZE && d < |v| && Live(v, head, tail, blocks, d)
    ensures var id := v[d].block;
            Holds(v, head + 1, tail, blocks[id := blocks[id].(dequeued := blocks[id].dequeued + 1)], contents[1..])
  {
    var id, head', contents' := v[d].block, head + 1, contents[1..];
    var blocks' := blocks[id := blocks[id].(dequeued := blocks[id].dequeued + 1)];
    assert Emptied(head') == Emptied(head);
    forall e | 0 <= e < Started(tail) - Emptied(head) ensures Live(v, head', tail, blocks', e) {
      assert Live(v, head, tail, blocks, e);
      assert e < d ==> v[e].block != v[d].block;
    }
    forall i | head' <= i < tail ensures ItemAt(v, tail, blocks', i) == contents'[i - head'] {
      assert ItemAt(v, tail, blocks, i) == contents[i - head];
      assert Live(v, head, tail, blocks, Started(tail) - 1 - i / BLOCK_SIZE);
    }
  }

  /** The last element of a block was taken: the block is freed and its slot can be used again. */
  lemma PopWholeBlock(v: seq<Entry>, head: nat, tail: nat, blocks: map<nat, Block>, contents: seq<int>, d: nat)
    requires Holds(v, head, tail, blocks, contents) && head < tail && head % BLOCK_SIZE == BLOCK_SIZE - 1
    requires d == Started(tail) - 1 - head / BLOCK_SIZE && d < |v| && Live(v, head, tail, blocks, d)
    ensures Holds(v[d := Entry(v[d].key, -1)], head + 1, tail, blocks - {v[d].block}, contents[1..])
  {
    var v', blocks' := v[d := Entry(v[d].key, -1)], blocks - {v[d].block};
    var head', contents', n := head + 1, contents[1..], Started(tail) - Emptied(head) - 1;
    assert Emptied(head') == Emptied(head) + 1;
    forall e | 0 <= e < n ensures Live(v', head', tail, blocks', e) {
      assert Live(v, head, tail, blocks, e);
      assert v[e].block != v[d].block;
    }
    forall i | head' <= i < tail ensures ItemAt(v', tail, blocks', i) == contents'[i - head'] {
      assert ItemAt(v, tail, blocks, i) == contents[i - head];
      var e := Started(tail) - 1 - i / BLOCK_SIZE;
      assert Live(v, head, tail, blocks, e) && v[e].block != v[d].block;
    }
  }

  lemma RewindView(v: seq<Entry>, e: Entry)
    requires |v| > 0
    ensures var w := [e] + v[..|v| - 1]; w[1..] + [w[0]] == v[..|v| - 1] + [e]
  {
  }

  lemma UnusedView(index: seq<Entry>, tail: nat)
    requires tail < |index| && forall i :: 0 <= i < |index| ==> index[i] == INVALID
    ensures Holds(View(index, tail), 0, 0, map[], [])
  {
    forall d | 0 <= d < |index| ensures View(index, tail)[d] == INVALID {
      assert View(index, tail)[d] == index[Ring(tail - d, |index|)];
    }
  }

  // ---- The producer ----------------------------------------------------------------------

  lemma {:induction false} Bounded(ids: set<nat>) returns (n: nat)
    ensures forall i :: i in ids ==> i < n
  {
    if ids == {} {
      n := 0;
    } else {
      var i :| i in ids;
      var m := Bounded(ids - {i});
      n := if m <= i then i + 1 else m;
      forall j | j in ids ensures j < n { assert j == i || j in ids - {i}; }
    }
  }

  class ImplicitProducer {
    var tailIndex: nat
    var headIndex: nat
    var optimistic: nat
    var overcommit: nat
    var index: seq<Entry>
    var indexTail: nat
    var blocks: map<nat, Block>
    var tailBlock: nat
    ghost var contents: seq<int>

    ghost predicate Stored(v: seq<Entry>)
      reads this
    {
      Holds(v, headIndex, tailIndex, blocks, contents)
    }

    /** Without memory for the first index, the producer stays empty. */
    ghost predicate Indexed()
      reads this
    {
      if index == [] then tailIndex == headIndex == 0 && contents == []
      else
        && indexTail < |index| && Stored(View(index, indexTail))
        && (tailIndex % BLOCK_SIZE != 0 ==> View(index, indexTail)[0].block == tailBlock)
    }

    /** Between calls, the claims that stand are the elements taken. */
    ghost predicate Valid()
      reads this
    {
      Indexed() && optimistic - overcommit == headIndex
    }

    constructor (memory: bool)
      ensures Valid() && contents == [] && (index != [] <==> memory)
    {
      tailIndex, headIndex, optimistic, overcommit := 0, 0, 0, 0;
      tailBlock, blocks, contents := 0, map[], [];
      index := if memory then seq(INITIAL_INDEX_SIZE, _ => INVALID) else [];
      indexTail := INITIAL_INDEX_SIZE - 1;
      new;
      if index != [] { UnusedView(index, indexTail); }
    }

    /** How many blocks hold elements, or are the one to be filled next. */
    function LiveBlocks(): (n: int)
      reads this
    {
      Started(tailIndex) - Emptied(headIndex)
    }

    /** Twice as many slots; the old ones keep their order. */
    method DoubleIndex()
      requires indexTail < |index|
      modifies `index, `indexTail
      ensures index == Doubled(old(index), old(indexTail)) && indexTail == |old(index)| - 1
    {
      var n, slots, pos := |index|, [], indexTail;
      for i := 0 to n
        invariant |slots| == i && pos == Ring(indexTail + i, n)
        invariant forall k :: 0 <= k < i ==> slots[k] == index[Ring(indexTail + 1 + k, n)]
      {
        pos := Ring(pos + 1, n);
        slots := slots + [index[pos]];
      }
      assert slots + seq(n, _ => INVALID) == Doubled(index, indexTail);
      index := slots + seq(n, _ => INVALID);
      indexTail := n - 1;
    }

    /** Make the slot after the tail one that belongs to no live block, growing the index if need be. */
    method MakeRoom(memory: bool) returns (ok: bool)
      requires Indexed()
      modifies `index, `indexTail
      ensures ok <==> old(index) != [] && (LiveBlocks() < |old(index)| || memory)
      ensures |index| == if old(index) != [] && LiveBlocks() >= |old(index)| && memory then 2 * |old(index)| else |old(index)|
      ensures |index| == |old(index)| ==> index == old(index) && indexTail == old(indexTail)
      ensures Indexed() && (ok ==> index != [] && View(index, indexTail)[|index| - 1].block == -1)
    {
      hide Holds;
      if |index| == 0 { return false; }
      var e := index[Ring(indexTail + 1, |index|)];
      ViewAdvance(index, indexTail, e);
      UnusedSlot(View(index, indexTail), headIndex, tailIndex, blocks, contents);
      RoomExactly(View(index, indexTail), headIndex, tailIndex, blocks, contents);
      if e.key == -1 || e.block == -1 { return true; }
      if !memory { return false; }
      ViewDoubled(index, indexTail);
      GrownIndex(View(index, indexTail), headIndex, tailIndex, blocks, contents);
      DoubleIndex();
      return true;
    }

    /** A slot for the block that starts at element tailIndex, and the block; nothing changes on failure. */
    method NewBlock(x: int, indexMemory: bool, blockMemory: bool) returns (ok: bool)
      requires Valid() && tailIndex % BLOCK_SIZE == 0
      modifies `index, `indexTail, `blocks, `tailBlock, `tailIndex, `contents
      ensures ok <==> old(index) != [] && (old(LiveBlocks() < |index|) || indexMemory) && blockMemory
      ensures Valid() && contents == if ok then old(contents) + [x] else old(contents)
    {
      hide Holds;
      ok := MakeRoom(indexMemory);
      if !ok { return; }
      ghost var v := View(index, indexTail);
      var slot := Ring(indexTail + 1, |index|);
      ViewAdvance(index, indexTail, Entry(tailIndex, -1));
      index, indexTail := index[slot := Entry(tailIndex, -1)], slot;
      ok := blockMemory;
      if !ok {
        ViewRewind(index, indexTail);
        UnusedKey(v, headIndex, tailIndex, blocks, contents, tailIndex);
        RewindView(v, Entry(tailIndex, -1));
        indexTail := Ring(indexTail - 1, |index|);
        return;
      }
      StartBlock(v, x);
    }

    /** Put a new block with its first element into the slot at the tail. */
    method StartBlock(ghost v: seq<Entry>, x: int)
      requires Stored(v) && tailIndex % BLOCK_SIZE == 0 && indexTail < |index| == |v| && v[|v| - 1].block == -1
      requires View(index, indexTail) == [Entry(tailIndex, -1)] + v[..|v| - 1] && index[indexTail] == Entry(tailIndex, -1)
      modifies `index, `blocks, `tailBlock, `tailIndex, `contents
      ensures Indexed() && contents == old(contents) + [x]
    {
      hide Holds;
      ghost var bound := Bounded(blocks.Keys);
      assert bound !in blocks;
      var id: nat :| id !in blocks;
      var block := Block(seq(BLOCK_SIZE, _ => 0)[0 := x], 0);
      PushNewBlock(v, headIndex, tailIndex, blocks, contents, x, id, block);
      ViewUpdate(index, indexTail, 0, Entry(tailIndex, id));
      assert Ring(indexTail - 0, |index|) == indexTail;
      index := index[indexTail := index[indexTail].(block := id)];
      assert View(index, indexTail) == [Entry(tailIndex, id)] + v[..|v| - 1];
      blocks := blocks[id := block];
      tailBlock := id;
      tailIndex := tailIndex + 1;
      contents := contents + [x];
    }

    /**
     Append an element.  This fails exactly when a new block is needed and there is no memory for it, or
     all slots of the index are in use and there is no memory for a larger one; the queue is then as before.
     */
    method Enqueue(x: int, indexMemory: bool, blockMemory: bool) returns (ok: bool)
      requires Valid()
      modifies this
      ensures ok <==> old(tailIndex) % BLOCK_SIZE != 0 ||
                      (old(index) != [] && (old(LiveBlocks() < |index|) || indexMemory) && blockMemory)
      ensures Valid() && contents == if ok then old(contents) + [x] else old(contents)
    {
      if tailIndex % BLOCK_SIZE == 0 {
        ok := NewBlock(x, indexMemory, blockMemory);
      } else {
        ghost var v := View(index, indexTail);
        TailBlock(v, headIndex, tailIndex, blocks, contents);
        PushIntoBlock(v, headIndex, tailIndex, blocks, contents, x);
        var block := blocks[tailBlock];
        blocks := blocks[tailBlock := block.(items := block.items[tailIndex % BLOCK_SIZE := x])];
        tailIndex := tailIndex + 1;
        contents := contents + [x];
        ok := true;
      }
    }

    /** The slot of the block that holds the live element i. */
    method SlotFor(i: nat) returns (slot: nat, ghost d: nat)
      requires Indexed() && headIndex <= i < tailIndex
      ensures slot < |index| && index[slot].key == i - i % BLOCK_SIZE
      ensures index[slot].block >= 0 && index[slot].block in blocks
      ensures |blocks[index[slot].block].items| == BLOCK_SIZE
      ensures blocks[index[slot].block].items[i % BLOCK_SIZE] == contents[i - headIndex]
      ensures indexTail < |index| && d < |index| && slot == Ring(indexTail - d, |index|)
      ensures d == Started(tailIndex) - 1 - i / BLOCK_SIZE && |contents| == tailIndex - headIndex
    {
      ghost var v := View(index, indexTail);
      LiveBlock(v, headIndex, tailIndex, blocks, contents, i);
      d := Started(tailIndex) - 1 - i / BLOCK_SIZE;
      assert v[d] == index[Ring(indexTail - d, |index|)] && v[0] == index[Ring(indexTail - 0, |index|)];
      var base := i - i % BLOCK_SIZE;
      var tailBase := index[indexTail].key;
      assert tailBase - base == d * BLOCK_SIZE;
      var offset := (tailBase - base) / BLOCK_SIZE;
      slot := Ring(indexTail - offset, |index|);
    }

    /**
     Take the oldest element: claim one if the standing claims are below the tail, and look again.
     With one consumer a claim is never given back.
     */
    method Dequeue() returns (ok: bool, x: int)
      requires Valid()
      modifies this
      ensures Valid() && overcommit == old(overcommit)
      ensures ok <==> old(contents) != []
      ensures ok ==> x == old(contents)[0] && contents == old(contents)[1..]
      ensures !ok ==> contents == old(contents) && optimistic == old(optimistic)
    {
      var over := overcommit;
      if optimistic - over >= tailIndex {
        assert contents == [];
        return false, 0;
      }
      var count := optimistic;
      optimistic := optimistic + 1;
      assert count - over < tailIndex;
      x := TakeHead();
      return true, x;
    }

    /** Read the oldest element and count it as dequeued; an emptied block leaves the index. */
    method TakeHead() returns (x: int)
      requires Indexed() && headIndex < tailIndex
      modifies `index, `blocks, `headIndex, `contents
      ensures Indexed() && headIndex == old(headIndex) + 1
      ensures old(contents) != [] && x == old(contents)[0] && contents == old(contents)[1..]
    {
      hide Holds, Live;
      var slot;
      ghost var d;
      slot, d := SlotFor(headIndex);
      x := blocks[index[slot].block].items[headIndex % BLOCK_SIZE];
      DropHead(slot, d);
    }

    method DropHead(slot: nat, ghost d: nat)
      requires Indexed() && headIndex < tailIndex && indexTail < |index| && d < |index|
      requires slot == Ring(indexTail - d, |index|) && d == Started(tailIndex) - 1 - headIndex / BLOCK_SIZE
      modifies `index, `blocks, `headIndex, `contents
      ensures Indexed() && headIndex == old(headIndex) + 1
      ensures old(contents) != [] && contents == old(contents)[1..]
    {
      hide Holds;
      ghost var v := View(index, indexTail);
      LiveBlock(v, headIndex, tailIndex, blocks, contents, headIndex);
      assert v[d] == index[slot];
      var id := index[slot].block;
      var block := blocks[id];
      if block.dequeued == BLOCK_SIZE - 1 {
        PopWholeBlock(v, headIndex, tailIndex, blocks, contents, d);
        ViewUpdate(index, indexTail, d, index[slot].(block := -1));
        index := index[slot := index[slot].(block := -1)];
        blocks := blocks - {id};
      } else {
        PopInBlock(v, headIndex, tailIndex, blocks, contents, d);
        blocks := blocks[id := block.(dequeued := block.dequeued + 1)];
      }
      headIndex := headIndex + 1;
      contents := contents[1..];
    }
  }
}
