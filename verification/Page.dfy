/**
 The page format of the B+ tree and the operations that work inside one page.

 A page in the backing file is a value, `Image`.  The in-memory page that the tree code
 shifts and overwrites is an object, `Page`, with a fixed-size `content` array.  Content is an
 interleaved array: slot 2i holds child i of an internal page (or the value of record i-1 of a
 leaf) and slot 2i+1 holds key i.
 */
module Pages {

  const BLKSIZE: nat := 8192
  const CONTENTLEN: nat := (BLKSIZE - 24) / 8
  const MAXNKEYS: nat := (CONTENTLEN - 1) / 2

  /** Keys and values are unsigned 64-bit integers; KEY_END is one past the largest key. */
  const KEY_END: nat := 0x1_0000_0000_0000_0000

  type Key = k: nat | k < KEY_END

  datatype PageType = EmptyPage | RootPage | ItnlPage | LeafPage

  type Content = c: seq<nat> | |c| == CONTENTLEN witness seq(CONTENTLEN, _ => 0)

  /** `link` is the header's union: the tree depth in the root, the right sibling elsewhere. */
  datatype Image = Image(ptype: PageType, nkeys: nat, link: nat, content: Content)

  function K(p: Image, i: int): (k: nat)
  {
    if 0 <= i && 2 * i + 1 < CONTENTLEN then p.content[2 * i + 1] else 0
  }

  function Child(p: Image, i: int): (id: nat)
  {
    if 0 <= i && 2 * i < CONTENTLEN then p.content[2 * i] else 0
  }

  /** The value stored beside key i of a leaf. */
  function V(p: Image, i: int): (v: nat)
  {
    Child(p, i + 1)
  }

  ghost predicate Sorted(p: Image)
  {
    forall i, j :: 0 <= i < j < p.nkeys ==> K(p, i) < K(p, j)
  }

  ghost predicate HasKey(p: Image, k: nat)
  {
    exists i :: 0 <= i < p.nkeys && K(p, i) == k
  }

  /** Exactly the first r keys of the page are <= key. */
  ghost predicate Rank(p: Image, key: nat, r: nat)
  {
    && r <= p.nkeys
    && (forall i :: 0 <= i < r ==> K(p, i) <= key)
    && (forall i :: r <= i < p.nkeys ==> key < K(p, i))
  }

  /** Content index of the last key counted by a rank, 0 when there is none. */
  function IndexOf(r: nat): (idx: nat)
  {
    if r == 0 then 0 else 2 * r - 1
  }

  /** Where a record goes, given the content index a search returned. */
  function InjectPos(idx: nat): (r: nat)
    ensures idx == 0 || idx % 2 == 1 ==> IndexOf(r) == idx
  {
    if idx == 0 then 0 else (idx - 1) / 2 + 1
  }

  /** The page with [key, word] put at key position r and everything after it moved up by one. */
  function Inserted(p: Image, r: nat, key: nat, word: nat): (q: Image)
    requires r <= p.nkeys < MAXNKEYS
  {
    var c := p.content;
    p.(nkeys := p.nkeys + 1,
       content := c[..2 * r + 1] + [key, word] + c[2 * r + 1..2 * p.nkeys + 1] + c[2 * p.nkeys + 3..])
  }

  /** q is p with one more key, slot by slot. */
  ghost predicate IsInsertion(p: Image, q: Image, r: nat, key: nat, word: nat)
  {
    && r <= p.nkeys < q.nkeys == p.nkeys + 1
    && (forall i :: 0 <= i < r ==> K(q, i) == K(p, i))
    && K(q, r) == key
    && (forall i :: r < i < q.nkeys ==> K(q, i) == K(p, i - 1))
    && (forall i :: 0 <= i <= r ==> Child(q, i) == Child(p, i))
    && Child(q, r + 1) == word
    && (forall i :: r + 1 < i <= q.nkeys ==> Child(q, i) == Child(p, i - 1))
  }

  lemma InsertedSlots(p: Image, r: nat, key: nat, word: nat)
    requires r <= p.nkeys < MAXNKEYS
    ensures IsInsertion(p, Inserted(p, r, key, word), r, key, word)
  {
  }

  /** Inserting a key at its rank keeps the keys sorted, unless the key was there already. */
  lemma InsertionSorted(p: Image, q: Image, r: nat, key: nat, word: nat)
    requires IsInsertion(p, q, r, key, word)
    requires Sorted(p) && Rank(p, key, r) && !HasKey(p, key)
    ensures Sorted(q)
  {
    assert forall i :: 0 <= i < r ==> K(p, i) < key by {
      forall i | 0 <= i < r ensures K(p, i) < key { assert K(p, i) != key; }
    }
    forall i, j | 0 <= i < j < q.nkeys ensures K(q, i) < K(q, j) {
      if i < r < j {
        assert K(q, i) == K(p, i) && K(q, j) == K(p, j - 1);
      }
    }
  }

  /** What LeafPageInject leaves in the page. */
  function LeafInjected(p: Image, idx: nat, key: nat, value: nat): (q: Image)
    requires InjectPos(idx) <= p.nkeys < MAXNKEYS
  {
    var r := InjectPos(idx);
    if r > 0 && K(p, r - 1) == key then
      p.(content := p.content[2 * r := value])
    else
      Inserted(p, r, key, value)
  }

  /** The records of the page are exactly the records of m with keys in [lo, hi). */
  ghost predicate Holds(p: Image, lo: nat, hi: nat, m: map<nat, nat>)
  {
    && (forall i :: 0 <= i < p.nkeys ==> lo <= K(p, i) < hi && K(p, i) in m && m[K(p, i)] == V(p, i))
    && (forall k :: k in m && lo <= k < hi ==> HasKey(p, k))
  }

  lemma OverwrittenHolds(p: Image, q: Image, r: nat, key: nat, value: nat, lo: nat, hi: nat, m: map<nat, nat>)
    requires Sorted(p) && Holds(p, lo, hi, m)
    requires 0 < r <= p.nkeys == q.nkeys && K(p, r - 1) == key
    requires forall i :: 0 <= i < p.nkeys ==> K(q, i) == K(p, i)
    requires forall i :: 0 <= i < p.nkeys ==> V(q, i) == if i == r - 1 then value else V(p, i)
    ensures Holds(q, lo, hi, m[key := value])
  {
    var m' := m[key := value];
    forall i | 0 <= i < q.nkeys ensures lo <= K(q, i) < hi && K(q, i) in m' && m'[K(q, i)] == V(q, i) {
      assert K(q, i) == K(p, i);
      if i < r - 1 {
        assert K(p, i) < K(p, r - 1);
      } else if i > r - 1 {
        assert K(p, r - 1) < K(p, i);
      }
    }
    forall k | k in m' && lo <= k < hi ensures HasKey(q, k) {
      var i :| 0 <= i < p.nkeys && K(p, i) == k;
      assert K(q, i) == k;
    }
  }

  /** Where the records of an insertion come from. */
  lemma InsertionRecords(p: Image, q: Image, r: nat, key: nat, value: nat, i: nat)
    requires IsInsertion(p, q, r, key, value) && i < q.nkeys
    ensures if i == r then K(q, i) == key && V(q, i) == value
            else var j := if i < r then i else i - 1; j < p.nkeys && K(q, i) == K(p, j) && V(q, i) == V(p, j)
  {
    hide K, Child;
  }

  lemma InsertionHolds(p: Image, q: Image, r: nat, key: nat, value: nat, lo: nat, hi: nat, m: map<nat, nat>)
    requires IsInsertion(p, q, r, key, value)
    requires Holds(p, lo, hi, m) && !HasKey(p, key) && lo <= key < hi
    ensures Holds(q, lo, hi, m[key := value])
  {
    hide K, V, IsInsertion;
    var m' := m[key := value];
    forall i | 0 <= i < q.nkeys ensures lo <= K(q, i) < hi && K(q, i) in m' && m'[K(q, i)] == V(q, i) {
      InsertionRecords(p, q, r, key, value, i);
    }
    forall k | k in m' && lo <= k < hi ensures HasKey(q, k) {
      InsertionHasKey(p, q, r, key, value, k);
    }
  }

  lemma InsertionHasKey(p: Image, q: Image, r: nat, key: nat, value: nat, k: nat)
    requires IsInsertion(p, q, r, key, value) && (k == key || HasKey(p, k))
    ensures HasKey(q, k)
  {
    hide K, Child;
    if k == key {
      assert K(q, r) == k;
    } else {
      var j :| 0 <= j < p.nkeys && K(p, j) == k;
      assert K(q, if j < r then j else j + 1) == k;
    }
  }

  lemma NotHasKey(p: Image, key: nat, r: nat)
    requires Sorted(p) && Rank(p, key, r) && (r > 0 ==> K(p, r - 1) != key)
    ensures !HasKey(p, key)
  {
    forall i | 0 <= i < p.nkeys ensures K(p, i) != key {
      if i + 1 < r { assert K(p, i) < K(p, r - 1); }
    }
  }

  /** Injecting a record at its searched position is a map update of what the leaf holds. */
  lemma LeafInjectedIsUpdate(p: Image, idx: nat, key: nat, value: nat, lo: nat, hi: nat, m: map<nat, nat>)
    requires p.nkeys < MAXNKEYS && Sorted(p) && Holds(p, lo, hi, m)
    requires Rank(p, key, InjectPos(idx)) && lo <= key < hi
    ensures var q := LeafInjected(p, idx, key, value);
            && Sorted(q) && Holds(q, lo, hi, m[key := value])
            && q.ptype == p.ptype && q.link == p.link
            && q.nkeys == p.nkeys + (if key in m then 0 else 1)
  {
    var r := InjectPos(idx);
    var q := LeafInjected(p, idx, key, value);
    assert key in m <==> HasKey(p, key);
    if r > 0 && K(p, r - 1) == key {
      assert forall i :: 0 <= i < p.nkeys ==> K(q, i) == K(p, i);
      OverwrittenHolds(p, q, r, key, value, lo, hi, m);
    } else {
      NotHasKey(p, key, r);
      InsertedSlots(p, r, key, value);
      InsertionSorted(p, q, r, key, value);
      InsertionHolds(p, q, r, key, value, lo, hi, m);
    }
  }

  /** The page buffer that the tree code edits in place. */
  class Page {
    var ptype: PageType
    var nkeys: nat
    var link: nat
    const content: array<nat>

    constructor (ptype: PageType)
      ensures fresh(content) && content.Length == CONTENTLEN
      ensures Img() == Image(ptype, 0, 0, seq(CONTENTLEN, _ => 0))
    {
      this.ptype, this.nkeys, this.link := ptype, 0, 0;
      content := new nat[CONTENTLEN](_ => 0);
      new;
      assert content[..] == seq(CONTENTLEN, _ => 0);
    }

    function Img(): (p: Image)
      requires content.Length == CONTENTLEN
      reads this, content
    {
      Image(ptype, nkeys, link, content[..])
    }

    /** Copy a stored page into this buffer. */
    method CopyFrom(p: Image)
      requires content.Length == CONTENTLEN
      modifies this, content
      ensures Img() == p
    {
      ptype, nkeys, link := p.ptype, p.nkeys, p.link;
      forall i | 0 <= i < CONTENTLEN { content[i] := p.content[i]; }
      assert content[..] == p.content;
    }
  }

  /** Move `len` words up from `src` to `dst`; the ranges may overlap. */
  method MoveUp(a: array<nat>, dst: nat, src: nat, len: nat)
    requires src <= dst && dst + len <= a.Length
    modifies a
    ensures a[..] == old(a[..dst] + a[src..src + len] + a[dst + len..])
  {
    ghost var b := a[..];
    var n := len;
    while n > 0
      invariant 0 <= n <= len
      invariant forall i :: 0 <= i < a.Length && (i < dst + n || dst + len <= i) ==> a[i] == b[i]
      invariant forall i :: dst + n <= i < dst + len ==> a[i] == b[i - dst + src]
    {
      n := n - 1;
      a[dst + n] := a[src + n];
    }
    MovedWords(b, a[..], dst, src, len);
  }

  lemma MovedWords(b: seq<nat>, c: seq<nat>, dst: nat, src: nat, len: nat)
    requires src <= dst && dst + len <= |b| == |c|
    requires forall i :: 0 <= i < |b| && (i < dst || dst + len <= i) ==> c[i] == b[i]
    requires forall i :: dst <= i < dst + len ==> c[i] == b[i - dst + src]
    ensures c == b[..dst] + b[src..src + len] + b[dst + len..]
  {
  }

  /** Copy `len` words between two different buffers. */
  method CopyWords(dst: array<nat>, di: nat, src: array<nat>, si: nat, len: nat)
    requires dst != src && di + len <= dst.Length && si + len <= src.Length
    modifies dst
    ensures dst[..] == old(dst[..di] + src[si..si + len] + dst[di + len..])
  {
    forall i | 0 <= i < len { dst[di + i] := src[si + i]; }
  }

  method ZeroWords(a: array<nat>, start: nat, len: nat)
    requires start + len <= a.Length
    modifies a
    ensures a[..] == old(a[..start]) + seq(len, _ => 0) + old(a[start + len..])
  {
    forall i | start <= i < start + len { a[i] := 0; }
  }

  /** Binary search for the closest key <= the given key; its content index, or 0 if none. */
  method PageSearchKey(page: Page, key: nat) returns (idx: nat)
    requires page.content.Length == CONTENTLEN && page.nkeys <= MAXNKEYS && Sorted(page.Img())
    ensures idx == IndexOf(InjectPos(idx))
    ensures Rank(page.Img(), key, InjectPos(idx))
  {
    ghost var p := page.Img();
    if page.nkeys == 0 { return 0; }
    var spos, epos := 0, page.nkeys;
    while spos < epos
      invariant 0 <= spos <= epos <= page.nkeys
      invariant forall i :: 0 <= i < spos ==> K(p, i) < key
      invariant forall i :: epos <= i < page.nkeys ==> key < K(p, i)
    {
      var pos := (spos + epos) / 2;
      var i := 1 + pos * 2;
      assert page.content[i] == K(p, pos);
      if page.content[i] == key {
        assert Rank(p, key, pos + 1);
        return i;
      } else if page.content[i] < key {
        spos := pos + 1;
      } else {
        epos := pos;
      }
    }
    if spos == 0 { return 0; }
    return 1 + (spos - 1) * 2;
  }

  /** Put a record into a leaf page, or overwrite the value of a key already there. */
  method LeafPageInject(page: Page, searchIdx: nat, key: nat, value: nat)
    requires page.content.Length == CONTENTLEN
    requires InjectPos(searchIdx) <= page.nkeys < MAXNKEYS
    requires searchIdx == IndexOf(InjectPos(searchIdx))
    modifies page, page.content
    ensures page.Img() == old(LeafInjected(page.Img(), searchIdx, key, value))
  {
    ghost var p := page.Img();
    if searchIdx > 0 {
      var searchPos := (searchIdx - 1) / 2;
      if searchPos < page.nkeys && page.content[searchIdx] == key {
        page.content[searchIdx + 1] := value;
        return;
      }
    }
    InjectAt(page, if searchIdx == 0 then 0 else (searchIdx - 1) / 2 + 1, key, value);
  }

  /** The shift-and-store shared by both kinds of page. */
  method InjectAt(page: Page, injectPos: nat, key: nat, word: nat)
    requires page.content.Length == CONTENTLEN
    requires injectPos <= page.nkeys < MAXNKEYS
    modifies page, page.content
    ensures page.Img() == old(Inserted(page.Img(), injectPos, key, word))
  {
    ghost var p := page.Img();
    var injectIdx := 2 * injectPos + 1;
    if injectPos < page.nkeys {
      MoveUp(page.content, injectIdx + 2, injectIdx, (page.nkeys - injectPos) * 2);
    }
    ghost var d: Content := page.content[..];
    InsertedContent(p, injectPos, key, word, d);
    page.content[injectIdx] := key;
    page.content[injectIdx + 1] := word;
    page.nkeys := page.nkeys + 1;
    assert page.content[..] == d[injectIdx := key][injectIdx + 1 := word];
  }

  lemma InsertedContent(p: Image, r: nat, key: nat, word: nat, d: Content)
    requires r <= p.nkeys < MAXNKEYS
    requires var c, i, len := p.content, 2 * r + 1, (p.nkeys - r) * 2;
             d == if r < p.nkeys then c[..i + 2] + c[i..i + len] + c[i + 2 + len..] else c
    ensures Inserted(p, r, key, word).content == d[2 * r + 1 := key][2 * r + 2 := word]
  {
  }

  datatype Outcome = Done | DuplicateKey | LeftChildMismatch

  /** Put a separator and its right child into an internal page, checking for corruption first. */
  method ItnlPageInject(page: Page, searchIdx: nat, key: nat, lpageid: nat, rpageid: nat)
      returns (r: Outcome)
    requires page.content.Length == CONTENTLEN
    requires InjectPos(searchIdx) <= page.nkeys < MAXNKEYS
    requires searchIdx == IndexOf(InjectPos(searchIdx))
    modifies page, page.content
    ensures var p := old(page.Img());
            var pos := InjectPos(searchIdx);
            if pos > 0 && K(p, pos - 1) == key then r == DuplicateKey && page.Img() == p
            else if Child(p, pos) != lpageid then r == LeftChildMismatch
            else r == Done && page.Img() == Inserted(p, pos, key, rpageid)
  {
    if searchIdx > 0 {
      var searchPos := (searchIdx - 1) / 2;
      if searchPos < page.nkeys && page.content[searchIdx] == key {
        return DuplicateKey;
      }
    }
    var injectPos := if searchIdx == 0 then 0 else (searchIdx - 1) / 2 + 1;
    var injectIdx := 1 + injectPos * 2;
    // The shift does not touch the slot left of the inject slot, so checking first is the same.
    if page.content[injectIdx - 1] != lpageid {
      return LeftChildMismatch;
    }
    InjectAt(page, injectPos, key, rpageid);
    return Done;
  }
}
