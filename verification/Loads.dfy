/**
 Bulk loading: leaves are filled from a sorted vector of records and appended one by one at the
 right edge of the tree.
 */
module Loads {
  import opened Pages
  import opened TreeShape
  import opened Splits
  import opened Ranges
  import opened Paging
  import opened Cascades
  import opened Arithmetic

  ghost predicate Ascending(records: seq<Record>)
  {
    && (forall i, j :: 0 <= i < j < |records| ==> records[i].0 < records[j].0)
    && (forall i :: 0 <= i < |records| ==> records[i].0 < KEY_END)
  }

  /** The vectors Load accepts: strictly increasing keys, the first one above zero. */
  ghost predicate Accepted(records: seq<Record>)
  {
    Ascending(records) && (records != [] ==> records[0].0 > 0)
  }

  /** m with records a to b-1 added. */
  ghost function Extend(m: map<nat, nat>, records: seq<Record>, a: nat, b: nat): (m': map<nat, nat>)
    requires a <= b <= |records|
    decreases b
  {
    if a == b then m else Extend(m, records, a, b - 1)[records[b - 1].0 := records[b - 1].1]
  }

  lemma RangeExtendOne(records: seq<Record>, m: map<nat, nat>, a: nat)
    requires Ascending(records) && a < |records| && IsRange(records[..a], m, 0, KEY_END)
    ensures IsRange(records[..a + 1], m[records[a].0 := records[a].1], 0, KEY_END)
  {
    var s, s', m' := records[..a], records[..a + 1], m[records[a].0 := records[a].1];
    forall k | k in m' && k < KEY_END ensures Lists(s', k) {
      if k == records[a].0 {
        assert s'[a].0 == k;
      } else {
        assert Lists(s, k);
        var i :| 0 <= i < |s| && s[i].0 == k;
        assert s'[i].0 == k;
      }
    }
    forall i | 0 <= i < |s'| ensures s'[i].0 in m' && m'[s'[i].0] == s'[i].1 {
      if i < a { assert s[i] == s'[i] && records[i].0 < records[a].0; }
    }
  }

  lemma {:induction false} ExtendRange(records: seq<Record>, m: map<nat, nat>, a: nat, b: nat)
    requires Ascending(records) && a <= b <= |records| && IsRange(records[..a], m, 0, KEY_END)
    ensures IsRange(records[..b], Extend(m, records, a, b), 0, KEY_END)
    decreases b
  {
    hide IsRange;
    if a < b {
      ExtendRange(records, m, a, b - 1);
      RangeExtendOne(records, Extend(m, records, a, b - 1), b - 1);
    }
  }

  lemma {:induction false} ExtendKeys(m: map<nat, nat>, records: seq<Record>, a: nat, b: nat)
    requires Ascending(records) && a <= b <= |records| && forall k :: k in m ==> k < KEY_END
    ensures forall k :: k in Extend(m, records, a, b) ==> k < KEY_END
    decreases b
  {
    if a < b { ExtendKeys(m, records, a, b - 1); }
  }

  lemma KeyBelow(p: Image, lo: nat, hi: nat, m: map<nat, nat>, sep: nat)
    requires Holds(p, lo, hi, m) && p.nkeys > 0 && forall k :: k in m ==> k < sep
    ensures lo < sep
  {
    assert K(p, 0) in m;
  }

  /** Two maps listed by prefixes of one ascending vector agree on the smaller keys. */
  lemma PrefixAgree(records: seq<Record>, m: map<nat, nat>, m': map<nat, nat>, a: nat, b: nat)
    requires Ascending(records) && a < b <= |records|
    requires IsRange(records[..a], m, 0, KEY_END) && IsRange(records[..b], m', 0, KEY_END)
    requires (forall k :: k in m ==> k < KEY_END)
    ensures forall k :: k in m ==> k < records[a].0
    ensures forall k :: k in m ==> k in m' && m'[k] == m[k]
    ensures forall k :: k in m' && k < records[a].0 ==> k in m
  {
    forall k | k in m ensures k < records[a].0 && k in m' && m'[k] == m[k] {
      assert Lists(records[..a], k);
      var i :| 0 <= i < a && records[..a][i].0 == k;
      assert records[..b][i] == records[i];
    }
    forall k | k in m' && k < records[a].0 ensures k in m {
      assert Lists(records[..b], k);
      var i :| 0 <= i < b && records[..b][i].0 == k;
      assert i < a;
      assert records[..a][i].0 == k;
    }
  }

  /** p holds records a to b-1. */
  ghost predicate LeafOf(p: Image, records: seq<Record>, a: nat, b: nat)
  {
    && a <= b <= |records| && p.nkeys == b - a
    && forall i :: 0 <= i < p.nkeys ==> K(p, i) == records[a + i].0 && V(p, i) == records[a + i].1
  }

  lemma LeafOfHolds(p: Image, records: seq<Record>, a: nat, b: nat, m: map<nat, nat>)
    requires Ascending(records) && LeafOf(p, records, a, b) && a < b && IsRange(records[..b], m, 0, KEY_END)
    ensures Sorted(p) && Holds(p, records[a].0, KEY_END, m)
  {
    var s := records[..b];
    forall i | 0 <= i < p.nkeys
      ensures records[a].0 <= K(p, i) < KEY_END && K(p, i) in m && m[K(p, i)] == V(p, i)
    {
      assert s[a + i] == records[a + i];
      assert i == 0 || records[a].0 < records[a + i].0;
    }
    forall k | k in m && records[a].0 <= k < KEY_END ensures HasKey(p, k) {
      assert Lists(s, k);
      var i :| 0 <= i < b && s[i].0 == k;
      assert i >= a;
      assert K(p, i - a) == k;
    }
  }

  /** Cutting off the interval above all keys of a leaf, when the new map adds only keys above. */
  lemma HoldsCutAbove(p: Image, q: Image, lo: nat, sep: nat, m: map<nat, nat>, m': map<nat, nat>)
    requires Holds(p, lo, KEY_END, m) && q.nkeys == p.nkeys && q.content == p.content
    requires forall k :: k in m ==> k < sep && k in m' && m'[k] == m[k]
    requires forall k :: k in m' && k < sep ==> k in m
    requires sep <= KEY_END
    ensures Holds(q, lo, sep, m')
  {
    assert forall i {:trigger K(q, i)} :: K(q, i) == K(p, i);
    assert forall i {:trigger V(q, i)} :: V(q, i) == V(p, i);
    forall i | 0 <= i < q.nkeys ensures lo <= K(q, i) < sep && K(q, i) in m' && m'[K(q, i)] == V(q, i) {
      assert K(q, i) == K(p, i) && V(q, i) == V(p, i);
    }
    forall k | k in m' && lo <= k < sep ensures HasKey(q, k) {
      assert HasKey(p, k);
      var i :| 0 <= i < p.nkeys && K(p, i) == k;
      assert K(q, i) == k;
    }
  }

  /** The last child of the last page of a level is the last page of the level below. */
  lemma LastKid(t: Tree, deg: nat, full: int, id: nat, leaf: nat)
    requires WellFormed(t, deg, full) && id in t.lab && leaf in t.lab && t.lab[id].lev == t.lab[leaf].lev + 1
    requires t.lab[id].hi == KEY_END == t.lab[leaf].hi
    ensures id < |t.file| && Child(t.file[id], t.file[id].nkeys) == leaf
    ensures KidLabel(t.file[id], t.lab[id], t.file[id].nkeys) == t.lab[leaf]
  {
    hide PageFits;
    PageBasics(t, deg, full, id);
    PageBasics(t, deg, full, leaf);
    LastRank(t, deg, full, id);
    ChildAtRank(t, deg, full, id, KEY_END - 1, t.file[id].nkeys);
    OnePagePerLevel(t.lab, Child(t.file[id], t.file[id].nkeys), leaf, KEY_END - 1);
  }

  lemma LastRank(t: Tree, deg: nat, full: int, id: nat)
    requires WellFormed(t, deg, full) && id in t.lab && t.lab[id].lev > 0
    ensures id < |t.file| && Rank(t.file[id], KEY_END - 1, t.file[id].nkeys)
  {
    hide WellFormed, Sorted;
    PageBasics(t, deg, full, id);
    forall i | 0 <= i < t.file[id].nkeys ensures K(t.file[id], i) <= KEY_END - 1 {
      KidInside(t, deg, full, id, i + 1);
    }
  }

  // ---- One more leaf at the right edge ---------------------------------------------------

  /** A leaf with records a to b-1 is appended after the last leaf z, under the last internal page par. */
  ghost predicate AppendReady(t: Tree, deg: nat, records: seq<Record>, a: nat, b: nat, z: nat, rid: nat, par: nat,
                              R: Image)
  {
    && 0 < a < b <= |records| && b - a < deg
    && z in t.lab && t.lab[z].lev == 0 && t.lab[z].hi == KEY_END && z < |t.file|
    && par in t.lab && t.lab[par].lev == 1 && t.lab[par].hi == KEY_END && par < |t.file|
    && rid !in t.lab && 0 < rid < |t.file| && R.ptype == LeafPage && R.link == 0
    && Ascending(records) && LeafOf(R, records, a, b) && IsRange(records[..a], t.m, 0, KEY_END)
    && WellFormed(t, deg, -1)
  }

  ghost function AppendGrowth(t: Tree, records: seq<Record>, a: nat, b: nat, z: nat, rid: nat, par: nat,
                              R: Image, P: Image): (g: Growth)
    requires z < |t.file| && par < |t.file| && a < b <= |records|
  {
    Growth(z, rid, par, t.file[par].nkeys, records[a].0, t.file[z].(link := rid), R, P,
           Extend(t.m, records, a, b))
  }

  lemma AppendHalves(t: Tree, deg: nat, records: seq<Record>, a: nat, b: nat, z: nat, rid: nat, par: nat,
                     R: Image, P: Image)
    requires AppendReady(t, deg, records, a, b, z, rid, par, R) && z != 0
    ensures AppendGrowth(t, records, a, b, z, rid, par, R, P).Halves(t, deg)
  {
    hide WellFormed, IsRange, Ascending, Sorted, Holds, LeafOf;
    var g := AppendGrowth(t, records, a, b, z, rid, par, R, P);
    TreeBasics(t, deg, -1);
    PageBasics(t, deg, -1, z);
    LeafContents(t, deg, -1, z);
    ExtendRange(records, t.m, a, b);
    PrefixAgree(records, t.m, g.m', a, b);
    LeafOfHolds(R, records, a, b, g.m');
    AscendingAt(records, a);
    HoldsCutAbove(t.file[z], g.L, t.lab[z].lo, g.sep, t.m, g.m');
    SortedContent(t.file[z], g.L);
    KeyBelow(t.file[z], t.lab[z].lo, KEY_END, t.m, g.sep);
    ExtendKeys(t.m, records, a, b);
    LeafOfCount(R, records, a, b);
  }

  lemma SortedContent(p: Image, q: Image)
    requires Sorted(p) && q.nkeys == p.nkeys && q.content == p.content
    ensures Sorted(q)
  {
    assert forall i {:trigger K(q, i)} :: K(q, i) == K(p, i);
  }

  lemma AscendingAt(records: seq<Record>, a: nat)
    requires Ascending(records) && a < |records|
    ensures records[a].0 < KEY_END
  {
  }

  lemma LeafOfCount(p: Image, records: seq<Record>, a: nat, b: nat)
    requires LeafOf(p, records, a, b)
    ensures p.nkeys == b - a
  {
  }

  /** Appending a leaf at the right edge is a growth of the leaf level. */
  lemma AppendIsGrowth(t: Tree, deg: nat, records: seq<Record>, a: nat, b: nat, z: nat, rid: nat, par: nat,
                       R: Image, P: Image)
    requires AppendReady(t, deg, records, a, b, z, rid, par, R)
    requires t.file[par].nkeys < MAXNKEYS && P == Inserted(t.file[par], t.file[par].nkeys, records[a].0, rid)
    ensures AppendGrowth(t, records, a, b, z, rid, par, R, P).Ready(t, deg, -1)
  {
    hide WellFormed, IsRange, Ascending, Sorted, Holds, LeafOf, K, Child, PageFits, SameOutside;
    TreeBasics(t, deg, -1);
    AppendHalves(t, deg, records, a, b, z, rid, par, R, P);
    LastKid(t, deg, -1, par, z);
    PageBasics(t, deg, -1, par);
    InsertedSlots(t.file[par], t.file[par].nkeys, records[a].0, rid);
  }

  // ---- The state of a bulk load ----------------------------------------------------------

  function NextLeaf(leaves: seq<nat>, i: nat): (id: nat)
  {
    if i + 1 < |leaves| then leaves[i + 1] else 0
  }

  /**
   The allocated leaves and the pages filled so far.  The pages are still in memory; until its
   successor is linked in, the last one counts as if it had no right sibling.
   */
  ghost predicate Pended(pend: map<nat, Image>, leaves: seq<nat>, pages: seq<Image>, lab: Labels)
  {
    && 0 < |pages| <= |leaves|
    && (forall x :: x in pend <==> x in leaves)
    && (forall i, j :: 0 <= i < j < |leaves| ==> leaves[i] != leaves[j])
    && (forall i :: 0 <= i < |leaves| ==> leaves[i] != 0 && (leaves[i] in lab <==> i < |pages|))
    && (forall i :: 0 <= i < |pages| ==>
          && lab[leaves[i]].lev == 0 && pages[i].link == NextLeaf(leaves, i)
          && pend[leaves[i]] == if i + 1 == |pages| then pages[i].(link := 0) else pages[i])
    && lab[leaves[|pages| - 1]].hi == KEY_END
  }

  /** The tree over what was loaded so far; path is its right edge down to the last internal page. */
  ghost predicate LoadTree(t: Tree, deg: nat, full: int, records: seq<Record>, done: nat, path: seq<nat>,
                           pend: map<nat, Image>)
  {
    && 0 < done <= |records| && PathOf(t.lab, path, KEY_END - 1)
    && t.lab[path[|path| - 1]].lev == 1 && path[|path| - 1] !in pend && path[|path| - 1] < |t.file|
    && (forall x :: x in pend ==> x < |t.file| && t.file[x] == pend[x])
    && Ascending(records) && IsRange(records[..done], t.m, 0, KEY_END)
    && WellFormed(t, deg, full)
  }

  /** The next leaf is full, and its separator is in the parent's image P. */
  ghost predicate AppendNext(t: Tree, deg: nat, records: seq<Record>, a: nat, b: nat, path: seq<nat>,
                             pend: map<nat, Image>, leaves: seq<nat>, pages: seq<Image>, R: Image, P: Image)
  {
    && LoadTree(t, deg, -1, records, a, path, pend) && Pended(pend, leaves, pages, t.lab)
    && |pages| < |leaves| && a < b <= |records| && b - a < deg && LeafOf(R, records, a, b)
    && R.ptype == LeafPage && R.link == NextLeaf(leaves, |pages|)
    && t.file[path[|path| - 1]].nkeys < MAXNKEYS
    && P == Inserted(t.file[path[|path| - 1]], t.file[path[|path| - 1]].nkeys, records[a].0, leaves[|pages|])
  }

  ghost function PendNext(pend: map<nat, Image>, leaves: seq<nat>, pages: seq<Image>, R: Image): (r: map<nat, Image>)
    requires 0 < |pages| < |leaves|
  {
    pend[leaves[|pages| - 1] := pages[|pages| - 1]][leaves[|pages|] := R.(link := 0)]
  }

  lemma PendedNext(pend: map<nat, Image>, leaves: seq<nat>, pages: seq<Image>, lab: Labels, R: Image, sep: nat)
    requires Pended(pend, leaves, pages, lab) && |pages| < |leaves| && R.link == NextLeaf(leaves, |pages|)
    ensures Pended(PendNext(pend, leaves, pages, R), leaves, pages + [R],
                   CutLabels(lab, leaves[|pages| - 1], leaves[|pages|], sep))
  {
    var n := |pages|;
    var pend', pages' := PendNext(pend, leaves, pages, R), pages + [R];
    var lab' := CutLabels(lab, leaves[n - 1], leaves[n], sep);
    forall i | 0 <= i < |pages'|
      ensures && lab'[leaves[i]].lev == 0 && pages'[i].link == NextLeaf(leaves, i)
              && pend'[leaves[i]] == if i + 1 == |pages'| then pages'[i].(link := 0) else pages'[i]
    {
      if i < n - 1 { assert leaves[i] != leaves[n - 1] && leaves[i] != leaves[n]; }
    }
  }

  /** The growth that appends the next leaf. */
  ghost function NextGrowth(t: Tree, records: seq<Record>, a: nat, b: nat, path: seq<nat>,
                            leaves: seq<nat>, pages: seq<Image>, R: Image, P: Image): (g: Growth)
    requires 0 < |pages| < |leaves| && leaves[|pages| - 1] < |t.file| && path != [] && path[|path| - 1] < |t.file|
    requires a < b <= |records|
  {
    AppendGrowth(t, records, a, b, leaves[|pages| - 1], leaves[|pages|], path[|path| - 1], R.(link := 0), P)
  }

  lemma LeafOfContent(p: Image, q: Image, records: seq<Record>, a: nat, b: nat)
    requires LeafOf(p, records, a, b) && q.nkeys == p.nkeys && q.content == p.content
    ensures LeafOf(q, records, a, b)
  {
    assert forall i {:trigger K(q, i)} :: K(q, i) == K(p, i);
    assert forall i {:trigger V(q, i)} :: V(q, i) == V(p, i);
  }

  lemma NextIsReady(t: Tree, deg: nat, records: seq<Record>, a: nat, b: nat, path: seq<nat>,
                    pend: map<nat, Image>, leaves: seq<nat>, pages: seq<Image>, R: Image, P: Image)
    requires AppendNext(t, deg, records, a, b, path, pend, leaves, pages, R, P)
    ensures leaves[|pages| - 1] < |t.file|
    ensures NextGrowth(t, records, a, b, path, leaves, pages, R, P).Ready(t, deg, -1)
  {
    hide WellFormed, IsRange, Ascending, LeafOf, K, Child, Inserted;
    var n := |pages|;
    assert leaves[n - 1] in pend && leaves[n] in pend;
    LeafOfContent(R, R.(link := 0), records, a, b);
    PageBasics(t, deg, -1, path[|path| - 1]);
    AppendIsGrowth(t, deg, records, a, b, leaves[n - 1], leaves[n], path[|path| - 1], R.(link := 0), P);
  }

  lemma NextFile(t: Tree, pend: map<nat, Image>, leaves: seq<nat>, pages: seq<Image>, R: Image, g: Growth)
    requires Pended(pend, leaves, pages, t.lab) && |pages| < |leaves|
    requires forall x :: x in pend ==> x < |t.file| && t.file[x] == pend[x]
    requires g.id == leaves[|pages| - 1] && g.rid == leaves[|pages|] && g.par !in pend && g.par < |t.file|
    requires g.id < |t.file| && g.rid < |t.file| && g.L == t.file[g.id].(link := g.rid) && g.R == R.(link := 0)
    ensures forall x :: x in PendNext(pend, leaves, pages, R) ==>
                          g.After(t).file[x] == PendNext(pend, leaves, pages, R)[x]
  {
    var n := |pages|;
    assert leaves[n - 1] in pend && leaves[n] in pend && leaves[n - 1] != leaves[n];
    assert pages[n - 1].link == leaves[n];
  }

  lemma PathAboveLeaves(lab: Labels, path: seq<nat>, k: nat, z: nat, rid: nat, sep: nat)
    requires PathOf(lab, path, k) && lab[path[|path| - 1]].lev == 1
    requires z in lab && lab[z].lev == 0 && rid !in lab
    ensures PathOf(CutLabels(lab, z, rid, sep), path, k)
    ensures CutLabels(lab, z, rid, sep)[path[|path| - 1]].lev == 1
  {
  }

  /** Appending a leaf keeps the state of the load, except that the parent may be full. */
  lemma LoadStep(t: Tree, deg: nat, records: seq<Record>, a: nat, b: nat, path: seq<nat>,
                 pend: map<nat, Image>, leaves: seq<nat>, pages: seq<Image>, R: Image, P: Image)
    requires AppendNext(t, deg, records, a, b, path, pend, leaves, pages, R, P)
    ensures leaves[|pages| - 1] < |t.file|
    ensures var g := NextGrowth(t, records, a, b, path, leaves, pages, R, P);
            && leaves[|pages|] < |t.file| && leaves[|pages| - 1] in t.lab
            && LoadTree(g.After(t), deg, if P.nkeys == deg then path[|path| - 1] else -1, records, b, path,
                        PendNext(pend, leaves, pages, R))
            && Pended(PendNext(pend, leaves, pages, R), leaves, pages + [R], g.Lab(t))
  {
    hide WellFormed, IsRange, Ascending, LeafOf, K, Child, Inserted, PageFits;
    var n := |pages|;
    assert leaves[n - 1] in pend && leaves[n] in pend;
    NextIsReady(t, deg, records, a, b, path, pend, leaves, pages, R, P);
    var g := NextGrowth(t, records, a, b, path, leaves, pages, R, P);
    GrowthWellFormed(t, deg, -1, g);
    PendedNext(pend, leaves, pages, t.lab, R, records[a].0);
    ExtendRange(records, t.m, a, b);
    NextFile(t, pend, leaves, pages, R, g);
    PathAboveLeaves(t.lab, path, KEY_END - 1, leaves[n - 1], leaves[n], records[a].0);
  }

  /** In the last internal page, the slot for the next separator is free and the last leaf is left of it. */
  lemma LastSlot(t: Tree, deg: nat, records: seq<Record>, a: nat, path: seq<nat>,
                 pend: map<nat, Image>, leaves: seq<nat>, pages: seq<Image>)
    requires LoadTree(t, deg, -1, records, a, path, pend) && Pended(pend, leaves, pages, t.lab) && a < |records|
    ensures var p := t.file[path[|path| - 1]];
            && p.nkeys < deg <= MAXNKEYS && Child(p, p.nkeys) == leaves[|pages| - 1]
            && (p.nkeys > 0 ==> K(p, p.nkeys - 1) < records[a].0)
  {
    hide WellFormed, IsRange, Holds, Child, K;
    var id, z := path[|path| - 1], leaves[|pages| - 1];
    assert z in pend;
    PageBasics(t, deg, -1, id);
    TreeBasics(t, deg, -1);
    LastKid(t, deg, -1, id, z);
    LeafContents(t, deg, -1, z);
    PrefixBelow(records, t.m, a);
    KeyBelow(t.file[z], t.lab[z].lo, KEY_END, t.m, records[a].0);
  }

  lemma PrefixBelow(records: seq<Record>, m: map<nat, nat>, a: nat)
    requires Ascending(records) && a < |records| && IsRange(records[..a], m, 0, KEY_END)
    requires (forall k :: k in m ==> k < KEY_END)
    ensures forall k :: k in m ==> k < records[a].0
  {
    forall k | k in m ensures k < records[a].0 {
      assert Lists(records[..a], k);
      var i :| 0 <= i < a && records[..a][i].0 == k;
    }
  }

  /** A split of the last internal page, and the pages above it, does not disturb the leaves. */
  lemma SplitKeepsPended(lab0: Labels, lab: Labels, file0: seq<Image>, file: seq<Image>, pend: map<nat, Image>,
                         leaves: seq<nat>, pages: seq<Image>, id: nat, path: seq<nat>, deg: nat, n: nat, free: set<nat>)
    requires Pended(pend, leaves, pages, lab0) && id in lab0 && lab0[id].lev == 1
    requires SplitResult(lab0, lab, file0, file, pend, id, path, KEY_END - 1, deg)
    requires StorageFits(deg, |file0|, free, lab0, pend)
    ensures Pended(pend, leaves, pages, lab)
  {
    forall i | 0 <= i < |leaves| ensures leaves[i] in lab <==> i < |pages| {
      assert leaves[i] in pend;
    }
  }

  /** The first leaf hangs alone under the root. */
  lemma FirstLeaf(deg: nat, records: seq<Record>, b: nat, file: seq<Image>, leaf: nat, root: Image, R: Image)
    requires 2 <= deg <= MAXNKEYS && Ascending(records) && 0 < b < deg && LeafOf(R, records, 0, b)
    requires R.ptype == LeafPage && R.link == 0 && 0 < leaf < |file|
    requires root.ptype == RootPage && root.nkeys == 0 && root.link == 2 && Child(root, 0) == leaf
    requires file[0] == root && file[leaf] == R
    ensures WellFormed(Tree(file, map[0 := Label(1, 0, KEY_END), leaf := Label(0, 0, KEY_END)],
                            Extend(map[], records, 0, b)), deg, -1)
    ensures IsRange(records[..b], Extend(map[], records, 0, b), 0, KEY_END)
  {
    var m := Extend(map[], records, 0, b);
    var lab: Labels := map[0 := Label(1, 0, KEY_END), leaf := Label(0, 0, KEY_END)];
    NothingLoaded(records);
    ExtendRange(records, map[], 0, b);
    ExtendKeys(map[], records, 0, b);
    LeafOfAll(R, records, b, m);
    assert KidsFit(root, lab[0], lab);
  }

  lemma NothingLoaded(records: seq<Record>)
    ensures IsRange(records[..0], map[], 0, KEY_END)
  {
  }

  lemma LeafOfAll(p: Image, records: seq<Record>, b: nat, m: map<nat, nat>)
    requires Ascending(records) && LeafOf(p, records, 0, b) && b > 0 && IsRange(records[..b], m, 0, KEY_END)
    ensures Sorted(p) && Holds(p, 0, KEY_END, m)
  {
    LeafOfHolds(p, records, 0, b, m);
    forall k | k in m && 0 <= k < KEY_END ensures HasKey(p, k) {
      assert Lists(records[..b], k);
      var i :| 0 <= i < b && records[..b][i].0 == k;
      assert K(p, i) == k;
    }
  }

  // ---- The load as the code runs it ------------------------------------------------------

  /** How far a load has come: the allocated leaves, the pages made for them, the right edge. */
  datatype Progress = Progress(path: seq<nat>, leaves: seq<nat>, pages: seq<Image>, records: seq<Record>,
                               done: nat, pend: map<nat, Image>)
  {
    ghost function Next(b: nat, R: Image): (s: Progress)
      requires 0 < |pages| < |leaves|
    {
      this.(pages := pages + [R], done := b, pend := PendNext(pend, leaves, pages, R))
    }

    ghost function Last(): (id: nat)
    {
      if path == [] then 0 else path[|path| - 1]
    }

    ghost function Loaded(file: seq<Image>, lab: Labels, m: map<nat, nat>, itnl: Image): (t: Tree)
      requires Last() < |file|
    {
      Tree(Overlay(file, pend)[Last() := itnl], lab, m)
    }
  }

  /** The last internal page is in the buffer itnl, the leaves are pending, the rest is in the file. */
  ghost predicate LoadState(deg: nat, file: seq<Image>, free: set<nat>, lab: Labels, m: map<nat, nat>,
                            itnl: Image, s: Progress, full: int)
  {
    && StorageFits(deg, |file|, free, lab, s.pend) && Pended(s.pend, s.leaves, s.pages, lab)
    && s.path != [] && s.Last() < |file|
    && LoadTree(s.Loaded(file, lab, m, itnl), deg, full, s.records, s.done, s.path, s.pend)
  }

  /** R is the page for the next leaf: records s.done to b-1, linked to the leaf after it. */
  ghost predicate FitsNext(s: Progress, b: nat, deg: nat, R: Image)
  {
    && 0 < |s.pages| < |s.leaves| && s.done < b <= |s.records| && b - s.done < deg
    && LeafOf(R, s.records, s.done, b) && R.ptype == LeafPage && R.link == NextLeaf(s.leaves, |s.pages|)
  }

  lemma PendedCount(pend: map<nat, Image>, leaves: seq<nat>, pages: seq<Image>, lab: Labels)
    requires Pended(pend, leaves, pages, lab)
    ensures 0 < |pages| <= |leaves|
  {
  }

  /** Before the separator of the next leaf goes in: there is room for it, behind the last leaf. */
  lemma RoomForNext(deg: nat, file: seq<Image>, free: set<nat>, lab: Labels, m: map<nat, nat>,
                    itnl: Image, s: Progress)
    requires LoadState(deg, file, free, lab, m, itnl, s, -1) && s.done < |s.records|
    ensures 0 < |s.pages| <= |s.leaves|
    ensures itnl.nkeys < deg <= MAXNKEYS && Child(itnl, itnl.nkeys) == s.leaves[|s.pages| - 1]
    ensures itnl.nkeys > 0 ==> K(itnl, itnl.nkeys - 1) != s.records[s.done].0
  {
    hide WellFormed, Child, K, StorageFits, LoadTree, Pended;
    PendedCount(s.pend, s.leaves, s.pages, lab);
    LastSlot(s.Loaded(file, lab, m, itnl), deg, s.records, s.done, s.path, s.pend, s.leaves, s.pages);
  }

  lemma OverlayNext(file: seq<Image>, pend: map<nat, Image>, lab: Labels, leaves: seq<nat>, pages: seq<Image>,
                    R: Image, id: nat, itnl: Image, P: Image)
    requires Pended(pend, leaves, pages, lab) && |pages| < |leaves| && id < |file| && id !in pend
    requires forall x :: x in pend ==> x < |file|
    ensures leaves[|pages| - 1] in pend && leaves[|pages|] in pend
    ensures var z, rid := leaves[|pages| - 1], leaves[|pages|];
            Overlay(file, PendNext(pend, leaves, pages, R))[id := P] ==
            Overlay(file, pend)[id := itnl][z := pages[|pages| - 1]][rid := R.(link := 0)][id := P]
  {
    var z, rid := leaves[|pages| - 1], leaves[|pages|];
    assert z in pend && rid in pend;
  }

  /** Linking the last page to its successor. */
  lemma LastLinked(pend: map<nat, Image>, lab: Labels, leaves: seq<nat>, pages: seq<Image>)
    requires Pended(pend, leaves, pages, lab) && |pages| < |leaves|
    ensures leaves[|pages| - 1] in pend && leaves[|pages| - 1] in lab
    ensures pend[leaves[|pages| - 1]].(link := leaves[|pages|]) == pages[|pages| - 1]
    ensures leaves[|pages|] !in lab && leaves[|pages|] in pend
  {
    assert leaves[|pages| - 1] in pend;
  }

  lemma StorageNext(deg: nat, n: nat, free: set<nat>, lab: Labels, pend: map<nat, Image>, leaves: seq<nat>,
                    pages: seq<Image>, R: Image, sep: nat)
    requires StorageFits(deg, n, free, lab, pend) && Pended(pend, leaves, pages, lab) && |pages| < |leaves|
    requires 0 < |pages| && leaves[|pages| - 1] in lab
    ensures StorageFits(deg, n, free, CutLabels(lab, leaves[|pages| - 1], leaves[|pages|], sep),
                        PendNext(pend, leaves, pages, R))
  {
    hide Pended;
    LastLinked(pend, lab, leaves, pages);
  }

  lemma PendingInFile(t: Tree, deg: nat, full: int, records: seq<Record>, done: nat, path: seq<nat>,
                      pend: map<nat, Image>)
    requires LoadTree(t, deg, full, records, done, path, pend)
    ensures forall x :: x in pend ==> x < |t.file| && t.file[x] == pend[x]
    ensures path != [] && path[|path| - 1] !in pend && path[|path| - 1] < |t.file|
  {
    hide WellFormed, IsRange, Ascending;
  }

  /** Putting the separator of the next leaf into the last internal page appends that leaf. */
  lemma NextAppended(deg: nat, file: seq<Image>, free: set<nat>, lab: Labels, m: map<nat, nat>,
                     itnl: Image, s: Progress, b: nat, R: Image, P: Image)
    requires LoadState(deg, file, free, lab, m, itnl, s, -1) && FitsNext(s, b, deg, R)
    requires itnl.nkeys < MAXNKEYS
    requires P == Inserted(itnl, itnl.nkeys, s.records[s.done].0, s.leaves[|s.pages|])
    ensures s.leaves[|s.pages| - 1] in lab
    ensures LoadState(deg, file, free, CutLabels(lab, s.leaves[|s.pages| - 1], s.leaves[|s.pages|], s.records[s.done].0),
                      Extend(m, s.records, s.done, b), P, s.Next(b, R), if P.nkeys == deg then s.Last() else -1)
  {
    hide StorageFits, Pended, LoadTree, LeafOf, K, Child, Inserted, PendNext;
    var t := s.Loaded(file, lab, m, itnl);
    PendingInFile(t, deg, -1, s.records, s.done, s.path, s.pend);
    LastLinked(s.pend, lab, s.leaves, s.pages);
    LoadStep(t, deg, s.records, s.done, b, s.path, s.pend, s.leaves, s.pages, R, P);
    StorageNext(deg, |file|, free, lab, s.pend, s.leaves, s.pages, R, s.records[s.done].0);
    OverlayNext(file, s.pend, lab, s.leaves, s.pages, R, s.Last(), itnl, P);
  }

  /** The last internal page is full; its split leaves the load where it was, on the new right edge. */
  lemma LoadAfterSplit(deg: nat, file0: seq<Image>, file: seq<Image>, free0: set<nat>, free: set<nat>,
                       lab0: Labels, lab: Labels, m: map<nat, nat>, itnl: Image, s: Progress, path: seq<nat>)
    requires LoadState(deg, file0, free0, lab0, m, itnl, s, s.Last())
    requires SplitResult(lab0, lab, file0, file, s.pend, s.Last(), path, KEY_END - 1, deg)
    requires StorageFits(deg, |file|, free, lab, s.pend) && WellFormed(Tree(Overlay(file, s.pend), lab, m), deg, -1)
    ensures path != [] && path[|path| - 1] < |file| && file[path[|path| - 1]].nkeys == deg - deg / 2 - 1
    ensures LoadState(deg, file, free, lab, m, file[path[|path| - 1]], s.(path := path), -1)
  {
    hide WellFormed, IsRange, Ascending, Pended;
    SplitKeepsPended(lab0, lab, file0, file, s.pend, s.leaves, s.pages, s.Last(), path, deg, |file0|, free0);
    var last := path[|path| - 1];
    assert Overlay(file, s.pend)[last := file[last]] == Overlay(file, s.pend);
  }

  /** Once the last internal page is written back, only the leaves are missing in the file. */
  lemma LoadWritten(deg: nat, file: seq<Image>, free: set<nat>, lab: Labels, m: map<nat, nat>, itnl: Image, s: Progress)
    requires LoadState(deg, file, free, lab, m, itnl, s, -1)
    ensures s.Last() < |file| && LoadState(deg, file[s.Last() := itnl], free, lab, m, itnl, s, -1)
  {
    hide WellFormed, IsRange, Ascending, Pended, StorageFits;
    OverlayUpdate(file, s.pend, s.Last(), itnl);
    assert Overlay(file, s.pend)[s.Last() := itnl][s.Last() := itnl] == Overlay(file, s.pend)[s.Last() := itnl];
  }

  /** All leaves were made: writing them gives a sound tree that holds exactly the records. */
  lemma LoadComplete(deg: nat, file: seq<Image>, free: set<nat>, lab: Labels, m: map<nat, nat>, s: Progress)
    requires s.path != [] && s.Last() < |file| && LoadState(deg, file, free, lab, m, file[s.Last()], s, -1)
    requires |s.pages| == |s.leaves| && s.done == |s.records|
    ensures forall i :: 0 <= i < |s.leaves| ==> s.leaves[i] in s.pend && s.pend[s.leaves[i]] == s.pages[i]
    ensures forall x :: x in s.pend ==> x in s.leaves && x < |file|
    ensures StorageFits(deg, |file|, free, lab, map[])
    ensures WellFormed(Tree(Overlay(file, s.pend), lab, m), deg, -1) && IsRange(s.records, m, 0, KEY_END)
    ensures 0 in lab && lab[0].lev > 0
  {
    hide WellFormed, IsRange, Ascending;
    assert s.records[..s.done] == s.records;
    assert Overlay(file, s.pend)[s.Last() := file[s.Last()]] == Overlay(file, s.pend);
  }

  /** The leaves are allocated but none is filled yet. */
  ghost predicate LoadStart(deg: nat, file: seq<Image>, free: set<nat>, lab: Labels, m: map<nat, nat>,
                            itnl: Image, s: Progress)
  {
    && StorageFits(deg, |file|, free, lab, s.pend) && lab == map[0 := Label(0, 0, KEY_END)] && m == map[]
    && s.path == [0] && s.pages == [] && s.done == 0 && Ascending(s.records)
    && Allocated(s.leaves, s.pend)
    && itnl.ptype == RootPage && itnl.nkeys == 0
  }

  /** The pending pages are the allocated leaves, and those are all different. */
  ghost predicate Allocated(leaves: seq<nat>, pend: map<nat, Image>)
  {
    && (forall x :: x in pend <==> x in leaves)
    && (forall i, j :: 0 <= i < j < |leaves| ==> leaves[i] != leaves[j])
  }

  lemma AllocatedOne(leaves: seq<nat>, pend: map<nat, Image>, id: nat, p: Image)
    requires Allocated(leaves, pend) && id !in pend
    ensures Allocated(leaves + [id], pend[id := p])
  {
    forall i | 0 <= i < |leaves| ensures leaves[i] != id { assert leaves[i] in pend; }
  }

  /** The first leaf under the root starts the load. */
  ghost function FirstProgress(s: Progress, b: nat, R: Image): (s': Progress)
    requires s.leaves != []
  {
    s.(pages := [R], done := b, pend := s.pend[s.leaves[0] := R.(link := 0)])
  }

  lemma FirstPended(s: Progress, b: nat, R: Image)
    requires s.leaves != [] && Allocated(s.leaves, s.pend) && R.link == NextLeaf(s.leaves, 0) && 0 !in s.pend
    ensures Pended(FirstProgress(s, b, R).pend, s.leaves, [R],
                   map[0 := Label(1, 0, KEY_END), s.leaves[0] := Label(0, 0, KEY_END)])
  {
    forall i | 0 <= i < |s.leaves| ensures s.leaves[i] in s.pend {}
  }

  lemma FirstStorage(deg: nat, n: nat, free: set<nat>, s: Progress, p: Image)
    requires StorageFits(deg, n, free, map[0 := Label(0, 0, KEY_END)], s.pend) && s.leaves != []
    requires Allocated(s.leaves, s.pend)
    ensures s.leaves[0] in s.pend && 0 < s.leaves[0] < n
    ensures StorageFits(deg, n, free, map[0 := Label(1, 0, KEY_END), s.leaves[0] := Label(0, 0, KEY_END)],
                        s.pend[s.leaves[0] := p])
  {
  }

  lemma FirstAppended(deg: nat, file: seq<Image>, free: set<nat>, lab: Labels, m: map<nat, nat>,
                      itnl: Image, s: Progress, b: nat, R: Image, P: Image)
    requires LoadStart(deg, file, free, lab, m, itnl, s) && s.leaves != [] && 0 < b <= |s.records| && b < deg
    requires LeafOf(R, s.records, 0, b) && R.ptype == LeafPage && R.link == NextLeaf(s.leaves, 0)
    requires P.ptype == RootPage && P.nkeys == 0 && P.link == 2 && Child(P, 0) == s.leaves[0]
    ensures LoadState(deg, file, free, map[0 := Label(1, 0, KEY_END), s.leaves[0] := Label(0, 0, KEY_END)],
                      Extend(map[], s.records, 0, b), P, FirstProgress(s, b, R), -1)
  {
    hide WellFormed, LeafOf, IsRange, Child, Ascending, Extend, Pended, K, V;
    FileNotEmpty(deg, |file|, free, lab, s.pend);
    FirstPended(s, b, R);
    FirstStorage(deg, |file|, free, s, R.(link := 0));
    var s' := FirstProgress(s, b, R);
    LeafOfContent(R, R.(link := 0), s.records, 0, b);
    FirstLeaf(deg, s.records, b, Overlay(file, s'.pend)[0 := P], s.leaves[0], P, R.(link := 0));
  }

  /** Either no leaf is filled yet, or the pages so far form a tree. */
  ghost predicate LoadOngoing(deg: nat, file: seq<Image>, free: set<nat>, lab: Labels, m: map<nat, nat>,
                              itnl: Image, s: Progress)
  {
    if s.pages == [] then LoadStart(deg, file, free, lab, m, itnl, s)
    else LoadState(deg, file, free, lab, m, itnl, s, -1)
  }

  /** The leaf buffer holds the records after the first a. */
  ghost predicate Buffered(content: seq<nat>, records: seq<Record>, a: nat, n: nat)
  {
    && a + n <= |records| && 2 * n < |content|
    && forall i :: 0 <= i < n ==> content[2 * i + 1] == records[a + i].0 && content[2 * i + 2] == records[a + i].1
  }

  lemma BufferedNone(content: seq<nat>, records: seq<Record>, a: nat)
    requires a <= |records| && 0 < |content|
    ensures Buffered(content, records, a, 0)
  {
  }

  lemma BufferedLeaf(content: seq<nat>, records: seq<Record>, a: nat, n: nat, p: Image)
    requires Buffered(content, records, a, n) && p.nkeys == n <= MAXNKEYS
    requires p.content[..2 * n + 1] == content[..2 * n + 1]
    ensures LeafOf(p, records, a, a + n)
  {
    forall i | 0 <= i < n ensures K(p, i) == records[a + i].0 && V(p, i) == records[a + i].1 {
      assert p.content[2 * i + 1] == p.content[..2 * n + 1][2 * i + 1] == content[2 * i + 1];
      assert p.content[2 * i + 2] == p.content[..2 * n + 1][2 * i + 2] == content[2 * i + 2];
    }
  }

  /** The group of n that starts at i * n has a leaf of its own. */
  lemma GroupHasLeaf(size: nat, n: nat, i: nat)
    requires 0 < n && i * n + n <= size
    ensures i < size / n
  {
    if size / n <= i { Monotone(size / n, i + 1, n); }
  }

  // ---- When Load accepts a tree ----------------------------------------------------------

  /** Below every internal page there is a record. */
  lemma {:induction false} SomeRecord(t: Tree, deg: nat, id: nat)
    requires WellFormed(t, deg, -1) && id in t.lab && (id == 0 ==> t.lab[0].lev > 0)
    ensures t.m != map[]
    decreases t.lab[id].lev
  {
    hide WellFormed;
    PageBasics(t, deg, -1, id);
    if t.lab[id].lev == 0 {
      LeafContents(t, deg, -1, id);
      assert K(t.file[id], 0) in t.m;
    } else {
      var c := FirstKid(t, deg, id);
      SomeRecord(t, deg, c);
    }
  }

  lemma FirstKid(t: Tree, deg: nat, id: nat) returns (c: nat)
    requires WellFormed(t, deg, -1) && id in t.lab && t.lab[id].lev > 0
    ensures c != 0 && c in t.lab && t.lab[c].lev == t.lab[id].lev - 1
  {
    c := Child(t.file[id], 0);
    assert Fits(t, deg, -1, id);
    assert Labelled(t.lab, c, KidLabel(t.file[id], t.lab[id], 0));
  }

  /** Depth one and no keys in the root: that is how Load recognises an empty tree. */
  lemma EmptyTree(t: Tree, deg: nat)
    requires WellFormed(t, deg, -1)
    ensures 0 in t.lab && 0 < |t.file|
    ensures t.lab[0].lev == 0 && t.file[0].nkeys == 0 <==> t.m == map[]
    ensures t.m == map[] ==> t.lab == map[0 := Label(0, 0, KEY_END)]
  {
    hide Sorted;
    PageBasics(t, deg, -1, 0);
    if t.lab[0].lev > 0 {
      SomeRecord(t, deg, 0);
    } else {
      LeafContents(t, deg, -1, 0);
      assert t.lab[0] == Label(0, 0, KEY_END);
      assert t.lab.Keys == {0};
      if t.file[0].nkeys > 0 {
        assert K(t.file[0], 0) in t.m;
      } else {
        assert forall k :: k !in t.m;
      }
    }
  }

  /** A root that is a leaf can take all records of a short vector. */
  lemma RootHoldsAll(deg: nat, file: seq<Image>, records: seq<Record>, root: Image)
    requires 2 <= deg <= MAXNKEYS && Ascending(records) && records != [] && |records| < deg && 0 < |file|
    requires LeafOf(root, records, 0, |records|) && root.ptype == RootPage && root.link == 1
    ensures WellFormed(Tree(file[0 := root], map[0 := Label(0, 0, KEY_END)], Extend(map[], records, 0, |records|)),
                       deg, -1)
    ensures IsRange(records, Extend(map[], records, 0, |records|), 0, KEY_END)
  {
    hide LeafOf, Extend;
    var m := Extend(map[], records, 0, |records|);
    NothingLoaded(records);
    assert records[..|records|] == records;
    ExtendRange(records, map[], 0, |records|);
    ExtendKeys(map[], records, 0, |records|);
    LeafOfAll(root, records, |records|, m);
    LeafOfCount(root, records, 0, |records|);
  }

  datatype LoadResult = Loaded | NotEmpty | BadRecords

  /** The first n records pass the check that each key is above the one before it, and above zero. */
  ghost predicate Increasing(records: seq<Record>, n: nat, last: nat)
  {
    && n <= |records| && last == (if n == 0 then 0 else records[n - 1].0)
    && (forall i, j :: 0 <= i < j < n ==> records[i].0 < records[j].0)
    && (forall i :: 0 <= i < n ==> 0 < records[i].0 < KEY_END)
  }

  lemma IncreasingAll(records: seq<Record>, last: nat)
    requires Increasing(records, |records|, last)
    ensures Accepted(records)
  {
  }

  lemma NotIncreasing(records: seq<Record>, n: nat)
    requires n < |records| && records[n].0 <= (if n == 0 then 0 else records[n - 1].0)
    ensures !Accepted(records)
  {
    assert n == 0 || !(records[n - 1].0 < records[n].0);
  }

  lemma LastPageBound(deg: nat, file: seq<Image>, free: set<nat>, lab: Labels, m: map<nat, nat>,
                      itnl: Image, s: Progress)
    requires LoadState(deg, file, free, lab, m, itnl, s, -1)
    ensures itnl.nkeys < deg
  {
    hide WellFormed, IsRange, StorageFits, Ascending, Pended;
    PageBasics(s.Loaded(file, lab, m, itnl), deg, -1, s.Last());
  }

  lemma AcceptedKeys(records: seq<Record>)
    requires Accepted(records)
    ensures forall i :: 0 <= i < |records| ==> records[i].0 < KEY_END
  {
  }

  /** The records with lo <= key < hi, in their order. */
  function Within(records: seq<Record>, lo: nat, hi: nat): (s: seq<Record>)
  {
    if records == [] then []
    else
      var s, last := Within(records[..|records| - 1], lo, hi), records[|records| - 1];
      if lo <= last.0 < hi then s + [last] else s
  }

  lemma {:induction false} WithinMembers(records: seq<Record>, lo: nat, hi: nat, x: Record)
    ensures x in Within(records, lo, hi) <==> x in records && lo <= x.0 < hi
  {
    if records != [] {
      var rest, last := records[..|records| - 1], records[|records| - 1];
      WithinMembers(rest, lo, hi, x);
      assert records == rest + [last];
    }
  }

  lemma {:induction false} WithinAscending(records: seq<Record>, lo: nat, hi: nat)
    requires forall i, j :: 0 <= i < j < |records| ==> records[i].0 < records[j].0
    ensures var s := Within(records, lo, hi); forall i, j :: 0 <= i < j < |s| ==> s[i].0 < s[j].0
  {
    if records != [] {
      var rest, last := records[..|records| - 1], records[|records| - 1];
      WithinAscending(rest, lo, hi);
      var t := Within(rest, lo, hi);
      forall i | 0 <= i < |t| ensures t[i].0 < last.0 {
        WithinMembers(rest, lo, hi, t[i]);
      }
    }
  }

  /** Listing all records and filtering is listing the interval. */
  lemma WithinRange(records: seq<Record>, m: map<nat, nat>, lo: nat, hi: nat)
    requires IsRange(records, m, 0, KEY_END) && hi <= KEY_END
    ensures IsRange(Within(records, lo, hi), m, lo, hi)
  {
    hide Within;
    var s := Within(records, lo, hi);
    WithinAscending(records, lo, hi);
    forall i | 0 <= i < |s| ensures lo <= s[i].0 < hi && s[i].0 in m && m[s[i].0] == s[i].1 {
      WithinMembers(records, lo, hi, s[i]);
    }
    forall k | k in m && lo <= k < hi ensures Lists(s, k) {
      assert Lists(records, k);
      var i :| 0 <= i < |records| && records[i].0 == k;
      WithinMembers(records, lo, hi, records[i]);
    }
  }
}
