/**
 Lookups and single-record updates: the walk from the root to a leaf, and what that leaf decides.
 */
module Lookups {
  import opened Pages
  import opened TreeShape
  import opened Splits
  import opened Paging

  lemma FreshTree(deg: nat)
    requires 2 <= deg <= MAXNKEYS
    ensures WellFormed(Tree([Image(RootPage, 0, 1, ZEROS)], map[0 := Label(0, 0, KEY_END)], map[]), deg, -1)
  {
  }

  /** The leaf that covers a key decides whether the map has it. */
  lemma LeafAnswer(t: Tree, deg: nat, id: nat, key: nat, r: nat)
    requires WellFormed(t, deg, -1) && id in t.lab && t.lab[id].lev == 0 && t.lab[id].Covers(key)
    requires Rank(t.file[id], key, r)
    ensures key in t.m <==> r > 0 && K(t.file[id], r - 1) == key
    ensures key in t.m ==> t.m[key] == V(t.file[id], r - 1)
  {
    assert Fits(t, deg, -1, id);
    if r == 0 || K(t.file[id], r - 1) != key {
      NotHasKey(t.file[id], key, r);
    }
  }

  /** Injecting a record into the leaf that covers its key updates the tree's map, and nothing else. */
  lemma PutIntoLeaf(t: Tree, deg: nat, id: nat, idx: nat, key: Key, value: nat)
    requires WellFormed(t, deg, -1) && id in t.lab && t.lab[id].lev == 0 && t.lab[id].Covers(key)
    requires id < |t.file| && t.file[id].nkeys < MAXNKEYS && Rank(t.file[id], key, InjectPos(idx))
    ensures var q := LeafInjected(t.file[id], idx, key, value);
            && q.nkeys <= deg
            && WellFormed(Tree(t.file[id := q], t.lab, t.m[key := value]), deg, if q.nkeys == deg then id else -1)
  {
    hide WellFormed, LeafInjected, Sorted, Rank;
    var p, l := t.file[id], t.lab[id];
    PageBasics(t, deg, -1, id);
    TreeBasics(t, deg, -1);
    LeafContents(t, deg, -1, id);
    RankBound(p, key, InjectPos(idx));
    LeafInjectedIsUpdate(p, idx, key, value, l.lo, l.hi, t.m);
    LeafReplaced(t, deg, id, LeafInjected(p, idx, key, value), t.m[key := value]);
  }

  /** One step down a path: the child at the key's rank extends it. */
  lemma PathStep(t: Tree, deg: nat, path: seq<nat>, key: nat, r: nat)
    requires WellFormed(t, deg, -1) && PathOf(t.lab, path, key) && |path| <= t.lab[0].lev
    requires Rank(t.file[path[|path| - 1]], key, r)
    ensures var c := Child(t.file[path[|path| - 1]], r);
            c != 0 && PathOf(t.lab, path + [c], key)
  {
    hide PageFits;
    ChildAtRank(t, deg, -1, path[|path| - 1], key, r);
  }

  lemma RankBound(p: Image, key: nat, r: nat)
    requires Rank(p, key, r)
    ensures r <= p.nkeys
  {
  }

  /** No page of the tree is an empty page, so none of them is free when the file is opened again. */
  lemma StoredPages(t: Tree, deg: nat)
    requires WellFormed(t, deg, -1)
    ensures 0 in t.lab && forall x :: x in t.lab ==> x < |t.file| && t.file[x].ptype != EmptyPage
  {
    hide PageFits;
    forall x | x in t.lab ensures x < |t.file| && t.file[x].ptype != EmptyPage {
      PageBasics(t, deg, -1, x);
    }
  }
}
