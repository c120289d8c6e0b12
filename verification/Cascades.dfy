/**
 The steps of a split, as changes of the file and of the labels: cutting a page, telling its parent,
 going on at the parent if that is full now, and splitting the root.
 */
module Cascades {
  import opened Pages
  import opened TreeShape
  import opened Splits
  import opened Paging

  /** A change of the file outside the labelled pages does not matter. */
  lemma SamePages(t: Tree, deg: nat, full: int, file': seq<Image>)
    requires WellFormed(t, deg, full) && |t.file| <= |file'|
    requires forall id :: id in t.lab && id < |t.file| ==> file'[id] == t.file[id]
    ensures WellFormed(t.(file := file'), deg, full)
  {
    hide PageFits;
    forall id | id in t.lab ensures Fits(t.(file := file'), deg, full, id) {
      assert Fits(t, deg, full, id);
    }
  }

  /** id is a page that is in no use: not labelled and not waiting to be written. */
  ghost predicate Unused(id: nat, lab: Labels, pend: map<nat, Image>)
  {
    id != 0 && id !in lab && id !in pend
  }

  /**
   The file after a page other than the root was cut in two but before its parent was updated:
   page id holds the lower half, the new page rid the upper half, all other pages are as in t.
   */
  ghost predicate CutDone(t: Tree, file: seq<Image>, pend: map<nat, Image>, id: nat, rid: nat, sep: nat)
  {
    && id in t.lab && id != 0 && id !in pend && id < |t.file| <= |file| && rid < |file|
    && Unused(rid, t.lab, pend)
    && Cut(t.file[id], t.lab[id].lev == 0, file[id], file[rid], sep)
    && file[id].ptype == file[rid].ptype == t.file[id].ptype
    && file[id].link == rid && file[rid].link == t.file[id].link
    && forall x :: x in t.lab && x < |t.file| && x != id ==> t.file[x] == Overlay(file, pend)[x]
  }

  lemma CutStored(t: Tree, file0: seq<Image>, file1: seq<Image>, pend: map<nat, Image>, id: nat, rid: nat, sep: nat,
                  p: Image, L: Image, R: Image)
    requires OnlyPage(file0, file1, rid) && Unused(rid, t.lab, pend) && id < |file0| && id in t.lab && id != 0
    requires t.file == Overlay(file0, pend)[id := p] && id !in pend && (forall x :: x in t.lab ==> x < |file0|)
    requires Cut(p, t.lab[id].lev == 0, L, R, sep)
    requires L.ptype == R.ptype == p.ptype && L.link == rid && R.link == p.link
    ensures CutDone(t, file1[rid := R][id := L], pend, id, rid, sep)
    ensures forall x :: x in t.lab && x != id ==> file1[rid := R][id := L][x] == file0[x]
    ensures sep == K(p, p.nkeys / 2)
  {
  }

  /** A full page was cut, and its parent is par: both lie on the path of k. */
  ghost predicate CutReady(t: Tree, deg: nat, file: seq<Image>, pend: map<nat, Image>, id: nat, rid: nat, sep: nat,
                           par: nat, k: nat)
  {
    && WellFormed(t, deg, id) && CutDone(t, file, pend, id, rid, sep) && t.file[id].nkeys == deg
    && par in t.lab && t.lab[par].lev == t.lab[id].lev + 1 && t.lab[par].Covers(k) && t.lab[id].Covers(k)
    && par !in pend && par < |file|
  }

  /** Before the parent gets the separator: a search leads to the cut page, and finds no such key. */
  lemma CutParent(t: Tree, deg: nat, file: seq<Image>, pend: map<nat, Image>, id: nat, rid: nat, sep: nat,
                  par: nat, k: nat)
    requires CutReady(t, deg, file, pend, id, rid, sep, par, k)
    ensures par != id && par != rid && par < |t.file| && file[par] == t.file[par]
    ensures file[par].nkeys < deg <= MAXNKEYS && Sorted(file[par])
    ensures forall r: nat :: Rank(file[par], sep, r) ==> Child(file[par], r) == id && !HasKey(file[par], sep)
  {
    hide PageFits;
    PageBasics(t, deg, id, par);
    SeparatorInside(t, deg, id, id, deg / 2);
    forall r: nat | Rank(file[par], sep, r) ensures Child(file[par], r) == id && !HasKey(file[par], sep) {
      SlotInParent(t, deg, id, par, id, k, sep, r);
    }
  }

  /** Giving the parent the separator completes the split. */
  lemma CutCompleted(t: Tree, deg: nat, file: seq<Image>, pend: map<nat, Image>, id: nat, rid: nat, sep: nat,
                     par: nat, k: nat, r: nat, P: Image)
    requires CutReady(t, deg, file, pend, id, rid, sep, par, k)
    requires Rank(file[par], sep, r) && file[par].nkeys < MAXNKEYS && P == Inserted(file[par], r, sep, rid)
    ensures WellFormed(Tree(Overlay(file, pend)[par := P], CutLabels(t.lab, id, rid, sep), t.m), deg,
                       if P.nkeys == deg then par else -1)
  {
    hide PageFits, Cut, K, Child;
    CutParent(t, deg, file, pend, id, rid, sep, par, k);
    InsertedSlots(file[par], r, sep, rid);
    var p := t.file[id];
    var t1 := t.(file := Overlay(file, pend)[id := p]);
    SamePages(t, deg, id, t1.file);
    var g := Growth(id, rid, par, r, sep, file[id], file[rid], P, t.m);
    SplitIsGrowth(t1, deg, g);
    GrowthWellFormed(t1, deg, id, g);
    assert g.After(t1).file == Overlay(file, pend)[par := P];
  }

  /** The part of a path above the page that was cut is still a path. */
  lemma PathAboveCut(lab: Labels, path: seq<nat>, k: nat, rid: nat, sep: nat)
    requires PathOf(lab, path, k) && |path| >= 2 && rid !in lab
    ensures PathOf(CutLabels(lab, path[|path| - 1], rid, sep), path[..|path| - 1], k)
  {
  }

  /** Pages below a level, with their labels, stay as they are. */
  ghost predicate KeptBelow(lab: Labels, lab': Labels, file: seq<Image>, file': seq<Image>, lev: nat)
  {
    forall x :: x in lab && lab[x].lev < lev && x < |file| ==>
                  x in lab' && lab'[x] == lab[x] && x < |file'| && file'[x] == file[x]
  }

  lemma KeptBelowTwice(lab0: Labels, lab1: Labels, lab2: Labels, f0: seq<Image>, f1: seq<Image>, f2: seq<Image>,
                       lev: nat, lev': nat)
    requires KeptBelow(lab0, lab1, f0, f1, lev) && KeptBelow(lab1, lab2, f1, f2, lev') && lev <= lev'
    ensures KeptBelow(lab0, lab2, f0, f2, lev)
  {
  }

  lemma KeptBelowWrite(lab: Labels, file: seq<Image>, id: nat, p: Image)
    requires id in lab && id < |file|
    ensures KeptBelow(lab, lab, file, file[id := p], lab[id].lev)
  {
  }

  /** How labels and file differ after page path[n-1] was cut and page rid was added. */
  ghost predicate CutOutcome(lab0: Labels, lab: Labels, file0: seq<Image>, file: seq<Image>, pend: map<nat, Image>,
                             path: seq<nat>, k: nat, rid: nat, deg: nat)
  {
    && |path| >= 2 && PathOf(lab0, path, k) && PathOf(lab, path[..|path| - 1], k)
    && var id, par := path[|path| - 1], path[|path| - 2];
    && par !in pend && par < |file| && lab0[par].lev == lab[par].lev == lab0[id].lev + 1
    && KeptBelow(lab0, lab, file0, file, lab0[id].lev)
    && (forall x :: x in pend ==> (x in lab <==> x in lab0))
    && rid in lab && rid < |file| && lab[rid].lev == lab0[id].lev
    && lab[rid].lo < lab[rid].hi == lab0[id].hi
    && (lab0[id].lev > 0 ==> file[rid].nkeys == deg - deg / 2 - 1)
  }

  /** Where a cascade goes on: at the parent, on the shortened path. */
  lemma CutOutcomeParent(lab0: Labels, lab: Labels, file0: seq<Image>, file: seq<Image>, pend: map<nat, Image>,
                         path: seq<nat>, k: nat, rid: nat, deg: nat)
    requires CutOutcome(lab0, lab, file0, file, pend, path, k, rid, deg)
    ensures |path| >= 2 && PathOf(lab, path[..|path| - 1], k)
    ensures path[|path| - 2] !in pend && path[|path| - 2] < |file|
  {
    hide PathOf, KeptBelow;
  }

  lemma PathInStorage(deg: nat, n: nat, free: set<nat>, lab: Labels, pend: map<nat, Image>, path: seq<nat>, k: nat)
    requires StorageFits(deg, n, free, lab, pend) && PathOf(lab, path, k)
    ensures path != [] && path[|path| - 1] in lab && path[|path| - 1] < n
  {
  }

  lemma CutHasOutcome(t: Tree, deg: nat, file0: seq<Image>, file: seq<Image>, pend: map<nat, Image>,
                      path: seq<nat>, k: nat, rid: nat, sep: nat)
    requires PathOf(t.lab, path, k) && |path| >= 2 && path[|path| - 2] !in pend && path[|path| - 2] < |file|
    requires WellFormed(t, deg, path[|path| - 1]) && CutDone(t, file, pend, path[|path| - 1], rid, sep)
    requires t.file[path[|path| - 1]].nkeys == deg
    requires forall x :: x in t.lab && x != path[|path| - 1] ==> x < |file0| && x < |file| && file[x] == file0[x]
    ensures CutOutcome(t.lab, CutLabels(t.lab, path[|path| - 1], rid, sep), file0, file, pend, path, k, rid, deg)
  {
    hide PageFits;
    var id := path[|path| - 1];
    SeparatorInside(t, deg, id, id, deg / 2);
    PathAboveCut(t.lab, path, k, rid, sep);
  }

  /** Free pages and pages still to be written are accounted for; n is the number of pages in the file. */
  ghost predicate StorageFits(deg: nat, n: nat, free: set<nat>, lab: Labels, pend: map<nat, Image>)
  {
    && 2 <= deg <= MAXNKEYS
    && (forall x :: x in free ==> 0 < x < n && x !in lab && x !in pend)
    && (forall x :: x in pend ==> 0 < x < n && (x in lab ==> lab[x].lev == 0))
    && 0 in lab && (forall x :: x in lab ==> x < n)
  }

  lemma FileNotEmpty(deg: nat, n: nat, free: set<nat>, lab: Labels, pend: map<nat, Image>)
    requires StorageFits(deg, n, free, lab, pend)
    ensures 0 < n && 0 in lab && 0 !in pend
  {
  }

  lemma StorageCut(deg: nat, n: nat, free: set<nat>, lab: Labels, pend: map<nat, Image>, id: nat, rid: nat, sep: nat)
    requires StorageFits(deg, n, free, lab, pend) && id in lab && id !in pend
    requires Unused(rid, lab, pend) && rid < n && rid !in free
    ensures StorageFits(deg, n, free, CutLabels(lab, id, rid, sep), pend)
  {
  }

  /** path ends in the last page of level lev; above the leaves, that page is a fresh right half. */
  ghost predicate RightEdge(lab: Labels, file: seq<Image>, path: seq<nat>, lev: nat, deg: nat)
  {
    && PathOf(lab, path, KEY_END - 1)
    && var last := path[|path| - 1];
       && lab[last].lev == lev && last < |file|
       && (lev > 0 ==> file[last].nkeys == deg - deg / 2 - 1)
  }

  /** What a split of page id did to the labels and the file, and to the path on the right edge. */
  ghost predicate SplitResult(lab0: Labels, lab: Labels, file0: seq<Image>, file: seq<Image>, pend: map<nat, Image>,
                              id: nat, path: seq<nat>, k: nat, deg: nat)
  {
    && id in lab0 && KeptBelow(lab0, lab, file0, file, lab0[id].lev)
    && (forall x :: x in pend ==> (x in lab <==> x in lab0))
    && (k == KEY_END - 1 ==> RightEdge(lab, file, path, lab0[id].lev, deg))
  }

  lemma CascadeResult(lab0: Labels, lab1: Labels, lab2: Labels, f0: seq<Image>, f1: seq<Image>, f2: seq<Image>,
                      pend: map<nat, Image>, path: seq<nat>, k: nat, rid: nat, deg: nat, above: seq<nat>)
    requires CutOutcome(lab0, lab1, f0, f1, pend, path, k, rid, deg) && lab0[path[|path| - 1]].hi <= KEY_END
    requires SplitResult(lab1, lab2, f1, f2, pend, path[|path| - 2], above, k, deg)
    ensures SplitResult(lab0, lab2, f0, f2, pend, path[|path| - 1], above + [rid], k, deg)
  {
    var lev := lab0[path[|path| - 1]].lev;
    KeptBelowTwice(lab0, lab1, lab2, f0, f1, f2, lev, lev + 1);
  }

  /** The parent had room: only it was rewritten. */
  lemma NoCascadeResult(lab0: Labels, lab: Labels, f0: seq<Image>, f1: seq<Image>, P: Image,
                        pend: map<nat, Image>, path: seq<nat>, k: nat, rid: nat, deg: nat)
    requires CutOutcome(lab0, lab, f0, f1, pend, path, k, rid, deg) && lab0[path[|path| - 1]].hi <= KEY_END
    ensures SplitResult(lab0, lab, f0, f1[path[|path| - 2] := P], pend, path[|path| - 1], path[..|path| - 1] + [rid], k, deg)
  {
    KeptBelowWrite(lab, f1, path[|path| - 2], P);
    var lev := lab0[path[|path| - 1]].lev;
    KeptBelowTwice(lab0, lab, lab, f0, f1, f1[path[|path| - 2] := P], lev, lev + 1);
  }

  lemma RootPath(lab: Labels, path: seq<nat>, k: nat)
    requires PathOf(lab, path, k) && path[|path| - 1] == 0
    ensures path == [0]
  {
  }

  /** The state of a root split once both halves and the new root image exist; file is the file before the writes. */
  ghost predicate RootCut(t: Tree, deg: nat, file0: seq<Image>, file: seq<Image>, free: set<nat>, pend: map<nat, Image>,
                          p: Image, g: RootGrowth)
  {
    && WellFormed(t, deg, 0) && 0 in t.lab && 0 < |file0| <= |file| && t.file == Overlay(file0, pend)[0 := p]
    && p.nkeys == deg
    && StorageFits(deg, |file|, free, t.lab, pend)
    && (forall x :: x in t.lab || x in pend ==> x < |file0| && file[x] == file0[x])
    && g.lid != g.rid && g.lid < |file| && g.rid < |file| && g.lid !in free && g.rid !in free
    && Unused(g.lid, t.lab, pend) && Unused(g.rid, t.lab, pend)
    && Cut(p, p.link == 1, g.L, g.R, g.sep)
    && g.L.ptype == g.R.ptype == (if p.link == 1 then LeafPage else ItnlPage)
    && g.L.link == g.rid && g.R.link == 0
    && g.root.ptype == p.ptype && g.root.nkeys == 1 && g.root.link == p.link + 1
    && Child(g.root, 0) == g.lid && K(g.root, 0) == g.sep && Child(g.root, 1) == g.rid
  }

  lemma RootCutIntro(t: Tree, deg: nat, file0: seq<Image>, file: seq<Image>, free: set<nat>, pend: map<nat, Image>,
                     p: Image, g: RootGrowth)
    requires WellFormed(t, deg, 0) && 0 in t.lab && 0 < |file0| <= |file| && t.file == Overlay(file0, pend)[0 := p]
    requires p.nkeys == deg && StorageFits(deg, |file|, free, t.lab, pend)
    requires forall x :: x in t.lab || x in pend ==> x < |file0| && file[x] == file0[x]
    requires g.lid != g.rid && g.lid < |file| && g.rid < |file| && g.lid !in free && g.rid !in free
    requires Unused(g.lid, t.lab, pend) && Unused(g.rid, t.lab, pend)
    requires Cut(p, p.link == 1, g.L, g.R, g.sep)
    requires g.L.ptype == g.R.ptype == (if p.link == 1 then LeafPage else ItnlPage)
    requires g.L.link == g.rid && g.R.link == 0
    requires g.root.ptype == p.ptype && g.root.nkeys == 1 && g.root.link == p.link + 1
    requires Child(g.root, 0) == g.lid && K(g.root, 0) == g.sep && Child(g.root, 1) == g.rid
    ensures RootCut(t, deg, file0, file, free, pend, p, g)
  {
    hide WellFormed, StorageFits, Cut, K, Child, Overlay;
  }

  lemma OverlayRoot(file: seq<Image>, pend: map<nat, Image>, p: Image, g: RootGrowth)
    requires 0 < |file| && g.lid < |file| && g.rid < |file| && 0 !in pend && g.lid !in pend && g.rid !in pend
    ensures Overlay(file, pend)[0 := p][g.lid := g.L][g.rid := g.R][0 := g.root] ==
            Overlay(file[g.lid := g.L][g.rid := g.R][0 := g.root], pend)
  {
  }

  /** Allocating the two new pages leaves the pages of the tree as they were. */
  lemma RootCutPages(t: Tree, deg: nat, file0: seq<Image>, file: seq<Image>, free: set<nat>, pend: map<nat, Image>,
                     p: Image, g: RootGrowth)
    requires RootCut(t, deg, file0, file, free, pend, p, g)
    ensures 0 < |file| && 0 !in pend && WellFormed(t.(file := Overlay(file, pend)[0 := p]), deg, 0)
  {
    hide WellFormed, Cut, K, Child;
    SamePages(t, deg, 0, Overlay(file, pend)[0 := p]);
  }

  /** Two new pages and a new root image complete the split of the root. */
  lemma RootCompleted(t: Tree, deg: nat, file0: seq<Image>, file: seq<Image>, free: set<nat>, pend: map<nat, Image>,
                      p: Image, g: RootGrowth)
    requires RootCut(t, deg, file0, file, free, pend, p, g)
    ensures WellFormed(Tree(Overlay(file[g.lid := g.L][g.rid := g.R][0 := g.root], pend),
                            RaisedLabels(t.lab, g.lid, g.rid, g.sep), t.m), deg, -1)
  {
    hide WellFormed, Cut, K, Child, StorageFits;
    RootCutPages(t, deg, file0, file, free, pend, p, g);
    var t1 := t.(file := Overlay(file, pend)[0 := p]);
    PageBasics(t1, deg, 0, 0);
    RootSplitIsGrowth(t1, deg, g);
    RootGrowthWellFormed(t1, deg, g);
    OverlayRoot(file, pend, p, g);
  }

  lemma RootCutStorage(t: Tree, deg: nat, file0: seq<Image>, file: seq<Image>, free: set<nat>, pend: map<nat, Image>,
                       p: Image, g: RootGrowth)
    requires RootCut(t, deg, file0, file, free, pend, p, g)
    ensures StorageFits(deg, |file|, free, RaisedLabels(t.lab, g.lid, g.rid, g.sep), pend)
  {
    hide WellFormed, Overlay, K, Child, Cut;
  }

  lemma RaisedResult(lab: Labels, lid: nat, rid: nat, sep: nat, file0: seq<Image>, file: seq<Image>,
                     pend: map<nat, Image>, k: nat, deg: nat)
    requires RootFits(lab) && Unused(lid, lab, pend) && Unused(rid, lab, pend) && lid != rid && 0 < sep < KEY_END
    requires rid < |file| && forall x :: x in lab && x != 0 ==> x < |file| && x < |file0| && file[x] == file0[x]
    requires lab[0].lev > 0 ==> file[rid].nkeys == deg - deg / 2 - 1
    ensures SplitResult(lab, RaisedLabels(lab, lid, rid, sep), file0, file, pend, 0, [0, rid], k, deg)
  {
  }

  lemma RootCutResult(t: Tree, deg: nat, file0: seq<Image>, file: seq<Image>, free: set<nat>, pend: map<nat, Image>,
                      p: Image, g: RootGrowth, k: nat)
    requires RootCut(t, deg, file0, file, free, pend, p, g)
    ensures SplitResult(t.lab, RaisedLabels(t.lab, g.lid, g.rid, g.sep), file0,
                        file[g.lid := g.L][g.rid := g.R][0 := g.root], pend, 0, [0, g.rid], k, deg)
  {
    hide WellFormed, Overlay, Child, LeafPrefix, LeafSuffix, SplitResult, RaisedLabels, StorageFits;
    TreeBasics(t, deg, 0);
    PageBasics(t, deg, 0, 0);
    SeparatorInside(t, deg, 0, 0, deg / 2);
    RaisedResult(t.lab, g.lid, g.rid, g.sep, file0, file[g.lid := g.L][g.rid := g.R][0 := g.root], pend, k, deg);
  }
}
