/**
 The B+ tree over the pager's file.  `contents` is the map the tree stands for and `labels` the
 ghost labelling of TreeShape; both are specification only.
 */
module BPlusTree {
  import opened Pages
  import opened TreeShape
  import opened Splits
  import opened Paging
  import opened Ranges
  import opened Cascades
  import opened Lookups
  import opened Loads
  import opened Sizes
  import opened Arithmetic

  class BPTree {
    const degree: nat
    const pager: Pager
    ghost var labels: Labels
    ghost var contents: map<nat, nat>

    /**
     Open a backing file; an empty one gets a root.  A sound tree that was stored is a sound tree
     again if its pages fit the degree; any file is opened.
     */
    constructor Open(degree: nat, stored: seq<Image>, ghost lab: Labels, ghost m: map<nat, nat>)
      requires 2 <= degree <= MAXNKEYS
      ensures contents == m && labels == lab && this.degree == degree && fresh(pager)
      ensures pager.file == if stored == [] then NEW_FILE else stored
      ensures WellFormed(Tree(pager.file, lab, m), degree, -1) <==> Valid()
      ensures stored == [] && lab == NEW_LABELS && m == map[] ==> Valid() && Grown()
    {
      hide WellFormed;
      this.degree := degree;
      pager := new Pager(stored);
      labels := lab;
      contents := m;
      new;
      FreshTree(degree);
      if WellFormed(Tree(pager.file, lab, m), degree, -1) { StoredPages(Tree(pager.file, lab, m), degree); }
    }

    ghost predicate Storage(pend: map<nat, Image>)
      reads this, pager
    {
      StorageFits(degree, |pager.file|, pager.freelist, labels, pend)
    }

    ghost predicate Valid()
      reads this, pager
    {
      && Storage(map[])
      && WellFormed(Tree(pager.file, labels, contents), degree, -1)
    }

    /** A tree of more than one page holds at least as many records as its degree. */
    ghost predicate Grown()
      reads this
    {
      Filled(labels, contents, degree)
    }

    ghost function Depth(): nat
      reads this
      requires 0 in labels
    {
      labels[0].lev + 1
    }

    /** Read a page of the tree into a new buffer. */
    method Fetch(pageid: nat) returns (page: Page)
      requires Valid() && pageid in labels
      ensures fresh(page) && fresh(page.content) && page.content.Length == CONTENTLEN
      ensures pageid < |pager.file| && page.Img() == pager.file[pageid]
      ensures page.nkeys < degree && Sorted(page.Img()) && page.ptype == TypeOf(pageid, labels[pageid])
      ensures pageid == 0 ==> page.link == Depth()
    {
      PageBasics(Tree(pager.file, labels, contents), degree, -1, pageid);
      page := new Page(EmptyPage);
      var ok := pager.ReadPage(pageid, page);
      assert ok;
    }

    /** The search inside one internal page: which child is responsible for key. */
    method PickChild(page: Page, ghost pageid: nat, key: Key) returns (idx: nat, childid: nat)
      requires Valid() && pageid in labels && labels[pageid].lev > 0 && labels[pageid].Covers(key)
      requires page.content.Length == CONTENTLEN && page.Img() == pager.file[pageid]
      requires page.nkeys < degree && Sorted(page.Img())
      ensures idx % 2 == 0 && Rank(pager.file[pageid], key, idx / 2)
      ensures childid == Child(pager.file[pageid], idx / 2) != 0
    {
      hide WellFormed, Sorted, Rank;
      idx := PageSearchKey(page, key);
      ghost var r := InjectPos(idx);
      RankBound(page.Img(), key, r);
      idx := if idx == 0 then 0 else idx + 1;
      childid := page.content[idx];
      ChildAtRank(Tree(pager.file, labels, contents), degree, -1, pageid, key, r);
      assert childid != 0;    // so the "got 0 as child" exception is unreachable
    }

    /** Walk from the root to the leaf responsible for key. */
    method TraverseToLeaf(key: Key) returns (path: seq<nat>, idx: nat)
      requires Valid()
      ensures PathOf(labels, path, key) && |path| == Depth()
      ensures |path| == 1 ==> idx == 0
      ensures |path| >= 2 ==>
                && idx % 2 == 0 && Rank(pager.file[path[|path| - 2]], key, idx / 2)
                && Child(pager.file[path[|path| - 2]], idx / 2) == path[|path| - 1]
    {
      hide WellFormed, Rank, Sorted, K, Child, StorageFits;
      TreeBasics(Tree(pager.file, labels, contents), degree, -1);
      var pageid, level, depth := 0, 0, 0;
      path := [];
      while true
        invariant level == |path| && level < Depth()
        invariant level == 0 || (level < Depth() - 1 && depth == Depth())
        invariant PathOf(labels, path + [pageid], key)
        decreases Depth() - level
      {
        path := path + [pageid];
        assert pageid == path[level];
        var page := Fetch(pageid);
        if level == 0 {
          depth := page.link;
          if depth == 1 { return path, 0; }
        }
        var childid;
        idx, childid := PickChild(page, pageid, key);
        PathStep(Tree(pager.file, labels, contents), degree, path, key, idx / 2);
        level := level + 1;
        if level == depth - 1 {
          path := path + [childid];
          return;
        }
        pageid := childid;
      }
    }

    /** The map's answer for a key: Get finds the key exactly when the tree's map has it. */
    method Get(key: Key) returns (found: bool, value: nat)
      requires Valid()
      ensures found <==> key in contents
      ensures found ==> value == contents[key]
    {
      hide WellFormed, Sorted, Rank;
      var path, _ := TraverseToLeaf(key);
      var leafid := path[|path| - 1];
      var page := Fetch(leafid);
      var idx := PageSearchKey(page, key);
      RankBound(page.Img(), key, InjectPos(idx));
      LeafAnswer(Tree(pager.file, labels, contents), degree, leafid, key, InjectPos(idx));
      if idx == 0 || page.content[idx] != key {
        return false, 0;
      }
      return true, page.content[idx + 1];
    }

    /** Insert or overwrite one record. */
    method Put(key: Key, value: nat)
      requires Valid()
      modifies this, pager
      ensures Valid() && contents == old(contents)[key := value]
      ensures old(Grown()) ==> Grown()
    {
      hide WellFormed, StorageFits, Sorted, Rank, SplitResult, LeafInjected;
      ghost var t := Tree(pager.file, labels, contents);
      TreeBasics(t, degree, -1);
      var path, _ := TraverseToLeaf(key);
      var leafid := path[|path| - 1];
      var page := Fetch(leafid);
      var idx := PageSearchKey(page, key);
      RankBound(page.Img(), key, InjectPos(idx));
      PutIntoLeaf(t, degree, leafid, idx, key, value);
      LeafPageInject(page, idx, key, value);
      contents := contents[key := value];
      OverlayNone(pager.file);
      if old(Grown()) { PutKeepsGrown(t, leafid, page.Img(), key, value); }
      if page.nkeys >= degree {
        var _ := SplitPage(leafid, page, path, key, map[], labels, pager.file);
        OverlayNone(pager.file);
        TreeBasics(Tree(pager.file, labels, contents), degree, -1);
      } else {
        pager.WritePage(leafid, page);
      }
    }

    lemma PutKeepsGrown(t: Tree, leafid: nat, q: Image, key: nat, value: nat)
      requires leafid in t.lab && leafid < |t.file| && Filled(t.lab, t.m, degree)
      requires WellFormed(Tree(t.file[leafid := q], t.lab, t.m[key := value]), degree,
                          if q.nkeys == degree then leafid else -1)
      ensures Filled(t.lab, t.m[key := value], degree)
      ensures q.nkeys >= degree ==> |t.m[key := value]| >= degree
    {
      hide WellFormed;
      LargeEnough(Tree(t.file[leafid := q], t.lab, t.m[key := value]), degree, t.m, leafid,
                  if q.nkeys == degree then leafid else -1, key, value);
    }

    /** Append children lidx/2 to ridx/2 of an internal page to the list of leaves. */
    method AppendKids(page: Page, lidx: nat, ridx: nat, leaves0: seq<nat>) returns (leaves: seq<nat>)
      requires page.content.Length == CONTENTLEN && ridx < CONTENTLEN
      requires lidx % 2 == 0 && ridx % 2 == 0 && lidx <= ridx
      ensures leaves == leaves0 + Kids(page.Img(), lidx / 2, ridx / 2 + 1)
    {
      leaves := leaves0;
      var idx := lidx;
      while idx <= ridx
        invariant lidx <= idx <= ridx + 2 && idx % 2 == 0
        invariant leaves == leaves0 + Kids(page.Img(), lidx / 2, idx / 2)
      {
        leaves := leaves + [page.content[idx]];
        idx := idx + 2;
        assert Kids(page.Img(), lidx / 2, idx / 2) ==
               Kids(page.Img(), lidx / 2, idx / 2 - 1) + [Child(page.Img(), idx / 2 - 1)];
      }
    }

    /** Which children of page itnlid a scan needs, as content indices. */
    method GatherBounds(nkeys: nat, itnlid: nat, litnlid: nat, litnlidx: nat, ritnlid: nat, ritnlidx: nat,
                        ghost p: Image, ghost lkey: nat, ghost rkey: nat) returns (lidx: nat, ridx: nat)
      requires p.nkeys == nkeys && litnlidx % 2 == 0 && ritnlidx % 2 == 0 && lkey <= rkey
      requires itnlid == litnlid ==> Rank(p, lkey, litnlidx / 2)
      requires itnlid == ritnlid ==> Rank(p, rkey, ritnlidx / 2)
      ensures lidx % 2 == 0 && ridx % 2 == 0 && lidx <= ridx <= 2 * nkeys
      ensures if itnlid == litnlid then Rank(p, lkey, lidx / 2) else lidx == 0
      ensures if itnlid == ritnlid then Rank(p, rkey, ridx / 2) else ridx == 2 * nkeys
    {
      hide Rank;
      lidx, ridx := 0, nkeys * 2;
      if itnlid == litnlid { lidx := litnlidx; RankBound(p, lkey, lidx / 2); }
      if itnlid == ritnlid { ridx := ritnlidx; RankBound(p, rkey, ridx / 2); }
      if itnlid == litnlid && itnlid == ritnlid { RankOrder(p, lkey, rkey, lidx / 2, ridx / 2); }
    }

    /** Read one last-level internal page and append the leaves the scan needs from it. */
    method GatherOne(itnlid: nat, litnlid: nat, litnlidx: nat, ritnlid: nat, ritnlidx: nat,
                     ghost lkey: nat, ghost rkey: nat, leaves0: seq<nat>) returns (leaves: seq<nat>, next: nat)
      requires Valid() && Gathering(labels, leaves0, itnlid, litnlid, ritnlid, lkey, rkey)
      requires litnlid < |pager.file| && ritnlid < |pager.file| && litnlidx % 2 == 0 && ritnlidx % 2 == 0
      requires Rank(pager.file[litnlid], lkey, litnlidx / 2) && Rank(pager.file[ritnlid], rkey, ritnlidx / 2)
      ensures itnlid < |pager.file| && next == pager.file[itnlid].link
      ensures Gathered(labels, leaves, itnlid, ritnlid, lkey, rkey)
    {
      hide WellFormed, StorageFits, Rank, Sorted, LeafRun, Gathering, Gathered, Kids;
      ghost var t := Tree(pager.file, labels, contents);
      TreeBasics(t, degree, -1);
      GatheringPage(labels, leaves0, itnlid, litnlid, ritnlid, lkey, rkey);
      var page := Fetch(itnlid);
      var lidx, ridx := GatherBounds(page.nkeys, itnlid, litnlid, litnlidx, ritnlid, ritnlidx, page.Img(), lkey, rkey);
      GatherStep(t, degree, leaves0, itnlid, litnlid, ritnlid, lkey, rkey, lidx / 2, ridx / 2);
      leaves := AppendKids(page, lidx, ridx, leaves0);
      next := page.link;
    }

    /** The leaves a scan has to read: follow last-level internal pages from the left to the right one. */
    method GatherLeaves(litnlid: nat, litnlidx: nat, ritnlid: nat, ritnlidx: nat, ghost lkey: nat, ghost rkey: nat)
        returns (leaves: seq<nat>)
      requires Valid() && Gathering(labels, [], litnlid, litnlid, ritnlid, lkey, rkey)
      requires litnlid < |pager.file| && ritnlid < |pager.file| && litnlidx % 2 == 0 && ritnlidx % 2 == 0
      requires Rank(pager.file[litnlid], lkey, litnlidx / 2) && Rank(pager.file[ritnlid], rkey, ritnlidx / 2)
      ensures LeafRun(labels, leaves) && 0 < |leaves|
      ensures labels[leaves[0]].Covers(lkey) && labels[leaves[|leaves| - 1]].Covers(rkey)
    {
      hide WellFormed, StorageFits, Rank, LeafRun;
      leaves := [];
      var itnlid := litnlid;
      while true
        invariant Gathering(labels, leaves, itnlid, litnlid, ritnlid, lkey, rkey)
        decreases KEY_END - labels[itnlid].lo
      {
        ghost var leaves0 := leaves;
        var next;
        leaves, next := GatherOne(itnlid, litnlid, litnlidx, ritnlid, ritnlidx, lkey, rkey, leaves);
        if itnlid == ritnlid { return; }
        GatherNext(Tree(pager.file, labels, contents), degree, leaves0, itnlid, litnlid, ritnlid, lkey, rkey, leaves);
        itnlid := next;
      }
    }

    /** Append the records at content indices lidx, lidx + 2, ..., ridx. */
    method AppendRecords(page: Page, lidx: nat, ridx: nat, ghost a: nat, ghost b: nat, results0: seq<Record>)
        returns (results: seq<Record>)
      requires page.content.Length == CONTENTLEN && page.nkeys <= MAXNKEYS && a <= b <= page.nkeys
      requires lidx == 2 * a + 1 && ridx == (if b == 0 then 0 else 2 * b - 1)
      ensures results == results0 + Records(page.Img(), a, b)
    {
      ghost var p, n := page.Img(), a;
      results := results0;
      var idx := lidx;
      while idx <= ridx
        invariant a <= n <= b && idx == 2 * n + 1
        invariant results == results0 + Records(p, a, n)
      {
        results := results + [(page.content[idx], page.content[idx + 1])];
        idx, n := idx + 2, n + 1;
        assert Records(p, a, n) == Records(p, a, n - 1) + [(K(p, n - 1), V(p, n - 1))];
      }
    }

    /** Content index of the first record of a leaf with key >= lkey; all records before it are smaller. */
    method LeftBound(page: Page, lkey: nat) returns (lidx: nat)
      requires page.content.Length == CONTENTLEN && page.nkeys <= MAXNKEYS && Sorted(page.Img())
      ensures lidx % 2 == 1 && Below(page.Img(), lkey, lidx / 2)
    {
      var idx := PageSearchKey(page, lkey);
      ghost var r := InjectPos(idx);
      if idx != 0 && page.content[idx] == lkey {
        lidx := idx;
        BelowExact(page.Img(), lkey, r);
      } else if idx == 0 {
        lidx := 1;
      } else {
        lidx := idx + 2;
        NotHasKey(page.Img(), lkey, r);
      }
    }

    /** Append the records of one leaf that the scan of [lkey, rkey] needs: those from x up to y. */
    method ScanLeaf(leafid: nat, lkey: nat, rkey: nat, isLeft: bool, isRight: bool, results0: seq<Record>,
                    ghost x: nat, ghost y: nat) returns (results: seq<Record>)
      requires Valid() && leafid in labels && leafid != 0 && labels[leafid].lev == 0
      requires labels[leafid].lo <= x <= y <= labels[leafid].hi
      requires x == (if isLeft then lkey else labels[leafid].lo) && y == (if isRight then rkey + 1 else labels[leafid].hi)
      ensures results0 <= results && IsRange(results[|results0|..], contents, x, y)
    {
      hide WellFormed, StorageFits, Rank, Sorted, IsRange, Holds;
      ghost var t := Tree(pager.file, labels, contents);
      TreeBasics(t, degree, -1);
      LeafContents(t, degree, -1, leafid);
      var page := Fetch(leafid);
      ghost var p := page.Img();
      ghost var a, b := 0, page.nkeys;
      var lidx, ridx := 1, page.nkeys * 2 - 1;
      LeafEnds(p, labels[leafid].lo, labels[leafid].hi, contents);
      if isLeft {
        lidx := LeftBound(page, lkey);
        a := lidx / 2;
      }
      if isRight {
        ridx := PageSearchKey(page, rkey);
        b := InjectPos(ridx);
        RankIsBelow(p, rkey, b);
      }
      LeafRange(p, labels[leafid].lo, labels[leafid].hi, contents, x, y, a, b);
      results := AppendRecords(page, lidx, ridx, a, b, results0);
      assert results[|results0|..] == Records(p, a, b);
    }

    /**
     Append the records with lkey <= key <= rkey in key order.  With a tree of depth one the code
     indexes the path at size - 2, which is out of range.
     */
    method Scan(lkey: Key, rkey: Key, results0: seq<Record>) returns (r: ScanResult, results: seq<Record>)
      requires Valid()
      ensures r == OutOfRange <==> lkey <= rkey && Depth() == 1
      ensures Grown() ==> (r == OutOfRange <==> lkey <= rkey && |contents| < degree)
      ensures r == OutOfRange ==> results == results0
      ensures r.Scanned? ==>
                && |results| == |results0| + r.nrecords && results[..|results0|] == results0
                && IsRange(results[|results0|..], contents, lkey, rkey + 1)
    {
      hide WellFormed, StorageFits, Rank, LeafRun, IsRange, Filled;
      if Grown() { OnePage(Tree(pager.file, labels, contents), degree); }
      if lkey > rkey {
        EmptyRange(contents, lkey, rkey + 1);
        assert results0[|results0|..] == [];
        return Scanned(0), results0;
      }
      var lpath, litnlidx := TraverseToLeaf(lkey);
      var rpath, ritnlidx := TraverseToLeaf(rkey);
      if |lpath| < 2 { return OutOfRange, results0; }
      GatherStart(Tree(pager.file, labels, contents), degree, lpath[|lpath| - 2], rpath[|rpath| - 2], lkey, rkey);
      var leaves := GatherLeaves(lpath[|lpath| - 2], litnlidx, rpath[|rpath| - 2], ritnlidx, lkey, rkey);
      results := ScanLeaves(leaves, lpath[|lpath| - 1], rpath[|rpath| - 1], lkey, rkey, results0);
      r := Scanned(|results| - |results0|);
    }

    /** Read the leaves in turn; only the two boundary leaves need a search. */
    method ScanLeaves(leaves: seq<nat>, lleafid: nat, rleafid: nat, lkey: nat, rkey: nat, results0: seq<Record>)
        returns (results: seq<Record>)
      requires Valid() && LeafRun(labels, leaves) && 0 < |leaves| && lkey <= rkey
      requires lleafid in labels && labels[lleafid].lev == 0 && labels[lleafid].Covers(lkey)
      requires rleafid in labels && labels[rleafid].lev == 0 && labels[rleafid].Covers(rkey)
      requires labels[leaves[0]].Covers(lkey) && labels[leaves[|leaves| - 1]].Covers(rkey)
      ensures results0 <= results && IsRange(results[|results0|..], contents, lkey, rkey + 1)
    {
      hide WellFormed, StorageFits, IsRange, LeafRun;
      ghost var t := Tree(pager.file, labels, contents);
      results := results0;
      EmptyRange(contents, lkey, lkey);
      assert results[|results0|..] == [];
      for i := 0 to |leaves|
        invariant results0 <= results
        invariant IsRange(results[|results0|..], contents, lkey, ScanBound(labels, leaves, i, lkey, rkey))
      {
        RunPosition(t, degree, leaves, lleafid, rleafid, lkey, rkey, i);
        ghost var x, y := ScanBound(labels, leaves, i, lkey, rkey), ScanBound(labels, leaves, i + 1, lkey, rkey);
        ghost var before := results;
        results := ScanLeaf(leaves[i], lkey, rkey, leaves[i] == lleafid, leaves[i] == rleafid, results, x, y);
        RangeAppend(before[|results0|..], results[|before|..], contents, lkey, x, y);
        assert results[|results0|..] == before[|results0|..] + results[|before|..];
      }
    }

    method NewPage(ghost pend: map<nat, Image>) returns (id: nat)
      requires Storage(pend)
      modifies pager
      ensures Storage(pend) && id < |pager.file| && Unused(id, labels, pend)
      ensures OnlyPage(old(pager.file), pager.file, id)
      ensures pager.freelist == old(pager.freelist) - {id} && (id in old(pager.freelist) || id == old(|pager.file|))
    {
      id := pager.AllocPage();
    }

    /** Move the upper half of a full page to a new right sibling; the parent is not told yet. */
    method CutOff(pageid: nat, page: Page, ghost pend: map<nat, Image>, ghost t: Tree) returns (rpageid: nat, mkey: nat)
      requires Storage(pend) && page.content.Length == CONTENTLEN && page.nkeys == degree
      requires pageid in labels && pageid != 0 && pageid !in pend && page.ptype == TypeOf(pageid, labels[pageid])
      requires t == Tree(Overlay(pager.file, pend)[pageid := page.Img()], labels, contents)
      modifies pager, page, page.content
      ensures Storage(pend) && CutDone(t, pager.file, pend, pageid, rpageid, mkey)
      ensures rpageid < |pager.file| && rpageid !in pager.freelist
      ensures page.Img() == pager.file[pageid] && Unused(rpageid, labels, pend)
      ensures mkey == K(t.file[pageid], degree / 2)
      ensures forall x :: x in labels && x != pageid ==> pager.file[x] == old(pager.file)[x]
    {
      hide Cut, CutDone, OnlyPage, Overlay;
      ghost var file0 := pager.file;
      var rpage := new Page(page.ptype);
      rpageid := NewPage(pend);
      ghost var file1, p := pager.file, page.Img();
      mkey := Halve(page, rpage, rpageid);
      pager.WritePage(rpageid, rpage);
      pager.WritePage(pageid, page);
      CutStored(t, file0, file1, pend, pageid, rpageid, mkey, p, page.Img(), rpage.Img());
    }

    /** Read the parent of a page that was cut and put the separator into it, in memory. */
    method InsertUp(pageid: nat, rpageid: nat, mkey: nat, parentid: nat,
                    ghost pend: map<nat, Image>, ghost t: Tree, ghost k: nat) returns (parent: Page)
      requires CutReady(t, degree, pager.file, pend, pageid, rpageid, mkey, parentid, k)
      ensures fresh(parent) && fresh(parent.content) && parent.content.Length == CONTENTLEN
      ensures parentid != pageid && parentid != rpageid
      ensures WellFormed(Tree(Overlay(pager.file, pend)[parentid := parent.Img()],
                              CutLabels(t.lab, pageid, rpageid, mkey), t.m), degree,
                         if parent.nkeys == degree then parentid else -1)
      ensures parent.nkeys <= degree && parent.ptype == pager.file[parentid].ptype
    {
      hide WellFormed, CutDone, Sorted;
      CutParent(t, degree, pager.file, pend, pageid, rpageid, mkey, parentid, k);
      parent := new Page(EmptyPage);
      var ok := pager.ReadPage(parentid, parent);
      assert ok;
      ghost var p := parent.Img();
      var idx := PageSearchKey(parent, mkey);
      ghost var r := InjectPos(idx);
      var outcome := ItnlPageInject(parent, idx, mkey, pageid, rpageid);
      assert outcome == Done;   // so both exceptions of ItnlPageInject are unreachable
      CutCompleted(t, degree, pager.file, pend, pageid, rpageid, mkey, parentid, k, r, parent.Img());
    }

    /** Page `pageid` on the path of k is full in memory; written back, the tree would be sound. */
    ghost predicate SplitReady(pageid: nat, img: Image, path: seq<nat>, k: nat, pend: map<nat, Image>)
      reads this, pager
    {
      && Storage(pend) && PathOf(labels, path, k) && path[|path| - 1] == pageid && pageid !in pend
      && WellFormed(Tree(Overlay(pager.file, pend)[pageid := img], labels, contents), degree, pageid)
      && img.nkeys == degree
    }

    /** The tree is sound once the pending pages are written. */
    ghost predicate Sound(pend: map<nat, Image>)
      reads this, pager
    {
      Storage(pend) && WellFormed(Tree(Overlay(pager.file, pend), labels, contents), degree, -1)
    }

    /** Cut a full page in two and put the separator into its parent, which is not written yet. */
    method CutAndInsert(pageid: nat, page: Page, path0: seq<nat>, ghost k: nat, ghost pend: map<nat, Image>)
        returns (rpageid: nat, parent: Page)
      requires page.content.Length == CONTENTLEN && SplitReady(pageid, page.Img(), path0, k, pend) && pageid != 0
      modifies `labels, pager, page, page.content
      ensures fresh(parent) && fresh(parent.content) && parent.content.Length == CONTENTLEN
      ensures Storage(pend) && parent.nkeys <= degree
      ensures CutOutcome(old(labels), labels, old(pager.file), pager.file, pend, path0, k, rpageid, degree)
      ensures WellFormed(Tree(Overlay(pager.file, pend)[path0[|path0| - 2] := parent.Img()], labels, contents),
                         degree, if parent.nkeys == degree then path0[|path0| - 2] else -1)
    {
      hide WellFormed, CutDone, Overlay, CutOutcome;
      var n := |path0|;
      assert path0[n - 1] == pageid && pageid < |pager.file|;
      ghost var t, file0 := Tree(Overlay(pager.file, pend)[pageid := page.Img()], labels, contents), pager.file;
      PageBasics(t, degree, pageid, pageid);
      var parentid := path0[n - 2];
      assert parentid !in pend && parentid < |pager.file|;
      hide StorageFits;
      var mkey;
      rpageid, mkey := CutOff(pageid, page, pend, t);
      parent := InsertUp(pageid, rpageid, mkey, parentid, pend, t, k);
      CutHasOutcome(t, degree, file0, pager.file, pend, path0, k, rpageid, mkey);
      StorageCut(degree, |pager.file|, pager.freelist, labels, pend, pageid, rpageid, mkey);
      labels := CutLabels(labels, pageid, rpageid, mkey);
    }

    /** Split a full page and tell its parent, splitting that one in turn if it becomes full. */
    method SplitOther(pageid: nat, page: Page, path0: seq<nat>, ghost k: nat, ghost pend: map<nat, Image>,
                      ghost lab0: Labels, ghost file0: seq<Image>) returns (path: seq<nat>)
      requires page.content.Length == CONTENTLEN && SplitReady(pageid, page.Img(), path0, k, pend) && pageid != 0
      requires lab0 == labels && file0 == pager.file
      modifies `labels, pager, page, page.content
      ensures Sound(pend) && SplitResult(lab0, labels, file0, pager.file, pend, pageid, path, k, degree)
      decreases |path0|, 0
    {
      hide WellFormed, Overlay, SplitResult, StorageFits, CutOutcome, PathOf;
      PathInStorage(degree, |pager.file|, pager.freelist, labels, pend, path0, k);
      PageBasics(Tree(Overlay(pager.file, pend)[pageid := page.Img()], labels, contents), degree, pageid, pageid);
      var rpageid, parent := CutAndInsert(pageid, page, path0, k, pend);
      ghost var lab1, file1 := labels, pager.file;
      CutOutcomeParent(lab0, lab1, file0, file1, pend, path0, k, rpageid, degree);
      path := path0[..|path0| - 1];
      var parentid := path0[|path0| - 2];
      if parent.nkeys >= degree {
        path := SplitPage(parentid, parent, path, k, pend, lab1, file1);
        CascadeResult(lab0, lab1, labels, file0, file1, pager.file, pend, path0, k, rpageid, degree, path);
      } else {
        OverlayUpdate(pager.file, pend, parentid, parent.Img());
        NoCascadeResult(lab0, lab1, file0, file1, parent.Img(), pend, path0, k, rpageid, degree);
        pager.WritePage(parentid, parent);
      }
      path := path + [rpageid];
    }

    method TwoNewPages(ghost pend: map<nat, Image>, ghost file0: seq<Image>) returns (lid: nat, rid: nat)
      requires Storage(pend) && file0 == pager.file
      modifies pager
      ensures Storage(pend) && lid != rid && lid < |pager.file| && rid < |pager.file|
      ensures Unused(lid, labels, pend) && Unused(rid, labels, pend)
      ensures lid !in pager.freelist && rid !in pager.freelist
      ensures 0 < |file0| <= |pager.file|
      ensures forall x :: x in labels || x in pend ==> x < |file0| && pager.file[x] == file0[x]
    {
      lid := NewPage(pend);
      rid := NewPage(pend);
    }

    /** Write the two halves of the full root and the new root page. */
    method CutRoot(page: Page, ghost pend: map<nat, Image>, ghost file0: seq<Image>, ghost t: Tree)
        returns (lpageid: nat, rpageid: nat, mkey: nat, ghost file: seq<Image>, ghost g: RootGrowth)
      requires page.content.Length == CONTENTLEN && Storage(pend) && file0 == pager.file
      requires 0 < |file0| && t == Tree(Overlay(file0, pend)[0 := page.Img()], labels, contents)
      requires WellFormed(t, degree, 0) && page.nkeys == degree
      modifies pager, page, page.content
      ensures RootCut(t, degree, file0, file, pager.freelist, pend, old(page.Img()), g)
      ensures g.lid == lpageid && g.rid == rpageid && g.sep == mkey
      ensures pager.file == file[g.lid := g.L][g.rid := g.R][0 := g.root] && |pager.file| == |file|
    {
      hide WellFormed, Overlay, Cut, Child, K, RootCut, StorageFits;
      TreeBasics(t, degree, 0);
      ghost var p := page.Img();
      lpageid, rpageid := TwoNewPages(pend, file0);
      file := pager.file;
      var lpage := new Page(if page.link == 1 then LeafPage else ItnlPage);
      var rpage := new Page(if page.link == 1 then LeafPage else ItnlPage);
      mkey := HalveRoot(page, lpage, rpage, lpageid, rpageid);
      pager.WritePage(lpageid, lpage);
      pager.WritePage(rpageid, rpage);
      pager.WritePage(0, page);
      g := RootGrowth(lpageid, rpageid, mkey, lpage.Img(), rpage.Img(), page.Img());
      RootCutIntro(t, degree, file0, file, pager.freelist, pend, p, g);
    }

    /** Split the full root into two new pages; the tree gets one level deeper. */
    method SplitRoot(page: Page, ghost k: nat, ghost pend: map<nat, Image>,
                     ghost lab0: Labels, ghost file0: seq<Image>) returns (rpageid: nat)
      requires page.content.Length == CONTENTLEN && SplitReady(0, page.Img(), [0], k, pend)
      requires lab0 == labels && file0 == pager.file
      modifies `labels, pager, page, page.content
      ensures Sound(pend) && SplitResult(lab0, labels, file0, pager.file, pend, 0, [0, rpageid], k, degree)
    {
      hide WellFormed, Overlay, SplitResult, RootCut, StorageFits;
      FileNotEmpty(degree, |pager.file|, pager.freelist, labels, pend);
      ghost var p := page.Img();
      ghost var t := Tree(Overlay(file0, pend)[0 := p], labels, contents);
      var lpageid, mkey;
      ghost var file, g;
      lpageid, rpageid, mkey, file, g := CutRoot(page, pend, file0, t);
      RootCompleted(t, degree, file0, file, pager.freelist, pend, p, g);
      RootCutStorage(t, degree, file0, file, pager.freelist, pend, p, g);
      RootCutResult(t, degree, file0, file, pager.freelist, pend, p, g, k);
      labels := RaisedLabels(labels, lpageid, rpageid, mkey);
    }

    /** Split the given full page; cascades up the path and ends at the root at the latest. */
    method SplitPage(pageid: nat, page: Page, path0: seq<nat>, ghost k: nat, ghost pend: map<nat, Image>,
                     ghost lab0: Labels, ghost file0: seq<Image>) returns (path: seq<nat>)
      requires page.content.Length == CONTENTLEN && SplitReady(pageid, page.Img(), path0, k, pend)
      requires lab0 == labels && file0 == pager.file
      modifies `labels, pager, page, page.content
      ensures Sound(pend) && SplitResult(lab0, labels, file0, pager.file, pend, pageid, path, k, degree)
      decreases |path0|, 1
    {
      hide WellFormed, Overlay, SplitResult;
      assert path0[|path0| - 1] == pageid && pageid < |pager.file|;
      hide StorageFits;
      PageBasics(Tree(Overlay(pager.file, pend)[pageid := page.Img()], labels, contents), degree, pageid, pageid);
      if page.ptype == RootPage {
        RootPath(labels, path0, k);
        var rpageid := SplitRoot(page, k, pend, lab0, file0);
        path := path0 + [rpageid];
        assert path == [0, rpageid];
      } else {
        path := SplitOther(pageid, page, path0, k, pend, lab0, file0);
      }
    }

    // ---- Bulk loading ----

    ghost predicate Loading(itnl: Image, s: Progress, full: int)
      reads this, pager
    {
      LoadState(degree, pager.file, pager.freelist, labels, contents, itnl, s, full)
    }

    /** Append the separator of the next leaf to the last internal page. */
    method InjectLast(itnl: Page, itnlpos: nat, key: nat, lleafid: nat, leafid: nat,
                      ghost s: Progress, ghost b: nat, ghost R: Image)
      requires itnl.content.Length == CONTENTLEN && itnlpos == itnl.nkeys
      requires Loading(itnl.Img(), s, -1) && FitsNext(s, b, degree, R) && key == s.records[s.done].0
      requires lleafid == s.leaves[|s.pages| - 1] && leafid == s.leaves[|s.pages|]
      modifies itnl, itnl.content, `labels, `contents
      ensures itnl.nkeys == old(itnl.nkeys) + 1 <= degree
      ensures Loading(itnl.Img(), s.Next(b, R), if itnl.nkeys == degree then s.Last() else -1)
    {
      hide LoadState, LeafOf, K, Child, Inserted;
      ghost var p := itnl.Img();
      RoomForNext(degree, pager.file, pager.freelist, labels, contents, p, s);
      var searchIdx := if itnlpos == 0 then 0 else itnlpos * 2 - 1;
      assert InjectPos(searchIdx) == itnlpos;
      var outcome := ItnlPageInject(itnl, searchIdx, key, lleafid, leafid);
      assert outcome == Done;
      InsertedSlots(p, itnlpos, key, leafid);
      NextAppended(degree, pager.file, pager.freelist, labels, contents, p, s, b, R, itnl.Img());
      contents := Extend(contents, s.records, s.done, b);
      labels := CutLabels(labels, lleafid, leafid, key);
    }

    /** Split the full last internal page; the load goes on at the new end of its level. */
    method SplitLast(itnl: Page, path0: seq<nat>, ghost s: Progress) returns (path: seq<nat>)
      requires itnl.content.Length == CONTENTLEN && itnl.nkeys == degree
      requires Loading(itnl.Img(), s, s.Last()) && path0 == s.path && path0 != []
      modifies `labels, pager, itnl, itnl.content
      ensures path != [] && path[|path| - 1] < |pager.file|
      ensures pager.file[path[|path| - 1]].nkeys == degree - degree / 2 - 1
      ensures Loading(pager.file[path[|path| - 1]], s.(path := path), -1)
    {
      hide WellFormed, StorageFits, Pended, PathOf, IsRange, Ascending, SplitResult, Overlay;
      ghost var file0, free0, lab0, p := pager.file, pager.freelist, labels, itnl.Img();
      path := SplitPage(path0[|path0| - 1], itnl, path0, KEY_END - 1, s.pend, labels, pager.file);
      LoadAfterSplit(degree, file0, pager.file, free0, pager.freelist, lab0, labels, contents, p, s, path);
    }

    ghost predicate Ongoing(itnl: Image, s: Progress)
      reads this, pager
    {
      LoadOngoing(degree, pager.file, pager.freelist, labels, contents, itnl, s)
    }

    /** The first leaf becomes the only child of the root. */
    method HangFirst(itnl: Page, leafid: nat, ghost s: Progress, ghost b: nat, ghost R: Image)
      requires itnl.content.Length == CONTENTLEN
      requires Ongoing(itnl.Img(), s) && s.pages == [] && s.leaves != [] && leafid == s.leaves[0]
      requires 0 < b <= |s.records| && b < degree && LeafOf(R, s.records, 0, b)
      requires R.ptype == LeafPage && R.link == NextLeaf(s.leaves, 0)
      modifies itnl, itnl.content, `labels, `contents
      ensures itnl.nkeys == 0 && Ongoing(itnl.Img(), FirstProgress(s, b, R))
    {
      hide StorageFits, LeafOf, LoadState, Allocated;
      ghost var p := itnl.Img();
      itnl.content[0] := leafid;
      itnl.link := 2;
      FirstAppended(degree, pager.file, pager.freelist, labels, contents, p, s, b, R, itnl.Img());
      contents := Extend(map[], s.records, 0, b);
      labels := map[0 := Label(1, 0, KEY_END), leafid := Label(0, 0, KEY_END)];
    }

    /** Append the next leaf's separator, splitting the last internal page if that fills it. */
    method HangNext(itnl: Page, itnlpos0: nat, path0: seq<nat>, key: nat, lleafid: nat, leafid: nat,
                    ghost s: Progress, ghost b: nat, ghost R: Image)
        returns (itnlpos: nat, path: seq<nat>)
      requires itnl.content.Length == CONTENTLEN && itnlpos0 == itnl.nkeys && path0 == s.path != []
      requires Loading(itnl.Img(), s, -1) && FitsNext(s, b, degree, R) && key == s.records[s.done].0
      requires lleafid == s.leaves[|s.pages| - 1] && leafid == s.leaves[|s.pages|]
      modifies itnl, itnl.content, `labels, `contents, pager
      ensures itnlpos == itnl.nkeys && path != []
      ensures Loading(itnl.Img(), s.Next(b, R).(path := path), -1)
    {
      hide LoadState, LeafOf, PendNext;
      path := path0;
      InjectLast(itnl, itnlpos0, key, lleafid, leafid, s, b, R);
      if itnl.nkeys >= degree {
        path := SplitLast(itnl, path, s.Next(b, R));
        var ok := pager.ReadPage(path[|path| - 1], itnl);
        assert ok;
        itnlpos := degree - degree / 2 - 1;
      } else {
        itnlpos := itnlpos0 + 1;
        assert s.Next(b, R).(path := path) == s.Next(b, R);
      }
    }

    /** Make the page of a leaf from the buffered records. */
    method FillLeaf(leaf: Page, content: array<nat>, n: nat, next: nat, ghost records: seq<Record>, ghost a: nat)
      requires leaf.content.Length == CONTENTLEN && content != leaf.content && content.Length <= CONTENTLEN
      requires Buffered(content[..], records, a, n) && n <= MAXNKEYS
      modifies leaf, leaf.content
      ensures leaf.ptype == old(leaf.ptype) && leaf.link == next && LeafOf(leaf.Img(), records, a, a + n)
    {
      CopyWords(leaf.content, 0, content, 0, 1 + n * 2);
      leaf.nkeys := n;
      leaf.link := next;
      assert leaf.Img().content[..2 * n + 1] == content[..][..2 * n + 1];
      BufferedLeaf(content[..], records, a, n, leaf.Img());
    }

    /** The leaf buffer is full: make a page of it and hang that into the tree. */
    method FlushLeaf(itnl: Page, leaf: Page, content: array<nat>, itnlpos0: nat, path0: seq<nat>,
                     leaves: seq<nat>, leafidx: nat, pages0: seq<Image>, ghost s: Progress)
        returns (itnlpos: nat, path: seq<nat>, pages: seq<Image>, ghost s': Progress)
      requires itnl.content.Length == leaf.content.Length == CONTENTLEN && itnl != leaf
      requires content != leaf.content && content != itnl.content && leaf.content != itnl.content
      requires content.Length == 1 + (degree - 1) * 2 <= CONTENTLEN && 2 <= degree && leaf.ptype == LeafPage
      requires Ongoing(itnl.Img(), s) && itnlpos0 == itnl.nkeys
      requires s.path == path0 != [] && s.leaves == leaves && s.pages == pages0 && leafidx == |pages0| < |leaves|
      requires Buffered(content[..], s.records, s.done, degree - 1)
      modifies itnl, itnl.content, leaf, leaf.content, content, `labels, `contents, pager
      ensures leaf.ptype == LeafPage
      ensures Ongoing(itnl.Img(), s') && itnlpos == itnl.nkeys
      ensures s'.path == path != [] && s'.leaves == leaves && s'.pages == pages && |pages| == leafidx + 1
      ensures s'.records == s.records && s'.done == s.done + (degree - 1)
    {
      hide LoadState, StorageFits, Allocated, Ascending, LeafOf, PendNext;
      var nkeys := degree - 1;
      ghost var b, records := s.done + nkeys, s.records;
      assert content[..][2 * 0 + 1] == records[s.done].0;
      FillLeaf(leaf, content, nkeys, if leafidx < |leaves| - 1 then leaves[leafidx + 1] else 0, records, s.done);
      pages := pages0 + [leaf.Img()];
      if leafidx == 0 {
        HangFirst(itnl, leaves[leafidx], s, b, leaf.Img());
        itnlpos, path := itnlpos0, path0;
        s' := FirstProgress(s, b, leaf.Img());
      } else {
        itnlpos, path := HangNext(itnl, itnlpos0, path0, content[1], leaves[leafidx - 1], leaves[leafidx],
                                  s, b, leaf.Img());
        s' := s.Next(b, leaf.Img()).(path := path);
      }
      ZeroWords(content, 0, 1 + nkeys * 2);
    }

    /** Are the keys strictly increasing from above zero? */
    method CheckRecords(records: seq<Record>) returns (ok: bool)
      requires forall i :: 0 <= i < |records| ==> records[i].0 < KEY_END
      ensures ok <==> Accepted(records)
    {
      var currkey := 0;
      for i := 0 to |records|
        invariant Increasing(records, i, currkey)
      {
        if records[i].0 <= currkey {
          NotIncreasing(records, i);
          return false;
        }
        currkey := records[i].0;
      }
      IncreasingAll(records, currkey);
      return true;
    }

    /** Allocate the pages of all leaves at once. */
    method AllocLeaves(nleaves: nat, ghost file0: seq<Image>) returns (leaves: seq<nat>, ghost pend: map<nat, Image>)
      requires Storage(map[]) && file0 == pager.file
      modifies pager
      ensures Storage(pend) && |leaves| == nleaves && Allocated(leaves, pend)
      ensures |file0| <= |pager.file| && forall x :: x in labels && x < |file0| ==> pager.file[x] == file0[x]
    {
      leaves, pend := [], map[];
      for i := 0 to nleaves
        invariant Storage(pend) && |leaves| == i && Allocated(leaves, pend)
        invariant |file0| <= |pager.file| && forall x :: x in labels && x < |file0| ==> pager.file[x] == file0[x]
      {
        var id := NewPage(pend);
        AllocatedOne(leaves, pend, id, pager.file[id]);
        leaves, pend := leaves + [id], pend[id := pager.file[id]];
      }
    }

    /** Write the pages of all leaves. */
    method WriteLeaves(leaves: seq<nat>, pages: seq<Image>, ghost pend: map<nat, Image>, ghost file0: seq<Image>)
      requires |pages| == |leaves| && file0 == pager.file
      requires forall i :: 0 <= i < |leaves| ==> leaves[i] in pend && pend[leaves[i]] == pages[i]
      requires forall x :: x in pend ==> x in leaves && x < |file0|
      modifies pager`file
      ensures pager.file == Overlay(file0, pend)
    {
      for i := 0 to |leaves|
        invariant |pager.file| == |file0|
        invariant forall x :: 0 <= x < |file0| ==>
                                pager.file[x] == if x in leaves[..i] then pend[x] else file0[x]
      {
        assert leaves[..i + 1] == leaves[..i] + [leaves[i]];
        var page := new Page(LeafPage);
        page.CopyFrom(pages[i]);
        pager.WritePage(leaves[i], page);
      }
      assert leaves[..|leaves|] == leaves;
    }

    method BufferRecord(content: array<nat>, leafpos: nat, record: Record, ghost records: seq<Record>, ghost a: nat)
      requires a + leafpos < |records| && record == records[a + leafpos] && 2 * leafpos + 2 < content.Length
      requires Buffered(content[..], records, a, leafpos)
      modifies content
      ensures Buffered(content[..], records, a, leafpos + 1)
    {
      var idx := 1 + leafpos * 2;
      content[idx] := record.0;
      content[idx + 1] := record.1;
    }

    /** Distribute the records over full leaves; what is left stays in the buffer. */
    method FillLeaves(records: seq<Record>, itnl: Page, leaf: Page, content: array<nat>, leaves: seq<nat>,
                      ghost s0: Progress)
        returns (path: seq<nat>, pages: seq<Image>, leafpos: nat, itnlpos: nat, ghost s: Progress)
      requires itnl.content.Length == leaf.content.Length == CONTENTLEN && itnl != leaf && 2 <= degree <= MAXNKEYS
      requires content != leaf.content && content != itnl.content && leaf.content != itnl.content
      requires content.Length == 1 + (degree - 1) * 2 && leaf.ptype == LeafPage
      requires Ongoing(itnl.Img(), s0) && itnl.nkeys == 0 && s0 == Progress([0], leaves, [], records, 0, s0.pend)
      requires degree <= |records|
      requires |leaves| == |records| / (degree - 1) + (if |records| % (degree - 1) != 0 then 1 else 0)
      modifies itnl, itnl.content, leaf, leaf.content, content, `labels, `contents, pager
      ensures leaf.ptype == LeafPage && leafpos == |records| % (degree - 1) <= |records|
      ensures Ongoing(itnl.Img(), s) && itnlpos == itnl.nkeys
      ensures s == Progress(path, leaves, pages, records, |records| - leafpos, s.pend) && path != []
      ensures pages != [] && leafpos < degree - 1 && Buffered(content[..], records, s.done, leafpos)
      ensures |leaves| == |pages| + (if leafpos == 0 then 0 else 1)
    {
      hide LoadOngoing, Buffered;
      BufferedNone(content[..], records, 0);
      var nkeys := degree - 1;
      var leafidx := 0;
      path, pages, leafpos, itnlpos, s := [0], [], 0, 0, s0;
      for i := 0 to |records|
        invariant leaf.ptype == LeafPage && itnlpos == itnl.nkeys && Ongoing(itnl.Img(), s)
        invariant s == Progress(path, leaves, pages, records, leafidx * nkeys, s.pend) && path != []
        invariant |pages| == leafidx && i == leafidx * nkeys + leafpos && leafpos < nkeys
        invariant Buffered(content[..], records, s.done, leafpos)
      {
        BufferRecord(content, leafpos, records[i], records, s.done);
        leafpos := leafpos + 1;
        if leafpos == nkeys {
          GroupHasLeaf(|records|, nkeys, leafidx);
          assert (leafidx + 1) * nkeys == leafidx * nkeys + nkeys;
          itnlpos, path, pages, s := FlushLeaf(itnl, leaf, content, itnlpos, path, leaves, leafidx, pages, s);
          leafpos, leafidx := 0, leafidx + 1;
          BufferedNone(content[..], records, s.done);
        }
      }
      Quotient(|records|, nkeys, leafidx, leafpos);
    }

    /** The records left in the buffer make a last, partial leaf. */
    method WrapUpLeaf(itnl: Page, leaf: Page, content: array<nat>, leafpos: nat, itnlpos: nat, leaves: seq<nat>,
                      pages0: seq<Image>, ghost s: Progress)
        returns (pages: seq<Image>, ghost s': Progress)
      requires itnl.content.Length == leaf.content.Length == CONTENTLEN && itnl != leaf
      requires content != leaf.content && content != itnl.content && leaf.content != itnl.content
      requires content.Length <= CONTENTLEN && leaf.ptype == LeafPage && itnlpos == itnl.nkeys
      requires Loading(itnl.Img(), s, -1) && 0 < leafpos < degree <= MAXNKEYS
      requires s.leaves == leaves && s.pages == pages0 != [] && |leaves| == |pages0| + 1
      requires s.done + leafpos == |s.records| && Buffered(content[..], s.records, s.done, leafpos)
      modifies itnl, itnl.content, leaf, leaf.content, `labels, `contents
      ensures itnl.nkeys <= degree
      ensures Loading(itnl.Img(), s', if itnl.nkeys == degree then s'.Last() else -1)
      ensures s' == Progress(s.path, leaves, pages, s.records, |s.records|, s'.pend) && |pages| == |leaves|
    {
      hide LoadState, LeafOf, PendNext;
      assert content[..][2 * 0 + 1] == s.records[s.done].0;
      FillLeaf(leaf, content, leafpos, 0, s.records, s.done);
      pages := pages0 + [leaf.Img()];
      s' := s.Next(|s.records|, leaf.Img());
      InjectLast(itnl, itnlpos, content[1], leaves[|leaves| - 2], leaves[|leaves| - 1], s, |s.records|, leaf.Img());
    }

    /** Write the last internal page back, splitting it first if it is full. */
    method WrapUpItnl(itnl: Page, path0: seq<nat>, ghost s: Progress) returns (ghost s': Progress)
      requires itnl.content.Length == CONTENTLEN && itnl.nkeys <= degree && path0 == s.path != []
      requires Loading(itnl.Img(), s, if itnl.nkeys == degree then s.Last() else -1)
      modifies `labels, pager, itnl, itnl.content
      ensures s' == s.(path := s'.path) && s'.path != [] && s'.Last() < |pager.file|
      ensures Loading(pager.file[s'.Last()], s', -1)
    {
      hide LoadState;
      if itnl.nkeys >= degree {
        var path := SplitLast(itnl, path0, s);
        s' := s.(path := path);
      } else {
        LoadWritten(degree, pager.file, pager.freelist, labels, contents, itnl.Img(), s);
        pager.WritePage(path0[|path0| - 1], itnl);
        s' := s;
      }
    }

    /** Load more records than the root can take. */
    method LoadMany(records: seq<Record>, itnl: Page)
      requires Valid() && contents == map[] && Accepted(records) && degree <= |records|
      requires itnl.content.Length == CONTENTLEN && itnl.Img() == pager.file[0]
      modifies this, pager, itnl, itnl.content
      ensures Valid() && IsRange(records, contents, 0, KEY_END) && 0 in labels && Depth() >= 2
    {
      hide WellFormed, StorageFits, IsRange, LoadState, Allocated, Ascending;
      ghost var t := Tree(pager.file, labels, contents);
      TreeBasics(t, degree, -1);
      EmptyTree(t, degree);
      PageBasics(t, degree, -1, 0);
      var nkeys := degree - 1;
      var nleaves := |records| / nkeys;
      if |records| % nkeys != 0 { nleaves := nleaves + 1; }
      ghost var pend, s;
      var leaves;
      leaves, pend := AllocLeaves(nleaves, pager.file);
      s := Progress([0], leaves, [], records, 0, pend);
      var content := new nat[1 + nkeys * 2];
      var leaf := new Page(LeafPage);
      LoadLeaves(records, itnl, leaf, content, leaves, s);
    }

    method LoadLeaves(records: seq<Record>, itnl: Page, leaf: Page, content: array<nat>, leaves: seq<nat>,
                      ghost s0: Progress)
      requires itnl.content.Length == leaf.content.Length == CONTENTLEN && itnl != leaf && 2 <= degree <= MAXNKEYS
      requires content != leaf.content && content != itnl.content && leaf.content != itnl.content
      requires content.Length == 1 + (degree - 1) * 2 && leaf.ptype == LeafPage
      requires Ongoing(itnl.Img(), s0) && itnl.nkeys == 0 && s0 == Progress([0], leaves, [], records, 0, s0.pend)
      requires degree <= |records|
      requires |leaves| == |records| / (degree - 1) + (if |records| % (degree - 1) != 0 then 1 else 0)
      modifies itnl, itnl.content, leaf, leaf.content, content, `labels, `contents, pager
      ensures Valid() && IsRange(records, contents, 0, KEY_END) && 0 in labels && Depth() >= 2
    {
      hide LoadState, WellFormed, StorageFits, IsRange, LeafOf;
      ghost var s;
      var path, pages, leafpos, itnlpos;
      path, pages, leafpos, itnlpos, s := FillLeaves(records, itnl, leaf, content, leaves, s0);
      LastPageBound(degree, pager.file, pager.freelist, labels, contents, itnl.Img(), s);
      if |records| % (degree - 1) != 0 {
        pages, s := WrapUpLeaf(itnl, leaf, content, leafpos, itnlpos, leaves, pages, s);
      }
      s := WrapUpItnl(itnl, path, s);
      LoadComplete(degree, pager.file, pager.freelist, labels, contents, s);
      WriteLeaves(leaves, pages, s.pend, pager.file);
      OverlayNone(pager.file);
    }

    /** Put all records of a short vector into the root page, as a leaf. */
    method LoadFew(records: seq<Record>, itnl: Page)
      requires Valid() && contents == map[] && Accepted(records) && 0 < |records| < degree
      requires itnl.content.Length == CONTENTLEN && itnl.Img() == pager.file[0]
      modifies this, pager, itnl, itnl.content
      ensures Valid() && IsRange(records, contents, 0, KEY_END) && 0 in labels && Depth() == 1
    {
      hide WellFormed, IsRange, Ascending, LeafOf;
      ghost var t := Tree(pager.file, labels, contents);
      TreeBasics(t, degree, -1);
      EmptyTree(t, degree);
      PageBasics(t, degree, -1, 0);
      for pos := 0 to |records|
        modifies itnl.content
        invariant Buffered(itnl.content[..], records, 0, pos)
        invariant itnl.ptype == RootPage && itnl.link == 1
      {
        var idx := 1 + pos * 2;
        itnl.content[idx] := records[pos].0;
        itnl.content[idx + 1] := records[pos].1;
      }
      itnl.nkeys := |records|;
      BufferedLeaf(itnl.content[..], records, 0, |records|, itnl.Img());
      RootHoldsAll(degree, pager.file, records, itnl.Img());
      pager.WritePage(0, itnl);
      contents := Extend(map[], records, 0, |records|);
    }

    /**
     Bulk-load a vector of records into an empty tree.  The check starts from the least key, 0, and
     asks every key to be larger, so a vector that starts with key 0 is rejected.
     */
    method Load(records: seq<Record>) returns (r: LoadResult)
      requires Valid() && forall i :: 0 <= i < |records| ==> records[i].0 < KEY_END
      modifies this, pager
      ensures Valid()
      ensures r == NotEmpty <==> records != [] && old(contents) != map[]
      ensures r == BadRecords <==> old(contents) == map[] && !Accepted(records)
      ensures r == Loaded && records != [] ==> IsRange(records, contents, 0, KEY_END)
      ensures r == Loaded && records != [] ==> |contents| == |records|
      ensures r == Loaded && records != [] ==> 0 in labels && (Depth() == 1 <==> |records| < degree)
      ensures r != Loaded || records == [] ==> contents == old(contents)
      ensures old(Grown()) || (r == Loaded && records != []) ==> Grown()
    {
      hide WellFormed, IsRange, StorageFits;
      TreeBasics(Tree(pager.file, labels, contents), degree, -1);
      if |records| == 0 { return Loaded; }
      EmptyTree(Tree(pager.file, labels, contents), degree);
      var itnl := Fetch(0);
      if itnl.link != 1 || itnl.nkeys != 0 { return NotEmpty; }
      var ok := CheckRecords(records);
      if !ok { return BadRecords; }
      if |records| < degree {
        LoadFew(records, itnl);
      } else {
        LoadMany(records, itnl);
      }
      TreeBasics(Tree(pager.file, labels, contents), degree, -1);
      RecordCount(records, contents, KEY_END);
      return Loaded;
    }
  }

  // ---- Whole sessions --------------------------------------------------------------------

  const NEW_FILE := [Image(RootPage, 0, 1, ZEROS)]
  const NEW_LABELS: Labels := map[0 := Label(0, 0, KEY_END)]

  /** Opening a new file fails exactly for an illegal degree. */
  method Create(degree: nat) returns (tree: BPTree?)
    ensures tree == null <==> degree < 2 || degree > MAXNKEYS
    ensures tree != null ==> fresh(tree) && fresh(tree.pager) && tree.Valid() && tree.Grown() && tree.contents == map[]
    ensures tree != null ==> tree.degree == degree
  {
    if degree < 2 || degree > MAXNKEYS { return null; }
    tree := new BPTree.Open(degree, [], NEW_LABELS, map[]);
  }

  /** Any scan of a tree just created, other than of an empty interval, goes out of range. */
  method ScanNewTree(degree: nat, lkey: Key, rkey: Key) returns (r: ScanResult)
    requires 2 <= degree <= MAXNKEYS
    ensures r == if lkey <= rkey then OutOfRange else Scanned(0)
  {
    hide WellFormed, StorageFits, IsRange, Filled;
    var tree := Create(degree);
    var results;
    r, results := tree.Scan(lkey, rkey, []);
    assert results[0..] == results;
    if r.Scanned? {
      EmptyRange(map[], lkey, rkey + 1);
      RangeUnique(results, [], map[], lkey, rkey + 1);
    }
  }

  /** A tree's file opened with another degree is a sound tree exactly when every page is below that degree. */
  method Reopen(tree: BPTree, degree: nat) returns (again: BPTree)
    requires tree.Valid() && 2 <= degree <= MAXNKEYS
    ensures fresh(again) && again.degree == degree && again.contents == tree.contents
    ensures again.pager.file == tree.pager.file && again.labels == tree.labels
    ensures again.Valid() <==> forall id :: id in tree.labels ==> id < |tree.pager.file| && tree.pager.file[id].nkeys < degree
  {
    hide WellFormed, StorageFits;
    ghost var t := Tree(tree.pager.file, tree.labels, tree.contents);
    StoredPages(t, tree.degree);
    OtherDegree(t, tree.degree, degree);
    again := new BPTree.Open(degree, tree.pager.file, tree.labels, tree.contents);
  }

  datatype Step = PutStep(key: Key, value: nat) | ReopenStep

  /** The map a session stands for: later puts win, closing and opening the file changes nothing. */
  function MapOf(steps: seq<Step>): (m: map<nat, nat>)
  {
    if steps == [] then map[]
    else
      var m := MapOf(steps[..|steps| - 1]);
      match steps[|steps| - 1]
      case PutStep(key, value) => m[key := value]
      case ReopenStep => m
  }

  /** Run a session on a new file; the tree ends up standing for the session's map. */
  method RunSession(degree: nat, steps: seq<Step>) returns (tree: BPTree)
    requires 2 <= degree <= MAXNKEYS
    ensures fresh(tree) && fresh(tree.pager) && tree.Valid() && tree.contents == MapOf(steps)
    ensures tree.degree == degree && tree.Grown()
  {
    hide WellFormed, StorageFits, Filled;
    tree := new BPTree.Open(degree, [], NEW_LABELS, map[]);
    for i := 0 to |steps|
      invariant fresh(tree) && fresh(tree.pager) && tree.Valid() && tree.contents == MapOf(steps[..i])
      invariant tree.degree == degree && tree.Grown()
    {
      assert steps[..i + 1][..i] == steps[..i];
      if steps[i].PutStep? {
        tree.Put(steps[i].key, steps[i].value);
      } else {
        StoredPages(Tree(tree.pager.file, tree.labels, tree.contents), degree);
        tree := new BPTree.Open(degree, tree.pager.file, tree.labels, tree.contents);
      }
    }
    assert steps[..|steps|] == steps;
  }

  /** Lookups after any session agree with the session's map. */
  method SessionGet(degree: nat, steps: seq<Step>, key: Key) returns (found: bool, value: nat)
    requires 2 <= degree <= MAXNKEYS
    ensures found <==> key in MapOf(steps)
    ensures found ==> value == MapOf(steps)[key]
  {
    var tree := RunSession(degree, steps);
    found, value := tree.Get(key);
  }

  /** Scans after any session: the session's map decides what is listed, and when the scan goes out of range. */
  method SessionScan(degree: nat, steps: seq<Step>, lkey: Key, rkey: Key) returns (r: ScanResult, results: seq<Record>)
    requires 2 <= degree <= MAXNKEYS
    ensures r == OutOfRange <==> lkey <= rkey && |MapOf(steps)| < degree
    ensures r.Scanned? ==> r.nrecords == |results| && IsRange(results, MapOf(steps), lkey, rkey + 1)
  {
    hide WellFormed, StorageFits, IsRange, Filled;
    var tree := RunSession(degree, steps);
    r, results := tree.Scan(lkey, rkey, []);
    assert results[0..] == results;
  }

  /** A scan after a load gives back exactly the loaded records in the interval. */
  method LoadThenScan(degree: nat, records: seq<Record>, lkey: Key, rkey: Key) returns (results: seq<Record>)
    requires 2 <= degree <= |records| && degree <= MAXNKEYS && Accepted(records)
    ensures results == Within(records, lkey, rkey + 1)
  {
    hide IsRange, WellFormed, StorageFits, Accepted, Ascending;
    AcceptedKeys(records);
    var tree := new BPTree.Open(degree, [], NEW_LABELS, map[]);
    var r := tree.Load(records);
    var r';
    r', results := tree.Scan(lkey, rkey, []);
    assert results[0..] == results;
    WithinRange(records, tree.contents, lkey, rkey + 1);
    RangeUnique(results, Within(records, lkey, rkey + 1), tree.contents, lkey, rkey + 1);
  }
}
