/**
 How a full page is cut in two, and how the page on a root-to-leaf path is found again in its parent.
 */
module Splits {
  import opened Pages
  import opened TreeShape

  // ---- The two halves of a page, slot by slot --------------------------------------------

  ghost predicate LeafPrefix(p: Image, q: Image, n: nat)
  {
    && n <= p.nkeys && q.nkeys == n
    && forall i :: 0 <= i < n ==> K(q, i) == K(p, i) && V(q, i) == V(p, i)
  }

  ghost predicate LeafSuffix(p: Image, q: Image, n: nat)
  {
    && n <= p.nkeys && q.nkeys == p.nkeys - n
    && forall i :: 0 <= i < q.nkeys ==> K(q, i) == K(p, i + n) && V(q, i) == V(p, i + n)
  }

  ghost predicate ItnlPrefix(p: Image, q: Image, n: nat)
  {
    && n < p.nkeys && q.nkeys == n
    && (forall i :: 0 <= i < n ==> K(q, i) == K(p, i))
    && (forall i :: 0 <= i <= n ==> Child(q, i) == Child(p, i))
  }

  /** Key n of an internal page goes up; the keys and children after it go right. */
  ghost predicate ItnlSuffix(p: Image, q: Image, n: nat)
  {
    && n < p.nkeys && q.nkeys == p.nkeys - n - 1
    && (forall i :: 0 <= i < q.nkeys ==> K(q, i) == K(p, i + n + 1))
    && (forall i :: 0 <= i <= q.nkeys ==> Child(q, i) == Child(p, i + n + 1))
  }

  lemma ItnlSuffixSlots(p: Image, q: Image, n: nat)
    requires n < p.nkeys <= MAXNKEYS && q.nkeys == p.nkeys - n - 1
    requires forall j :: 0 <= j <= 2 * q.nkeys ==> q.content[j] == p.content[j + 2 * n + 2]
    ensures ItnlSuffix(p, q, n)
  {
  }

  lemma LeafSuffixSlots(p: Image, q: Image, n: nat)
    requires n <= p.nkeys <= MAXNKEYS && q.nkeys == p.nkeys - n
    requires forall j :: 1 <= j <= 2 * q.nkeys ==> q.content[j] == p.content[j + 2 * n]
    ensures LeafSuffix(p, q, n)
  {
  }

  lemma PrefixSlots(p: Image, q: Image, n: nat, leaf: bool)
    requires n < p.nkeys <= MAXNKEYS && q.nkeys == n
    requires forall j :: (if leaf then 1 else 0) <= j <= 2 * n ==> q.content[j] == p.content[j]
    ensures if leaf then LeafPrefix(p, q, n) else ItnlPrefix(p, q, n)
  {
  }

  /** Copy the upper half of a full leaf to a new right sibling. */
  method CopyLeafTail(page: Page, rpage: Page, link: nat)
    requires page.content.Length == rpage.content.Length == CONTENTLEN && page.content != rpage.content
    requires page != rpage && page.nkeys <= MAXNKEYS
    modifies rpage`nkeys, rpage`link, rpage.content
    ensures LeafSuffix(page.Img(), rpage.Img(), page.nkeys / 2) && rpage.link == link
  {
    rpage.link := link;
    var mpos := page.nkeys / 2;
    CopyWords(rpage.content, 1, page.content, 1 + mpos * 2, (page.nkeys - mpos) * 2);
    rpage.nkeys := page.nkeys - mpos;
    LeafSuffixSlots(page.Img(), rpage.Img(), mpos);
  }

  /** Copy the upper half of a full internal page, without its middle key, to a new sibling. */
  method CopyItnlTail(page: Page, rpage: Page, link: nat)
    requires page.content.Length == rpage.content.Length == CONTENTLEN && page.content != rpage.content
    requires page != rpage && 0 < page.nkeys <= MAXNKEYS
    modifies rpage`nkeys, rpage`link, rpage.content
    ensures ItnlSuffix(page.Img(), rpage.Img(), page.nkeys / 2) && rpage.link == link
  {
    rpage.link := link;
    var mpos := page.nkeys / 2;
    CopyWords(rpage.content, 0, page.content, 2 + mpos * 2, (page.nkeys - mpos) * 2 - 1);
    rpage.nkeys := page.nkeys - mpos - 1;
    ItnlSuffixSlots(page.Img(), rpage.Img(), mpos);
  }

  /** Copy the lower half of the root to a new left child. */
  method CopyHead(page: Page, lpage: Page, leaf: bool, link: nat)
    requires page.content.Length == lpage.content.Length == CONTENTLEN && page.content != lpage.content
    requires page != lpage && 0 < page.nkeys <= MAXNKEYS
    modifies lpage`nkeys, lpage`link, lpage.content
    ensures if leaf then LeafPrefix(page.Img(), lpage.Img(), page.nkeys / 2)
            else ItnlPrefix(page.Img(), lpage.Img(), page.nkeys / 2)
    ensures lpage.link == link
  {
    hide LeafPrefix, ItnlPrefix, K, Child;
    lpage.link := link;
    var mpos := page.nkeys / 2;
    if leaf {
      CopyWords(lpage.content, 1, page.content, 1, mpos * 2);
    } else {
      CopyWords(lpage.content, 0, page.content, 0, 1 + mpos * 2);
    }
    lpage.nkeys := mpos;
    PrefixSlots(page.Img(), lpage.Img(), mpos, leaf);
  }

  /** Drop the upper half of a split page and link it to its new sibling. */
  method TrimTail(page: Page, link: nat)
    requires page.content.Length == CONTENTLEN && 0 < page.nkeys <= MAXNKEYS
    modifies page`nkeys, page`link, page.content
    ensures page.link == link
    ensures var p := old(page.Img());
            LeafPrefix(p, page.Img(), p.nkeys / 2) && ItnlPrefix(p, page.Img(), p.nkeys / 2)
  {
    var mpos := page.nkeys / 2;
    ZeroWords(page.content, 1 + mpos * 2, (page.nkeys - mpos) * 2);
    page.nkeys := mpos;
    page.link := link;
  }

  /** L and R are the halves of a full page p, and sep is the key that separates them. */
  ghost predicate Cut(p: Image, leaf: bool, L: Image, R: Image, sep: nat)
  {
    var n := p.nkeys / 2;
    && 2 <= p.nkeys && sep == K(p, n)
    && (if leaf then LeafPrefix(p, L, n) && LeafSuffix(p, R, n)
        else ItnlPrefix(p, L, n) && ItnlSuffix(p, R, n))
  }

  /** Split a full page other than the root with its new right sibling; returns the separator. */
  method Halve(page: Page, rpage: Page, rpageid: nat) returns (mkey: nat)
    requires page.content.Length == rpage.content.Length == CONTENTLEN && page.content != rpage.content
    requires page != rpage && 2 <= page.nkeys <= MAXNKEYS && page.ptype == rpage.ptype
    modifies page, page.content, rpage, rpage.content
    ensures Cut(old(page.Img()), page.ptype == LeafPage, page.Img(), rpage.Img(), mkey)
    ensures page.ptype == rpage.ptype == old(page.ptype)
    ensures page.link == rpageid && rpage.link == old(page.link)
  {
    hide K, V, Child;
    if page.ptype == LeafPage {
      CopyLeafTail(page, rpage, page.link);
    } else {
      CopyItnlTail(page, rpage, page.link);
    }
    mkey := MiddleKey(page);
    TrimTail(page, rpageid);
  }

  /** The first key of the upper half, also when that half is a leaf's. */
  method MiddleKey(page: Page) returns (mkey: nat)
    requires page.content.Length == CONTENTLEN && 2 <= page.nkeys <= MAXNKEYS
    ensures mkey == K(page.Img(), page.nkeys / 2)
  {
    mkey := page.content[1 + page.nkeys / 2 * 2];
  }

  /** Split the full root between two new pages; the root keeps one separator and gets deeper. */
  method HalveRoot(page: Page, lpage: Page, rpage: Page, lpageid: nat, rpageid: nat) returns (mkey: nat)
    requires page.content.Length == lpage.content.Length == rpage.content.Length == CONTENTLEN
    requires page.content != lpage.content && page.content != rpage.content && lpage.content != rpage.content
    requires page != lpage && page != rpage && lpage != rpage && 2 <= page.nkeys <= MAXNKEYS
    modifies page, page.content, lpage`nkeys, lpage`link, lpage.content, rpage`nkeys, rpage`link, rpage.content
    ensures Cut(old(page.Img()), old(page.link) == 1, lpage.Img(), rpage.Img(), mkey)
    ensures lpage.link == rpageid && rpage.link == 0
    ensures page.ptype == old(page.ptype) && page.nkeys == 1 && page.link == old(page.link) + 1
    ensures Child(page.Img(), 0) == lpageid && K(page.Img(), 0) == mkey && Child(page.Img(), 1) == rpageid
  {
    mkey := MiddleKey(page);
    CopyHead(page, lpage, page.link == 1, rpageid);
    if page.link == 1 {
      CopyLeafTail(page, rpage, 0);
    } else {
      CopyItnlTail(page, rpage, 0);
    }
    ZeroWords(page.content, 0, CONTENTLEN);
    page.content[0], page.content[1], page.content[2] := lpageid, mkey, rpageid;
    page.nkeys, page.link := 1, page.link + 1;
  }

  lemma LeafPrefixHolds(p: Image, q: Image, n: nat, lo: nat, hi: nat, m: map<nat, nat>)
    requires Sorted(p) && Holds(p, lo, hi, m) && n < p.nkeys && LeafPrefix(p, q, n)
    ensures Sorted(q) && Holds(q, lo, K(p, n), m)
  {
    forall k | k in m && lo <= k < K(p, n) ensures HasKey(q, k) {
      var i :| 0 <= i < p.nkeys && K(p, i) == k;
      assert i < n || i == n || K(p, n) < K(p, i);
      assert K(q, i) == k;
    }
  }

  lemma LeafSuffixHolds(p: Image, q: Image, n: nat, lo: nat, hi: nat, m: map<nat, nat>)
    requires Sorted(p) && Holds(p, lo, hi, m) && n < p.nkeys && LeafSuffix(p, q, n)
    ensures Sorted(q) && Holds(q, K(p, n), hi, m)
  {
    forall i | 0 <= i < q.nkeys ensures K(p, n) <= K(q, i) < hi && K(q, i) in m && m[K(q, i)] == V(q, i) {
      assert i == 0 || K(p, n) < K(p, i + n);
    }
    forall k | k in m && K(p, n) <= k < hi ensures HasKey(q, k) {
      assert lo <= K(p, n);
      var i :| 0 <= i < p.nkeys && K(p, i) == k;
      assert i >= n || K(p, i) < K(p, n);
      assert K(q, i - n) == k;
    }
  }

  lemma ItnlPrefixFits(p: Image, q: Image, n: nat, l: Label, lab: Labels)
    requires Sorted(p) && KidsFit(p, l, lab) && ItnlPrefix(p, q, n)
    ensures Sorted(q) && KidsFit(q, l.(hi := K(p, n)), lab)
  {
    forall i | 0 <= i <= q.nkeys ensures Labelled(lab, Child(q, i), KidLabel(q, l.(hi := K(p, n)), i)) {
      assert Labelled(lab, Child(p, i), KidLabel(p, l, i));
    }
  }

  lemma ItnlSuffixFits(p: Image, q: Image, n: nat, l: Label, lab: Labels)
    requires Sorted(p) && KidsFit(p, l, lab) && ItnlSuffix(p, q, n)
    ensures Sorted(q) && KidsFit(q, l.(lo := K(p, n)), lab)
  {
    forall i | 0 <= i <= q.nkeys ensures Labelled(lab, Child(q, i), KidLabel(q, l.(lo := K(p, n)), i)) {
      assert Labelled(lab, Child(p, i + n + 1), KidLabel(p, l, i + n + 1));
    }
  }

  /** New labels on other levels do not disturb a page's children. */
  lemma KidsStillFit(p: Image, l: Label, lab: Labels, lab': Labels)
    requires KidsFit(p, l, lab)
    requires forall c :: c in lab && c != 0 && lab[c].lev + 1 == l.lev ==> c in lab' && lab'[c] == lab[c]
    requires l.lev > 0
    ensures KidsFit(p, l, lab')
  {
    forall i | 0 <= i <= p.nkeys ensures Labelled(lab', Child(p, i), KidLabel(p, l, i)) {
      assert Labelled(lab, Child(p, i), KidLabel(p, l, i));
    }
  }

  // ---- A full page splits into a growth of its level -------------------------------------

  /** The cut key lies strictly inside the interval of the page. */
  lemma SeparatorInside(t: Tree, deg: nat, full: int, id: nat, n: nat)
    requires WellFormed(t, deg, full) && id in t.lab && 0 < n < t.file[id].nkeys
    ensures t.lab[id].lo < K(t.file[id], n) < t.lab[id].hi
  {
    var p, l := t.file[id], t.lab[id];
    assert Fits(t, deg, full, id);
    assert K(p, 0) < K(p, n);
    if l.lev > 0 {
      KidInside(t, deg, full, id, n);
      KidInside(t, deg, full, id, n + 1);
    }
  }

  /** Each half of a cut page fits the half of the interval it gets. */
  lemma HalvesFit(t: Tree, deg: nat, id: nat, L: Image, R: Image, sep: nat, lab': Labels, l: Label)
    requires WellFormed(t, deg, id) && id in t.lab && l == t.lab[id]
    requires Cut(t.file[id], l.lev == 0, L, R, sep)
    requires forall c :: c in t.lab && c != 0 && t.lab[c].lev + 1 == l.lev ==> c in lab' && lab'[c] == t.lab[c]
    ensures l.lo < sep < l.hi && Sorted(L) && Sorted(R)
    ensures l.lev == 0 ==> Holds(L, l.lo, sep, t.m) && Holds(R, sep, l.hi, t.m) && L.nkeys > 0 && R.nkeys > 0
    ensures l.lev > 0 ==> KidsFit(L, l.(hi := sep), lab') && KidsFit(R, l.(lo := sep), lab')
    ensures L.nkeys < t.file[id].nkeys && R.nkeys < t.file[id].nkeys
  {
    var p := t.file[id];
    var n := p.nkeys / 2;
    assert Fits(t, deg, id, id);
    SeparatorInside(t, deg, id, id, n);
    if l.lev == 0 {
      LeafPrefixHolds(p, L, n, l.lo, l.hi, t.m);
      LeafSuffixHolds(p, R, n, l.lo, l.hi, t.m);
    } else {
      ItnlPrefixFits(p, L, n, l, t.lab);
      ItnlSuffixFits(p, R, n, l, t.lab);
      KidsStillFit(L, l.(hi := sep), t.lab, lab');
      KidsStillFit(R, l.(lo := sep), t.lab, lab');
    }
  }

  lemma SiblingOfUpperHalf(p: Image, l: Label, lab: Labels, id: nat, rid: nat, sep: nat, R: Image)
    requires SiblingFits(p, l, lab) && id in lab && lab[id] == l && rid !in lab && l.lo < sep < l.hi
    requires R.link == p.link
    ensures SiblingFits(R, Label(l.lev, sep, l.hi), CutLabels(lab, id, rid, sep))
  {
  }

  /** Splitting a full page other than the root is a growth of its level. */
  lemma SplitIsGrowth(t: Tree, deg: nat, g: Growth)
    requires WellFormed(t, deg, g.id) && g.id in t.lab && g.id != 0 && g.rid !in t.lab && g.rid != 0
    requires t.file[g.id].nkeys == deg && Cut(t.file[g.id], t.lab[g.id].lev == 0, g.L, g.R, g.sep) && g.m' == t.m
    requires g.L.ptype == g.R.ptype == t.file[g.id].ptype
    requires g.L.link == g.rid && g.R.link == t.file[g.id].link
    ensures g.Halves(t, deg)
  {
    hide WellFormed, Cut, Sorted, Holds, KidsFit;
    PageBasics(t, deg, g.id, g.id);
    TreeBasics(t, deg, g.id);
    var l, p := t.lab[g.id], t.file[g.id];
    HalvesFit(t, deg, g.id, g.L, g.R, g.sep, g.Lab(t), l);
    SiblingOfUpperHalf(p, l, t.lab, g.id, g.rid, g.sep, g.R);
  }

  /** Splitting the full root is a growth at the root. */
  lemma RootSplitIsGrowth(t: Tree, deg: nat, g: RootGrowth)
    requires WellFormed(t, deg, 0) && 0 in t.lab && t.file[0].nkeys == deg
    requires g.lid != g.rid && g.lid !in t.lab && g.rid !in t.lab
    requires 0 < g.lid < |t.file| && 0 < g.rid < |t.file|
    requires Cut(t.file[0], t.lab[0].lev == 0, g.L, g.R, g.sep)
    requires g.L.ptype == g.R.ptype == TypeOf(g.lid, t.lab[0])
    requires g.L.link == g.rid && g.R.link == 0
    requires g.root.ptype == RootPage && g.root.nkeys == 1 && g.root.link == t.file[0].link + 1
    requires Child(g.root, 0) == g.lid && K(g.root, 0) == g.sep && Child(g.root, 1) == g.rid
    ensures g.Ready(t, deg)
  {
    hide WellFormed, Cut, Sorted, Holds, KidsFit;
    PageBasics(t, deg, 0, 0);
    TreeBasics(t, deg, 0);
    HalvesFit(t, deg, 0, g.L, g.R, g.sep, g.Lab(t), t.lab[0]);
  }

  // ---- Paths -----------------------------------------------------------------------------

  /** path runs from the root down through the pages that cover k. */
  ghost predicate PathOf(lab: Labels, path: seq<nat>, k: nat)
  {
    && 0 < |path| && path[0] == 0 && 0 in lab
    && forall i :: 0 <= i < |path| ==>
         path[i] in lab && lab[path[i]].lev == lab[0].lev - i && lab[path[i]].Covers(k)
  }

  lemma RankUnique(p: Image, k: nat, r: nat, s: nat)
    requires Rank(p, k, r) && Rank(p, k, s)
    ensures r == s
  {
    assert r < s ==> K(p, r) <= k;
    assert s < r ==> K(p, s) <= k;
  }

  ghost function RankOf(p: Image, k: nat, n: nat): (r: nat)
    requires n <= p.nkeys && Sorted(p) && forall i :: n <= i < p.nkeys ==> k < K(p, i)
    ensures Rank(p, k, r)
  {
    if n == 0 || K(p, n - 1) <= k then
      assert forall i :: 0 <= i < n - 1 ==> K(p, i) < K(p, n - 1);
      n
    else
      RankOf(p, k, n - 1)
  }

  /**
   A page on a path sits in the page before it, exactly where a search for any key strictly inside
   its interval leads; so the parent has no such key yet and names this page on its left.
   */
  lemma SlotInParent(t: Tree, deg: nat, full: int, par: nat, id: nat, k: nat, sep: nat, r: nat)
    requires WellFormed(t, deg, full) && par in t.lab && id in t.lab
    requires t.lab[par].lev == t.lab[id].lev + 1 && t.lab[par].Covers(k) && t.lab[id].Covers(k)
    requires t.lab[id].lo < sep < t.lab[id].hi && Rank(t.file[par], sep, r)
    ensures Child(t.file[par], r) == id && !HasKey(t.file[par], sep)
  {
    var p, l := t.file[par], t.lab[par];
    assert Fits(t, deg, full, par);
    var i := RankOf(p, k, p.nkeys);
    ChildAtRank(t, deg, full, par, k, i);
    OnePagePerLevel(t.lab, Child(p, i), id, k);
    CutSeparator(p, l, i, sep);
    RankUnique(p, sep, i, r);
  }
}
