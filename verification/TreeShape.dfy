/**
 The structural invariant of the B+ tree, stated page by page.

 Every page of the tree carries a ghost label: its level above the leaves and the half-open key
 interval [lo, hi) it is responsible for.  All conditions relate a page to its own label and to the
 labels of the pages it points to, and pages of one level have disjoint intervals.
 */
module TreeShape {
  import opened Pages

  datatype Label = Label(lev: nat, lo: nat, hi: nat) {
    predicate Covers(k: nat) { lo <= k < hi }
  }

  type Labels = map<nat, Label>

  /** The pages of the file, their labels, and the map the tree stands for. */
  datatype Tree = Tree(file: seq<Image>, lab: Labels, m: map<nat, nat>)

  /** The label child i of an internal page must have. */
  function KidLabel(p: Image, l: Label, i: int): (kid: Label)
  {
    Label(if l.lev == 0 then 0 else l.lev - 1,
          if i == 0 then l.lo else K(p, i - 1),
          if i == p.nkeys then l.hi else K(p, i))
  }

  ghost predicate Labelled(lab: Labels, id: nat, l: Label)
  {
    id != 0 && id in lab && lab[id] == l
  }

  ghost predicate KidsFit(p: Image, l: Label, lab: Labels)
  {
    forall i :: 0 <= i <= p.nkeys ==> Labelled(lab, Child(p, i), KidLabel(p, l, i))
  }

  /** The next pointer leads to the page of the same level that starts where this one ends. */
  ghost predicate SiblingFits(p: Image, l: Label, lab: Labels)
  {
    if l.hi == KEY_END then p.link == 0
    else p.link != 0 && p.link in lab && lab[p.link].lev == l.lev && lab[p.link].lo == l.hi
  }

  function TypeOf(id: nat, l: Label): (t: PageType)
  {
    if id == 0 then RootPage else if l.lev == 0 then LeafPage else ItnlPage
  }

  /** Everything the invariant asks of one page, apart from its size. */
  ghost predicate PageFits(p: Image, id: nat, l: Label, lab: Labels, m: map<nat, nat>)
  {
    && l.lo < l.hi <= KEY_END
    && Sorted(p)
    && p.ptype == TypeOf(id, l)
    && (if id == 0 then p.link == l.lev + 1 else SiblingFits(p, l, lab))
    && (if l.lev == 0 then Holds(p, l.lo, l.hi, m) && (id != 0 ==> p.nkeys > 0) else KidsFit(p, l, lab))
  }

  /** Pages of one level never overlap. */
  ghost predicate Apart(lab: Labels)
  {
    forall a, b :: a in lab && b in lab && a != b && lab[a].lev == lab[b].lev ==>
                     lab[a].hi <= lab[b].lo || lab[b].hi <= lab[a].lo
  }

  ghost predicate RootFits(lab: Labels)
  {
    && 0 in lab && lab[0].lo == 0 && lab[0].hi == KEY_END
    && forall id :: id in lab && id != 0 ==> lab[id].lev < lab[0].lev
  }

  /** Largest number of keys of a page; page `full` is the one about to be split. */
  function Cap(deg: nat, full: int, id: nat): int
  {
    if id == full then deg else deg - 1
  }

  ghost predicate Fits(t: Tree, deg: nat, full: int, id: nat)
    requires id in t.lab
  {
    && id < |t.file| && t.file[id].nkeys <= Cap(deg, full, id)
    && PageFits(t.file[id], id, t.lab[id], t.lab, t.m)
  }

  ghost predicate WellFormed(t: Tree, deg: nat, full: int)
  {
    && 2 <= deg <= MAXNKEYS
    && RootFits(t.lab)
    && Apart(t.lab)
    && (forall id :: id in t.lab ==> Fits(t, deg, full, id))
    && (forall k :: k in t.m ==> k < KEY_END)
  }

  /** What a page of the tree offers to code that reads it. */
  lemma PageBasics(t: Tree, deg: nat, full: int, id: nat)
    requires WellFormed(t, deg, full) && id in t.lab
    ensures id < |t.file| && t.file[id].nkeys <= deg <= MAXNKEYS && Sorted(t.file[id])
    ensures id != full ==> t.file[id].nkeys < deg
    ensures t.lab[id].lo < t.lab[id].hi <= KEY_END
    ensures if id == 0 then t.file[id].link == t.lab[0].lev + 1 else SiblingFits(t.file[id], t.lab[id], t.lab)
    ensures t.file[id].ptype == TypeOf(id, t.lab[id])
  {
    assert Fits(t, deg, full, id);
  }

  lemma LeafContents(t: Tree, deg: nat, full: int, id: nat)
    requires WellFormed(t, deg, full) && id in t.lab && t.lab[id].lev == 0
    ensures id < |t.file| && Holds(t.file[id], t.lab[id].lo, t.lab[id].hi, t.m)
    ensures id != 0 ==> t.file[id].nkeys > 0
  {
    assert Fits(t, deg, full, id);
  }

  lemma TreeBasics(t: Tree, deg: nat, full: int)
    requires WellFormed(t, deg, full)
    ensures 2 <= deg <= MAXNKEYS && RootFits(t.lab) && Apart(t.lab)
    ensures forall k :: k in t.m ==> k < KEY_END
  {
  }

  lemma OnePagePerLevel(lab: Labels, a: nat, b: nat, k: nat)
    requires Apart(lab) && a in lab && b in lab && lab[a].lev == lab[b].lev
    requires lab[a].Covers(k) && lab[b].Covers(k)
    ensures a == b
  {
  }

  /** The child at the rank of k is the page one level down that covers k. */
  lemma ChildAtRank(t: Tree, deg: nat, full: int, id: nat, k: nat, r: nat)
    requires WellFormed(t, deg, full) && id in t.lab && t.lab[id].lev > 0 && t.lab[id].Covers(k)
    requires Rank(t.file[id], k, r)
    ensures var c := Child(t.file[id], r);
            && c != 0 && c in t.lab && t.lab[c] == KidLabel(t.file[id], t.lab[id], r)
            && t.lab[c].Covers(k)
  {
    assert Fits(t, deg, full, id);
    assert Labelled(t.lab, Child(t.file[id], r), KidLabel(t.file[id], t.lab[id], r));
  }

  /** Two maps agree on all keys outside the interval of l. */
  ghost predicate SameOutside(m: map<nat, nat>, m': map<nat, nat>, l: Label)
  {
    forall k :: !l.Covers(k) ==> (k in m' <==> k in m) && (k in m' ==> m'[k] == m[k])
  }

  /** Page id gives the part of its interval from sep on to page rid. */
  ghost function CutLabels(lab: Labels, id: nat, rid: nat, sep: nat): (lab': Labels)
    requires id in lab
  {
    var l := lab[id];
    lab[id := Label(l.lev, l.lo, sep)][rid := Label(l.lev, sep, l.hi)]
  }

  lemma CutApart(lab: Labels, id: nat, rid: nat, sep: nat)
    requires Apart(lab) && id in lab && rid !in lab && lab[id].lo < sep < lab[id].hi
    ensures Apart(CutLabels(lab, id, rid, sep))
  {
    var lab' := CutLabels(lab, id, rid, sep);
    forall a, b | a in lab' && b in lab' && a != b && lab'[a].lev == lab'[b].lev
      ensures lab'[a].hi <= lab'[b].lo || lab'[b].hi <= lab'[a].lo
    {
      var a' := if a == rid then id else a;
      var b' := if b == rid then id else b;
      assert a' in lab && b' in lab;
    }
  }

  // ---- Growing a level by one page -------------------------------------------------------

  /**
   Page `id`, child i of `par`, is replaced by L for [lo, sep) and a new page `rid` with contents R
   for [sep, hi); par becomes P, which has the separator.  m' is the map afterwards.
   */
  datatype Growth = Growth(id: nat, rid: nat, par: nat, i: nat, sep: nat,
                           L: Image, R: Image, P: Image, m': map<nat, nat>) {
    ghost function Lab(t: Tree): Labels
      requires id in t.lab
    {
      CutLabels(t.lab, id, rid, sep)
    }

    ghost function After(t: Tree): Tree
      requires id in t.lab && id < |t.file| && rid < |t.file| && par < |t.file|
    {
      Tree(t.file[id := L][rid := R][par := P], Lab(t), m')
    }

    /** The two halves are pages of their new intervals. */
    ghost predicate Halves(t: Tree, deg: nat)
      requires id in t.lab
    {
      var l := t.lab[id];
      && l.lo < sep < l.hi
      && L.nkeys < deg && R.nkeys < deg
      && L.link == rid
      && PageFits(L, id, Label(l.lev, l.lo, sep), Lab(t), m')
      && PageFits(R, rid, Label(l.lev, sep, l.hi), Lab(t), m')
      && (forall k :: k in m' ==> k < KEY_END)
      && SameOutside(t.m, m', l)
      && (l.lev > 0 ==> m' == t.m)
    }

    ghost predicate Ready(t: Tree, deg: nat, full: int)
    {
      && WellFormed(t, deg, full) && (full == -1 || full == id)
      && id in t.lab && id != 0 && rid !in t.lab && 0 < rid < |t.file|
      && par in t.lab && t.lab[par].lev == t.lab[id].lev + 1
      && par != id && i <= t.file[par].nkeys < deg
      && Child(t.file[par], i) == id
      && IsInsertion(t.file[par], P, i, sep, rid)
      && P.ptype == t.file[par].ptype && P.link == t.file[par].link
      && Halves(t, deg)
    }
  }

  lemma GrowthApart(t: Tree, deg: nat, full: int, g: Growth)
    requires g.Ready(t, deg, full)
    ensures Apart(g.Lab(t)) && RootFits(g.Lab(t))
  {
    CutApart(t.lab, g.id, g.rid, g.sep);
  }

  lemma KidInside(t: Tree, deg: nat, full: int, q: nat, j: nat)
    requires WellFormed(t, deg, full) && q in t.lab && t.lab[q].lev > 0 && j <= t.file[q].nkeys
    ensures var c := KidLabel(t.file[q], t.lab[q], j);
            t.lab[q].lo <= c.lo < c.hi <= t.lab[q].hi
  {
    var p, l := t.file[q], t.lab[q];
    assert Fits(t, deg, full, q);
    assert Labelled(t.lab, Child(p, j), KidLabel(p, l, j)) && Fits(t, deg, full, Child(p, j));
    if j > 0 {
      assert Labelled(t.lab, Child(p, 0), KidLabel(p, l, 0)) && Fits(t, deg, full, Child(p, 0));
    }
    if j < p.nkeys {
      var n := p.nkeys;
      assert Labelled(t.lab, Child(p, n), KidLabel(p, l, n)) && Fits(t, deg, full, Child(p, n));
    }
  }

  lemma KidsDiffer(p: Image, l: Label, i: nat, j: nat)
    requires Sorted(p) && i < j <= p.nkeys && KidLabel(p, l, i).lo < KidLabel(p, l, i).hi
    ensures KidLabel(p, l, i) != KidLabel(p, l, j)
  {
    if i < j - 1 { assert K(p, i) < K(p, j - 1); }
  }

  /** Every page of the tree but the root sits in exactly one slot of exactly one page. */
  lemma OnlyParent(t: Tree, deg: nat, full: int, q: nat, i: nat, q': nat, j: nat)
    requires WellFormed(t, deg, full) && q in t.lab && q' in t.lab && t.lab[q].lev > 0 && t.lab[q'].lev > 0
    requires i <= t.file[q].nkeys && j <= t.file[q'].nkeys && Child(t.file[q], i) == Child(t.file[q'], j)
    ensures q == q' && i == j
  {
    var p, p', l, l' := t.file[q], t.file[q'], t.lab[q], t.lab[q'];
    assert Fits(t, deg, full, q) && Fits(t, deg, full, q');
    assert Labelled(t.lab, Child(p, i), KidLabel(p, l, i));
    assert Labelled(t.lab, Child(p', j), KidLabel(p', l', j));
    KidInside(t, deg, full, q, i);
    KidInside(t, deg, full, q', j);
    OnePagePerLevel(t.lab, q, q', KidLabel(p, l, i).lo);
    if i < j { KidsDiffer(p, l, i, j); } else if j < i { KidsDiffer(p, l, j, i); }
  }

  lemma HoldsUnchanged(p: Image, l: Label, m: map<nat, nat>, m': map<nat, nat>, cut: Label)
    requires Holds(p, l.lo, l.hi, m) && SameOutside(m, m', cut)
    requires l.hi <= cut.lo || cut.hi <= l.lo
    ensures Holds(p, l.lo, l.hi, m')
  {
    forall i | 0 <= i < p.nkeys ensures K(p, i) in m' && m'[K(p, i)] == V(p, i) {
      assert !cut.Covers(K(p, i));
    }
    forall k | k in m' && l.lo <= k < l.hi ensures HasKey(p, k) {
      assert !cut.Covers(k);
    }
  }

  lemma GrowthKids(t: Tree, deg: nat, full: int, g: Growth, q: nat)
    requires g.Ready(t, deg, full) && q in t.lab && q != g.id && q != g.par && t.lab[q].lev > 0
    ensures KidsFit(t.file[q], t.lab[q], g.Lab(t))
  {
    var p, l := t.file[q], t.lab[q];
    assert Fits(t, deg, full, q);
    forall j | 0 <= j <= p.nkeys ensures Labelled(g.Lab(t), Child(p, j), KidLabel(p, l, j)) {
      assert Labelled(t.lab, Child(p, j), KidLabel(p, l, j));
      if Child(p, j) == g.id { OnlyParent(t, deg, full, q, j, g.par, g.i); }
    }
  }

  lemma GrowthOther(t: Tree, deg: nat, full: int, g: Growth, q: nat)
    requires g.Ready(t, deg, full) && q in t.lab && q != g.id && q != g.par
    ensures PageFits(t.file[q], q, t.lab[q], g.Lab(t), g.m')
  {
    var p, l := t.file[q], t.lab[q];
    assert Fits(t, deg, full, q);
    if l.lev > 0 {
      GrowthKids(t, deg, full, g, q);
    } else if t.lab[g.id].lev == 0 {
      HoldsUnchanged(p, l, t.m, g.m', t.lab[g.id]);
    }
  }

  lemma CutKidsFit(p: Image, q: Image, l: Label, lab: Labels, i: nat, sep: nat, rid: nat)
    requires KidsFit(p, l, lab) && IsInsertion(p, q, i, sep, rid) && rid !in lab && rid != 0
    requires forall j :: 0 <= j <= p.nkeys && j != i ==> Child(p, j) != Child(p, i)
    ensures var kid := KidLabel(p, l, i);
            KidsFit(q, l, lab[Child(p, i) := kid.(hi := sep)][rid := kid.(lo := sep)])
  {
    var kid := KidLabel(p, l, i);
    var lab' := lab[Child(p, i) := kid.(hi := sep)][rid := kid.(lo := sep)];
    assert Labelled(lab, Child(p, i), kid);
    forall j | 0 <= j <= q.nkeys ensures Labelled(lab', Child(q, j), KidLabel(q, l, j)) {
      var j' := if j <= i then j else j - 1;
      assert Labelled(lab, Child(p, j'), KidLabel(p, l, j'));
      if j < i || j > i + 1 {
        assert Child(q, j) == Child(p, j');
      }
    }
  }

  /** A separator strictly inside child i's interval goes strictly between the keys around it. */
  lemma CutSeparator(p: Image, l: Label, i: nat, sep: nat)
    requires Sorted(p) && i <= p.nkeys && KidLabel(p, l, i).lo < sep < KidLabel(p, l, i).hi
    ensures Rank(p, sep, i) && !HasKey(p, sep)
  {
    forall j | 0 <= j < p.nkeys ensures if j < i then K(p, j) < sep else sep < K(p, j) {
      if j + 1 < i { assert K(p, j) < K(p, i - 1); }
      if i < j { assert K(p, i) < K(p, j); }
    }
  }

  lemma GrowthParent(t: Tree, deg: nat, full: int, g: Growth)
    requires g.Ready(t, deg, full)
    ensures Rank(t.file[g.par], g.sep, g.i) && !HasKey(t.file[g.par], g.sep)
    ensures PageFits(g.P, g.par, t.lab[g.par], g.Lab(t), g.m')
  {
    var p, l, q := t.file[g.par], t.lab[g.par], g.P;
    assert Fits(t, deg, full, g.par);
    assert Labelled(t.lab, Child(p, g.i), KidLabel(p, l, g.i));
    forall j | 0 <= j <= p.nkeys && j != g.i ensures Child(p, j) != g.id {
      if Child(p, j) == g.id { OnlyParent(t, deg, full, g.par, j, g.par, g.i); }
    }
    CutKidsFit(p, q, l, t.lab, g.i, g.sep, g.rid);
    CutSeparator(p, l, g.i, g.sep);
    InsertionSorted(p, q, g.i, g.sep, g.rid);
  }

  lemma GrowthFitsHalf(t: Tree, deg: nat, full: int, g: Growth, q: nat)
    requires g.Ready(t, deg, full) && (q == g.id || q == g.rid)
    ensures Fits(g.After(t), deg, if t.file[g.par].nkeys + 1 == deg then g.par else -1, q)
  {
    hide WellFormed, PageFits, IsInsertion, SameOutside;
    PageBasics(t, deg, full, g.id);
    PageBasics(t, deg, full, g.par);
    var t', l := g.After(t), t.lab[g.id];
    if q == g.id {
      assert t'.file[q] == g.L && t'.lab[q] == Label(l.lev, l.lo, g.sep);
    } else {
      assert t'.file[q] == g.R && t'.lab[q] == Label(l.lev, g.sep, l.hi);
    }
  }

  lemma GrowthFitsParent(t: Tree, deg: nat, full: int, g: Growth)
    requires g.Ready(t, deg, full)
    ensures Fits(g.After(t), deg, if t.file[g.par].nkeys + 1 == deg then g.par else -1, g.par)
  {
    hide WellFormed, PageFits, SameOutside;
    PageBasics(t, deg, full, g.id);
    PageBasics(t, deg, full, g.par);
    assert g.After(t).file[g.par] == g.P && g.After(t).lab[g.par] == t.lab[g.par];
    GrowthParent(t, deg, full, g);
  }

  lemma GrowthFitsOther(t: Tree, deg: nat, full: int, g: Growth, q: nat)
    requires g.Ready(t, deg, full) && q in t.lab && q != g.id && q != g.par
    ensures Fits(g.After(t), deg, if t.file[g.par].nkeys + 1 == deg then g.par else -1, q)
  {
    hide WellFormed, PageFits, IsInsertion, SameOutside;
    PageBasics(t, deg, full, g.id);
    PageBasics(t, deg, full, g.par);
    PageBasics(t, deg, full, q);
    assert g.After(t).file[q] == t.file[q] && g.After(t).lab[q] == t.lab[q];
    GrowthOther(t, deg, full, g, q);
  }

  /** Growing a level keeps the whole invariant; the parent may end up full. */
  lemma GrowthWellFormed(t: Tree, deg: nat, full: int, g: Growth)
    requires g.Ready(t, deg, full)
    ensures WellFormed(g.After(t), deg, if t.file[g.par].nkeys + 1 == deg then g.par else -1)
  {
    hide PageFits;
    GrowthApart(t, deg, full, g);
    GrowthFitsHalf(t, deg, full, g, g.id);
    GrowthFitsHalf(t, deg, full, g, g.rid);
    GrowthFitsParent(t, deg, full, g);
    forall q | q in t.lab && q != g.id && q != g.par {
      GrowthFitsOther(t, deg, full, g, q);
    }
  }

  // ---- Growing the tree at the root ------------------------------------------------------

  ghost function RaisedLabels(lab: Labels, lid: nat, rid: nat, sep: nat): (lab': Labels)
    requires 0 in lab
  {
    var lev := lab[0].lev;
    lab[0 := Label(lev + 1, 0, KEY_END)][lid := Label(lev, 0, sep)][rid := Label(lev, sep, KEY_END)]
  }

  lemma RaisedApart(lab: Labels, lid: nat, rid: nat, sep: nat)
    requires Apart(lab) && RootFits(lab) && lid != rid && lid !in lab && rid !in lab
    ensures Apart(RaisedLabels(lab, lid, rid, sep)) && RootFits(RaisedLabels(lab, lid, rid, sep))
  {
    var lab' := RaisedLabels(lab, lid, rid, sep);
    forall a, b | a in lab' && b in lab' && a != b && lab'[a].lev == lab'[b].lev
      ensures lab'[a].hi <= lab'[b].lo || lab'[b].hi <= lab'[a].lo
    {
      if a in lab && b in lab { assert a != 0 && b != 0; }
    }
  }

  /** The full root's contents move to two new pages L and R; the root keeps one separator. */
  datatype RootGrowth = RootGrowth(lid: nat, rid: nat, sep: nat, L: Image, R: Image, root: Image) {
    ghost function Lab(t: Tree): Labels
      requires 0 in t.lab
    {
      RaisedLabels(t.lab, lid, rid, sep)
    }

    ghost function After(t: Tree): Tree
      requires 0 in t.lab && lid < |t.file| && rid < |t.file| && 0 < |t.file|
    {
      Tree(t.file[lid := L][rid := R][0 := root], Lab(t), t.m)
    }

    ghost predicate Ready(t: Tree, deg: nat)
    {
      && WellFormed(t, deg, 0)
      && lid != rid && lid !in t.lab && rid !in t.lab && 0 < lid < |t.file| && 0 < rid < |t.file|
      && 0 < sep < KEY_END
      && L.nkeys < deg && R.nkeys < deg && L.link == rid && R.link == 0
      && PageFits(L, lid, Label(t.lab[0].lev, 0, sep), Lab(t), t.m)
      && PageFits(R, rid, Label(t.lab[0].lev, sep, KEY_END), Lab(t), t.m)
      && root.ptype == RootPage && root.nkeys == 1 && root.link == t.lab[0].lev + 2
      && Child(root, 0) == lid && K(root, 0) == sep && Child(root, 1) == rid
    }
  }

  lemma RootGrowthKids(t: Tree, deg: nat, g: RootGrowth, q: nat)
    requires g.Ready(t, deg) && q in t.lab && q != 0 && t.lab[q].lev > 0
    ensures KidsFit(t.file[q], t.lab[q], g.Lab(t))
  {
    var p, l := t.file[q], t.lab[q];
    assert Fits(t, deg, 0, q);
    forall j | 0 <= j <= p.nkeys ensures Labelled(g.Lab(t), Child(p, j), KidLabel(p, l, j)) {
      assert Labelled(t.lab, Child(p, j), KidLabel(p, l, j));
    }
  }

  lemma RootGrowthFitsRoot(t: Tree, deg: nat, g: RootGrowth)
    requires g.Ready(t, deg)
    ensures Fits(g.After(t), deg, -1, 0)
  {
    hide WellFormed, PageFits, Apart;
    TreeBasics(t, deg, 0);
    assert g.After(t).file[0] == g.root && g.After(t).lab[0] == Label(t.lab[0].lev + 1, 0, KEY_END);
    RootPageFits(g, g.Lab(t), t.lab[0].lev, t.m);
  }

  /** The new root with its two children. */
  lemma RootPageFits(g: RootGrowth, lab: Labels, lev: nat, m: map<nat, nat>)
    requires g.lid != 0 && g.rid != 0 && 0 < g.sep < KEY_END
    requires g.lid in lab && lab[g.lid] == Label(lev, 0, g.sep) && g.rid in lab && lab[g.rid] == Label(lev, g.sep, KEY_END)
    requires g.root.ptype == RootPage && g.root.nkeys == 1 && g.root.link == lev + 2
    requires Child(g.root, 0) == g.lid && K(g.root, 0) == g.sep && Child(g.root, 1) == g.rid
    ensures PageFits(g.root, 0, Label(lev + 1, 0, KEY_END), lab, m)
  {
    hide K, Child;
    assert KidsFit(g.root, Label(lev + 1, 0, KEY_END), lab);
  }

  lemma RootGrowthFitsOld(t: Tree, deg: nat, g: RootGrowth, q: nat)
    requires g.Ready(t, deg) && q in t.lab && q != 0
    ensures Fits(g.After(t), deg, -1, q)
  {
    hide K, Child, Apart, Sorted, Holds;
    assert Fits(t, deg, 0, q);
    if t.lab[q].lev > 0 { RootGrowthKids(t, deg, g, q); }
  }

  lemma RootGrowthFits(t: Tree, deg: nat, g: RootGrowth, q: nat)
    requires g.Ready(t, deg) && q in g.Lab(t)
    ensures Fits(g.After(t), deg, -1, q)
  {
    hide WellFormed, PageFits, Apart;
    TreeBasics(t, deg, 0);
    if q == 0 {
      RootGrowthFitsRoot(t, deg, g);
    } else if q != g.lid && q != g.rid {
      RootGrowthFitsOld(t, deg, g, q);
    }
  }

  /** Splitting the root keeps the whole invariant and makes every leaf one level deeper. */
  lemma RootGrowthWellFormed(t: Tree, deg: nat, g: RootGrowth)
    requires g.Ready(t, deg)
    ensures WellFormed(g.After(t), deg, -1)
  {
    RaisedApart(t.lab, g.lid, g.rid, g.sep);
    forall q | q in g.After(t).lab {
      RootGrowthFits(t, deg, g, q);
    }
  }

  // ---- Replacing the contents of one leaf ------------------------------------------------

  /** A leaf may be replaced by any leaf that holds the new map's records of the same interval. */
  lemma LeafReplaced(t: Tree, deg: nat, id: nat, p: Image, m': map<nat, nat>)
    requires WellFormed(t, deg, -1) && id in t.lab && t.lab[id].lev == 0
    requires PageFits(p, id, t.lab[id], t.lab, m') && p.nkeys <= deg
    requires SameOutside(t.m, m', t.lab[id]) && forall k :: k in m' ==> k < KEY_END
    ensures WellFormed(Tree(t.file[id := p], t.lab, m'), deg, if p.nkeys == deg then id else -1)
  {
    var t' := Tree(t.file[id := p], t.lab, m');
    var full := if p.nkeys == deg then id else -1;
    forall q | q in t'.lab ensures Fits(t', deg, full, q) {
      assert Fits(t, deg, -1, q);
      if q != id && t.lab[q].lev == 0 {
        HoldsUnchanged(t.file[q], t.lab[q], t.m, m', t.lab[id]);
      }
    }
  }
}
