/**
 Range scans: what it means for a list of records to be a map's records in a key range, and how
 leaves laid side by side add up to such a list.
 */
module Ranges {
  import opened Pages
  import opened TreeShape

  type Record = (nat, nat)

  /** s lists exactly the records of m with lo <= key < hi, in increasing key order. */
  ghost predicate IsRange(s: seq<Record>, m: map<nat, nat>, lo: nat, hi: nat)
  {
    && (forall i, j :: 0 <= i < j < |s| ==> s[i].0 < s[j].0)
    && (forall i :: 0 <= i < |s| ==> lo <= s[i].0 < hi && s[i].0 in m && m[s[i].0] == s[i].1)
    && (forall k :: k in m && lo <= k < hi ==> Lists(s, k))
  }

  ghost predicate Lists(s: seq<Record>, k: nat)
  {
    exists i :: 0 <= i < |s| && s[i].0 == k
  }

  lemma RangeHead(s: seq<Record>, t: seq<Record>, m: map<nat, nat>, lo: nat, hi: nat)
    requires IsRange(s, m, lo, hi) && IsRange(t, m, lo, hi) && s != []
    ensures t != [] && t[0] == s[0]
  {
    assert Lists(t, s[0].0);
    assert t[0].0 in m;
    assert Lists(s, t[0].0);
  }

  lemma RangeTail(s: seq<Record>, m: map<nat, nat>, lo: nat, hi: nat)
    requires IsRange(s, m, lo, hi) && s != []
    ensures IsRange(s[1..], m, s[0].0 + 1, hi)
  {
    forall k | k in m && s[0].0 + 1 <= k < hi ensures Lists(s[1..], k) {
      assert Lists(s, k);
      var i :| 0 <= i < |s| && s[i].0 == k;
      assert s[1..][i - 1].0 == k;
    }
  }

  /** The records of a map in a range can be listed in one way only. */
  lemma {:induction false} RangeUnique(s: seq<Record>, t: seq<Record>, m: map<nat, nat>, lo: nat, hi: nat)
    requires IsRange(s, m, lo, hi) && IsRange(t, m, lo, hi)
    ensures s == t
  {
    hide IsRange;
    if s != [] {
      RangeHead(s, t, m, lo, hi);
      RangeTail(s, m, lo, hi);
      RangeTail(t, m, lo, hi);
      RangeUnique(s[1..], t[1..], m, s[0].0 + 1, hi);
      assert s == [s[0]] + s[1..] && t == [t[0]] + t[1..];
    } else if t != [] {
      RangeHead(t, s, m, lo, hi);
    }
  }

  lemma RangeAppend(s: seq<Record>, t: seq<Record>, m: map<nat, nat>, lo: nat, mid: nat, hi: nat)
    requires IsRange(s, m, lo, mid) && IsRange(t, m, mid, hi) && lo <= mid <= hi
    ensures IsRange(s + t, m, lo, hi)
  {
    var u := s + t;
    forall k | k in m && lo <= k < hi ensures Lists(u, k) {
      if k < mid {
        assert Lists(s, k);
        var i :| 0 <= i < |s| && s[i].0 == k;
        assert u[i].0 == k;
      } else {
        assert Lists(t, k);
        var i :| 0 <= i < |t| && t[i].0 == k;
        assert u[|s| + i].0 == k;
      }
    }
  }

  /** Exactly the first n keys of the page are below x. */
  ghost predicate Below(p: Image, x: nat, n: nat)
  {
    && n <= p.nkeys
    && (forall i :: 0 <= i < n ==> K(p, i) < x)
    && (forall i :: n <= i < p.nkeys ==> x <= K(p, i))
  }

  /** Records a to b-1 of a leaf. */
  ghost function Records(p: Image, a: nat, b: nat): (s: seq<Record>)
    requires a <= b
    ensures |s| == b - a && forall i :: 0 <= i < |s| ==> s[i] == (K(p, a + i), V(p, a + i))
  {
    seq(b - a, i requires 0 <= i < b - a => (K(p, a + i), V(p, a + i)))
  }

  lemma LeafRange(p: Image, lo: nat, hi: nat, m: map<nat, nat>, x: nat, y: nat, a: nat, b: nat)
    requires Sorted(p) && Holds(p, lo, hi, m) && lo <= x <= y <= hi && Below(p, x, a) && Below(p, y, b)
    ensures a <= b && IsRange(Records(p, a, b), m, x, y)
  {
    assert a > b ==> K(p, b) < x;
    var s := Records(p, a, b);
    forall i, j | 0 <= i < j < |s| ensures s[i].0 < s[j].0 {
      assert K(p, a + i) < K(p, a + j);
    }
    forall k | k in m && x <= k < y ensures Lists(s, k) {
      assert HasKey(p, k);
      var i :| 0 <= i < p.nkeys && K(p, i) == k;
      assert a <= i < b;
      assert s[i - a].0 == k;
    }
  }

  /** Leaves side by side in key order, without gaps. */
  ghost predicate LeafRun(lab: Labels, leaves: seq<nat>)
  {
    && (forall i :: 0 <= i < |leaves| ==> leaves[i] != 0 && leaves[i] in lab && lab[leaves[i]].lev == 0)
    && (forall i, j :: 0 <= i < |leaves| && j == i + 1 < |leaves| ==> lab[leaves[i]].hi == lab[leaves[j]].lo)
  }

  ghost function Kids(p: Image, a: nat, b: nat): (s: seq<nat>)
    requires a <= b
    ensures |s| == b - a && forall i :: 0 <= i < |s| ==> s[i] == Child(p, a + i)
  {
    seq<nat>(b - a, i requires 0 <= i < b - a => Child(p, a + i))
  }

  /** Consecutive children of a last-level internal page are a run of leaves. */
  lemma KidsRun(t: Tree, deg: nat, id: nat, a: nat, b: nat)
    requires WellFormed(t, deg, -1) && id in t.lab && t.lab[id].lev == 1 && a <= b <= t.file[id].nkeys
    ensures var s := Kids(t.file[id], a, b + 1);
            && LeafRun(t.lab, s)
            && t.lab[s[0]] == KidLabel(t.file[id], t.lab[id], a)
            && t.lab[s[b - a]] == KidLabel(t.file[id], t.lab[id], b)
  {
    hide Sorted, Apart, Holds, SiblingFits;
    assert Fits(t, deg, -1, id);
    var p, l := t.file[id], t.lab[id];
    var s := Kids(p, a, b + 1);
    forall i | 0 <= i < |s| ensures s[i] != 0 && s[i] in t.lab && t.lab[s[i]] == KidLabel(p, l, a + i) {
      assert Labelled(t.lab, Child(p, a + i), KidLabel(p, l, a + i));
    }
  }

  lemma RunAppend(lab: Labels, s: seq<nat>, t: seq<nat>)
    requires LeafRun(lab, s) && LeafRun(lab, t) && t != []
    requires s != [] ==> lab[s[|s| - 1]].hi == lab[t[0]].lo
    ensures LeafRun(lab, s + t) && (s + t)[|s + t| - 1] == t[|t| - 1]
    ensures (s + t)[0] == if s == [] then t[0] else s[0]
  {
  }

  /** Where a scan over last-level internal pages stands: leaves so far, and the page to read next. */
  ghost predicate Gathering(lab: Labels, leaves: seq<nat>, itnlid: nat, litnlid: nat, ritnlid: nat, lkey: nat, rkey: nat)
  {
    && itnlid in lab && litnlid in lab && ritnlid in lab
    && lab[itnlid].lev == lab[litnlid].lev == lab[ritnlid].lev == 1
    && lab[litnlid].Covers(lkey) && lab[ritnlid].Covers(rkey) && lkey <= rkey
    && lab[itnlid].lo <= lab[ritnlid].lo && LeafRun(lab, leaves)
    && (if leaves == [] then itnlid == litnlid
        else lab[litnlid].hi <= lab[itnlid].lo && lab[leaves[0]].Covers(lkey) &&
             lab[leaves[|leaves| - 1]].hi == lab[itnlid].lo)
  }

  lemma GatheringPage(lab: Labels, leaves: seq<nat>, itnlid: nat, litnlid: nat, ritnlid: nat, lkey: nat, rkey: nat)
    requires Gathering(lab, leaves, itnlid, litnlid, ritnlid, lkey, rkey)
    ensures itnlid in lab && lkey <= rkey
  {
  }

  /** A page that is not the last one of the scan has a right neighbour, and the scan moves closer. */
  lemma NextInternal(t: Tree, deg: nat, itnlid: nat, litnlid: nat, ritnlid: nat)
    requires WellFormed(t, deg, -1) && itnlid in t.lab && ritnlid in t.lab && itnlid != ritnlid && litnlid in t.lab
    requires t.lab[itnlid].lev == t.lab[ritnlid].lev == t.lab[litnlid].lev == 1
    requires t.lab[itnlid].lo <= t.lab[ritnlid].lo
    requires itnlid == litnlid || t.lab[litnlid].hi <= t.lab[itnlid].lo
    ensures itnlid < |t.file|
    ensures var next := t.file[itnlid].link;
            && next in t.lab && t.lab[next].lev == 1 && t.lab[next].lo == t.lab[itnlid].hi <= t.lab[ritnlid].lo
            && t.lab[itnlid].lo < t.lab[next].lo < KEY_END && t.lab[litnlid].hi <= t.lab[next].lo
  {
    hide WellFormed, Sorted;
    TreeBasics(t, deg, -1);
    PageBasics(t, deg, -1, itnlid);
    PageBasics(t, deg, -1, ritnlid);
    PageBasics(t, deg, -1, litnlid);
  }

  /** The leaves gathered up to and including those of page itnlid. */
  ghost predicate Gathered(lab: Labels, s: seq<nat>, itnlid: nat, ritnlid: nat, lkey: nat, rkey: nat)
  {
    && itnlid in lab && 0 < |s| && LeafRun(lab, s) && lab[s[0]].Covers(lkey)
    && (if itnlid == ritnlid then lab[s[|s| - 1]].Covers(rkey) else lab[s[|s| - 1]].hi == lab[itnlid].hi)
  }

  /** Adding a page's children to the leaves gathered so far. */
  lemma GatherStep(t: Tree, deg: nat, leaves: seq<nat>, itnlid: nat, litnlid: nat, ritnlid: nat, lkey: nat, rkey: nat,
                   a: nat, b: nat)
    requires WellFormed(t, deg, -1) && Gathering(t.lab, leaves, itnlid, litnlid, ritnlid, lkey, rkey)
    requires a <= b <= t.file[itnlid].nkeys
    requires if itnlid == litnlid then Rank(t.file[itnlid], lkey, a) else a == 0
    requires if itnlid == ritnlid then Rank(t.file[itnlid], rkey, b) else b == t.file[itnlid].nkeys
    ensures Gathered(t.lab, leaves + Kids(t.file[itnlid], a, b + 1), itnlid, ritnlid, lkey, rkey)
  {
    hide WellFormed, Sorted, Apart;
    PageBasics(t, deg, -1, itnlid);
    PageBasics(t, deg, -1, litnlid);
    KidsRun(t, deg, itnlid, a, b);
    RunAppend(t.lab, leaves, Kids(t.file[itnlid], a, b + 1));
    if itnlid == litnlid { ChildAtRank(t, deg, -1, itnlid, lkey, a); }
    if itnlid == ritnlid { ChildAtRank(t, deg, -1, itnlid, rkey, b); }
  }

  /** After a page that is not the last one, the scan goes on at its right neighbour. */
  lemma GatherNext(t: Tree, deg: nat, leaves: seq<nat>, itnlid: nat, litnlid: nat, ritnlid: nat, lkey: nat, rkey: nat,
                   s: seq<nat>)
    requires WellFormed(t, deg, -1) && Gathering(t.lab, leaves, itnlid, litnlid, ritnlid, lkey, rkey)
    requires itnlid != ritnlid && itnlid < |t.file|
    requires Gathered(t.lab, s, itnlid, ritnlid, lkey, rkey)
    ensures var next := t.file[itnlid].link;
            && Gathering(t.lab, s, next, litnlid, ritnlid, lkey, rkey)
            && t.lab[itnlid].lo < t.lab[next].lo < KEY_END
  {
    hide WellFormed, LeafRun;
    NextInternal(t, deg, itnlid, litnlid, ritnlid);
  }

  lemma BelowExact(p: Image, key: nat, r: nat)
    requires Sorted(p) && Rank(p, key, r) && r > 0 && K(p, r - 1) == key
    ensures Below(p, key, r - 1)
  {
  }

  lemma RankOrder(p: Image, k: nat, k': nat, r: nat, r': nat)
    requires Rank(p, k, r) && Rank(p, k', r') && k <= k'
    ensures r <= r'
  {
    assert r' < r ==> K(p, r') <= k;
  }

  datatype ScanResult = OutOfRange | Scanned(nrecords: nat)

  lemma EmptyRange(m: map<nat, nat>, lo: nat, hi: nat)
    requires hi <= lo
    ensures IsRange([], m, lo, hi)
  {
  }

  lemma GatherStart(t: Tree, deg: nat, litnlid: nat, ritnlid: nat, lkey: nat, rkey: nat)
    requires WellFormed(t, deg, -1) && litnlid in t.lab && ritnlid in t.lab && lkey <= rkey
    requires t.lab[litnlid].lev == t.lab[ritnlid].lev == 1
    requires t.lab[litnlid].Covers(lkey) && t.lab[ritnlid].Covers(rkey)
    ensures Gathering(t.lab, [], litnlid, litnlid, ritnlid, lkey, rkey)
    ensures litnlid < |t.file| && ritnlid < |t.file|
  {
    hide WellFormed;
    TreeBasics(t, deg, -1);
    PageBasics(t, deg, -1, litnlid);
    PageBasics(t, deg, -1, ritnlid);
  }

  lemma LeafEnds(p: Image, lo: nat, hi: nat, m: map<nat, nat>)
    requires Holds(p, lo, hi, m)
    ensures Below(p, lo, 0) && Below(p, hi, p.nkeys)
  {
  }

  lemma RankIsBelow(p: Image, key: nat, r: nat)
    requires Rank(p, key, r)
    ensures Below(p, key + 1, r)
  {
  }

  /** Up to which key a scan has delivered its records before it reads leaf number i. */
  ghost function ScanBound(lab: Labels, leaves: seq<nat>, i: nat, lkey: nat, rkey: nat): (x: nat)
  {
    if i == 0 then lkey
    else if i < |leaves| && leaves[i] in lab then lab[leaves[i]].lo
    else rkey + 1
  }

  /** Later leaves of a run lie to the right of earlier ones. */
  lemma {:induction false} RunOrder(t: Tree, deg: nat, leaves: seq<nat>, i: nat, j: nat)
    requires WellFormed(t, deg, -1) && LeafRun(t.lab, leaves) && i < j < |leaves|
    ensures t.lab[leaves[i]].hi <= t.lab[leaves[j]].lo
    decreases j
  {
    hide WellFormed;
    PageBasics(t, deg, -1, leaves[j - 1]);
    if i < j - 1 { RunOrder(t, deg, leaves, i, j - 1); }
  }

  /** Leaf i of the run is a boundary leaf exactly at the ends, and its part of the scan is what is due. */
  lemma RunPosition(t: Tree, deg: nat, leaves: seq<nat>, lleaf: nat, rleaf: nat, lkey: nat, rkey: nat, i: nat)
    requires WellFormed(t, deg, -1) && LeafRun(t.lab, leaves) && i < |leaves| && lkey <= rkey
    requires lleaf in t.lab && t.lab[lleaf].lev == 0 && t.lab[lleaf].Covers(lkey)
    requires rleaf in t.lab && t.lab[rleaf].lev == 0 && t.lab[rleaf].Covers(rkey)
    requires t.lab[leaves[0]].Covers(lkey) && t.lab[leaves[|leaves| - 1]].Covers(rkey)
    ensures leaves[i] != 0 && leaves[i] in t.lab && t.lab[leaves[i]].lev == 0
    ensures leaves[i] == lleaf <==> i == 0
    ensures leaves[i] == rleaf <==> i == |leaves| - 1
    ensures var x, y := ScanBound(t.lab, leaves, i, lkey, rkey), ScanBound(t.lab, leaves, i + 1, lkey, rkey);
            && lkey <= x <= y && t.lab[leaves[i]].lo <= x && y <= t.lab[leaves[i]].hi
            && x == (if i == 0 then lkey else t.lab[leaves[i]].lo)
            && y == (if i == |leaves| - 1 then rkey + 1 else t.lab[leaves[i]].hi)
  {
    hide WellFormed;
    var n := |leaves|;
    TreeBasics(t, deg, -1);
    OnePagePerLevel(t.lab, leaves[0], lleaf, lkey);
    OnePagePerLevel(t.lab, leaves[n - 1], rleaf, rkey);
    PageBasics(t, deg, -1, leaves[i]);
    if 0 < i { RunOrder(t, deg, leaves, 0, i); }
    if i < n - 1 { RunOrder(t, deg, leaves, i, n - 1); }
    if i < n - 1 { assert leaves[i + 1] in t.lab; }
  }
}
