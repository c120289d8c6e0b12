/**
 How many records a tree holds, and how deep it then is: there is no deletion, so a tree that grew
 under one degree has a single page exactly as long as its map is smaller than the degree.
 */
module Sizes {
  import opened Pages
  import opened TreeShape
  import opened Ranges

  /** Strictly increasing keys that are exactly a map's keys are as many as the map has. */
  lemma {:induction false} KeyCount(ks: seq<nat>, keys: set<nat>)
    requires forall i, j :: 0 <= i < j < |ks| ==> ks[i] < ks[j]
    requires forall k :: k in ks <==> k in keys
    ensures |keys| == |ks|
    decreases |ks|
  {
    if |ks| == 0 {
      assert keys == {};
    } else {
      var n := |ks| - 1;
      var rest := keys - {ks[n]};
      assert ks == ks[..n] + [ks[n]];
      assert forall i :: 0 <= i < n ==> ks[..n][i] < ks[n];
      assert forall k :: k in ks[..n] <==> k in rest;
      KeyCount(ks[..n], rest);
    }
  }

  lemma RecordCount(s: seq<Record>, m: map<nat, nat>, hi: nat)
    requires IsRange(s, m, 0, hi) && forall k :: k in m ==> k < hi
    ensures |m| == |s|
  {
    var ks := seq(|s|, i requires 0 <= i < |s| => s[i].0);
    forall k: nat ensures k in ks <==> k in m.Keys {
      if k in ks {
        var i :| 0 <= i < |ks| && ks[i] == k;
        assert s[i].0 in m;
      }
      if k in m.Keys {
        assert Lists(s, k);
        var i :| 0 <= i < |s| && s[i].0 == k;
        assert ks[i] == k;
      }
    }
    KeyCount(ks, m.Keys);
  }

  /** A page that holds a whole map has as many keys as the map. */
  lemma PageCount(p: Image, m: map<nat, nat>, hi: nat)
    requires Sorted(p) && Holds(p, 0, hi, m) && forall k :: k in m ==> k < hi
    ensures |m| == p.nkeys
  {
    var ks := seq(p.nkeys, i requires 0 <= i < p.nkeys => K(p, i));
    forall k: nat ensures k in ks <==> k in m.Keys {
      if k in ks {
        var i :| 0 <= i < |ks| && ks[i] == k;
        assert K(p, i) in m;
      }
      if k in m.Keys {
        assert HasKey(p, k);
        var i :| 0 <= i < p.nkeys && K(p, i) == k;
        assert ks[i] == k;
      }
    }
    KeyCount(ks, m.Keys);
  }

  lemma RootCount(t: Tree, deg: nat, full: int)
    requires WellFormed(t, deg, full) && 0 in t.lab && t.lab[0].lev == 0
    ensures 0 < |t.file| && |t.m| == t.file[0].nkeys
  {
    hide WellFormed, Sorted, Holds;
    TreeBasics(t, deg, full);
    PageBasics(t, deg, full, 0);
    LeafContents(t, deg, full, 0);
    PageCount(t.file[0], t.m, KEY_END);
  }

  /** A tree of more than one page holds at least as many records as its degree. */
  ghost predicate Filled(lab: Labels, m: map<nat, nat>, deg: nat)
  {
    0 in lab && (lab[0].lev > 0 ==> |m| >= deg)
  }

  /** A map is smaller than the degree exactly when the tree is one page. */
  lemma OnePage(t: Tree, deg: nat)
    requires WellFormed(t, deg, -1) && Filled(t.lab, t.m, deg)
    ensures t.lab[0].lev == 0 <==> |t.m| < deg
  {
    hide WellFormed;
    PageBasics(t, deg, -1, 0);
    if t.lab[0].lev == 0 { RootCount(t, deg, -1); }
  }

  lemma UpdateGrows(m: map<nat, nat>, key: nat, value: nat)
    ensures |m| <= |m[key := value]|
  {
    assert m[key := value].Keys == m.Keys + {key};
    if key in m {
      assert m.Keys + {key} == m.Keys;
    }
  }

  /**
   After a record went into a leaf, the map is large enough for a tree of several pages: the tree
   had several pages already, or its only page is now full.
   */
  lemma LargeEnough(t: Tree, deg: nat, m: map<nat, nat>, id: nat, full: int, key: nat, value: nat)
    requires Filled(t.lab, m, deg) && t.m == m[key := value] && WellFormed(t, deg, full)
    requires id in t.lab && id < |t.file|
    ensures t.lab[0].lev > 0 ==> |t.m| >= deg
    ensures t.file[id].nkeys >= deg ==> |t.m| >= deg
  {
    hide WellFormed;
    UpdateGrows(m, key, value);
    TreeBasics(t, deg, full);
    if t.lab[0].lev == 0 {
      RootCount(t, deg, full);
      assert id != 0 ==> t.lab[id].lev < 0;
    }
  }

  /** A sound tree is sound under another degree exactly when all its pages are below that degree. */
  lemma OtherDegree(t: Tree, deg: nat, deg': nat)
    requires WellFormed(t, deg, -1) && 2 <= deg' <= MAXNKEYS
    ensures WellFormed(t, deg', -1) <==> forall id :: id in t.lab ==> id < |t.file| && t.file[id].nkeys < deg'
  {
    hide PageFits;
    forall id | id in t.lab
      ensures Fits(t, deg', -1, id) <==> id < |t.file| && t.file[id].nkeys < deg'
    {
      assert Fits(t, deg, -1, id);
    }
  }
}
