/**
 The pager: the backing file as a sequence of page images, and the free pages in it.
 */
module Paging {
  import opened Pages

  const ZEROS: Content := seq(CONTENTLEN, _ => 0)

  lemma {:induction false} Least(s: set<nat>) returns (x: nat)
    requires s != {}
    ensures x in s && forall y :: y in s ==> x <= y
  {
    var a :| a in s;
    var rest := s - {a};
    x := a;
    if rest != {} {
      var z := Least(rest);
      if z < a { x := z; }
    }
    forall y | y in s ensures x <= y { assert y == a || y in rest; }
  }

  /** file' has the same pages as file, except that page id is new or rewritten. */
  ghost predicate OnlyPage(file: seq<Image>, file': seq<Image>, id: nat)
  {
    && |file| <= |file'| <= |file| + 1 && id < |file'| && (|file| < |file'| ==> id == |file|)
    && forall i :: 0 <= i < |file| && i != id ==> file'[i] == file[i]
  }

  class Pager {
    var file: seq<Image>
    var freelist: set<nat>

    /** A fresh file holds an empty root of depth one; a reopened file's empty pages are free. */
    constructor (stored: seq<Image>)
      ensures file == if stored == [] then [Image(RootPage, 0, 1, ZEROS)] else stored
      ensures freelist == set i: nat | i < |file| && file[i].ptype == EmptyPage
    {
      if stored == [] {
        file := [Image(RootPage, 0, 1, ZEROS)];
      } else {
        file := stored;
      }
      new;
      freelist := {};
      for pageid := 0 to |file|
        invariant file == if stored == [] then [Image(RootPage, 0, 1, ZEROS)] else stored
        invariant freelist == set i: nat | i < pageid && file[i].ptype == EmptyPage
      {
        if file[pageid].ptype == EmptyPage { freelist := freelist + {pageid}; }
      }
    }

    method ReadPage(pageid: nat, buf: Page) returns (ok: bool)
      requires buf.content.Length == CONTENTLEN
      modifies buf, buf.content
      ensures ok <==> pageid < |file|
      ensures ok ==> buf.Img() == file[pageid]
    {
      ok := pageid < |file|;
      if ok { buf.CopyFrom(file[pageid]); }
    }

    /** Replace a page; writing beyond the end extends the file with zeros up to the page. */
    method WritePage(pageid: nat, buf: Page)
      requires buf.content.Length == CONTENTLEN
      modifies `file
      ensures pageid < |old(file)| ==> file == old(file)[pageid := buf.Img()]
      ensures pageid >= |old(file)| ==>
                |file| == pageid + 1 && old(file) <= file && file[pageid] == buf.Img() &&
                forall i :: |old(file)| <= i < pageid ==> file[i] == Image(EmptyPage, 0, 0, ZEROS)
    {
      if pageid < |file| {
        file := file[pageid := buf.Img()];
      } else {
        file := file + seq(pageid - |file|, _ => Image(EmptyPage, 0, 0, ZEROS)) + [buf.Img()];
      }
    }

    /** Take the free page with the least id, or extend the file by one page; zero it. */
    method AllocPage() returns (pageid: nat)
      requires forall x :: x in freelist ==> x < |file|
      modifies this
      ensures pageid in old(freelist) || pageid == old(|file|)
      ensures freelist == old(freelist) - {pageid}
      ensures old(freelist) != {} ==> pageid in old(freelist) && forall x :: x in old(freelist) ==> pageid <= x
      ensures OnlyPage(old(file), file, pageid) && file[pageid] == Image(EmptyPage, 0, 0, ZEROS)
      ensures old(freelist) != {} ==> |file| == old(|file|)
    {
      if freelist != {} {
        ghost var least := Least(freelist);
        pageid :| pageid in freelist && forall x :: x in freelist ==> pageid <= x;
        freelist := freelist - {pageid};
      } else {
        pageid := |file|;
        file := file + [Image(EmptyPage, 0, 0, ZEROS)];
      }
      file := file[pageid := Image(EmptyPage, 0, 0, ZEROS)];
    }
  }

  /** The file as it will be once the pages still held in memory are written. */
  ghost function Overlay(file: seq<Image>, pend: map<nat, Image>): (r: seq<Image>)
    ensures |r| == |file| && forall i :: 0 <= i < |file| ==> r[i] == if i in pend then pend[i] else file[i]
  {
    seq(|file|, i requires 0 <= i < |file| => if i in pend then pend[i] else file[i])
  }

  lemma OverlayNone(file: seq<Image>)
    ensures Overlay(file, map[]) == file
  {
  }

  lemma OverlayUpdate(file: seq<Image>, pend: map<nat, Image>, id: nat, p: Image)
    requires id < |file| && id !in pend
    ensures Overlay(file[id := p], pend) == Overlay(file, pend)[id := p]
  {
  }
}
