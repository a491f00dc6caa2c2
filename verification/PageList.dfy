/** The class PageList of fdcache_page.cpp: the page vector of one cache file, changed in place.
    Every method is stated over Statuses(), the status of each byte of the file. */
module PageLists {
  import opened Limits
  import opened Pages
  import opened MixPlans

  /** The byte map s cut or grown to n bytes; new bytes get status st. */
  ghost function Sized(s: seq<Status>, n: nat, st: Status): (r: seq<Status>)
    ensures |r| == n && forall b :: 0 <= b < n ==> r[b] == if b < |s| then s[b] else st
  {
    seq(n, b requires 0 <= b => if b < |s| then s[b] else st)
  }

  /** The byte map s with status st on [start, start + size), grown if that area passes its end:
      bytes between the old end and start are then unloaded and carry only st's modified flag. */
  ghost function Overlay(s: seq<Status>, start: nat, size: nat, st: Status): (r: seq<Status>)
    ensures |r| == if |s| <= start + size then start + size else |s|
    ensures forall b :: 0 <= b < |r| ==>
              r[b] == if start <= b < start + size then st
                      else if b < |s| then s[b] else Status(false, st.modified)
  {
    seq(if |s| <= start + size then start + size else |s|,
        b requires 0 <= b => if start <= b < start + size then st
                             else if b < |s| then s[b] else Status(false, st.modified))
  }

  lemma OverlayOutside(s: seq<Status>, start: nat, size: nat, st: Status)
    requires |s| <= start + size
    ensures Overlay(s, start, size, st) ==
              Sized(if |s| < start then Sized(s, start, Status(false, st.modified))
                    else if |s| == start then s
                    else Sized(s, start, Status(false, false)), start + size, st)
  {
  }

  /** PageList::page_status. */
  datatype PageStatus = NotLoadModified | Loaded | Modified | LoadModified {
    function Flags(): Status {
      Status(this == LoadModified || this == Loaded, this == LoadModified || this == Modified)
    }
  }

  /** ps with every page of [start, stop) given status st; pages are never cut here. */
  ghost function Painted(ps: seq<Page>, start: int, stop: int, st: Status): (r: seq<Page>)
    ensures |r| == |ps|
    ensures forall k :: 0 <= k < |ps| ==>
              r[k] == if start <= ps[k].offset && ps[k].offset + ps[k].bytes <= stop then ps[k].(st := st) else ps[k]
  {
    seq(|ps|, k requires 0 <= k < |ps| =>
      if start <= ps[k].offset && ps[k].offset + ps[k].bytes <= stop then ps[k].(st := st) else ps[k])
  }

  lemma PaintedAt(ps: seq<Page>, start: int, stop: int, st: Status, b: int)
    requires Positive(ps) && Contiguous(ps) && ps != [] && 0 <= ps[0].offset
    requires Boundary(ps, start) && Boundary(ps, stop)
    requires ps[0].offset <= b < SizeOf(ps)
    ensures At(Painted(ps, start, stop, st), GAP, b) == if start <= b < stop then st else At(ps, GAP, b)
  {
    ContiguousLaid(ps);
    SameAreasShape(ps, Painted(ps, start, stop, st));
    var k := CoverIndex(ps, b);
    AtIndex(ps, GAP, k, b);
    AtIndex(Painted(ps, start, stop, st), GAP, k, b);
  }

  lemma CutAt(front: seq<Page>, p: Page, bytes: int, gap: Status)
    requires 0 <= bytes <= p.bytes
    ensures forall b :: b < p.offset + bytes ==>
              At(front + [p.(bytes := bytes)], gap, b) == At(front + [p], gap, b)
  {
    AtPush(front, p, gap);
    AtPush(front, p.(bytes := bytes), gap);
  }

  lemma CompactNext(ps: seq<Page>, j: nat, gap: Status)
    requires j < |ps|
    ensures Compact(ps[..j + 1], gap) == Step(Compact(ps[..j], gap), ps[j], gap)
    ensures ps[j..][0] == ps[j] && ps[j..][1..] == ps[j + 1..]
  {
    assert ps[..j + 1][..j] == ps[..j];
  }

  /** Compress, first half of a turn: closes the hole between the page before the cursor and the
      page at the cursor, by a new page or by stretching the page before. */
  method FillAtCursor(ps: seq<Page>, i: nat) returns (qs: seq<Page>, next: nat)
    requires 0 < i < |ps|
    ensures next < |qs| && next > 0
    ensures qs[..next] == Fill(ps[..i], ps[i].offset, GAP) && qs[next..] == ps[i..]
  {
    qs, next := ps, i;
    var last := ps[i - 1];
    if last.offset + last.bytes != ps[i].offset {
      if last.st.loaded || last.st.modified {
        qs := ps[..i] + [Page(last.offset + last.bytes, ps[i].offset - (last.offset + last.bytes), GAP)] + ps[i..];
        next := i + 1;
      } else {
        qs := ps[i - 1 := last.(bytes := ps[i].offset - last.offset)];
      }
    }
  }

  /** Compress, second half: merges the page at the cursor into the one before, or passes it. */
  method JoinAtCursor(ps: seq<Page>, i: nat) returns (qs: seq<Page>, next: nat)
    requires 0 < i < |ps|
    ensures 0 < next <= |qs|
    ensures qs[..next] == Join(ps[..i], ps[i]) && qs[next..] == ps[i..][1..]
  {
    var last := ps[i - 1];
    if last.st.loaded == ps[i].st.loaded && last.st.modified == ps[i].st.modified {
      qs := ps[..i - 1] + [last.(bytes := last.bytes + ps[i].bytes)] + ps[i + 1..];
      next := i;
    } else {
      qs, next := ps, i + 1;
    }
  }

  /** qs has the pages of ps, some of them cut in two. */
  ghost predicate Resplit(ps: seq<Page>, qs: seq<Page>) {
    && Positive(qs) && Contiguous(qs) && ps != [] && qs != []
    && qs[0].offset == ps[0].offset && SizeOf(qs) == SizeOf(ps)
    && (forall b :: At(qs, GAP, b) == At(ps, GAP, b))
    && (forall q :: Boundary(ps, q) ==> Boundary(qs, q))
  }

  lemma AtBoundary(ps: seq<Page>, i: nat)
    requires Positive(ps) && Contiguous(ps) && i < |ps| && 0 <= ps[0].offset
    ensures Resplit(ps, ps) && Boundary(ps, ps[i].offset)
    ensures ps[0].offset <= ps[i].offset < SizeOf(ps)
  {
    ContiguousLaid(ps);
    forall k | 0 <= k < |ps| ensures !(ps[k].offset < ps[i].offset < ps[k].offset + ps[k].bytes) {
      if k < i { LaidOrder(ps, k, i); }
      if i < k { LaidOrder(ps, i, k); }
    }
  }

  lemma NoBoundary(ps: seq<Page>, pos: int)
    requires Positive(ps) && Contiguous(ps) && ps != [] && 0 <= ps[0].offset
    requires forall k :: 0 <= k < |ps| ==> !ps[k].Covers(pos)
    ensures Resplit(ps, ps) && Boundary(ps, pos)
    ensures !(ps[0].offset <= pos < SizeOf(ps))
  {
    if ps[0].offset <= pos < SizeOf(ps) {
      var k := CoverIndex(ps, pos);
    }
  }

  lemma ResplitTwice(ps: seq<Page>, qs: seq<Page>, rs: seq<Page>, q: int)
    requires Resplit(ps, qs) && Resplit(qs, rs) && Boundary(qs, q) && 0 <= ps[0].offset
    ensures Resplit(ps, rs) && Boundary(rs, q) && Laid(rs)
  {
    ContiguousLaid(rs);
  }

  /** ps with page i cut in two at pos. */
  function SplitList(ps: seq<Page>, i: nat, pos: int): (r: seq<Page>)
    requires i < |ps|
    ensures |r| == |ps| + 1
    ensures forall k :: 0 <= k < i ==> r[k] == ps[k]
    ensures forall k :: i + 2 <= k < |r| ==> r[k] == ps[k - 1]
    ensures r[i] == ps[i].(bytes := pos - ps[i].offset)
    ensures r[i + 1] == ps[i].(offset := pos, bytes := ps[i].offset + ps[i].bytes - pos)
  {
    ps[..i] + [ps[i].(bytes := pos - ps[i].offset)] + [ps[i].(offset := pos,
                                                              bytes := ps[i].offset + ps[i].bytes - pos)] + ps[i + 1..]
  }

  lemma SplitAt(ps: seq<Page>, i: nat, pos: int, b: int)
    requires i < |ps| && ps[i].offset < pos < ps[i].offset + ps[i].bytes
    ensures var qs := SplitList(ps, i, pos);
            At(qs, GAP, b) == At(ps, GAP, b)
  {
    var p := ps[i];
    var f, r := p.(bytes := pos - p.offset), p.(offset := pos, bytes := p.offset + p.bytes - pos);
    AtConcat(ps[..i] + [f] + [r], ps[i + 1..], GAP, b);
    AtConcat(ps[..i] + [p], ps[i + 1..], GAP, b);
    assert ps == ps[..i] + [p] + ps[i + 1..];
    AtPush(ps[..i] + [f], r, GAP);
    AtPush(ps[..i], f, GAP);
    AtPush(ps[..i], p, GAP);
  }

  lemma SplitKeeps(ps: seq<Page>, i: nat, pos: int)
    requires Positive(ps) && Contiguous(ps) && i < |ps| && ps[i].offset < pos < ps[i].offset + ps[i].bytes
    requires 0 <= ps[0].offset
    ensures var qs := SplitList(ps, i, pos);
            Resplit(ps, qs) && Boundary(qs, pos)
    ensures ps[0].offset <= pos < SizeOf(ps)
  {
    ContiguousLaid(ps);
    var qs := SplitList(ps, i, pos);
    forall b ensures At(qs, GAP, b) == At(ps, GAP, b) {
      SplitAt(ps, i, pos, b);
    }
    SplitShape(ps, i, pos);
    SplitBoundary(ps, qs, i, pos);
  }

  lemma SplitShape(ps: seq<Page>, i: nat, pos: int)
    requires Positive(ps) && Contiguous(ps) && i < |ps| && ps[i].offset < pos < ps[i].offset + ps[i].bytes
    ensures var qs := SplitList(ps, i, pos);
            && Positive(qs) && Contiguous(qs) && |qs| == |ps| + 1
            && qs[0].offset == ps[0].offset && SizeOf(qs) == SizeOf(ps)
  {
    var qs := SplitList(ps, i, pos);
    var front, rest := ps[..i], ps[i + 1..];
    ContiguousAround(ps, i);
    ContiguousPush(front, qs[i]);
    ContiguousPush(front + [qs[i]], qs[i + 1]);
    ContiguousConcat(front + [qs[i]] + [qs[i + 1]], rest);
  }

  lemma {:induction false} ContiguousAround(ps: seq<Page>, i: nat)
    requires Contiguous(ps) && i < |ps|
    ensures Contiguous(ps[..i]) && Contiguous(ps[i + 1..])
    ensures i > 0 ==> SizeOf(ps[..i]) == ps[i].offset
    ensures ps[i + 1..] != [] ==> ps[i + 1].offset == ps[i].offset + ps[i].bytes
  {
    ContiguousIndex(ps, i);
    ContiguousConcat(ps[..i + 1], ps[i + 1..]);
    assert ps[..i + 1] + ps[i + 1..] == ps;
  }

  lemma SplitBoundary(ps: seq<Page>, qs: seq<Page>, i: nat, pos: int)
    requires Laid(ps) && i < |ps| && ps[i].offset < pos < ps[i].offset + ps[i].bytes && |qs| == |ps| + 1
    requires forall k :: 0 <= k < i ==> qs[k] == ps[k]
    requires forall k :: i + 2 <= k < |qs| ==> qs[k] == ps[k - 1]
    requires qs[i].offset == ps[i].offset && qs[i].offset + qs[i].bytes == pos == qs[i + 1].offset
             && (qs[i + 1].offset + qs[i + 1].bytes) == ps[i].offset + ps[i].bytes
    ensures Boundary(qs, pos)
    ensures forall q :: Boundary(ps, q) ==> Boundary(qs, q)
  {
    forall q | Boundary(ps, q) || q == pos ensures Boundary(qs, q) {
      forall k | 0 <= k < |qs| ensures !(qs[k].offset < q < qs[k].offset + qs[k].bytes) {
        if k < i { LaidOrder(ps, k, i); assert qs[k] == ps[k]; }
        else if k >= i + 2 { LaidOrder(ps, i, k - 1); assert qs[k] == ps[k - 1]; }
        else { assert q != pos ==> !(ps[i].offset < q < ps[i].offset + ps[i].bytes); }
      }
    }
  }

  /** qs is ps with everything from byte size on removed. */
  ghost predicate CutTo(ps: seq<Page>, size: nat, qs: seq<Page>) {
    && Tight(qs) && SizeOf(qs) == size && (qs != [] ==> qs[0].offset == 0)
    && forall b :: b < size ==> At(qs, GAP, b) == At(ps, GAP, b)
  }

  /** The state of the cutting loop after j pages. */
  ghost predicate CutSoFar(ps: seq<Page>, size: nat, j: nat, done: seq<Page>) {
    && j <= |ps| && Tight(done) && (done != [] ==> done[0].offset == 0)
    && SizeOf(done) == (if SizeOf(ps[..j]) <= size then SizeOf(ps[..j]) else size)
    && (SizeOf(ps[..j]) <= size ==> done == ps[..j])
    && forall b :: b < size ==> At(done, GAP, b) == At(ps[..j], GAP, b)
  }

  ghost function CutStep(done: seq<Page>, p: Page, size: int): seq<Page> {
    if p.offset + p.bytes <= size then done + [p]
    else if size <= p.offset then done
    else done + [p.(bytes := size - p.offset)]
  }

  /** One turn of the cutting loop. A shortened page ends at size, so the source's second look at
      it only passes it. */
  method CutAtCursor(ps: seq<Page>, i: nat, size: int) returns (qs: seq<Page>, next: nat)
    requires i < |ps|
    ensures next <= |qs|
    ensures qs[..next] == CutStep(ps[..i], ps[i], size) && qs[next..] == ps[i..][1..]
  {
    if ps[i].offset + ps[i].bytes <= size {
      qs, next := ps, i + 1;
    } else if size <= ps[i].offset {
      qs, next := ps[..i] + ps[i + 1..], i;
    } else {
      qs, next := ps[i := ps[i].(bytes := size - ps[i].offset)], i + 1;
    }
  }

  lemma CutNext(ps: seq<Page>, size: nat, j: nat, done: seq<Page>)
    requires Tight(ps) && ps != [] && ps[0].offset == 0
    requires j < |ps| && CutSoFar(ps, size, j, done)
    ensures CutSoFar(ps, size, j + 1, CutStep(done, ps[j], size))
  {
    var p := ps[j];
    ContiguousIndex(ps, j);
    TightIndex(ps, j);
    assert ps[..j + 1] == ps[..j] + [p] && SizeOf(ps[..j]) == p.offset;
    AtPush(ps[..j], p, GAP);
    if p.offset + p.bytes <= size {
      TightPush(done, p);
    } else if p.offset < size {
      var q := p.(bytes := size - p.offset);
      CutAt(done, p, q.bytes, GAP);
      TightPush(done, q);
    }
  }

  lemma CompactSingle(ps: seq<Page>, gap: Status)
    requires |ps| == 1
    ensures Compact(ps, gap) == ps
  {
    assert Compact(ps[..0], gap) == [];
  }

  /** Compression makes a gap-free list that starts at 0 well-formed. */
  lemma CompactWellFormed(ps: seq<Page>)
    requires Loose(ps)
    ensures var r := Compact(ps, GAP);
            && WellFormed(r) && SizeOf(r) == SizeOf(ps) && (r == [] <==> ps == [])
            && (forall b :: At(r, GAP, b) == At(ps, GAP, b))
            && (|ps| == 1 ==> r == ps)
  {
    if |ps| == 1 {
      CompactSingle(ps, GAP);
    } else {
      CompactKeeps(ps, GAP);
    }
  }

  /** Ready for a last compression: gap-free from 0, at most one empty page. */
  ghost predicate Loose(ps: seq<Page>) {
    && Laid(ps) && Contiguous(ps) && (ps != [] ==> ps[0].offset == 0)
    && (Positive(ps) || |ps| == 1) && 0 <= SizeOf(ps)
  }

  lemma FlatIs(ps: seq<Page>, s: seq<Status>)
    requires SizeOf(ps) == |s| && forall b :: 0 <= b < |s| ==> At(ps, GAP, b) == s[b]
    ensures Flat(ps) == s
  {
  }

  lemma FlatCompact(ps: seq<Page>)
    requires Loose(ps)
    ensures WellFormed(Compact(ps, GAP)) && SizeOf(Compact(ps, GAP)) == SizeOf(ps)
    ensures Flat(Compact(ps, GAP)) == Flat(ps)
  {
    CompactWellFormed(ps);
    FlatIs(Compact(ps, GAP), Flat(ps));
  }

  lemma InitFlat(size: nat, isLoaded: bool, isModified: bool, was: seq<Page>)
    requires SizeOf(was) == 0
    ensures var ps := [Page(0, size, Status(isLoaded, isModified))];
            Loose(ps) && Flat(ps) == Sized(Flat(was), size, Status(isLoaded, isModified))
  {
    AtPush([], Page(0, size, Status(isLoaded, isModified)), GAP);
    assert [] + [Page(0, size, Status(isLoaded, isModified))] == [Page(0, size, Status(isLoaded, isModified))];
  }

  lemma GrowFlat(ps: seq<Page>, size: nat, st: Status)
    requires WellFormed(ps) && 0 < SizeOf(ps) < size
    ensures var qs := ps + [Page(SizeOf(ps), size - SizeOf(ps), st)];
            Loose(qs) && Flat(qs) == Sized(Flat(ps), size, st)
  {
    var p := Page(SizeOf(ps), size - SizeOf(ps), st);
    WellFormedLaid(ps);
    ContiguousLaid(ps + [p]);
    AtPush(ps, p, GAP);
  }

  lemma CutFlat(ps: seq<Page>, size: nat, qs: seq<Page>, st: Status)
    requires WellFormed(ps) && 0 <= size < SizeOf(ps) && CutTo(ps, size, qs)
    ensures Loose(qs) && Flat(qs) == Sized(Flat(ps), size, st)
    ensures size == 0 ==> qs == []
  {
    ContiguousLaid(qs);
  }

  lemma SameFlat(ps: seq<Page>, size: nat, st: Status)
    requires WellFormed(ps) && size == SizeOf(ps)
    ensures Loose(ps) && Flat(ps) == Sized(Flat(ps), size, st)
  {
    WellFormedLaid(ps);
  }

  lemma SameAreasLoose(ps: seq<Page>, qs: seq<Page>)
    requires Loose(ps) && SameAreas(ps, qs)
    ensures Loose(qs) && SizeOf(qs) == SizeOf(ps)
  {
    SameAreasShape(ps, qs);
  }

  lemma ResplitLoose(ps: seq<Page>, qs: seq<Page>)
    requires Resplit(ps, qs) && ps[0].offset == 0
    ensures Loose(qs)
  {
    ContiguousLaid(qs);
  }

  lemma PaintedFlat(ps: seq<Page>, rs: seq<Page>, start: nat, size: nat, st: Status)
    requires WellFormed(ps) && start < SizeOf(ps) && start + size < SizeOf(ps)
    requires Resplit(ps, rs) && Boundary(rs, start) && Boundary(rs, start + size)
    ensures var qs := Painted(rs, start, start + size, st);
            Loose(qs) && Flat(qs) == Overlay(Flat(ps), start, size, st)
  {
    var qs := Painted(rs, start, start + size, st);
    ResplitLoose(ps, rs);
    SameAreasLoose(rs, qs);
    ghost var want := Overlay(Flat(ps), start, size, st);
    forall b | 0 <= b < |want| ensures At(qs, GAP, b) == want[b] {
      PaintedByte(ps, rs, start, size, st, b);
    }
    FlatIs(qs, want);
  }

  lemma PaintedByte(ps: seq<Page>, rs: seq<Page>, start: nat, size: nat, st: Status, b: int)
    requires Resplit(ps, rs) && Boundary(rs, start) && Boundary(rs, start + size) && ps[0].offset == 0
    requires start + size < SizeOf(ps) && 0 <= b < SizeOf(ps)
    ensures At(Painted(rs, start, start + size, st), GAP, b) == Overlay(Flat(ps), start, size, st)[b]
  {
    PaintedAt(rs, start, start + size, st, b);
    assert At(rs, GAP, b) == At(ps, GAP, b);
  }

  ghost function Unmodified(s: seq<Status>): (r: seq<Status>)
    ensures |r| == |s| && forall b :: 0 <= b < |s| ==> r[b] == Status(s[b].loaded, false)
  {
    seq(|s|, b requires 0 <= b < |s| => Status(s[b].loaded, false))
  }

  function Cleaned(p: Page): Page {
    p.(st := Status(p.st.loaded, false))
  }

  lemma UnmodifiedAt(ps: seq<Page>, qs: seq<Page>, b: int)
    requires Loose(ps) && Loose(qs) && |qs| == |ps| && 0 <= b < SizeOf(ps)
    requires forall k :: 0 <= k < |ps| ==> qs[k] == Cleaned(ps[k])
    ensures At(qs, GAP, b) == Status(At(ps, GAP, b).loaded, false)
  {
    var k := CoverIndex(ps, b);
    AtIndex(ps, GAP, k, b);
    AtIndex(qs, GAP, k, b);
  }

  lemma UnmodifiedFlat(ps: seq<Page>, qs: seq<Page>)
    requires Loose(ps) && |qs| == |ps|
    requires forall k :: 0 <= k < |ps| ==> qs[k] == Cleaned(ps[k])
    ensures Loose(qs) && Flat(qs) == Unmodified(Flat(ps))
  {
    SameAreasLoose(ps, qs);
    ghost var want := Unmodified(Flat(ps));
    forall b | 0 <= b < |want| ensures At(qs, GAP, b) == want[b] {
      UnmodifiedAt(ps, qs, b);
    }
    FlatIs(qs, want);
  }

  /** On a non-empty file the page flags and the byte map tell the same. */
  lemma ModifiedBytes(ps: seq<Page>)
    requires WellFormed(ps) && 0 < SizeOf(ps)
    ensures (exists k :: 0 <= k < |ps| && ps[k].st.modified) <==>
            (exists b :: 0 <= b < SizeOf(ps) && Flat(ps)[b].modified)
  {
    WellFormedLaid(ps);
    if b :| 0 <= b < SizeOf(ps) && Flat(ps)[b].modified {
      var k := CoverIndex(ps, b);
      AtIndex(ps, GAP, k, b);
      assert ps[k].st.modified;
    }
    if k :| 0 <= k < |ps| && ps[k].st.modified {
      AtIndex(ps, GAP, k, ps[k].offset);
      assert ps[0].offset <= ps[k].offset && ps[k].offset + ps[k].bytes <= SizeOf(ps);
      assert Flat(ps)[ps[k].offset].modified;
    }
  }

  // ---- the unloaded part of a range

  /** The end of the range [start, start + size), where size 0 stands for the rest of the file. */
  function RangeEnd(start: nat, size: nat, total: int): (stop: nat)
    ensures start <= stop
  {
    if size == 0 && start < total then total else start + size
  }

  ghost predicate InRange(b: int, start: nat, size: nat, total: int) {
    start <= b < RangeEnd(start, size, total)
  }

  lemma PagePlace(ps: seq<Page>, i: nat)
    requires WellFormed(ps) && i < |ps|
    ensures ps[i].offset + ps[i].bytes <= SizeOf(ps) && 0 <= ps[i].offset && 0 <= ps[i].bytes
    ensures SizeOf(ps[..i]) == ps[i].offset && SizeOf(ps[..i + 1]) == ps[i].offset + ps[i].bytes
  {
    WellFormedLaid(ps);
    LaidIndex(ps, i);
    ContiguousIndex(ps, i);
  }

  /** The bytes of page i all have its status. */
  lemma PageBytes(ps: seq<Page>, i: nat)
    requires WellFormed(ps) && i < |ps|
    ensures ps[i].offset + ps[i].bytes <= SizeOf(ps) && 0 <= ps[i].offset && 0 <= ps[i].bytes
    ensures SizeOf(ps[..i]) == ps[i].offset && SizeOf(ps[..i + 1]) == ps[i].offset + ps[i].bytes
    ensures forall b :: ps[i].Covers(b) ==> At(ps, GAP, b) == ps[i].st
    ensures i + 1 == |ps| ==> ps[i].offset + ps[i].bytes == SizeOf(ps)
  {
    WellFormedLaid(ps);
    PagePlace(ps, i);
    forall b | ps[i].Covers(b) ensures At(ps, GAP, b) == ps[i].st { AtIndex(ps, GAP, i, b); }
  }

  /** There are bytes between any two areas. */
  ghost predicate Spaced(list: seq<Page>) {
    forall k :: 0 < k < |list| ==> list[k - 1].offset + list[k - 1].bytes < list[k].offset
  }

  /** Appends an unloaded area, merging it into the last one when they touch. */
  method PushMerged(list: seq<Page>, start: int, size: int) returns (r: seq<Page>)
    requires Laid(list) && Positive(list) && 0 <= start && SizeOf(list) <= start && 0 < size
    ensures Laid(r) && Positive(r) && SizeOf(r) == start + size && (Spaced(list) ==> Spaced(r))
    ensures forall b :: Hit(r, b) <==> Hit(list, b) || start <= b < start + size
  {
    var p := Page(start, size, GAP);
    if list != [] && list[|list| - 1].offset + list[|list| - 1].bytes == start {
      var n := |list| - 1;
      var last := list[n];
      r := list[..n] + [last.(bytes := last.bytes + size)];
      HitPush(list[..n], last);
      HitPush(list[..n], last.(bytes := last.bytes + size));
      assert list[..n] + [last] == list;
    } else {
      r := list + [p];
      HitPush(list, p);
    }
  }

  /** The areas found among the first upto bytes. */
  ghost predicate Found(ps: seq<Page>, start: nat, next: nat, upto: int, list: seq<Page>) {
    && Laid(list) && Positive(list) && 0 <= SizeOf(list) <= upto && Spaced(list)
    && forall b :: Hit(list, b) <==> 0 <= b < upto && start <= b < next && At(ps, GAP, b) == GAP
  }

  lemma FoundSkip(ps: seq<Page>, start: nat, next: nat, i: nat, upto: int, list: seq<Page>)
    requires WellFormed(ps) && i < |ps| && Found(ps, start, next, ps[i].offset, list)
    requires ps[i].offset + ps[i].bytes <= upto
    requires ps[i].offset + ps[i].bytes <= start || ps[i].st != GAP || next <= ps[i].offset
    requires upto == ps[i].offset + ps[i].bytes || next <= ps[i].offset
    ensures Found(ps, start, next, upto, list)
  {
    PageBytes(ps, i);
  }

  lemma FoundPush(ps: seq<Page>, start: nat, next: nat, i: nat, list: seq<Page>, longer: seq<Page>, from: int,
                  stop: int)
    requires WellFormed(ps) && i < |ps| && Found(ps, start, next, ps[i].offset, list)
    requires ps[i].st == GAP && from == (if ps[i].offset < start then start else ps[i].offset)
    requires stop == Least(ps[i].offset + ps[i].bytes, next) && from < stop
    requires Laid(longer) && Positive(longer) && SizeOf(longer) == stop && Spaced(longer)
    requires forall b :: Hit(longer, b) <==> Hit(list, b) || from <= b < stop
    ensures Found(ps, start, next, ps[i].offset + ps[i].bytes, longer)
  {
    PageBytes(ps, i);
  }

  /** The search loop of GetUnloadedPages. */
  method UnloadedAreas(ps: seq<Page>, start: nat, next: nat) returns (list: seq<Page>)
    requires WellFormed(ps) && (start < next || SizeOf(ps) <= start)
    ensures Found(ps, start, next, SizeOf(ps), list)
  {
    WellFormedLaid(ps);
    list := [];
    var i := 0;
    while i < |ps|
      invariant 0 <= i <= |ps|
      invariant Found(ps, start, next, SizeOf(ps[..i]), list)
    {
      var p := ps[i];
      PagePlace(ps, i);
      if next <= p.offset && start < p.offset + p.bytes {
        FoundSkip(ps, start, next, i, SizeOf(ps), list);
        return;
      }
      if p.offset + p.bytes <= start || p.st.loaded || p.st.modified {
        FoundSkip(ps, start, next, i, p.offset + p.bytes, list);
      } else {
        ghost var before := list;
        var pageStart := if p.offset < start then start else p.offset;
        var pageNext := Least(p.offset + p.bytes, next);
        list := PushMerged(list, pageStart, pageNext - pageStart);
        FoundPush(ps, start, next, i, before, list, pageStart, pageNext);
      }
      i := i + 1;
    }
    assert ps[..i] == ps;
  }

  function Least(a: int, b: int): int { if a < b then a else b }

  ghost predicate IsUnloaded(s: seq<Status>, b: int) { 0 <= b < |s| && s[b] == GAP }

  ghost predicate AllUnloaded(s: seq<Status>, a: int, n: int) {
    forall b :: a <= b < a + n ==> IsUnloaded(s, b)
  }

  /** Byte b is neither loaded nor modified and, when limit is positive, in no such piece of [lo, hi)
      of that many bytes. */
  ghost predicate Counts(s: seq<Status>, lo: int, hi: int, limit: nat, b: int) {
    IsUnloaded(s, b) && (limit == 0 || forall a :: lo <= a <= b < a + limit <= hi ==> !AllUnloaded(s, a, limit))
  }

  ghost function CountUpTo(s: seq<Status>, lo: int, hi: int, limit: nat, stop: int): nat
    decreases stop - lo
  {
    if stop <= lo then 0
    else CountUpTo(s, lo, hi, limit, stop - 1) + (if Counts(s, lo, hi, limit, stop - 1) then 1 else 0)
  }

  /** How many bytes of [lo, hi) are unloaded, in pieces shorter than limit when that is positive. */
  ghost function CountUnloaded(s: seq<Status>, lo: int, hi: int, limit: nat): nat {
    CountUpTo(s, lo, hi, limit, hi)
  }

  lemma {:induction false} CountRun(s: seq<Status>, lo: int, hi: int, limit: nat, mid: int, stop: int, counted: bool)
    requires lo <= mid <= stop
    requires forall b :: mid <= b < stop ==> (Counts(s, lo, hi, limit, b) <==> counted)
    ensures CountUpTo(s, lo, hi, limit, stop) == CountUpTo(s, lo, hi, limit, mid) + if counted then stop - mid else 0
    decreases stop - mid
  {
    if mid < stop {
      CountRun(s, lo, hi, limit, mid, stop - 1, counted);
    }
  }

  /** A count of zero without a limit means that no byte is unloaded. */
  lemma {:induction false} CountPositive(s: seq<Status>, lo: int, hi: int, stop: int, i: int)
    requires CountUpTo(s, lo, hi, 0, stop) == 0 && lo <= i < stop && 0 <= i < |s|
    ensures s[i] != GAP
    decreases stop - lo
  {
    if i < stop - 1 {
      CountPositive(s, lo, hi, stop - 1, i);
    }
  }

  /** The bytes of a page in [start, next), which is a whole piece of it. */
  lemma PieceCounts(s: seq<Status>, start: int, next: int, limit: nat, from: int, stop: int, b: int)
    requires start <= from <= b < stop <= next && AllUnloaded(s, from, stop - from)
    requires from == start || !IsUnloaded(s, from - 1)
    requires stop == next || !IsUnloaded(s, stop)
    ensures Counts(s, start, next, limit, b) <==> limit == 0 || stop - from < limit
  {
    assert IsUnloaded(s, b);
    if 0 < limit <= stop - from {
      var a := if from < b - limit + 1 then b - limit + 1 else from;
      assert AllUnloaded(s, a, limit);
    } else {
      forall a | start <= a <= b < a + limit <= next ensures !AllUnloaded(s, a, limit) {
        assert a < from ==> a <= from - 1 < a + limit;
        assert from <= a ==> a <= stop < a + limit;
      }
    }
  }

  lemma CountPage(s: seq<Status>, p: Page, start: nat, next: nat, limit: nat)
    requires 0 <= p.offset && 0 <= p.bytes && p.offset + p.bytes <= |s| && start <= next
    requires forall b :: p.Covers(b) ==> s[b] == p.st
    requires p.st == GAP && 0 < p.bytes ==> !IsUnloaded(s, p.offset - 1) && !IsUnloaded(s, p.offset + p.bytes)
    requires p.offset < next || p.offset + p.bytes <= start
    ensures CountUpTo(s, start, next, limit, Least(next, p.offset + p.bytes)) ==
              CountUpTo(s, start, next, limit, Least(next, p.offset)) + UnloadedPart(p, start, next, limit)
  {
    var from := if p.offset < start then start else p.offset;
    var stop := Least(next, p.offset + p.bytes);
    if from < stop {
      forall b | from <= b < stop
        ensures Counts(s, start, next, limit, b) <==> p.st == GAP && (limit == 0 || stop - from < limit)
      {
        assert p.Covers(b);
        if p.st == GAP { PageIs(s, p, from, stop); PieceCounts(s, start, next, limit, from, stop, b); }
      }
      CountRun(s, start, next, limit, from, stop, p.st == GAP && (limit == 0 || stop - from < limit));
    }
  }

  lemma PageIs(s: seq<Status>, p: Page, from: int, stop: int)
    requires p.offset <= from <= stop <= p.offset + p.bytes <= |s| && 0 <= p.offset && p.st == GAP
    requires forall b :: p.Covers(b) ==> s[b] == p.st
    ensures AllUnloaded(s, from, stop - from)
  {
    forall b | from <= b < stop ensures IsUnloaded(s, b) { assert p.Covers(b); }
  }

  /** Between two pages of equal status there is another one. */
  lemma PageEnds(ps: seq<Page>, i: nat)
    requires WellFormed(ps) && 0 <= SizeOf(ps) && i < |ps| && ps[i].st == GAP && 0 < ps[i].bytes
    ensures !IsUnloaded(Flat(ps), ps[i].offset - 1) && !IsUnloaded(Flat(ps), ps[i].offset + ps[i].bytes)
  {
    WellFormedLaid(ps);
    PagePlace(ps, i);
    if 0 < i {
      MergedIndex(ps, i - 1);
      PageBytes(ps, i - 1);
      assert ps[i - 1].Covers(ps[i].offset - 1);
    }
    if i + 1 < |ps| {
      MergedIndex(ps, i);
      PageBytes(ps, i + 1);
      assert ps[i + 1].Covers(ps[i].offset + ps[i].bytes);
    }
  }

  lemma {:induction false} MergedIndex(ps: seq<Page>, i: nat)
    requires Merged(ps) && i + 1 < |ps|
    ensures ps[i].st != ps[i + 1].st
  {
    if i + 1 < |ps| - 1 {
      MergedIndex(ps[..|ps| - 1], i);
    }
  }

  /** What page p adds to GetTotalUnloadedPageSize. */
  function UnloadedPart(p: Page, start: int, next: int, limitSize: nat): (r: nat)
    requires 0 <= p.bytes && start <= next && (p.offset < next || p.offset + p.bytes <= start)
    ensures var from := if p.offset < start then start else p.offset;
            var all := if p.st == GAP && from < Least(next, p.offset + p.bytes)
                then Least(next, p.offset + p.bytes) - from else 0;
            r == if limitSize == 0 || all < limitSize then all else 0
  {
    if p.offset + p.bytes <= start || p.st.loaded || p.st.modified then 0
    else
      var tmpSize :=
        if p.offset <= start then if p.offset + p.bytes <= next then p.offset + p.bytes - start else next - start
        else if p.offset + p.bytes <= next then p.offset + p.bytes - p.offset else next - p.offset;
      if 0 == limitSize || tmpSize < limitSize then tmpSize else 0
  }

  lemma CountPast(s: seq<Status>, start: nat, next: nat, limit: nat)
    requires start <= next
    ensures CountUpTo(s, start, next, limit, Least(next, |s|)) == CountUnloaded(s, start, next, limit)
  {
    if start <= |s| < next {
      CountRun(s, start, next, limit, |s|, next, false);
    } else if |s| < start {
      CountRun(s, start, next, limit, start, next, false);
    }
  }

  lemma CountNext(ps: seq<Page>, i: nat, start: nat, next: nat, limit: nat)
    requires WellFormed(ps) && 0 <= SizeOf(ps) && i < |ps| && start <= next && 0 <= ps[i].bytes
    requires ps[i].offset < next || ps[i].offset + ps[i].bytes <= start
    ensures CountUpTo(Flat(ps), start, next, limit, Least(next, SizeOf(ps[..i + 1]))) ==
              CountUpTo(Flat(ps), start, next, limit, Least(next, SizeOf(ps[..i]))) +
              UnloadedPart(ps[i], start, next, limit)
  {
    PageBytes(ps, i);
    if ps[i].st == GAP && 0 < ps[i].bytes { PageEnds(ps, i); }
    CountPage(Flat(ps), ps[i], start, next, limit);
  }

  /** The counting loop of GetTotalUnloadedPageSize. */
  method TotalUnloaded(ps: seq<Page>, start: nat, next: nat, limitSize: nat) returns (rest: nat)
    requires WellFormed(ps) && 0 <= SizeOf(ps) && start <= next
    ensures rest == CountUnloaded(Flat(ps), start, next, limitSize)
  {
    ghost var s := Flat(ps);
    rest := 0;
    var i := 0;
    while i < |ps|
      invariant 0 <= i <= |ps|
      invariant rest == CountUpTo(s, start, next, limitSize, Least(next, SizeOf(ps[..i])))
    {
      var p := ps[i];
      PagePlace(ps, i);
      if next <= p.offset && start < p.offset + p.bytes {
        return;
      }
      CountNext(ps, i, start, next, limitSize);
      rest := rest + UnloadedPart(p, start, next, limitSize);
      i := i + 1;
    }
    assert ps[..i] == ps;
    CountPast(s, start, next, limitSize);
  }

  lemma WellFormedFixed(ps: seq<Page>)
    requires WellFormed(ps)
    ensures Compact(ps, GAP) == ps && Chain(ps) && (Positive(ps) || |ps| == 1)
  {
    WellFormedLaid(ps);
    if |ps| == 1 {
      CompactSingle(ps, GAP);
    } else {
      CompactFixed(ps, GAP);
    }
  }

  // ---- the unmodified pages

  ghost function Clean(ps: seq<Page>): seq<Page> {
    if ps == [] then []
    else if ps[|ps| - 1].st.modified then Clean(ps[..|ps| - 1])
    else Clean(ps[..|ps| - 1]) + [ps[|ps| - 1]]
  }

  ghost predicate CleanByte(ps: seq<Page>, b: int) {
    0 <= b < SizeOf(ps) && !At(ps, GAP, b).modified
  }

  /** b lies between two unmodified bytes, or is one. */
  ghost predicate BetweenClean(ps: seq<Page>, b: int) {
    exists x, y :: x <= b <= y && CleanByte(ps, x) && CleanByte(ps, y)
  }

  lemma {:induction false} CleanLaid(ps: seq<Page>)
    requires Laid(ps)
    ensures Laid(Clean(ps)) && 0 <= SizeOf(Clean(ps)) <= SizeOf(ps)
  {
    if ps != [] {
      CleanLaid(ps[..|ps| - 1]);
      LaidPush(Clean(ps[..|ps| - 1]), ps[|ps| - 1]);
    }
  }

  lemma {:induction false} CleanIn(ps: seq<Page>, p: Page)
    ensures p in Clean(ps) <==> p in ps && !p.st.modified
  {
    if ps != [] {
      CleanIn(ps[..|ps| - 1], p);
      assert p in ps <==> p in ps[..|ps| - 1] || p == ps[|ps| - 1];
    }
  }

  /** A gap-free list covers exactly its extent. */
  lemma HitExtent(ps: seq<Page>, b: int)
    requires Positive(ps) && Contiguous(ps) && ps != [] && 0 <= ps[0].offset
    ensures Hit(ps, b) <==> ps[0].offset <= b < SizeOf(ps)
  {
    ContiguousLaid(ps);
    if ps[0].offset <= b < SizeOf(ps) {
      var k := CoverIndex(ps, b);
    }
  }

  lemma CleanExtent(ps: seq<Page>, x: int)
    requires WellFormed(ps) && Positive(ps) && CleanByte(ps, x)
    ensures var c := Clean(ps);
            Laid(c) && c != [] && c[0].offset <= x < SizeOf(c)
  {
    WellFormedLaid(ps);
    CleanLaid(ps);
    var k := CoverIndex(ps, x);
    AtIndex(ps, GAP, k, x);
    var c := Clean(ps);
    CleanIn(ps, ps[k]);
    var j :| 0 <= j < |c| && c[j] == ps[k];
    LaidIndex(c, j);
    if j > 0 { LaidIndex(c, 0); LaidOrder(c, 0, j); }
  }

  lemma CleanMember(ps: seq<Page>, p: Page)
    requires WellFormed(ps) && Positive(ps) && p in Clean(ps)
    ensures CleanByte(ps, p.offset) && CleanByte(ps, p.offset + p.bytes - 1)
  {
    WellFormedLaid(ps);
    CleanIn(ps, p);
    var k :| 0 <= k < |ps| && ps[k] == p;
    AtIndex(ps, GAP, k, p.offset);
    AtIndex(ps, GAP, k, p.offset + p.bytes - 1);
  }

  lemma CleanBetween(ps: seq<Page>, b: int)
    requires WellFormed(ps) && Positive(ps)
    ensures var c := Clean(ps);
            BetweenClean(ps, b) <==> c != [] && c[0].offset <= b < SizeOf(c)
  {
    var c := Clean(ps);
    if c != [] {
      CleanMember(ps, c[0]);
      CleanMember(ps, c[|c| - 1]);
    }
    if BetweenClean(ps, b) {
      var x, y :| x <= b <= y && CleanByte(ps, x) && CleanByte(ps, y);
      CleanExtent(ps, x);
      CleanExtent(ps, y);
    }
  }

  lemma {:induction false} CleanHull(ps: seq<Page>)
    requires WellFormed(ps)
    ensures var r := Compressed(Clean(ps), IGNORE_NOTHING);
            && Tight(r) && Laid(r) && 0 <= SizeOf(r) <= SizeOf(ps)
            && forall b :: Hit(r, b) <==> BetweenClean(ps, b)
  {
    WellFormedLaid(ps);
    CleanLaid(ps);
    CompressedKeeps(Clean(ps), IGNORE_NOTHING);
    if Positive(ps) {
      CleanExact(ps);
    } else {
      CleanEmpty(ps);
    }
  }

  /** The single page of an empty file. */
  lemma {:induction false} CleanEmpty(ps: seq<Page>)
    requires WellFormed(ps) && !Positive(ps)
    ensures Compressed(Clean(ps), IGNORE_NOTHING) == [] && forall b :: !BetweenClean(ps, b)
  {
    var c := Clean(ps);
    forall k | 0 <= k < |c| ensures c[k].bytes == 0 { CleanIn(ps, c[k]); }
    EmptyPrepared(c);
  }

  lemma CleanExact(ps: seq<Page>)
    requires WellFormed(ps) && Positive(ps)
    ensures var r := Compressed(Clean(ps), IGNORE_NOTHING);
            SizeOf(r) == SizeOf(Clean(ps)) && forall b :: Hit(r, b) <==> BetweenClean(ps, b)
  {
    var c := Clean(ps);
    WellFormedLaid(ps);
    CleanLaid(ps);
    forall k | 0 <= k < |c| ensures 0 < c[k].bytes { CleanIn(ps, c[k]); }
    PreparedSame(c);
    CompactKeeps(c, GAP);
    if c != [] { LaidIndex(c, 0); }
    forall b ensures Hit(Compact(c, GAP), b) <==> BetweenClean(ps, b) {
      CleanBetween(ps, b);
      if c != [] { HitExtent(Compact(c, GAP), b); }
    }
  }

  lemma {:induction false} EmptyPrepared(ps: seq<Page>)
    requires forall k :: 0 <= k < |ps| ==> ps[k].bytes == 0
    ensures Prepared(ps, IGNORE_NOTHING) == []
  {
    if ps != [] {
      EmptyPrepared(ps[..|ps| - 1]);
    }
  }

  ghost predicate AllLoadedIn(s: seq<Status>, start: nat, size: nat) {
    forall i :: 0 <= i < |s| && InRange(i, start, size, |s|) ==> s[i].loaded
  }

  /** ... as far as the first stop bytes are concerned. */
  ghost predicate LoadedBelow(s: seq<Status>, start: nat, size: nat, stop: int) {
    forall i :: 0 <= i < |s| && i < stop && InRange(i, start, size, |s|) ==> s[i].loaded
  }

  class PageList {
    var pages: seq<Page>
    var isShrink: bool   // whether a resize ever dropped bytes

    ghost predicate Valid()
      reads this
    {
      WellFormed(pages)
    }

    function Size(): int
      reads this
    {
      SizeOf(pages)
    }

    /** The status of every byte of the file. */
    ghost function Statuses(): (r: seq<Status>)
      reads this
      requires Valid()
      ensures |r| == Size()
    {
      WellFormedLaid(pages);
      Flat(pages)
    }

    constructor (size: nat, isLoaded: bool, isModified: bool, shrunk: bool)
      ensures Valid() && isShrink == false
      ensures pages == [Page(0, size, Status(isLoaded, isModified))]
    {
      isShrink := shrunk;
      pages := [];
      new;
      Init(size, isLoaded, isModified);
    }

    method Clear()
      modifies this
      ensures Valid() && pages == [] && !isShrink
    {
      pages := [];
      isShrink := false;
    }

    /** A negative size leaves the list empty. */
    method Init(size: int, isLoaded: bool, isModified: bool)
      modifies this
      ensures Valid() && !isShrink
      ensures pages == if 0 <= size then [Page(0, size, Status(isLoaded, isModified))] else []
      ensures 0 <= size ==> Statuses() == Sized([], size, Status(isLoaded, isModified))
    {
      Clear();
      if 0 <= size {
        pages := pages + [Page(0, size, Status(isLoaded, isModified))];
        InitFlat(size, isLoaded, isModified, []);
      }
    }

    /** In-place compression: the cursor i separates the finished pages from those to come. */
    method Compress()
      requires Laid(pages) && (Positive(pages) || |pages| == 1)
      modifies this`pages
      ensures pages == Compact(old(pages), GAP)
    {
      var ps := pages;
      ghost var j := 0;
      var i := 0;
      while i < |ps|
        invariant pages == old(pages) && 0 <= i <= |ps| && 0 <= j <= |pages| && (i == 0 <==> j == 0)
        invariant ps[..i] == Compact(pages[..j], GAP) && ps[i..] == pages[j..]
        decreases |pages| - j
      {
        CompactNext(pages, j, GAP);
        assert ps[i] == ps[i..][0];
        if i == 0 {
          i := 1;
        } else {
          ps, i := FillAtCursor(ps, i);
          assert ps[i] == ps[i..][0];
          ps, i := JoinAtCursor(ps, i);
        }
        j := j + 1;
      }
      assert |pages[j..]| == |ps[i..]| == 0;
      assert pages[..j] == pages && ps[..i] == ps;
      pages := ps;
    }

    /** Cuts the page around newPos, if any, in two. */
    method Parse(newPos: int) returns (found: bool)
      requires Positive(pages) && Contiguous(pages) && (pages != [] ==> 0 <= pages[0].offset)
      modifies this`pages
      ensures if old(pages) == [] then pages == [] else Resplit(old(pages), pages)
      ensures Boundary(pages, newPos)
      ensures found <==> old(pages) != [] && old(pages)[0].offset <= newPos < SizeOf(old(pages))
    {
      var ps := pages;
      for i := 0 to |ps|
        invariant pages == ps
        invariant forall k :: 0 <= k < i ==> !ps[k].Covers(newPos)
      {
        var p := ps[i];
        if newPos == p.offset {
          AtBoundary(ps, i);
          return true;
        } else if p.offset < newPos && newPos < p.offset + p.bytes {
          SplitKeeps(ps, i, newPos);
          pages := SplitList(ps, i, newPos);
          return true;
        }
      }
      if ps != [] { NoBoundary(ps, newPos); }
      return false;
    }

    method Resize(size: nat, isLoaded: bool, isModified: bool)
      requires Valid()
      modifies this
      ensures Valid() && Statuses() == Sized(old(Statuses()), size, Status(isLoaded, isModified))
      ensures isShrink == (old(isShrink) || (size < old(Size()) && isModified))
      ensures old(Size()) == 0 ==> pages == [Page(0, size, Status(isLoaded, isModified))]
      ensures size == 0 < old(Size()) ==> pages == []
    {
      Reshape(size, isLoaded, isModified);
      CompactWellFormed(pages);
      FlatCompact(pages);
      Compress();
    }

    /** Cuts the list, or appends a page. */
    method Reshape(size: nat, isLoaded: bool, isModified: bool)
      requires Valid()
      modifies this
      ensures Loose(pages) && Flat(pages) == Sized(old(Statuses()), size, Status(isLoaded, isModified))
      ensures isShrink == (old(isShrink) || (size < old(Size()) && isModified))
      ensures old(Size()) == 0 ==> pages == [Page(0, size, Status(isLoaded, isModified))]
      ensures size == 0 < old(Size()) ==> pages == []
    {
      var total := Size();
      WellFormedLaid(pages);
      if 0 == total {
        var backup := isShrink;
        Init(size, isLoaded, isModified);
        isShrink := backup;
        InitFlat(size, isLoaded, isModified, old(pages));
      } else if total < size {
        GrowFlat(pages, size, Status(isLoaded, isModified));
        pages := pages + [Page(total, size - total, Status(isLoaded, isModified))];
      } else if size < total {
        Cut(size);
        CutFlat(old(pages), size, pages, Status(isLoaded, isModified));
        if isModified {
          isShrink := true;
        }
      } else {
        SameFlat(pages, size, Status(isLoaded, isModified));
      }
    }

    /** Gives the bytes of [start, start + size) one status, growing the list when needed. */
    method SetPageLoadedStatus(start: nat, size: nat, status: PageStatus)
      requires Valid()
      modifies this
      ensures Valid() && Statuses() == Overlay(old(Statuses()), start, size, status.Flags())
      ensures isShrink == old(isShrink)
      ensures old(Size()) == 0 == start ==> pages == [Page(0, size, status.Flags())]
    {
      var nowSize := Size();
      var st := status.Flags();
      if nowSize <= start + size { OverlayOutside(Statuses(), start, size, st); }
      if nowSize <= start {
        if nowSize < start {
          Resize(start, false, st.modified);
        }
        Resize(start + size, st.loaded, st.modified);
      } else if nowSize <= start + size {
        Resize(start, false, false);
        Resize(start + size, st.loaded, st.modified);
      } else {
        PaintInside(start, size, st);
      }
    }

    /** The branch of SetPageLoadedStatus for an area that ends before the file does. */
    method PaintInside(start: nat, size: nat, st: Status)
      requires Valid() && start < Size() && start + size < Size()
      modifies this`pages
      ensures Valid() && Statuses() == Overlay(old(Statuses()), start, size, st)
    {
      ghost var all := pages;
      ParseBoth(start, start + size);
      ghost var split := pages;
      Paint(start, start + size, st);
      PaintedFlat(all, split, start, size, st);
      FlatCompact(pages);
      Compress();
    }

    method ParseBoth(start: nat, stop: nat)
      requires Valid() && 0 < Size()
      modifies this`pages
      ensures Resplit(old(pages), pages) && Laid(pages) && Boundary(pages, start) && Boundary(pages, stop)
    {
      WellFormedLaid(pages);
      ghost var p0 := pages;
      var _ := Parse(start);
      ghost var p1 := pages;
      var _ := Parse(stop);
      ResplitTwice(p0, p1, pages, start);
    }

    /** The flag-setting loop of SetPageLoadedStatus. */
    method Paint(start: int, stop: int, st: Status)
      requires Positive(pages) && Contiguous(pages) && Laid(pages)
      requires Boundary(pages, start) && Boundary(pages, stop) && start <= stop
      modifies this`pages
      ensures pages == Painted(old(pages), start, stop, st)
    {
      var i := 0;
      while i < |pages|
        invariant 0 <= i <= |pages| == |old(pages)|
        invariant forall k :: 0 <= k < i ==> pages[k] == Painted(old(pages), start, stop, st)[k]
        invariant forall k :: i <= k < |pages| ==> pages[k] == old(pages)[k]
      {
        if pages[i].End() < start {
        } else if stop <= pages[i].offset {
          forall k | i < k < |pages| ensures stop <= old(pages)[k].offset { LaidOrder(old(pages), i, k); }
          break;
        } else {
          pages := pages[i := pages[i].(st := st)];
        }
        i := i + 1;
      }
      assert pages == Painted(old(pages), start, stop, st);
    }

    method ClearAllModified()
      requires Valid()
      modifies this
      ensures Valid() && !isShrink
      ensures Statuses() == Unmodified(old(Statuses()))
    {
      isShrink := false;
      ghost var all := pages;
      WellFormedLaid(all);
      for i := 0 to |pages|
        invariant |pages| == |all| && !isShrink
        invariant forall k :: 0 <= k < |all| ==>
                    pages[k] == if k < i then Cleaned(all[k]) else all[k]
      {
        if pages[i].st.modified {
          pages := pages[i := Cleaned(pages[i])];
        }
      }
      UnmodifiedFlat(all, pages);
      FlatCompact(pages);
      Compress();
    }

    /** The areas of [start, start + size) that are neither loaded nor modified; size 0 means
        to the end of the file. */
    method GetUnloadedPages(start: nat, size: nat) returns (list: seq<Page>)
      requires Valid()
      ensures Laid(list) && Positive(list) && 0 <= SizeOf(list) <= Size() && Spaced(list)
      ensures forall b :: Hit(list, b) <==>
                0 <= b < Size() && InRange(b, start, size, Size()) && Statuses()[b] == GAP
    {
      WellFormedLaid(pages);
      list := UnloadedAreas(pages, start, RangeEnd(start, size, Size()));
    }

    /** The number of bytes GetUnloadedPages would find, counting only pieces shorter than
        limitSize when that is positive. */
    method GetTotalUnloadedPageSize(start: nat, size: nat, limitSize: nat) returns (rest: nat)
      requires Valid()
      ensures rest == CountUnloaded(Statuses(), start, RangeEnd(start, size, Size()), limitSize)
    {
      WellFormedLaid(pages);
      rest := TotalUnloaded(pages, start, RangeEnd(start, size, Size()), limitSize);
    }

    /** Whether all bytes of [start, start + size), or from start on when size is 0, are loaded. */
    method IsPageLoaded(start: nat, size: nat) returns (r: bool)
      requires Valid() && 0 < Size()
      ensures r <==> AllLoadedIn(Statuses(), start, size)
    {
      WellFormedLaid(pages);
      ghost var s := Statuses();
      for i := 0 to |pages|
        invariant LoadedBelow(s, start, size, SizeOf(pages[..i])) && (size == 0 || SizeOf(pages[..i]) < start + size)
      {
        var p := pages[i];
        PageBytes(pages, i);
        assert forall b :: p.Covers(b) ==> s[b] == p.st;
        if p.offset + p.bytes - 1 < start {
          continue;
        }
        if !p.st.loaded {
          assert p.Covers(if p.offset < start then start else p.offset);
          return false;
        }
        if 0 != size && start + size <= p.offset + p.bytes {
          return true;
        }
      }
      assert pages[..|pages|] == pages;
      return true;
    }

    /** The two lists of a mixed upload: what to fetch first, and the parts in file order. */
    method GetPageListsForMultipartUpload(max: int) returns (dlpages: seq<Page>, mixuppages: seq<Page>)
      requires Valid() && MIN_MULTIPART_SIZE <= max
      modifies this`pages
      ensures pages == old(pages)
      ensures mixuppages == MixUploads(pages, max)
      ensures MixTiles(mixuppages, Size(), max) && MixSound(pages, dlpages, mixuppages)
      ensures MixHull(pages, dlpages, mixuppages) && MixThrift(pages, mixuppages)
    {
      WellFormedFixed(pages);
      Compress();
      dlpages, mixuppages := PlanMix(pages, max);
    }

    /** The areas PunchHole may drop. The list is compressed before it is returned, so it spans
        whatever lies between the unmodified pages. */
    method GetNoDataPageLists() returns (nodata: seq<Page>)
      requires Valid()
      modifies this`pages
      ensures pages == old(pages)
      ensures Tight(nodata) && Laid(nodata) && 0 <= SizeOf(nodata) <= Size()
      ensures forall b :: Hit(nodata, b) <==> BetweenClean(pages, b)
    {
      WellFormedFixed(pages);
      Compress();
      var ps := pages;
      var clean := [];
      for i := 0 to |ps|
        invariant clean == Clean(ps[..i])
      {
        assert ps[..i + 1][..i] == ps[..i];
        if !ps[i].st.modified {
          clean := clean + [ps[i]];
        }
      }
      assert ps[..|ps|] == ps;
      CleanHull(ps);
      nodata := RawCompress(clean, IGNORE_NOTHING);
    }

    /** Anything to upload: a page flagged modified (the empty page of a new file counts), or
        bytes lost to a shrink. */
    method IsModified() returns (r: bool)
      ensures r <==> isShrink || exists k :: 0 <= k < |pages| && pages[k].st.modified
    {
      if isShrink {
        return true;
      }
      for i := 0 to |pages|
        invariant forall k :: 0 <= k < i ==> !pages[k].st.modified
      {
        if pages[i].st.modified {
          return true;
        }
      }
      return false;
    }

    /** The cutting loop of Resize. */
    method Cut(size: nat)
      requires Tight(pages) && pages != [] && pages[0].offset == 0 && size < Size()
      modifies this`pages
      ensures CutTo(old(pages), size, pages)
    {
      var ps := pages;
      ghost var j := 0;
      var i := 0;
      while i < |ps|
        invariant pages == old(pages) && 0 <= i <= |ps| && 0 <= j <= |pages| && ps[i..] == pages[j..]
        invariant CutSoFar(pages, size, j, ps[..i])
        decreases |pages| - j
      {
        assert ps[i] == ps[i..][0] == pages[j..][0] && pages[j..][1..] == pages[j + 1..];
        CutNext(pages, size, j, ps[..i]);
        ps, i := CutAtCursor(ps, i, size);
        j := j + 1;
      }
      assert |ps[i..]| == |pages[j..]| == 0;
      assert ps[..i] == ps && pages[..j] == pages;
      pages := ps;
    }
  }
}
