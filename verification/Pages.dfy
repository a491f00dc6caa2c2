/** Runs of bytes with a download status (struct fdpage of fdcache_page.h), the status that a
    list of such runs gives every byte, and the list compression of fdcache_page.cpp as a
    function with its theory: what it keeps, what shape it reaches, and why that shape is unique. */
module Pages {

  /** Status of one byte of the cache file. */
  datatype Status = Status(loaded: bool, modified: bool)

  /** The status of a byte no page mentions. */
  const GAP := Status(false, false)

  datatype Page = Page(offset: int, bytes: int, st: Status) {
    function End(): int { if 0 < bytes then offset + bytes - 1 else 0 }

    ghost predicate Covers(b: int) { offset <= b < offset + bytes }
  }

  /** The status of byte b under ps: the last page covering b decides, gap if there is none. */
  ghost function At(ps: seq<Page>, gap: Status, b: int): Status {
    if ps == [] then gap
    else if ps[|ps| - 1].Covers(b) then ps[|ps| - 1].st
    else At(ps[..|ps| - 1], gap, b)
  }

  // ---- shapes of page lists

  /** One past the last byte. */
  function SizeOf(ps: seq<Page>): int {
    if ps == [] then 0 else ps[|ps| - 1].offset + ps[|ps| - 1].bytes
  }

  /** Sorted and disjoint; empty pages are tolerated. */
  ghost predicate Laid(ps: seq<Page>) {
    ps == [] ||
    var front, p := ps[..|ps| - 1], ps[|ps| - 1];
    Laid(front) && SizeOf(front) <= p.offset && 0 <= p.bytes
  }

  ghost predicate Positive(ps: seq<Page>) {
    forall k :: 0 <= k < |ps| ==> 0 < ps[k].bytes
  }

  /** Every page starts where the one before it ends. */
  ghost predicate Contiguous(ps: seq<Page>) {
    |ps| < 2 ||
    var front, p := ps[..|ps| - 1], ps[|ps| - 1];
    Contiguous(front) && SizeOf(front) == p.offset
  }

  /** No two neighbours have the same status. */
  ghost predicate Merged(ps: seq<Page>) {
    |ps| < 2 ||
    var front, p := ps[..|ps| - 1], ps[|ps| - 1];
    Merged(front) && front[|front| - 1].st != p.st
  }

  /** The canonical shape: no empty page, no gap, no two neighbours of equal status. */
  ghost predicate Tight(ps: seq<Page>) {
    Positive(ps) && Contiguous(ps) && Merged(ps)
  }

  /** No page has q strictly inside. */
  ghost predicate Boundary(ps: seq<Page>, q: int) {
    forall k :: 0 <= k < |ps| ==> !(ps[k].offset < q < ps[k].offset + ps[k].bytes)
  }

  lemma LaidPush(ps: seq<Page>, p: Page)
    ensures Laid(ps + [p]) <==> Laid(ps) && SizeOf(ps) <= p.offset && 0 <= p.bytes
  {
    assert (ps + [p])[..|ps|] == ps;
  }

  lemma ContiguousPush(ps: seq<Page>, p: Page)
    ensures Contiguous(ps + [p]) <==> Contiguous(ps) && (ps == [] || SizeOf(ps) == p.offset)
  {
    assert (ps + [p])[..|ps|] == ps;
  }

  lemma TightPush(ps: seq<Page>, p: Page)
    ensures Tight(ps + [p]) <==>
            Tight(ps) && 0 < p.bytes && (ps == [] || (SizeOf(ps) == p.offset && ps[|ps| - 1].st != p.st))
    ensures SizeOf(ps + [p]) == p.offset + p.bytes
  {
    var qs := ps + [p];
    assert qs[..|ps|] == ps && qs[|ps|] == p;
    assert forall k :: 0 <= k < |ps| ==> qs[k] == ps[k];
  }

  lemma {:induction false} LaidOrder(ps: seq<Page>, j: nat, k: nat)
    requires Laid(ps) && j < k < |ps|
    ensures ps[j].offset + ps[j].bytes <= ps[k].offset
  {
    var n := |ps| - 1;
    if k < n {
      LaidOrder(ps[..n], j, k);
    } else if j < n - 1 {
      LaidOrder(ps[..n], j, n - 1);
      LaidIndex(ps[..n], n - 1);
    }
  }

  lemma {:induction false} LaidIndex(ps: seq<Page>, k: nat)
    requires Laid(ps) && k < |ps|
    ensures 0 <= ps[k].offset && 0 <= ps[k].bytes && ps[k].offset + ps[k].bytes <= SizeOf(ps)
    ensures Laid(ps[..k]) && SizeOf(ps[..k]) <= ps[k].offset && 0 <= SizeOf(ps[..k])
  {
    var n := |ps| - 1;
    if n > 0 {
      LaidIndex(ps[..n], if k < n then k else n - 1);
    }
    if k < n {
      assert ps[..n][..k] == ps[..k];
    }
  }

  lemma {:induction false} ContiguousIndex(ps: seq<Page>, k: nat)
    requires Contiguous(ps) && k < |ps|
    ensures Contiguous(ps[..k]) && Contiguous(ps[..k + 1])
    ensures k > 0 ==> ps[k - 1].offset + ps[k - 1].bytes == ps[k].offset && SizeOf(ps[..k]) == ps[k].offset
  {
    var n := |ps| - 1;
    if k < n {
      ContiguousIndex(ps[..n], k);
      assert ps[..n][..k] == ps[..k] && ps[..n][..k + 1] == ps[..k + 1];
    } else {
      assert ps[..k + 1] == ps;
    }
  }

  lemma {:induction false} TightIndex(ps: seq<Page>, k: nat)
    requires Tight(ps) && k < |ps|
    ensures Tight(ps[..k]) && Tight(ps[..k + 1])
    ensures k > 0 ==> ps[k - 1].st != ps[k].st
  {
    ContiguousIndex(ps, k);
    var n := |ps| - 1;
    if k < n {
      TightIndex(ps[..n], k);
      assert ps[..n][..k] == ps[..k] && ps[..n][..k + 1] == ps[..k + 1];
    } else {
      assert ps[..k + 1] == ps;
    }
  }

  // ---- reading a byte of a page list

  lemma {:induction false} AtIndex(ps: seq<Page>, gap: Status, k: nat, b: int)
    requires Laid(ps) && k < |ps| && ps[k].Covers(b)
    ensures At(ps, gap, b) == ps[k].st
  {
    if k < |ps| - 1 {
      LaidOrder(ps, k, |ps| - 1);
      AtIndex(ps[..|ps| - 1], gap, k, b);
    }
  }

  lemma {:induction false} AtNone(ps: seq<Page>, gap: Status, b: int)
    requires forall k :: 0 <= k < |ps| ==> !ps[k].Covers(b)
    ensures At(ps, gap, b) == gap
  {
    if ps != [] {
      AtNone(ps[..|ps| - 1], gap, b);
    }
  }

  lemma AtPush(ps: seq<Page>, p: Page, gap: Status)
    ensures forall b :: At(ps + [p], gap, b) == if p.Covers(b) then p.st else At(ps, gap, b)
  {
    assert (ps + [p])[..|ps|] == ps;
  }

  lemma {:induction false} AtConcat(a: seq<Page>, c: seq<Page>, gap: Status, b: int)
    ensures At(a + c, gap, b) == At(c, At(a, gap, b), b)
  {
    if c == [] {
      assert a + c == a;
    } else {
      assert (a + c)[..|a + c| - 1] == a + c[..|c| - 1];
      AtConcat(a, c[..|c| - 1], gap, b);
    }
  }

  lemma {:induction false} ContiguousLaid(ps: seq<Page>)
    requires Positive(ps) && Contiguous(ps) && (ps == [] || 0 <= ps[0].offset)
    ensures Laid(ps)
    ensures forall k :: 0 <= k < |ps| ==> ps[0].offset <= ps[k].offset && ps[k].offset + ps[k].bytes <= SizeOf(ps)
  {
    if ps != [] {
      ContiguousLaid(ps[..|ps| - 1]);
    }
  }

  /** The page of a gap-free list that holds byte b. */
  lemma {:induction false} CoverIndex(ps: seq<Page>, b: int) returns (k: nat)
    requires Positive(ps) && Contiguous(ps) && ps != [] && ps[0].offset <= b < SizeOf(ps)
    ensures k < |ps| && ps[k].Covers(b)
  {
    var n := |ps| - 1;
    if ps[n].Covers(b) {
      k := n;
    } else {
      k := CoverIndex(ps[..n], b);
    }
  }

  /** qs has the areas of ps, whatever their flags. */
  ghost predicate SameAreas(ps: seq<Page>, qs: seq<Page>) {
    |qs| == |ps| && forall k :: 0 <= k < |ps| ==> qs[k].offset == ps[k].offset && qs[k].bytes == ps[k].bytes
  }

  lemma {:induction false} SameAreasShape(ps: seq<Page>, qs: seq<Page>)
    requires SameAreas(ps, qs)
    ensures SizeOf(qs) == SizeOf(ps)
    ensures Laid(ps) ==> Laid(qs)
    ensures Positive(ps) ==> Positive(qs)
    ensures Contiguous(ps) ==> Contiguous(qs)
  {
    if ps != [] {
      SameAreasShape(ps[..|ps| - 1], qs[..|qs| - 1]);
    }
  }

  lemma {:induction false} ContiguousConcat(a: seq<Page>, c: seq<Page>)
    ensures Contiguous(a + c) <==>
            Contiguous(a) && Contiguous(c) && (a == [] || c == [] || SizeOf(a) == c[0].offset)
  {
    if c == [] {
      assert a + c == a;
    } else if |c| == 1 {
      ContiguousPush(a, c[0]);
      assert a + c == a + [c[0]];
    } else {
      var front := c[..|c| - 1];
      ContiguousConcat(a, front);
      assert a + c == (a + front) + [c[|c| - 1]];
      ContiguousPush(a + front, c[|c| - 1]);
    }
  }

  /** Some page covers b. */
  ghost predicate Hit(ps: seq<Page>, b: int) {
    exists k :: 0 <= k < |ps| && ps[k].Covers(b)
  }

  lemma HitPush(ps: seq<Page>, p: Page)
    ensures forall b :: Hit(ps + [p], b) <==> Hit(ps, b) || p.Covers(b)
  {
    forall b ensures Hit(ps + [p], b) <==> Hit(ps, b) || p.Covers(b) {
      if k :| 0 <= k < |ps| && ps[k].Covers(b) { assert (ps + [p])[k].Covers(b); }
      if p.Covers(b) { assert (ps + [p])[|ps|].Covers(b); }
    }
  }

  // ---- compression as a function

  /** Adds p behind the compressed list done, filling a hole in front of p with gap pages. */
  function Step(done: seq<Page>, p: Page, gap: Status): seq<Page> {
    if done == [] then [p] else Join(Fill(done, p.offset, gap), p)
  }

  /** Extends done up to position upto with bytes of status gap. */
  function Fill(done: seq<Page>, upto: int, gap: Status): (r: seq<Page>)
    requires done != []
    ensures r != []
  {
    var last := done[|done| - 1];
    if last.offset + last.bytes == upto then done
    else if last.st != gap then done + [Page(last.offset + last.bytes, upto - (last.offset + last.bytes), gap)]
    else done[..|done| - 1] + [last.(bytes := upto - last.offset)]
  }

  /** Adds p, which starts where done ends. */
  function Join(done: seq<Page>, p: Page): seq<Page>
    requires done != []
  {
    var last := done[|done| - 1];
    if last.st != p.st then done + [p]
    else done[..|done| - 1] + [last.(bytes := last.bytes + p.bytes)]
  }

  ghost function Compact(ps: seq<Page>, gap: Status): seq<Page> {
    if ps == [] then [] else Step(Compact(ps[..|ps| - 1], gap), ps[|ps| - 1], gap)
  }

  lemma StretchLast(done: seq<Page>, bytes: int, gap: Status)
    requires done != [] && Laid(done) && done[|done| - 1].bytes <= bytes
    ensures var last := done[|done| - 1];
            forall b :: At(done[..|done| - 1] + [last.(bytes := bytes)], gap, b) ==
              if last.offset + last.bytes <= b < last.offset + bytes then last.st else At(done, gap, b)
  {
    var front, last := done[..|done| - 1], done[|done| - 1];
    var longer := last.(bytes := bytes);
    AtPush(front, longer, gap);
    AtPush(front, last, gap);
    assert front + [last] == done;
    forall b
      ensures At(front + [longer], gap, b) ==
        if last.offset + last.bytes <= b < last.offset + bytes then last.st else At(done, gap, b)
    {
      assert longer.Covers(b) <==> last.Covers(b) || last.offset + last.bytes <= b < last.offset + bytes;
      assert At(done, gap, b) == if last.Covers(b) then last.st else At(front, gap, b);
    }
  }

  lemma FillStep(done: seq<Page>, upto: int, gap: Status)
    requires done != [] && Tight(done) && 0 <= done[0].offset && SizeOf(done) <= upto
    ensures var r := Fill(done, upto, gap);
            && Tight(r) && r[0].offset == done[0].offset && SizeOf(r) == upto
            && forall b :: At(r, gap, b) == At(done, gap, b)
  {
    ContiguousLaid(done);
    var last := done[|done| - 1];
    var r := Fill(done, upto, gap);
    if last.offset + last.bytes == upto {
    } else if last.st != gap {
      var hole := Page(last.offset + last.bytes, upto - (last.offset + last.bytes), gap);
      AtPush(done, hole, gap);
      forall b | hole.Covers(b) ensures At(done, gap, b) == gap { AtNone(done, gap, b); }
    } else {
      StretchLast(done, upto - last.offset, gap);
      forall b | last.offset + last.bytes <= b < upto ensures At(done, gap, b) == gap { AtNone(done, gap, b); }
    }
  }

  lemma JoinStep(done: seq<Page>, p: Page, gap: Status)
    requires done != [] && Tight(done) && 0 <= done[0].offset && SizeOf(done) == p.offset && 0 < p.bytes
    ensures var r := Join(done, p);
            && r != [] && Tight(r) && r[0].offset == done[0].offset && SizeOf(r) == p.offset + p.bytes
            && forall b :: At(r, gap, b) == if p.Covers(b) then p.st else At(done, gap, b)
  {
    ContiguousLaid(done);
    var last := done[|done| - 1];
    if last.st != p.st {
      AtPush(done, p, gap);
    } else {
      StretchLast(done, last.bytes + p.bytes, gap);
      var longer := last.(bytes := last.bytes + p.bytes);
      assert Join(done, p) == done[..|done| - 1] + [longer] && longer.st == last.st;
      forall b ensures At(Join(done, p), gap, b) == if p.Covers(b) then p.st else At(done, gap, b) {
        assert p.Covers(b) <==> last.offset + last.bytes <= b < last.offset + longer.bytes;
      }
    }
  }

  /** Compression reaches the canonical shape over the same extent and changes no byte's status;
      a byte between two pages reads as gap before and after. */
  lemma {:induction false} CompactKeeps(ps: seq<Page>, gap: Status)
    requires Laid(ps) && Positive(ps)
    ensures var r := Compact(ps, gap);
            && Tight(r) && (r == [] <==> ps == []) && SizeOf(r) == SizeOf(ps)
            && (ps != [] ==> r[0].offset == ps[0].offset)
            && forall b :: At(r, gap, b) == At(ps, gap, b)
  {
    if ps != [] {
      var front, p := ps[..|ps| - 1], ps[|ps| - 1];
      CompactKeeps(front, gap);
      assert front + [p] == ps;
      AtPush(front, p, gap);
      var done := Compact(front, gap);
      if done == [] {
        AtPush(done, p, gap);
      } else {
        LaidIndex(ps, 0);
        FillStep(done, p.offset, gap);
        JoinStep(Fill(done, p.offset, gap), p, gap);
      }
    }
  }

  /** Two canonical lists over the same extent that agree on every byte are the same list. */
  lemma {:induction false} CanonicalUnique(ps: seq<Page>, qs: seq<Page>, gap: Status)
    requires Tight(ps) && Tight(qs) && ps != [] && qs != []
    requires 0 <= ps[0].offset == qs[0].offset && SizeOf(ps) == SizeOf(qs)
    requires forall b :: ps[0].offset <= b < SizeOf(ps) ==> At(ps, gap, b) == At(qs, gap, b)
    ensures ps == qs
    decreases |ps|
  {
    LastAgrees(ps, qs, gap);
    LastAgrees(qs, ps, gap);
    var n, m := |ps| - 1, |qs| - 1;
    ContiguousLaid(ps);
    ContiguousLaid(qs);
    AtIndex(ps, gap, n, SizeOf(ps) - 1);
    AtIndex(qs, gap, m, SizeOf(ps) - 1);
    assert ps[n] == qs[m];
    if n == 0 || m == 0 {
      assert n == 0 && m == 0;
    } else {
      var ps', qs' := ps[..n], qs[..m];
      assert (ps'[n - 1].offset + ps'[n - 1].bytes) == ps[n].offset
             && (qs'[m - 1].offset + qs'[m - 1].bytes) == qs[m].offset;
      forall b | ps'[0].offset <= b < SizeOf(ps') ensures At(ps', gap, b) == At(qs', gap, b) {
        assert At(ps, gap, b) == At(qs, gap, b);
      }
      CanonicalUnique(ps', qs', gap);
      assert ps == ps' + [ps[n]] && qs == qs' + [qs[m]];
    }
  }

  lemma LastAgrees(ps: seq<Page>, qs: seq<Page>, gap: Status)
    requires Tight(ps) && Tight(qs) && ps != [] && qs != []
    requires 0 <= ps[0].offset == qs[0].offset && SizeOf(ps) == SizeOf(qs)
    requires forall b :: ps[0].offset <= b < SizeOf(ps) ==> At(ps, gap, b) == At(qs, gap, b)
    ensures qs[|qs| - 1].offset <= ps[|ps| - 1].offset
  {
    var n, m := |ps| - 1, |qs| - 1;
    ContiguousLaid(ps);
    ContiguousLaid(qs);
    if ps[n].offset < qs[m].offset {
      var b := qs[m].offset;
      assert m > 0 && qs[m - 1].offset + qs[m - 1].bytes == b;
      AtIndex(ps, gap, n, b);
      AtIndex(ps, gap, n, b - 1);
      AtIndex(qs, gap, m, b);
      AtIndex(qs, gap, m - 1, b - 1);
    }
  }

  /** Compression leaves a canonical list alone. */
  lemma {:induction false} CompactFixed(ps: seq<Page>, gap: Status)
    requires Tight(ps) && (ps == [] || 0 <= ps[0].offset)
    ensures Compact(ps, gap) == ps
  {
    ContiguousLaid(ps);
    CompactKeeps(ps, gap);
    if ps != [] {
      CanonicalUnique(Compact(ps, gap), ps, gap);
    }
  }

  // ---- the status of every byte as one sequence

  ghost function Flat(ps: seq<Page>): seq<Status>
    requires 0 <= SizeOf(ps)
  {
    seq(SizeOf(ps), b => At(ps, GAP, b))
  }

  /** What PageList keeps at all times: nothing, the single empty page of an empty file, or a
      canonical list that starts at byte 0. */
  ghost predicate WellFormed(ps: seq<Page>) {
    || ps == []
    || (|ps| == 1 && ps[0].offset == 0 && ps[0].bytes == 0)
    || (Tight(ps) && ps[0].offset == 0)
  }

  lemma WellFormedLaid(ps: seq<Page>)
    requires WellFormed(ps)
    ensures Laid(ps) && Contiguous(ps) && 0 <= SizeOf(ps)
    ensures Positive(ps) <==> (ps == [] || 0 < SizeOf(ps))
    ensures forall k :: 0 <= k < |ps| ==> ps[0].offset <= ps[k].offset && ps[k].offset + ps[k].bytes <= SizeOf(ps)
  {
    if Positive(ps) {
      ContiguousLaid(ps);
    }
  }

  /** A PageList is determined by its byte map, empty files aside. */
  lemma FlatUnique(ps: seq<Page>, qs: seq<Page>)
    requires WellFormed(ps) && WellFormed(qs)
    requires 0 < SizeOf(ps) && 0 <= SizeOf(qs) && Flat(ps) == Flat(qs)
    ensures ps == qs
  {
    WellFormedLaid(ps);
    WellFormedLaid(qs);
    assert |Flat(ps)| == SizeOf(ps) && |Flat(qs)| == SizeOf(qs);
    forall b | ps[0].offset <= b < SizeOf(ps) ensures At(ps, GAP, b) == At(qs, GAP, b) {
      assert Flat(ps)[b] == Flat(qs)[b];
    }
    CanonicalUnique(ps, qs, GAP);
  }
}
